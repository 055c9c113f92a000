# EGeminUI chat core in Dafny

EGeminUI is a desktop chat client for Google's Gemini models. This project
models the logic under its interface and proves properties of it:

- **Chat history** (`src/chat.rs`).
  - Sending a prompt: earlier error messages are dropped, the user message and an empty generating assistant placeholder are appended, the chat gets a title, and a completion is started.
  - Retrying a failed reply, and regenerating a reply from a prepended text.
  - Compaction of the history into the alternating user/assistant turns of a backend request. Attachments are converted to inline data.
  - The streaming loop: it forwards response parts and honours the stop flag.
  - Folding streamed parts into the history. A thought part becomes a thought message; the answer that follows opens a new message.
  - The terminal outcome: an error text is normalised and shown on the failed message.
  - The chat title made from the first prompt, and the preview of the last message.
- **Attachments** (`src/file_handler.rs`). The MIME decision and whitelist for a file sent to the backend, and the rule by which the attachment strip drops a file.
- **Chat list** (`src/sessions.rs`).
  - Adding and removing chats, and keeping the selection in range.
  - The filter for files dropped onto the selected chat.
  - Routing files picked in the background to the chat with a given id.

Modules:

- `Common`: shared values (messages, parts, turns, paths).
- `FileHandler`: attachment conversion and the attachment strip.
- `Compaction`: history to request turns.
- `Completion`: the completion task and its streaming loop.
- `ErrorText`: error-text normalisation.
- `ChatHistory`: pure edits of a message list.
- `ChatState`: the `Chat` class.
- `SessionsState`: the `Sessions` class.

The parts that change state in place are classes and methods: `Chat`, `Sessions`, the compaction loop, the streaming loop, the thought rewrite, the summary loop and the attachment strip. Each of these is proved against a specification function. The lemmas state what the code promises about those functions.

Calls into libraries become parameters:

- File reading, MIME guessing, image sniffing and PNG re-encoding, and Base64 encoding (section 4 of RFC 4648) become the `FileHandler.Environment` oracle record.
- The Gemini backend becomes `Completion.Backend`: a function from request turns to a stream of arrivals, or an error.
- The JSON parse-and-pretty-print of an error text becomes a function `string -> Option<string>`.
- Each stream arrival carries the value the stop flag has when the loop reads it.

Behaviour of the code worth noting:

- The streaming task's success carries the text accumulated from every forwarded text part, thoughts included.
- A terminal error is written to the message at the carried index, which the code indexes directly, so `Finalize` requires the index to be in range.
- `regenerate_response(idx)` starts a completion that targets the last message of the chat.
- The regeneration "prepend" is sent as one extra assistant turn after the history.

## Model

| member | source | states |
|---|---|---|
| Common.Extension | src/sessions.rs:306-307 | a path has an extension only if its file name has a non-empty stem, a dot and the extension, and the extension holds no dot |
| Common.ExtensionOfName | src/sessions.rs:306-307 | conversely, a file name made of a non-empty stem, a dot and a dot-free text has that text as its extension |
| FileHandler.ConvertFileToPart | src/file_handler.rs:32-91 | success is always inline data with a whitelisted MIME; an unreadable file fails; JSON becomes text/plain; a known image format other than PNG/JPEG is re-encoded as image/png (or fails); everything else keeps its bytes and guessed type and fails exactly when that type is not whitelisted |
| FileHandler.JsonBecomesPlainText | src/file_handler.rs:40-42 | a readable file guessed as application/json is sent as text/plain with its own bytes |
| FileHandler.RetainFiles | src/file_handler.rs:93-196 | the tile loop keeps exactly the files of the reference `Retained`: all of them unless the first tile under the pointer had its close button clicked |
| FileHandler.RetainedRemovesAtMostOne | src/file_handler.rs:93-196 | without `mutate` every file is kept; otherwise at most one file is removed and the rest keep their order |
| FileHandler.FirstNear | src/file_handler.rs:161-167 | only the first tile under the pointer shows a close button |
| Compaction.AttachmentParts | src/chat.rs:503-513 | an attachment contributes its label and data part, or nothing exactly when conversion fails |
| Compaction.MessageParts | src/chat.rs:503-517 | a message with text ends with that text as a part |
| Compaction.Session | src/chat.rs:457-539 | every request turn carries parts; a target with text ends the request with an assistant turn holding it |
| Compaction.PushAttachment | src/chat.rs:504-512 | one attachment pushes its label and data part, or nothing when its conversion fails |
| Compaction.PushAttachments | src/chat.rs:503-513 | the attachment loop appends exactly the parts of the files, in order |
| Compaction.Absorb | src/chat.rs:472-518 | one loop step: when the author changes, the buffer is flushed as a turn (if non-empty) and restarted with the message's parts; otherwise the parts are appended |
| Compaction.GroupMessages | src/chat.rs:472-518 | the message loop leaves the flushed turns, the buffer and the current author matching the merged groups of all messages |
| Compaction.BuildSession | src/chat.rs:457-539 | the compaction loop with its buffer and author tracking builds exactly the reference `Session` |
| Compaction.HistoryKeepsEveryPart | src/chat.rs:472-529 | compaction drops no part and reorders nothing: the request parts are those of every non-thought message, in order |
| Compaction.HistoryAlternates | src/chat.rs:478-501 | when every participating message contributes a part, consecutive turns have different authors |
| Compaction.RunsAlternate | src/chat.rs:478-501 | merged groups alternate authors and the last group is the last author's |
| Compaction.RunsKeepParts | src/chat.rs:478-501 | merging adjacent groups keeps every part in order |
| Compaction.LastMessageEndsHistory | src/chat.rs:472-529 | a final message with text ends the history with a turn of its author ending in that text |
| Compaction.LastRunEndsWith | src/chat.rs:478-501 | after a group with parts, the last merged group is that author's and ends with the group's last part |
| Compaction.SkippedMessageIgnored | src/chat.rs:474-476 | a thought or empty message changes nothing, wherever it stands |
| Compaction.GeneratingTargetExcluded | src/chat.rs:460-539 | for a generating target, only the messages before it and its text decide the request |
| Compaction.FailedAttachmentBreaksAlternation | src/chat.rs:478-513 | a message whose only attachment fails to convert leaves two user turns side by side |
| Compaction.SessionInlineDataWhitelisted | src/chat.rs:503-513 | every inline data part of a request has a whitelisted MIME type |
| Completion.Admitted | src/chat.rs:549-566 | the loop forwards exactly the leading arrivals that are chunks seen without the stop flag; it stops at the first error or flagged chunk |
| Completion.ForwardChunk | src/chat.rs:557-565 | forwarding a chunk sends each part tagged with the target and appends the text of each text part |
| Completion.StreamResponse | src/chat.rs:549-566 | the streaming loop sends the admitted parts and accumulates their text; it reports a stop exactly when it met a flagged chunk |
| Completion.StopHaltsForwarding | src/chat.rs:550-555 | once a flagged chunk is seen, nothing delivered afterwards is forwarded |
| Completion.UninterruptedForwardsAll | src/chat.rs:549-566 | without errors or stop requests every part is forwarded |
| Completion.MidStreamErrorStillCompletes | src/chat.rs:549-615 | an error after clean chunks ends the loop exactly there, silently, so the task still succeeds with the text before it |
| Completion.AdmittedOfCleanPrefix | src/chat.rs:549-566 | chunks without error or stop flag at the front are all forwarded before anything that follows is looked at |
| Completion.RequestCompletion | src/chat.rs:541-566 | a stream that fails to open yields its error; otherwise the result is the admitted text |
| Completion.RunCompletionTask | src/chat.rs:783-804 | a missing API key fails with "API key not set."; otherwise the task fails with the backend error or completes with the streamed text and reports a stop exactly when the loop met a flagged chunk; every progress event names the request's index |
| ErrorText.Normalize | src/chat.rs:962-977 | the shown error text is the pretty JSON when the cleaned text parses; otherwise it is the cleaned text, in which no backslash is directly followed by `n` |
| ErrorText.ReplaceAll | src/chat.rs:970 | the first character of the result is the text's own or, at a match, the replacement's |
| ErrorText.ReplaceAllNoMatch | src/chat.rs:970 | text in which the pattern never occurs is left unchanged |
| ErrorText.ReplaceAllFirstMatch | src/chat.rs:970 | the leftmost occurrence is replaced, the text before it kept, and the search resumes after it |
| ErrorText.WrappedBodyUnwrapped | src/chat.rs:962-969 | a `StatusNotOk("…")` body without backslashes is shown bare |
| ErrorText.PlainTextUnchanged | src/chat.rs:962-977 | text with no wrapper, backslash or JSON is shown unchanged |
| ErrorText.EscapedNewlineDecoded | src/chat.rs:970 | an escaped newline between plain texts becomes a line break |
| ErrorText.ReplaceLeavesNoPair | src/chat.rs:970 | replacing a two-character pattern leaves no occurrence of the pair |
| ChatHistory.ApplyChunk | src/chat.rs:915-948 | earlier messages are kept; a thought part marks the last message as a thought and appends its text; an answer after a thought closes that thought (generating cleared) and adds one generating assistant message holding exactly the text; any other answer appends to the last message |
| ChatHistory.DemuxLocal | src/chat.rs:915-948 | streaming into a history equals streaming into its last messages alone, with the messages in front kept |
| ChatHistory.Demuxed | src/chat.rs:907-951 | streaming never shortens the history |
| ChatHistory.DemuxKeepsEarlierMessages | src/chat.rs:919 | streaming touches only the messages from the last one onwards |
| ChatHistory.DemuxKeepsText | src/chat.rs:915-948 | no streamed text is lost or reordered: from the target on, the contents are its old content followed by every part's text |
| ChatHistory.ThoughtFreeStreamExtendsLast | src/chat.rs:942-946 | without thoughts the answer stays one message holding the concatenated text |
| ChatHistory.ThoughtsAccumulate | src/chat.rs:921-931 | in any history, a run of thought parts turns the last message into a thought holding its text followed by every thought text, in order, and keeps the messages in front |
| ChatHistory.ThoughtThenAnswer | src/chat.rs:921-941 | in any history ending in the placeholder, thought parts then an answer part leave the messages in front unchanged, a closed thought holding all thought texts, and a generating answer holding exactly the answer |
| ChatHistory.ClearLast | src/chat.rs:991-995 | only the last message's generating flag is cleared |
| ChatHistory.FinalizedOutcome | src/chat.rs:952-996 | the length is kept and the last message stops generating; an error shows its normalised text on the failed message; a panic does so on the last message; a success keeps every content |
| ChatHistory.MakeSummary | src/chat.rs:693-711 | the summary loop computes the reference `Summary` |
| ChatHistory.SummaryAtBreak | src/chat.rs:693-711 | a line break within the first 24 characters ends the title, without an ellipsis |
| ChatHistory.SummaryAtLimit | src/chat.rs:693-711 | a first line longer than 24 characters is cut after 24 and gets an ellipsis |
| ChatHistory.SummaryOfShortLine | src/chat.rs:693-711 | a prompt of at most 24 characters without line breaks is its own title, capitalised |
| ChatHistory.SummaryShape | src/chat.rs:693-711 | a title is one line of at most 24 characters plus an ellipsis; it is empty exactly when the prompt is empty or starts with a line break |
| ChatHistory.ShortPromptSummary | src/chat.rs:693-711 | a short single-line prompt is its own title with the first letter capitalised |
| ChatHistory.PreviewAbsentWhenAllEmpty | src/chat.rs:999-1011 | the preview is absent exactly when every message is empty |
| ChatHistory.PreviewShowsLastNonEmpty | src/chat.rs:999-1011 | otherwise it is the last message with content, with "You: " for user messages |
| ChatHistory.TrimEnd | src/chat.rs:742 | the trimmed text is a prefix, does not end in white space, and only white space was removed |
| ChatHistory.WithoutErrors | src/chat.rs:740 | no error message is left and the list never grows |
| ChatHistory.WithoutErrorsKeeps | src/chat.rs:740 | every message that is not an error is kept, and nothing that was not there appears |
| ChatHistory.WithoutErrorsAppend | src/chat.rs:740 | dropping errors works message by message: it distributes over concatenation, so order and repetitions of the kept messages are preserved |
| ChatHistory.RevealThoughts | src/chat.rs:765-774 | the rewrite loop frames every thought with the reflection markers, changes nothing else and leaves no thought |
| ChatHistory.RevealedThoughtReachesRequest | src/chat.rs:765-774 | a thought is skipped by compaction, but once revealed it reaches the request as framed text |
| ChatState.Chat.constructor | src/chat.rs:721-727 | a new chat is empty and has the given channel id and model |
| ChatState.Chat.SpawnCompletion | src/chat.rs:759-776 | the request always targets the last message, holds the history (thoughts revealed if configured) and records a missing key |
| ChatState.Chat.SendMessage | src/chat.rs:734-757 | nothing happens with neither text nor files; otherwise earlier errors are dropped and the trimmed user message and an empty generating placeholder are appended, an untitled chat gets the prompt's summary, the text box and files are cleared and a completion for the placeholder is started |
| ChatState.Chat.RetryPending | src/chat.rs:823-829 | without a pending retry nothing changes; otherwise the pending index is cleared, the prompt before the failed reply is put back and both messages are removed; an empty prompt leaves the text box and files empty and sends nothing, any other is sent again exactly as `SendMessage` (history, title, cleared text box, request) |
| ChatState.Chat.RegenerateResponse | src/chat.rs:807-813 | the message takes the prepend buffer as content and generates again; the buffer is emptied and no other field changes; the completion targets the last message |
| ChatState.Chat.ApplyProgress | src/chat.rs:915-948 | a progress event changes the history exactly as `ApplyChunk` and no other field of the chat |
| ChatState.Chat.Finalize | src/chat.rs:952-996 | the outcome changes the history exactly as `Finalized` and no other field of the chat |
| ChatState.Chat.PollFlower | src/chat.rs:904-997 | pending events are applied in order, then the outcome if the task ended; no field other than the history changes |
| ChatState.SentPromptRequest | src/chat.rs:734-776 | the request of a send holds the history up to the new user message, never the placeholder |
| ChatState.SentPromptEndsRequest | src/chat.rs:734-776 | a prompt with text ends its request as the last part of a user turn |
| ChatState.RegenerateLastRequest | src/chat.rs:807-813 | regenerating the last message sends the history before it plus an assistant turn with the prepended text, if any |
| ChatState.RegenerateEarlierSendsEverything | src/chat.rs:763-813 | regenerating an earlier message while nothing generates sends the whole history, later messages included |
| ChatState.RetryResendsPrompt | src/chat.rs:823-829 | a retried prompt that came from the text box is re-sent as the same user message |
| SessionsState.Judge | src/sessions.rs:303-333 | a dropped file is attached exactly when it has a path and an extension whose lower case is listed; a drop without a path is ignored |
| SessionsState.AcceptedAreSupported | src/sessions.rs:303-333 | every attached file has a listed extension |
| SessionsState.SupportedAreAccepted | src/sessions.rs:303-333 | every supported dropped file is attached |
| SessionsState.EveryPathAccounted | src/sessions.rs:303-333 | each drop with a path is either attached or reported by a notice |
| SessionsState.VideoPlaceholderNeverMatches | src/sessions.rs:315-322 | the upper-case video placeholder never matches a lower-cased extension |
| SessionsState.FirstWithId | src/sessions.rs:514 | the position found is the first chat with the id, or none has it |
| SessionsState.Sessions.constructor | src/sessions.rs:70-100 | the session list starts with one empty chat of id 1, selected |
| SessionsState.Sessions.AddDefaultChat | src/sessions.rs:543-547 | one fresh empty chat with the settings' model is appended with id length plus two, never 1; no other field changes |
| SessionsState.Sessions.RemoveChat | src/sessions.rs:549-557 | exactly the chat at the index is removed, the rest keep their order; an emptied list gets one empty default chat (id 2), selected; the selection stays in range and moves only when it was past the end; no other field changes |
| SessionsState.Sessions.NewChat | src/sessions.rs:673-682 | a fresh empty chat with id length plus two and the settings' model is appended and selected; the editor and settings panel close; nothing else changes |
| SessionsState.Sessions.SelectChat | src/sessions.rs:692-696 | a click selects the chat and closes the settings panel and editor; nothing else changes |
| SessionsState.Sessions.ToggleEdit | src/sessions.rs:616-620 | the edit button toggles the editor of that chat between open and closed; nothing else changes |
| SessionsState.Sessions.ClickRemove | src/sessions.rs:594-600 | an empty chat, or any with Shift held, is removed with the result of `RemoveChat`; otherwise it is marked for deletion and the editor closes, and nothing else changes |
| SessionsState.SortDrops | src/sessions.rs:303-333 | the loop over dropped files collects exactly the accepted paths and the notices, both in drop order |
| SessionsState.Sessions.ShowSelectedChat | src/sessions.rs:298-333 | an out-of-range selection is reset to 0 and nothing else changes; otherwise accepted drops are appended in order to the selected chat's files, a notice is queued per rejected drop, and no other field of the sessions or of any chat changes |
| SessionsState.Sessions.PollBackend | src/sessions.rs:505-525 | a notice is queued, picked files extend the first chat with the id, loaded settings replace the current ones; no other field of the sessions or of any chat changes |
| SessionsState.Sessions.AttachPicked | src/sessions.rs:512-517 | the search extends only the first chat with the id, in order; no chat changes when none has it; no other field of any chat changes |

## Left out

- Rendering and input handling (egui layout, modals, the TTS toggles, the pointer geometry of the attachment strip): the strip's pointer state is a parameter `hit`/`clicked`.
- The error modal and the log lines: the outcome of a completion shows only in the history.
- tokio, flowync and the concurrency between the interface and the completion task. Progress events are an input sequence. The stop flag is read once per arrival.
- The non-streaming path (`tokio::select!` with the 300 ms cancellation poll, src/chat.rs:568-607): it is a race between tasks.
- Gemini client internals: a request is a sequence of author-tagged turns and the backend an oracle.
- File reading, `mime_guess`, the `image` crate, Base64 and serde_json: oracles, see above.
- The text and music extension lists: they are defined outside the files shown. They are parameters of the drop filter.
- `export_messages`, the JSON/RON persistence, `src/image.rs`, `src/main.rs` start-up, timestamps, and the `pick_files`/`load_settings` dialogs: file I/O and dialogs. Only their results enter the model, as `BackendResponse`.
- The model lookup `messages.get(idx - 1)` in `poll_flower` (src/chat.rs:910-913): its value is unused. With index 0 it would underflow.
- Non-text streamed parts (`todo!()`, src/chat.rs:949): `PollFlower` requires text parts.
- `SessionsState.Lower`, `ChatHistory.Upper`: case mapping is modelled for ASCII letters only. Unicode `to_lowercase`/`to_uppercase`, including an upper case that expands to several characters, is not modelled.
- `Common.Extension`: `to_str` failing on a non-UTF-8 extension is not modelled.
- `ChatState.Chat.RegenerateResponse`: the completion targets the last message of the chat, as the code does, not the regenerated one (`RegenerateEarlierSendsEverything` states the consequence).
- PollFlower: the index carried by a progress event is not consulted, as in the code. Events are applied to the last message.
- RetryPending, RegenerateResponse, ApplyProgress, RemoveChat, ClickRemove: their `requires` (a retry index of at least 1 within the list, an index within the list, a non-empty history) exclude only the inputs on which the code panics (the `idx - 1` underflow, an out-of-range `remove` or index, `last_mut().unwrap()` on an empty list); those panics are not modelled.
- Errors of the backend task itself (`Compact::Suppose`/`Panicked` in `poll_backend_flower`): these only open a dialog.
- Uniqueness of chat ids: `AddDefaultChat` uses length plus two, which can repeat an id after removals. The model states the id it assigns and nothing about uniqueness.
