/** A chat: its message history, the text box and attachments being composed,
    its title, and the operations that send, retry and regenerate messages,
    start completions and fold their results back into the history. */
module ChatState {
  import opened Common
  import FileHandler
  import Compaction
  import Completion
  import ChatHistory
  import ErrorText

  /** The settings the chats consult: the API key, whether thoughts are sent
      back in later requests, and the model selected in the settings' picker
      (the model new chats start with). */
  datatype Settings = Settings(apiKey: string, includeThoughtsInHistory: bool, model: ModelName)

  /** The copy of the history a completion is started with. */
  function RequestHistory(msgs: seq<Message>, settings: Settings): seq<Message>
  {
    if settings.includeThoughtsInHistory then ChatHistory.WithThoughtsRevealed(msgs) else msgs
  }

  /** The history after a prompt is sent: earlier errors are dropped, then the
      user message (trimmed text and attachments) and an empty generating
      assistant placeholder are appended. */
  function AfterSend(msgs: seq<Message>, chatbox: string, files: seq<FilePath>, model: ModelName): seq<Message>
  {
    ChatHistory.WithoutErrors(msgs) + [UserMessage(ChatHistory.TrimEnd(chatbox), model, files), AssistantMessage("", model)]
  }

  /** The mutable fields of a chat, as one value, so that a method can say
      which of them it changes. */
  datatype ChatFields = ChatFields(
    messages: seq<Message>, chatbox: string, files: seq<FilePath>, summary: string,
    prependBuf: string, retryMessageIdx: Option<nat>, model: ModelName)

  class Chat {
    const id: nat
    var messages: seq<Message>
    var chatbox: string
    var files: seq<FilePath>
    var summary: string
    var prependBuf: string
    var retryMessageIdx: Option<nat>
    var model: ModelName

    /** The current values of the mutable fields. */
    ghost function Fields(): ChatFields
      reads this
    {
      ChatFields(messages, chatbox, files, summary, prependBuf, retryMessageIdx, model)
    }

    /** `Chat::new`: an empty chat whose completion channel has the given id. */
    constructor (id: nat, model: ModelName)
      ensures this.id == id && this.model == model
      ensures messages == [] && chatbox == "" && files == [] && summary == ""
      ensures prependBuf == "" && retryMessageIdx == None
    {
      this.id := id;
      this.model := model;
      messages := [];
      chatbox := "";
      files := [];
      summary := "";
      prependBuf := "";
      retryMessageIdx := None;
    }

    /** `spawn_completion`: the request handed to the completion task always
        targets the last message. */
    method SpawnCompletion(settings: Settings) returns (request: Completion.Request)
      requires |messages| > 0
      ensures request.index == |messages| - 1
      ensures request.messages == RequestHistory(messages, settings)
      ensures request.apiKeyMissing <==> settings.apiKey == ""
    {
      var history := messages;
      if settings.includeThoughtsInHistory {
        history := ChatHistory.RevealThoughts(history);
      }
      request := Completion.Request(history, |messages| - 1, settings.apiKey == "");
    }

    /** `send_message`: nothing happens when there is neither text nor an
        attachment; otherwise the prompt is moved into the history, the chat
        gets a title if it has none, and a completion is started for the new
        placeholder. */
    method SendMessage(settings: Settings) returns (request: Option<Completion.Request>)
      modifies this
      ensures old(chatbox) == "" && old(files) == [] ==>
        request.None? && messages == old(messages) && chatbox == old(chatbox) && files == old(files) && summary == old(summary)
      ensures !(old(chatbox) == "" && old(files) == []) ==>
        var prompt := ChatHistory.TrimEnd(old(chatbox));
        messages == AfterSend(old(messages), old(chatbox), old(files), model) &&
        summary == (if old(summary) == "" then ChatHistory.Summary(prompt) else old(summary)) &&
        chatbox == "" && files == [] &&
        request == Some(Completion.Request(RequestHistory(messages, settings), |messages| - 1, settings.apiKey == ""))
      ensures model == old(model) && prependBuf == old(prependBuf) && retryMessageIdx == old(retryMessageIdx)
    {
      if chatbox == "" && files == [] {
        return None;
      }
      var prompt := ChatHistory.TrimEnd(chatbox);
      var kept := ChatHistory.WithoutErrors(messages);
      var user := UserMessage(prompt, model, files);
      var title := summary;
      if title == "" {
        title := ChatHistory.MakeSummary(prompt);
      }
      messages, chatbox, files, summary := kept + [user, AssistantMessage("", model)], "", [], title;
      var r := SpawnCompletion(settings);
      request := Some(r);
    }

    /** The retry step at the top of `show_chatbox`: the user message before the
        failed reply is put back into the text box with its attachments, both
        messages are removed, and the prompt is sent again. */
    method RetryPending(settings: Settings) returns (request: Option<Completion.Request>)
      requires retryMessageIdx.Some? ==> 1 <= retryMessageIdx.value < |messages|
      modifies this
      ensures old(retryMessageIdx).None? ==> request.None? && Fields() == old(Fields())
      ensures old(retryMessageIdx).Some? ==>
        var idx := old(retryMessageIdx).value;
        var prompt := old(messages)[idx - 1];
        var rest := old(messages)[..idx - 1] + old(messages)[idx + 1..];
        retryMessageIdx == None && prependBuf == old(prependBuf) && model == old(model) &&
        (prompt.content == "" && prompt.files == [] ==>
          request.None? && messages == rest && chatbox == "" && files == [] && summary == old(summary)) &&
        (!(prompt.content == "" && prompt.files == []) ==>
          messages == AfterSend(rest, prompt.content, prompt.files, model) &&
          summary == (if old(summary) == "" then ChatHistory.Summary(ChatHistory.TrimEnd(prompt.content)) else old(summary)) &&
          chatbox == "" && files == [] &&
          request == Some(Completion.Request(RequestHistory(messages, settings), |messages| - 1, settings.apiKey == "")))
    {
      if retryMessageIdx.None? {
        return None;
      }
      var idx := retryMessageIdx.value;
      retryMessageIdx := None;
      chatbox := messages[idx - 1].content;
      files := messages[idx - 1].files;
      messages := messages[..idx] + messages[idx + 1..];
      messages := messages[..idx - 1] + messages[idx..];
      assert messages == old(messages)[..idx - 1] + old(messages)[idx + 1..];
      request := SendMessage(settings);
    }

    /** Regeneration from the message at `idx`: the "Regenerate" button puts the
        prepend buffer into the message and marks it generating, then
        `regenerate_response` empties the buffer and starts a completion, which
        targets the last message of the chat. */
    method RegenerateResponse(settings: Settings, idx: nat) returns (request: Completion.Request)
      requires idx < |messages|
      modifies this
      ensures messages == old(messages)[idx := old(messages)[idx].(content := old(prependBuf), isPrepending := false, isGenerating := true)]
      ensures prependBuf == ""
      ensures request == Completion.Request(RequestHistory(messages, settings), |messages| - 1, settings.apiKey == "")
      ensures Fields() == old(Fields()).(messages := messages, prependBuf := "")
    {
      messages := messages[idx := messages[idx].(content := prependBuf, isPrepending := false, isGenerating := true)];
      prependBuf := "";
      request := SpawnCompletion(settings);
    }

    /** One progress event from the completion task, applied in place to the
        last message (the event's index is not consulted). */
    method ApplyProgress(event: Completion.Progress)
      requires |messages| > 0 && event.part.Text?
      modifies this
      ensures messages == ChatHistory.ApplyChunk(old(messages), event.part.text, event.part.thought)
      ensures Fields() == old(Fields()).(messages := messages)
    {
      var n := |messages|;
      var last := messages[n - 1];
      assert messages == messages[..n - 1] + [last];
      if event.part.thought {
        messages := messages[n - 1 := last.(isThought := true, content := last.content + event.part.text)];
      } else if last.isThought {
        messages := messages[n - 1 := last.(isGenerating := false)];
        messages := messages + [AssistantMessage(event.part.text, last.model)];
      } else {
        messages := messages[n - 1 := last.(content := last.content + event.part.text)];
      }
    }

    /** The terminal outcome of the completion task, applied in place. */
    method Finalize(outcome: Completion.Terminal, pretty: string -> Option<string>)
      requires ChatHistory.Applicable(|messages|, outcome)
      modifies this
      ensures messages == ChatHistory.Finalized(old(messages), outcome, pretty)
      ensures Fields() == old(Fields()).(messages := messages)
    {
      if outcome.Failed? {
        var text := ErrorText.Normalize(outcome.message, pretty);
        messages := ChatHistory.MarkError(messages, outcome.index, text);
      } else if outcome.Panicked? {
        var text := ErrorText.Normalize(ChatHistory.PanicPrefix + outcome.message, pretty);
        messages := ChatHistory.MarkError(messages, |messages| - 1, text);
      }
      ghost var marked := messages;
      if |messages| > 0 {
        var last := messages[|messages| - 1];
        if last.isGenerating {
          messages := messages[|messages| - 1 := last.(isGenerating := false)];
        } else {
          ChatHistory.ClearLastIdle(messages);
        }
      }
      assert messages == ChatHistory.ClearLast(marked);
    }

    /** `poll_flower`: every pending progress event in order, then the
        outcome if the task has ended. */
    method PollFlower(events: seq<Completion.Progress>, outcome: Option<Completion.Terminal>, pretty: string -> Option<string>)
      requires events != [] ==> |messages| > 0
      requires forall k :: 0 <= k < |events| ==> events[k].part.Text?
      requires outcome.Some? ==> ChatHistory.Applicable(|ChatHistory.Demuxed(messages, PartsOfEvents(events))|, outcome.value)
      modifies this
      ensures var streamed := ChatHistory.Demuxed(old(messages), PartsOfEvents(events));
        messages == (if outcome.Some? then ChatHistory.Finalized(streamed, outcome.value, pretty) else streamed)
      ensures Fields() == old(Fields()).(messages := messages)
    {
      ghost var parts := PartsOfEvents(events);
      var i := 0;
      while i < |events|
        invariant 0 <= i <= |events|
        invariant messages == ChatHistory.Demuxed(old(messages), parts[..i])
        invariant Fields() == old(Fields()).(messages := messages)
      {
        assert parts[..i + 1] == parts[..i] + [parts[i]];
        ChatHistory.DemuxSnoc(old(messages), parts[..i], parts[i]);
        ApplyProgress(events[i]);
        i := i + 1;
      }
      assert parts[..i] == parts;
      if outcome.Some? {
        Finalize(outcome.value, pretty);
      }
    }
  }

  /** The parts carried by a sequence of progress events. */
  function PartsOfEvents(events: seq<Completion.Progress>): (r: seq<Part>)
    ensures |r| == |events| && forall k :: 0 <= k < |r| ==> r[k] == events[k].part
  {
    seq(|events|, k requires 0 <= k < |events| => events[k].part)
  }

  /** The last turn is `author`'s and its last part is the text `text`. */
  predicate EndsWithText(h: seq<Turn>, author: Role, text: string)
  {
    Compaction.EndsWithPart(h, author, Text(text, false))
  }

  /** Revealing thoughts commutes with dropping the last message. */
  lemma RequestHistoryInit(msgs: seq<Message>, settings: Settings)
    requires |msgs| > 0
    ensures var h := RequestHistory(msgs, settings);
      |h| == |msgs| && h[..|h| - 1] == RequestHistory(msgs[..|msgs| - 1], settings) &&
      (!msgs[|msgs| - 1].isThought ==> h[|h| - 1] == msgs[|msgs| - 1])
  {
  }

  /** The request started by sending a prompt holds the history up to and
      including the new user message, never the empty placeholder. */
  lemma SentPromptRequest(msgs: seq<Message>, chatbox: string, files: seq<FilePath>, model: ModelName,
                          settings: Settings, env: FileHandler.Environment)
    ensures var all := AfterSend(msgs, chatbox, files, model);
      var sent := ChatHistory.WithoutErrors(msgs) + [UserMessage(ChatHistory.TrimEnd(chatbox), model, files)];
      Compaction.Session(RequestHistory(all, settings), |all| - 1, env) == Compaction.History(RequestHistory(sent, settings), env)
  {
    var all := AfterSend(msgs, chatbox, files, model);
    var sent := ChatHistory.WithoutErrors(msgs) + [UserMessage(ChatHistory.TrimEnd(chatbox), model, files)];
    var h := RequestHistory(all, settings);
    assert h[..|h| - 1] == RequestHistory(sent, settings) && h[|h| - 1] == AssistantMessage("", model) by {
      assert all == sent + [AssistantMessage("", model)];
      assert all[..|all| - 1] == sent;
      RequestHistoryInit(all, settings);
    }
    assert Compaction.Processed(h, |all| - 1) == RequestHistory(sent, settings);
    assert Compaction.PrependTurn(h, |all| - 1) == [];
    assert Compaction.History(RequestHistory(sent, settings), env) + [] == Compaction.History(RequestHistory(sent, settings), env);
  }

  /** When the prompt has text, the request it starts ends with a user turn
      carrying that text. */
  lemma SentPromptEndsRequest(msgs: seq<Message>, chatbox: string, files: seq<FilePath>, model: ModelName,
                              settings: Settings, env: FileHandler.Environment)
    requires ChatHistory.TrimEnd(chatbox) != ""
    ensures var all := AfterSend(msgs, chatbox, files, model);
      var h := Compaction.Session(RequestHistory(all, settings), |all| - 1, env);
      EndsWithText(h, User, ChatHistory.TrimEnd(chatbox))
  {
    var user := UserMessage(ChatHistory.TrimEnd(chatbox), model, files);
    var sent := ChatHistory.WithoutErrors(msgs) + [user];
    assert sent[|sent| - 1] == user;
    RequestEndsWithMessage(sent, settings, env);
    var all := AfterSend(msgs, chatbox, files, model);
    SentPromptRequest(msgs, chatbox, files, model, settings, env);
  }

  /** The request history of a list ending with a message that has text and is
      not a thought ends with that message's turn. */
  lemma RequestEndsWithMessage(sent: seq<Message>, settings: Settings, env: FileHandler.Environment)
    requires |sent| > 0
    requires var m := sent[|sent| - 1]; !m.isThought && m.content != ""
    ensures var m := sent[|sent| - 1];
      var h := Compaction.History(RequestHistory(sent, settings), env);
      EndsWithText(h, m.role, m.content)
  {
    var m := sent[|sent| - 1];
    RequestHistoryInit(sent, settings);
    var rs := RequestHistory(sent, settings);
    assert rs == rs[..|rs| - 1] + [m];
    Compaction.LastMessageEndsHistory(rs[..|rs| - 1], m, env);
  }

  /** Regenerating the last message sends the history before it, followed by
      an assistant turn with the prepended text when there is one. */
  lemma RegenerateLastRequest(msgs: seq<Message>, buf: string, settings: Settings, env: FileHandler.Environment)
    requires |msgs| > 0 && !msgs[|msgs| - 1].isThought
    ensures var idx := |msgs| - 1;
      var after := msgs[idx := msgs[idx].(content := buf, isPrepending := false, isGenerating := true)];
      Compaction.Session(RequestHistory(after, settings), idx, env) ==
        Compaction.History(RequestHistory(msgs[..idx], settings), env) +
        (if buf != "" then [Turn(Assistant, [Text(buf, false)])] else [])
  {
    var idx := |msgs| - 1;
    var after := msgs[idx := msgs[idx].(content := buf, isPrepending := false, isGenerating := true)];
    assert after[..idx] == msgs[..idx];
    RequestHistoryInit(after, settings);
  }

  /** Regenerating a message that is not the last one, while no reply is being
      generated, sends the whole history, the messages after it included: the
      completion is for the last message. */
  lemma RegenerateEarlierSendsEverything(msgs: seq<Message>, idx: nat, buf: string, settings: Settings, env: FileHandler.Environment)
    requires idx < |msgs| - 1 && !msgs[|msgs| - 1].isGenerating
    ensures var after := msgs[idx := msgs[idx].(content := buf, isPrepending := false, isGenerating := true)];
      var h := RequestHistory(after, settings);
      Compaction.Processed(h, |msgs| - 1) == h && h[idx].isGenerating
  {
  }

  /** Retrying a failed reply to a prompt that was sent from the text box
      puts the same user message back, behind the history without errors. */
  lemma RetryResendsPrompt(msgs: seq<Message>, idx: nat, raw: string, model: ModelName, files: seq<FilePath>)
    requires 1 <= idx < |msgs|
    requires msgs[idx - 1] == UserMessage(ChatHistory.TrimEnd(raw), model, files)
    ensures var rest := msgs[..idx - 1] + msgs[idx + 1..];
      AfterSend(rest, msgs[idx - 1].content, files, model) ==
        ChatHistory.WithoutErrors(rest) + [msgs[idx - 1], AssistantMessage("", model)]
  {
    var p := ChatHistory.TrimEnd(raw);
    assert ChatHistory.TrimEnd(p) == p;
  }
}
