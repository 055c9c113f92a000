/** Operations on the message history of a chat: folding streamed parts into
    the messages, marking the outcome of a completion, the short summary of a
    first prompt, the preview of the last message, and the edits made to the
    history before a request is sent. */
module ChatHistory {
  import opened Common
  import Compaction
  import ErrorText
  import Completion
  import FileHandler

  // ---------------------------------------------------------------------------
  // Streamed parts
  // ---------------------------------------------------------------------------

  /** Every streamed part is text (other parts are not handled by the chat). */
  predicate AllText(parts: seq<Part>)
  {
    forall k :: 0 <= k < |parts| ==> parts[k].Text?
  }

  /** One streamed text part applied to the history: a thought turns the last
      message into a thought and extends it; an answer after a thought closes
      the thought and opens a new assistant message holding just that text;
      any other answer extends the last message. */
  function ApplyChunk(msgs: seq<Message>, text: string, thought: bool): (r: seq<Message>)
    requires |msgs| > 0
    ensures |msgs| <= |r| <= |msgs| + 1
    ensures r[..|msgs| - 1] == msgs[..|msgs| - 1]
    ensures var last, cur := msgs[|msgs| - 1], r[|msgs| - 1];
      thought ==>
        |r| == |msgs| && cur.isThought && cur.content == last.content + text &&
        cur.isGenerating == last.isGenerating && cur.role == last.role
    ensures var last, cur := msgs[|msgs| - 1], r[|msgs| - 1];
      !thought && last.isThought ==>
        |r| == |msgs| + 1 && cur.isThought && !cur.isGenerating &&
        cur.content == last.content && r[|msgs|].content == text && r[|msgs|].isGenerating &&
        !r[|msgs|].isThought && r[|msgs|].role == Assistant
    ensures var last, cur := msgs[|msgs| - 1], r[|msgs| - 1];
      !thought && !last.isThought ==>
        |r| == |msgs| && !cur.isThought && cur.content == last.content + text &&
        cur.isGenerating == last.isGenerating && cur.role == last.role
    ensures var last, cur := msgs[|msgs| - 1], r[|msgs| - 1];
      (thought ==> cur == last.(isThought := true, content := last.content + text)) &&
      (!thought && last.isThought ==> cur == last.(isGenerating := false) && r[|msgs|] == AssistantMessage(text, last.model)) &&
      (!thought && !last.isThought ==> cur == last.(content := last.content + text))
  {
    var init, last := msgs[..|msgs| - 1], msgs[|msgs| - 1];
    if thought then init + [last.(isThought := true, content := last.content + text)]
    else if last.isThought then init + [last.(isGenerating := false), AssistantMessage(text, last.model)]
    else init + [last.(content := last.content + text)]
  }

  /** The history after a sequence of streamed text parts. */
  function Demuxed(msgs: seq<Message>, parts: seq<Part>): (r: seq<Message>)
    requires |msgs| > 0 || parts == []
    requires AllText(parts)
    ensures |r| >= |msgs|
  {
    if parts == [] then msgs
    else
      var last := parts[|parts| - 1];
      ApplyChunk(Demuxed(msgs, parts[..|parts| - 1]), last.text, last.thought)
  }

  /** The contents of a list of messages, concatenated. */
  function Contents(msgs: seq<Message>): string
  {
    if msgs == [] then "" else Contents(msgs[..|msgs| - 1]) + msgs[|msgs| - 1].content
  }

  lemma {:induction false} ContentsAppend(a: seq<Message>, b: seq<Message>)
    ensures Contents(a + b) == Contents(a) + Contents(b)
    decreases |b|
  {
    if b == [] {
      assert a + b == a;
    } else {
      assert (a + b)[..|a + b| - 1] == a + b[..|b| - 1];
      ContentsAppend(a, b[..|b| - 1]);
    }
  }

  /** Streaming never touches the messages before the one being generated. */
  lemma {:induction false} DemuxKeepsEarlierMessages(msgs: seq<Message>, parts: seq<Part>)
    requires |msgs| > 0 && AllText(parts)
    ensures Demuxed(msgs, parts)[..|msgs| - 1] == msgs[..|msgs| - 1]
    decreases |parts|
  {
    if parts != [] {
      var prev := Demuxed(msgs, parts[..|parts| - 1]);
      DemuxKeepsEarlierMessages(msgs, parts[..|parts| - 1]);
      assert prev[..|msgs| - 1] == prev[..|prev| - 1][..|msgs| - 1];
    }
  }

  lemma ContentsSnoc(msgs: seq<Message>, m: Message)
    ensures Contents(msgs + [m]) == Contents(msgs) + m.content
  {
    assert (msgs + [m])[..|msgs|] == msgs;
  }

  lemma DropSnoc(a: seq<Message>, x: Message, start: nat)
    requires start <= |a|
    ensures (a + [x])[start..] == a[start..] + [x]
  {
  }

  /** One part extends the text held from `start` onwards by exactly its text. */
  lemma ApplyChunkContents(prev: seq<Message>, start: nat, text: string, thought: bool)
    requires start < |prev|
    ensures Contents(ApplyChunk(prev, text, thought)[start..]) == Contents(prev[start..]) + text
  {
    var init, last := prev[..|prev| - 1], prev[|prev| - 1];
    var base := Contents(init[start..]);
    assert Contents(prev[start..]) == base + last.content by {
      assert prev == init + [last];
      DropSnoc(init, last, start);
      ContentsSnoc(init[start..], last);
    }
    var r := ApplyChunk(prev, text, thought);
    if thought || !last.isThought {
      var last' := r[|r| - 1];
      assert Contents(r[start..]) == base + (last.content + text) by {
        assert r == init + [last'] && last'.content == last.content + text;
        DropSnoc(init, last', start);
        ContentsSnoc(init[start..], last');
      }
      assert base + (last.content + text) == (base + last.content) + text;
    } else {
      var closed, answer := last.(isGenerating := false), AssistantMessage(text, last.model);
      assert Contents(r[start..]) == (base + last.content) + text by {
        assert r == (init + [closed]) + [answer];
        DropSnoc(init, closed, start);
        DropSnoc(init + [closed], answer, start);
        ContentsSnoc(init[start..], closed);
        ContentsSnoc(init[start..] + [closed], answer);
      }
    }
  }

  /** No streamed text is lost or reordered: the messages from the one being
      generated onwards hold its old content followed by the text of every
      part, thoughts included (the text the streaming loop accumulates). */
  lemma {:induction false} DemuxKeepsText(msgs: seq<Message>, parts: seq<Part>)
    requires |msgs| > 0 && AllText(parts)
    ensures Contents(Demuxed(msgs, parts)[|msgs| - 1..]) == msgs[|msgs| - 1].content + Completion.TextOf(parts)
    decreases |parts|
  {
    var start := |msgs| - 1;
    if parts == [] {
      assert Contents(msgs[start..]) == msgs[start].content by {
        assert msgs[start..] == [] + [msgs[start]];
        ContentsSnoc([], msgs[start]);
      }
      assert msgs[start].content + Completion.TextOf(parts) == msgs[start].content;
    } else {
      var init, p := parts[..|parts| - 1], parts[|parts| - 1];
      var before, streamed := msgs[start].content, Completion.TextOf(init);
      assert Contents(Demuxed(msgs, parts)[start..]) == (before + streamed) + p.text by {
        DemuxKeepsText(msgs, init);
        DemuxTextStep(msgs, parts);
      }
      assert Completion.TextOf(parts) == streamed + p.text by {
        assert p.Text?;
      }
      assert (before + streamed) + p.text == before + (streamed + p.text);
    }
  }

  /** One more text part adds exactly its text from the generated message onwards. */
  lemma DemuxTextStep(msgs: seq<Message>, parts: seq<Part>)
    requires |msgs| > 0 && AllText(parts) && parts != []
    ensures var init, p := parts[..|parts| - 1], parts[|parts| - 1];
      Contents(Demuxed(msgs, parts)[|msgs| - 1..]) == Contents(Demuxed(msgs, init)[|msgs| - 1..]) + p.text
  {
    var init, p := parts[..|parts| - 1], parts[|parts| - 1];
    ApplyChunkContents(Demuxed(msgs, init), |msgs| - 1, p.text, p.thought);
  }

  /** Without thoughts, streaming keeps a single message for the answer, which
      ends up holding the concatenation of the parts. */
  lemma {:induction false} ThoughtFreeStreamExtendsLast(msgs: seq<Message>, parts: seq<Part>)
    requires |msgs| > 0 && AllText(parts) && !msgs[|msgs| - 1].isThought
    requires forall k :: 0 <= k < |parts| ==> !parts[k].thought
    ensures var last := msgs[|msgs| - 1];
      Demuxed(msgs, parts) == msgs[..|msgs| - 1] + [last.(content := last.content + Completion.TextOf(parts))]
    decreases |parts|
  {
    var last := msgs[|msgs| - 1];
    if parts == [] {
      assert last.(content := last.content + "") == last;
      assert msgs == msgs[..|msgs| - 1] + [last];
    } else {
      var init, p := parts[..|parts| - 1], parts[|parts| - 1];
      var text := Completion.TextOf(init);
      var cur := last.(content := last.content + text);
      assert Demuxed(msgs, init) == msgs[..|msgs| - 1] + [cur] by {
        ThoughtFreeStreamExtendsLast(msgs, init);
      }
      assert Demuxed(msgs, parts) == msgs[..|msgs| - 1] + [cur.(content := cur.content + p.text)] by {
        assert p.Text? && !p.thought;
        ExtendAnswer(msgs[..|msgs| - 1], cur, p.text);
      }
      assert cur.content + p.text == last.content + Completion.TextOf(parts) by {
        assert p.Text?;
        assert Completion.TextOf(parts) == text + p.text;
        assert (last.content + text) + p.text == last.content + (text + p.text);
      }
    }
  }

  /** An answer part on a message that is not a thought extends it. */
  lemma ExtendAnswer(init: seq<Message>, m: Message, text: string)
    requires !m.isThought
    ensures ApplyChunk(init + [m], text, false) == init + [m.(content := m.content + text)]
  {
    var msgs := init + [m];
    assert msgs[..|msgs| - 1] == init;
  }

  /** One part changes only the end of the history. */
  lemma ApplyChunkLocal(init: seq<Message>, msgs: seq<Message>, text: string, thought: bool)
    requires |msgs| > 0
    ensures ApplyChunk(init + msgs, text, thought) == init + ApplyChunk(msgs, text, thought)
  {
    var all := init + msgs;
    assert all[..|all| - 1] == init + msgs[..|msgs| - 1];
    assert all[|all| - 1] == msgs[|msgs| - 1];
  }

  /** Streaming into a history behaves as streaming into its last messages
      alone: the messages in front are kept as they are. */
  lemma {:induction false} DemuxLocal(init: seq<Message>, msgs: seq<Message>, parts: seq<Part>)
    requires |msgs| > 0 && AllText(parts)
    ensures Demuxed(init + msgs, parts) == init + Demuxed(msgs, parts)
    decreases |parts|
  {
    if parts != [] {
      var ps, p := parts[..|parts| - 1], parts[|parts| - 1];
      DemuxLocal(init, msgs, ps);
      ApplyChunkLocal(init, Demuxed(msgs, ps), p.text, p.thought);
    }
  }

  /** Every part is a thought. */
  predicate AllThoughts(parts: seq<Part>)
  {
    forall k :: 0 <= k < |parts| ==> parts[k].Text? && parts[k].thought
  }

  /** A run of thought parts on a single message turns it into a thought that
      holds its own text followed by every thought text, in order. */
  lemma {:induction false} ThoughtsAccumulateSingle(m: Message, thoughts: seq<Part>)
    requires thoughts != [] && AllThoughts(thoughts)
    ensures AllText(thoughts)
    ensures Demuxed([m], thoughts) == [m.(isThought := true, content := m.content + Completion.TextOf(thoughts))]
    decreases |thoughts|
  {
    var init, p := thoughts[..|thoughts| - 1], thoughts[|thoughts| - 1];
    var text := Completion.TextOf(thoughts);
    assert text == Completion.TextOf(init) + p.text;
    assert thoughts == init + [p];
    var before := if init == [] then m else m.(isThought := true, content := m.content + Completion.TextOf(init));
    assert Demuxed([m], init) == [before] by {
      if init != [] {
        ThoughtsAccumulateSingle(m, init);
      }
    }
    assert before.content + p.text == m.content + text by {
      if init == [] {
        assert Completion.TextOf(init) == "";
      }
    }
    ThoughtOnSingle([m], init, before, p.text);
  }

  /** A run of thought parts turns the last message into a thought that holds
      its own text followed by every thought text, in order; the messages in
      front are kept. */
  lemma ThoughtsAccumulate(init: seq<Message>, m: Message, thoughts: seq<Part>)
    requires thoughts != [] && AllThoughts(thoughts)
    ensures AllText(thoughts)
    ensures Demuxed(init + [m], thoughts) == init + [m.(isThought := true, content := m.content + Completion.TextOf(thoughts))]
  {
    ThoughtsAccumulateSingle(m, thoughts);
    DemuxLocal(init, [m], thoughts);
  }

  /** Thought parts and then an answer part: the placeholder becomes a closed
      thought holding all thought texts, followed by a generating answer
      holding exactly the answer text. */
  lemma ThoughtThenAnswer(init: seq<Message>, model: ModelName, thoughts: seq<Part>, answer: string)
    requires thoughts != [] && AllThoughts(thoughts)
    ensures AllText(thoughts + [Text(answer, false)])
    ensures Demuxed(init + [AssistantMessage("", model)], thoughts + [Text(answer, false)]) ==
      init + [Message(Completion.TextOf(thoughts), Assistant, model, false, false, [], false, true), AssistantMessage(answer, model)]
  {
    var m0 := AssistantMessage("", model);
    DemuxLocal(init, [m0], thoughts + [Text(answer, false)]);
    ThoughtsAccumulateSingle(m0, thoughts);
    var m1 := m0.(isThought := true, content := "" + Completion.TextOf(thoughts));
    AnswerAfterThought([m0], thoughts, m1, answer);
    assert "" + Completion.TextOf(thoughts) == Completion.TextOf(thoughts);
  }

  /** A thought part while the history is a single message extends it as a thought. */
  lemma ThoughtOnSingle(msgs: seq<Message>, parts: seq<Part>, m: Message, t: string)
    requires |msgs| > 0 && AllText(parts) && Demuxed(msgs, parts) == [m]
    ensures AllText(parts + [Text(t, true)])
    ensures Demuxed(msgs, parts + [Text(t, true)]) == [m.(isThought := true, content := m.content + t)]
  {
    DemuxSnoc(msgs, parts, Text(t, true));
    ExtendThought([m], m.content, t);
  }

  /** An answer part after a single thought closes it and opens the answer. */
  lemma AnswerAfterThought(msgs: seq<Message>, parts: seq<Part>, m: Message, t: string)
    requires |msgs| > 0 && AllText(parts) && Demuxed(msgs, parts) == [m] && m.isThought
    ensures AllText(parts + [Text(t, false)])
    ensures Demuxed(msgs, parts + [Text(t, false)]) == [m.(isGenerating := false), AssistantMessage(t, m.model)]
  {
    DemuxSnoc(msgs, parts, Text(t, false));
    CloseThought([m], t);
  }

  /** A thought part on a single message extends its content. */
  lemma ExtendThought(msgs: seq<Message>, before: string, text: string)
    requires |msgs| == 1 && msgs[0].content == before
    ensures ApplyChunk(msgs, text, true) == [msgs[0].(isThought := true, content := before + text)]
  {
    assert msgs[..0] == [];
  }

  /** An answer part after a single thought closes it and opens the answer. */
  lemma CloseThought(msgs: seq<Message>, text: string)
    requires |msgs| == 1 && msgs[0].isThought
    ensures ApplyChunk(msgs, text, false) == [msgs[0].(isGenerating := false), AssistantMessage(text, msgs[0].model)]
  {
    assert msgs[..0] == [];
  }

  lemma DemuxSnoc(msgs: seq<Message>, parts: seq<Part>, p: Part)
    requires |msgs| > 0 && AllText(parts) && p.Text?
    ensures AllText(parts + [p])
    ensures Demuxed(msgs, parts + [p]) == ApplyChunk(Demuxed(msgs, parts), p.text, p.thought)
  {
    assert (parts + [p])[..|parts|] == parts;
  }

  // ---------------------------------------------------------------------------
  // Outcome of a completion
  // ---------------------------------------------------------------------------

  const PanicPrefix: string := "Tokio task panicked: "

  /** Clears the generating flag of the last message, if there is one. */
  function ClearLast(msgs: seq<Message>): (r: seq<Message>)
    ensures |r| == |msgs|
    ensures |r| > 0 ==> !r[|r| - 1].isGenerating
    ensures |r| > 0 ==> r[|r| - 1] == msgs[|msgs| - 1].(isGenerating := false)
    ensures forall j :: 0 <= j < |r| - 1 ==> r[j] == msgs[j]
  {
    if msgs == [] then [] else msgs[|msgs| - 1 := msgs[|msgs| - 1].(isGenerating := false)]
  }

  /** Clearing the flag of a last message that is not generating changes nothing. */
  lemma ClearLastIdle(msgs: seq<Message>)
    requires |msgs| > 0 && !msgs[|msgs| - 1].isGenerating
    ensures ClearLast(msgs) == msgs
  {
    var last := msgs[|msgs| - 1];
    assert last.(isGenerating := false) == last;
  }

  /** The message at `index` turned into an error message showing `text`. */
  function MarkError(msgs: seq<Message>, index: nat, text: string): seq<Message>
    requires index < |msgs|
  {
    msgs[index := msgs[index].(content := text, isError := true, isGenerating := false)]
  }

  /** Whether the outcome can be applied to a history of this length: an error
      names an existing message and a panic needs a last message. */
  predicate Applicable(n: nat, outcome: Completion.Terminal)
  {
    match outcome
    case Completed(_, _) => true
    case Failed(index, _) => index < n
    case Panicked(_) => n > 0
  }

  /** The history after the task ended: an error shows its normalised text on
      the message it names (a panic, on the last message), and in every case
      the last message stops generating. A success leaves the content alone. */
  function Finalized(msgs: seq<Message>, outcome: Completion.Terminal, pretty: string -> Option<string>): seq<Message>
    requires Applicable(|msgs|, outcome)
  {
    match outcome
    case Completed(_, _) => ClearLast(msgs)
    case Failed(index, message) => ClearLast(MarkError(msgs, index, ErrorText.Normalize(message, pretty)))
    case Panicked(message) => ClearLast(MarkError(msgs, |msgs| - 1, ErrorText.Normalize(PanicPrefix + message, pretty)))
  }

  /** What the end of a task does to the history: the length is kept and the
      last message stops generating; an error or panic shows its normalised
      text on its message; nothing else changes. */
  lemma FinalizedOutcome(msgs: seq<Message>, outcome: Completion.Terminal, pretty: string -> Option<string>)
    requires Applicable(|msgs|, outcome)
    ensures var r := Finalized(msgs, outcome, pretty);
      |r| == |msgs| && (|r| > 0 ==> !r[|r| - 1].isGenerating)
    ensures var r := Finalized(msgs, outcome, pretty);
      outcome.Failed? ==>
        var i := outcome.index;
        r[i].content == ErrorText.Normalize(outcome.message, pretty) && r[i].isError && !r[i].isGenerating
    ensures var r := Finalized(msgs, outcome, pretty);
      outcome.Panicked? ==>
        var i := |r| - 1;
        r[i].content == ErrorText.Normalize(PanicPrefix + outcome.message, pretty) && r[i].isError
    ensures var r := Finalized(msgs, outcome, pretty);
      outcome.Completed? && |r| > 0 ==> r[..|r| - 1] == msgs[..|msgs| - 1] && r[|r| - 1].content == msgs[|msgs| - 1].content
    ensures var r := Finalized(msgs, outcome, pretty);
      forall j :: 0 <= j < |r| - 1 && !(outcome.Failed? && j == outcome.index) ==> r[j] == msgs[j]
  {
  }

  // ---------------------------------------------------------------------------
  // Summary of the first prompt
  // ---------------------------------------------------------------------------

  const MaxSummaryLength: nat := 24
  const Ellipsis: char := '…'

  /** Upper case of a character, for the ASCII letters. */
  function Upper(c: char): char
  {
    if 'a' <= c <= 'z' then (c as int - 'a' as int + 'A' as int) as char else c
  }

  function Capitalized(s: string): (r: string)
    ensures |r| == |s| && (|s| > 0 ==> r[0] == Upper(s[0]) && r[1..] == s[1..])
  {
    if s == [] then [] else [Upper(s[0])] + s[1..]
  }

  /** Position of the first occurrence of `c` in `s`. */
  function IndexOf(s: string, c: char): (r: Option<nat>)
    ensures r.Some? ==> r.value < |s| && s[r.value] == c && c !in s[..r.value]
    ensures r.None? ==> c !in s
  {
    if s == [] then None
    else if s[0] == c then Some(0)
    else
      match IndexOf(s[1..], c)
      case None => None
      case Some(k) => assert s[..k + 1] == [s[0]] + s[1..][..k]; Some(k + 1)
  }

  /** The title of a chat made from its first prompt: the first line, cut at
      24 characters with an ellipsis when the prompt goes on, with the first
      character in upper case. */
  function Summary(prompt: string): string
  {
    var head := if |prompt| <= MaxSummaryLength then prompt else prompt[..MaxSummaryLength];
    match IndexOf(head, '\n')
    case Some(k) => Capitalized(head[..k])
    case None => if |prompt| > MaxSummaryLength then Capitalized(head) + [Ellipsis] else Capitalized(head)
  }

  /** `make_summary`: one pass over the characters, stopping at the first line
      break or after 24 characters. */
  method MakeSummary(prompt: string) returns (summary: string)
    ensures summary == Summary(prompt)
  {
    summary := "";
    var i := 0;
    while i < |prompt|
      invariant 0 <= i <= |prompt| && i <= MaxSummaryLength
      invariant '\n' !in prompt[..i]
      invariant summary == Capitalized(prompt[..i])
    {
      if i >= MaxSummaryLength {
        summary := summary + [Ellipsis];
        assert prompt[..MaxSummaryLength] == prompt[..i];
        SummaryAtLimit(prompt);
        return;
      }
      var ch := prompt[i];
      if ch == '\n' {
        SummaryAtBreak(prompt, i);
        return;
      }
      assert prompt[..i + 1] == prompt[..i] + [ch];
      if i == 0 {
        summary := summary + [Upper(ch)];
      } else {
        summary := summary + [ch];
      }
      i := i + 1;
    }
    assert prompt[..i] == prompt;
    SummaryOfShortLine(prompt);
  }

  lemma IndexOfFirst(s: string, c: char, i: nat)
    requires i < |s| && s[i] == c && c !in s[..i]
    ensures IndexOf(s, c) == Some(i)
  {
    var r := IndexOf(s, c);
    assert c in s by {
      assert s[i] == c;
    }
    assert forall k :: 0 <= k < i ==> s[k] != c by {
      assert forall k :: 0 <= k < i ==> s[..i][k] == s[k];
    }
    assert forall k :: 0 <= k < r.value ==> s[k] != c by {
      assert forall k :: 0 <= k < r.value ==> s[..r.value][k] == s[k];
    }
  }

  /** A line break within the first 24 characters ends the summary. */
  lemma SummaryAtBreak(prompt: string, i: nat)
    requires i < MaxSummaryLength && i < |prompt| && prompt[i] == '\n' && '\n' !in prompt[..i]
    ensures Summary(prompt) == Capitalized(prompt[..i])
  {
    var head := if |prompt| <= MaxSummaryLength then prompt else prompt[..MaxSummaryLength];
    assert head[..i] == prompt[..i];
    IndexOfFirst(head, '\n', i);
  }

  /** A long first line is cut after 24 characters and gets an ellipsis. */
  lemma SummaryAtLimit(prompt: string)
    requires |prompt| > MaxSummaryLength && '\n' !in prompt[..MaxSummaryLength]
    ensures Summary(prompt) == Capitalized(prompt[..MaxSummaryLength]) + [Ellipsis]
  {
  }

  /** A short prompt without line breaks is its own summary, capitalised. */
  lemma SummaryOfShortLine(prompt: string)
    requires |prompt| <= MaxSummaryLength && '\n' !in prompt
    ensures Summary(prompt) == Capitalized(prompt)
  {
  }

  /** A summary is a single line of at most 24 characters and an ellipsis,
      and it is empty exactly when the prompt is empty or starts with a line
      break. */
  lemma SummaryShape(prompt: string)
    ensures |Summary(prompt)| <= MaxSummaryLength + 1
    ensures '\n' !in Summary(prompt)
    ensures Summary(prompt) == [] <==> prompt == [] || prompt[0] == '\n'
  {
    var head := if |prompt| <= MaxSummaryLength then prompt else prompt[..MaxSummaryLength];
    match IndexOf(head, '\n')
    case Some(k) =>
    case None =>
      assert forall j :: 0 < j < |head| ==> Capitalized(head)[j] == head[j];
      if prompt != [] {
        assert head[0] == prompt[0];
      }
  }

  /** A short single-line prompt is its own summary, capitalised. */
  lemma ShortPromptSummary(prompt: string)
    requires 0 < |prompt| <= MaxSummaryLength && '\n' !in prompt
    ensures Summary(prompt) == [Upper(prompt[0])] + prompt[1..]
  {
  }

  // ---------------------------------------------------------------------------
  // Preview of the last message
  // ---------------------------------------------------------------------------

  /** How a message is previewed: user messages carry a "You: " prefix. */
  function Shown(m: Message): string
  {
    if m.role == User then "You: " + m.content else m.content
  }

  /** The preview of a chat: the last message with content, if any. */
  function LastMessageContents(msgs: seq<Message>): Option<string>
  {
    if msgs == [] then None
    else
      var last := msgs[|msgs| - 1];
      if last.content == "" then LastMessageContents(msgs[..|msgs| - 1]) else Some(Shown(last))
  }

  /** The preview is absent exactly when every message is empty. */
  lemma {:induction false} PreviewAbsentWhenAllEmpty(msgs: seq<Message>)
    ensures LastMessageContents(msgs).None? <==> forall k :: 0 <= k < |msgs| ==> msgs[k].content == ""
    decreases |msgs|
  {
    if msgs != [] {
      var init := msgs[..|msgs| - 1];
      PreviewAbsentWhenAllEmpty(init);
      assert forall k :: 0 <= k < |init| ==> init[k] == msgs[k];
    }
  }

  /** Otherwise the preview shows the last message that has content. */
  lemma {:induction false} PreviewShowsLastNonEmpty(msgs: seq<Message>, k: nat)
    requires k < |msgs| && msgs[k].content != ""
    requires forall j :: k < j < |msgs| ==> msgs[j].content == ""
    ensures LastMessageContents(msgs) == Some(Shown(msgs[k]))
    decreases |msgs|
  {
    if k < |msgs| - 1 {
      var init := msgs[..|msgs| - 1];
      assert msgs[|msgs| - 1].content == "";
      PreviewShowsLastNonEmpty(init, k);
    }
  }

  // ---------------------------------------------------------------------------
  // Edits made before a request
  // ---------------------------------------------------------------------------

  /** The characters `str::trim_end` removes: Unicode white space. */
  predicate IsWhitespace(c: char)
  {
    c == ' ' || '\t' <= c <= '\r' || c == '\U{85}' || c == '\U{A0}' || c == '\U{1680}' ||
    '\U{2000}' <= c <= '\U{200A}' || c == '\U{2028}' || c == '\U{2029}' || c == '\U{202F}' ||
    c == '\U{205F}' || c == '\U{3000}'
  }

  /** The text without its trailing white space. */
  function TrimEnd(s: string): (r: string)
    ensures r <= s
    ensures r == [] || !IsWhitespace(r[|r| - 1])
    ensures forall k :: |r| <= k < |s| ==> IsWhitespace(s[k])
  {
    if s == [] || !IsWhitespace(s[|s| - 1]) then s else TrimEnd(s[..|s| - 1])
  }

  /** The history without error messages, in order. */
  function WithoutErrors(msgs: seq<Message>): (r: seq<Message>)
    ensures |r| <= |msgs|
    ensures forall k :: 0 <= k < |r| ==> !r[k].isError
  {
    if msgs == [] then []
    else
      var last := msgs[|msgs| - 1];
      var r := WithoutErrors(msgs[..|msgs| - 1]);
      if last.isError then r else r + [last]
  }

  /** Dropping the errors keeps exactly the other messages: nothing else is lost or invented. */
  lemma {:induction false} WithoutErrorsKeeps(msgs: seq<Message>)
    ensures forall m :: m in msgs && !m.isError ==> m in WithoutErrors(msgs)
    ensures forall m :: m in WithoutErrors(msgs) ==> m in msgs
  {
    if msgs != [] {
      var init, last := msgs[..|msgs| - 1], msgs[|msgs| - 1];
      WithoutErrorsKeeps(init);
      assert msgs == init + [last];
    }
  }

  /** Dropping the errors works message by message and keeps the order and
      the repetitions of the rest: it distributes over concatenation. */
  lemma {:induction false} WithoutErrorsAppend(a: seq<Message>, b: seq<Message>)
    ensures WithoutErrors(a + b) == WithoutErrors(a) + WithoutErrors(b)
    decreases |b|
  {
    if b == [] {
      assert a + b == a;
    } else {
      var init, last := b[..|b| - 1], b[|b| - 1];
      assert (a + b)[..|a + b| - 1] == a + init;
      WithoutErrorsAppend(a, init);
    }
  }

  const ThoughtIntro: string := "MY INNER REFLECTIONS: "
  /** Closing marker of a revealed thought; the `\r\n` in it is literal text
      (backslash, r, backslash, n), not a line break. */
  const ThoughtOutro: string := "--- end of inner reflections ---\\r\\n"

  /** A thought rewritten as an ordinary message, framed by the markers. */
  function Revealed(m: Message): Message
  {
    m.(isThought := false, content := ThoughtIntro + m.content + ThoughtOutro)
  }

  /** The history with every thought revealed. */
  function WithThoughtsRevealed(msgs: seq<Message>): seq<Message>
  {
    seq(|msgs|, k requires 0 <= k < |msgs| => if msgs[k].isThought then Revealed(msgs[k]) else msgs[k])
  }

  /** The loop that reveals the thoughts of a copy of the history when the
      settings ask for thoughts to be part of the request: every thought is
      rewritten, nothing else changes, and no thought is left. */
  method RevealThoughts(msgs: seq<Message>) returns (r: seq<Message>)
    ensures |r| == |msgs|
    ensures forall k :: 0 <= k < |r| ==> r[k] == (if msgs[k].isThought then Revealed(msgs[k]) else msgs[k])
    ensures forall k :: 0 <= k < |r| ==> !r[k].isThought
    ensures r == WithThoughtsRevealed(msgs)
  {
    r := msgs;
    var k := 0;
    while k < |r|
      invariant 0 <= k <= |r| == |msgs|
      invariant forall j :: 0 <= j < k ==> r[j] == (if msgs[j].isThought then Revealed(msgs[j]) else msgs[j])
      invariant forall j :: k <= j < |r| ==> r[j] == msgs[j]
    {
      if r[k].isThought {
        r := r[k := Revealed(r[k])];
      }
      k := k + 1;
    }
  }

  /** A revealed thought is no longer skipped by compaction: it reaches the
      request as a text part framed by the markers. */
  lemma RevealedThoughtReachesRequest(m: Message, env: FileHandler.Environment)
    requires m.isThought
    ensures Compaction.Skipped(m)
    ensures !Compaction.Skipped(Revealed(m))
    ensures var parts := Compaction.MessageParts(Revealed(m), env);
      |parts| > 0 && parts[|parts| - 1] == Text(ThoughtIntro + m.content + ThoughtOutro, false)
  {
  }
}
