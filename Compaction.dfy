/** Transcript compaction: turning the flat message list of a chat into the
    ordered, author-tagged turns of a backend request. */
module Compaction {
  import opened Common
  import FileHandler

  /** The text part placed in front of each converted attachment. */
  function FileLabel(f: FilePath): string
  {
    "File with name: " + FileName(f)
  }

  /** What one attachment contributes: its label followed by its data part, or
      nothing when the conversion fails (the failure is only logged). */
  function AttachmentParts(f: FilePath, env: FileHandler.Environment): (r: seq<Part>)
    ensures r == [] <==> FileHandler.ConvertFileToPart(f, env).Err?
    ensures r != [] ==> |r| == 2 && r[0] == Text(FileLabel(f), false) && r[1].InlineData?
  {
    match FileHandler.ConvertFileToPart(f, env)
    case Ok(p) => [Text(FileLabel(f), false), p]
    case Err(_) => []
  }

  /** The parts of all attachments of a message, in file order. */
  function FileParts(files: seq<FilePath>, env: FileHandler.Environment): seq<Part>
  {
    if files == [] then []
    else FileParts(files[..|files| - 1], env) + AttachmentParts(files[|files| - 1], env)
  }

  lemma AttachmentPartsOf(f: FilePath, env: FileHandler.Environment)
    ensures var c := FileHandler.ConvertFileToPart(f, env);
      AttachmentParts(f, env) == if c.Ok? then [Text(FileLabel(f), false), c.value] else []
  {
  }

  /** Messages that never reach a request: thoughts, and messages with neither
      text nor attachments. */
  predicate Skipped(m: Message)
  {
    m.isThought || (m.content == "" && m.files == [])
  }

  /** The parts of one message: its attachments, then its text if it has any. */
  function MessageParts(m: Message, env: FileHandler.Environment): (r: seq<Part>)
    ensures m.content != "" ==> |r| > 0 && r[|r| - 1] == Text(m.content, false)
  {
    FileParts(m.files, env) + (if m.content == "" then [] else [Text(m.content, false)])
  }

  /** One author-tagged group of parts per message that is not skipped. */
  function Contributions(msgs: seq<Message>, env: FileHandler.Environment): seq<Turn>
  {
    if msgs == [] then []
    else
      var m := msgs[|msgs| - 1];
      Contributions(msgs[..|msgs| - 1], env) + (if Skipped(m) then [] else [Turn(m.role, MessageParts(m, env))])
  }

  /** Reference grouping: adjacent groups of the same author are merged into one. */
  function Runs(ts: seq<Turn>): seq<Turn>
  {
    if ts == [] then [] else Merge(Runs(ts[..|ts| - 1]), ts[|ts| - 1])
  }

  /** Appends group `t` to the merged runs `r`, joining it to the last run when
      the author is the same. */
  function Merge(r: seq<Turn>, t: Turn): seq<Turn>
  {
    if r != [] && r[|r| - 1].author == t.author then r[..|r| - 1] + [Turn(t.author, r[|r| - 1].parts + t.parts)]
    else r + [t]
  }

  /** The turns that carry at least one part. */
  function NonEmptyTurns(ts: seq<Turn>): (r: seq<Turn>)
    ensures forall k :: 0 <= k < |r| ==> r[k].parts != []
    ensures |r| <= |ts|
  {
    if ts == [] then []
    else NonEmptyTurns(ts[..|ts| - 1]) + (if ts[|ts| - 1].parts == [] then [] else [ts[|ts| - 1]])
  }

  /** The turns built from a list of messages. */
  function History(msgs: seq<Message>, env: FileHandler.Environment): seq<Turn>
  {
    NonEmptyTurns(Runs(Contributions(msgs, env)))
  }

  /** The messages compacted for a request at `index`: when the message there is
      still generating, only those strictly before it. */
  function Processed(msgs: seq<Message>, index: nat): (r: seq<Message>)
    ensures index < |msgs| && msgs[index].isGenerating ==> r == msgs[..index]
    ensures !(index < |msgs| && msgs[index].isGenerating) ==> r == msgs
  {
    if index < |msgs| && msgs[index].isGenerating then msgs[..index] else msgs
  }

  /** The assistant turn that seeds the backend with text already present at
      the target (the "prepend" of a regeneration). */
  function PrependTurn(msgs: seq<Message>, index: nat): seq<Turn>
  {
    if index < |msgs| && msgs[index].content != "" then [Turn(Assistant, [Text(msgs[index].content, false)])] else []
  }

  /** The complete request built for target `index`. */
  function Session(msgs: seq<Message>, index: nat, env: FileHandler.Environment): (r: seq<Turn>)
    ensures forall k :: 0 <= k < |r| ==> r[k].parts != []
    ensures index < |msgs| && msgs[index].content != "" ==>
      |r| > 0 && r[|r| - 1] == Turn(Assistant, [Text(msgs[index].content, false)])
  {
    History(Processed(msgs, index), env) + PrependTurn(msgs, index)
  }

  lemma ContributionsSnoc(msgs: seq<Message>, m: Message, env: FileHandler.Environment)
    ensures Contributions(msgs + [m], env) ==
      Contributions(msgs, env) + (if Skipped(m) then [] else [Turn(m.role, MessageParts(m, env))])
  {
    assert (msgs + [m])[..|msgs|] == msgs;
  }

  lemma ContributionsStep(msgs: seq<Message>, i: nat, env: FileHandler.Environment)
    requires i < |msgs|
    ensures Contributions(msgs[..i + 1], env) ==
      Contributions(msgs[..i], env) + (if Skipped(msgs[i]) then [] else [Turn(msgs[i].role, MessageParts(msgs[i], env))])
  {
    assert msgs[..i + 1] == msgs[..i] + [msgs[i]];
    ContributionsSnoc(msgs[..i], msgs[i], env);
  }

  lemma RunsSnoc(ts: seq<Turn>, t: Turn)
    ensures Runs(ts + [t]) == Merge(Runs(ts), t)
  {
    assert (ts + [t])[..|ts|] == ts;
  }

  lemma NonEmptyTurnsSnoc(ts: seq<Turn>, t: Turn)
    ensures NonEmptyTurns(ts + [t]) == NonEmptyTurns(ts) + (if t.parts == [] then [] else [t])
  {
    assert (ts + [t])[..|ts|] == ts;
  }

  lemma FilePartsSnoc(files: seq<FilePath>, f: FilePath, env: FileHandler.Environment)
    ensures FileParts(files + [f], env) == FileParts(files, env) + AttachmentParts(f, env)
  {
    assert (files + [f])[..|files|] == files;
  }

  lemma AllPartsSnoc(ts: seq<Turn>, t: Turn)
    ensures AllParts(ts + [t]) == AllParts(ts) + t.parts
  {
    assert (ts + [t])[..|ts|] == ts;
  }

  /** One attachment: its label and data part are pushed when it converts,
      nothing otherwise. */
  method PushAttachment(buffer: seq<Part>, file: FilePath, env: FileHandler.Environment) returns (out: seq<Part>)
    ensures out == buffer + AttachmentParts(file, env)
  {
    out := buffer;
    var converted := FileHandler.ConvertFileToPart(file, env);
    if converted.Ok? {
      out := out + [Text(FileLabel(file), false), converted.value];
    }
    AttachmentPartsOf(file, env);
  }

  /** The inner loop of compaction: converts each attachment and pushes its
      label and data part onto the buffer; failed conversions push nothing. */
  method PushAttachments(buffer: seq<Part>, files: seq<FilePath>, env: FileHandler.Environment)
    returns (out: seq<Part>)
    ensures out == buffer + FileParts(files, env)
  {
    out := buffer;
    var j := 0;
    while j < |files|
      invariant 0 <= j <= |files|
      invariant out == buffer + FileParts(files[..j], env)
    {
      var file := files[j];
      ghost var done := FileParts(files[..j], env);
      out := PushAttachment(out, file, env);
      assert out == buffer + FileParts(files[..j + 1], env) by {
        assert (buffer + done) + AttachmentParts(file, env) == buffer + (done + AttachmentParts(file, env));
        assert files[..j + 1] == files[..j] + [file];
        FilePartsSnoc(files[..j], file, env);
      }
      j := j + 1;
    }
    assert files[..j] == files;
  }

  /** The state of the compaction pass after the groups `ts`: the turns already
      flushed are the non-empty merged runs before the last one, and the buffer
      and the current author hold that last run. */
  ghost predicate Tracks(ts: seq<Turn>, session: seq<Turn>, buffer: seq<Part>, author: Option<Role>)
  {
    Tracking(Runs(ts), session, buffer, author)
  }

  /** `Tracks`, stated on the merged runs themselves. */
  ghost predicate Tracking(runs: seq<Turn>, session: seq<Turn>, buffer: seq<Part>, author: Option<Role>)
  {
    (author.None? <==> runs == []) &&
    (runs == [] ==> buffer == [] && session == []) &&
    (runs != [] ==>
      author == Some(runs[|runs| - 1].author) && buffer == runs[|runs| - 1].parts &&
      session == NonEmptyTurns(runs[..|runs| - 1]))
  }

  /** One group more: flush the buffer when the author changes, then extend it. */
  lemma TracksStep(ts: seq<Turn>, t: Turn, session: seq<Turn>, buffer: seq<Part>, author: Option<Role>)
    requires Tracks(ts, session, buffer, author)
    ensures
      var flush := author.Some? && author.value != t.author;
      Tracks(ts + [t],
             if flush && buffer != [] then session + [Turn(author.value, buffer)] else session,
             (if flush then [] else buffer) + t.parts,
             Some(t.author))
  {
    RunsSnoc(ts, t);
    TrackingStep(Runs(ts), t, session, buffer, author);
  }

  lemma TrackingStep(runs: seq<Turn>, t: Turn, session: seq<Turn>, buffer: seq<Part>, author: Option<Role>)
    requires Tracking(runs, session, buffer, author)
    ensures
      var flush := author.Some? && author.value != t.author;
      Tracking(Merge(runs, t),
               if flush && buffer != [] then session + [Turn(author.value, buffer)] else session,
               (if flush then [] else buffer) + t.parts,
               Some(t.author))
  {
    if runs == [] {
      assert [t][..0] == [];
    } else {
      var init, last := runs[..|runs| - 1], runs[|runs| - 1];
      assert NonEmptyTurns(runs) == NonEmptyTurns(init) + (if last.parts == [] then [] else [last]) by {
        assert runs == init + [last];
        NonEmptyTurnsSnoc(init, last);
      }
      if author.value != t.author {
        assert last == Turn(author.value, buffer);
        assert (runs + [t])[..|runs|] == runs;
      } else {
        var merged := init + [Turn(t.author, last.parts + t.parts)];
        assert merged[..|merged| - 1] == init;
      }
    }
  }

  /** At the end of the pass, flushing the buffer completes the history. */
  lemma TracksFinish(ts: seq<Turn>, session: seq<Turn>, buffer: seq<Part>, author: Option<Role>)
    requires Tracks(ts, session, buffer, author)
    ensures (if buffer != [] && author.Some? then session + [Turn(author.value, buffer)] else session) == NonEmptyTurns(Runs(ts))
  {
    var runs := Runs(ts);
    if runs != [] {
      assert runs == runs[..|runs| - 1] + [runs[|runs| - 1]];
      NonEmptyTurnsSnoc(runs[..|runs| - 1], runs[|runs| - 1]);
    }
  }

  /** The body of the compaction pass for one message that takes part: on a
      change of author the buffer is flushed as a turn (unless it is empty),
      then the message's attachments and text are pushed onto it. */
  method Absorb(session: seq<Turn>, buffer: seq<Part>, author: Option<Role>, message: Message, env: FileHandler.Environment)
    returns (session': seq<Turn>, buffer': seq<Part>, author': Option<Role>)
    ensures var flush := author.Some? && author.value != message.role;
      session' == (if flush && buffer != [] then session + [Turn(author.value, buffer)] else session) &&
      buffer' == (if flush then [] else buffer) + MessageParts(message, env) &&
      author' == Some(message.role)
  {
    session', buffer' := session, buffer;
    if author.Some? && author != Some(message.role) {
      var completed := buffer';
      buffer' := [];
      if completed != [] {
        session' := session' + [Turn(author.value, completed)];
      }
    }
    author' := Some(message.role);
    ghost var start := buffer';
    buffer' := PushAttachments(buffer', message.files, env);
    if message.content != "" {
      buffer' := buffer' + [Text(message.content, false)];
      assert buffer' == start + (FileParts(message.files, env) + [Text(message.content, false)]);
    }
  }

  /** Builds the request from the message history the way the completion task
      does: one pass over the messages with a parts buffer that is flushed as a
      turn whenever the author changes. */
  method BuildSession(messages: seq<Message>, index: nat, env: FileHandler.Environment)
    returns (session: seq<Turn>)
    ensures session == Session(messages, index, env)
  {
    var toProcess := if index < |messages| && messages[index].isGenerating then messages[..index] else messages;
    var buffer, author;
    session, buffer, author := GroupMessages(toProcess, env);
    TracksFinish(Contributions(toProcess, env), session, buffer, author);
    if buffer != [] && author.Some? {
      session := session + [Turn(author.value, buffer)];
    }
    if index < |messages| && messages[index].content != "" {
      session := session + [Turn(Assistant, [Text(messages[index].content, false)])];
    }
  }

  /** The loop of the compaction pass: afterwards the flushed turns, the buffer
      and the current author track the merged groups of all messages. */
  method GroupMessages(toProcess: seq<Message>, env: FileHandler.Environment)
    returns (session: seq<Turn>, buffer: seq<Part>, author: Option<Role>)
    ensures Tracks(Contributions(toProcess, env), session, buffer, author)
  {
    session, buffer, author := [], [], None;
    var i := 0;
    ghost var groups: seq<Turn> := [];
    while i < |toProcess|
      invariant 0 <= i <= |toProcess|
      invariant groups == Contributions(toProcess[..i], env)
      invariant Tracks(groups, session, buffer, author)
    {
      var message := toProcess[i];
      ghost var t := Turn(message.role, MessageParts(message, env));
      ContributionsStep(toProcess, i, env);
      if !Skipped(message) {
        ghost var session0, buffer0, author0 := session, buffer, author;
        session, buffer, author := Absorb(session, buffer, author, message, env);
        TracksStep(groups, t, session0, buffer0, author0);
        groups := groups + [t];
      }
      i := i + 1;
    }
    assert toProcess[..i] == toProcess;
  }

  // ---------------------------------------------------------------------------
  // Properties of the compacted history
  // ---------------------------------------------------------------------------

  /** All parts of a list of turns, in order. */
  function AllParts(ts: seq<Turn>): seq<Part>
  {
    if ts == [] then [] else AllParts(ts[..|ts| - 1]) + ts[|ts| - 1].parts
  }

  /** The parts of every message that is not a thought, in message order. */
  function PartsOfNonThoughts(msgs: seq<Message>, env: FileHandler.Environment): seq<Part>
  {
    if msgs == [] then []
    else
      var m := msgs[|msgs| - 1];
      PartsOfNonThoughts(msgs[..|msgs| - 1], env) + (if m.isThought then [] else MessageParts(m, env))
  }

  lemma {:induction false} AllPartsAppend(a: seq<Turn>, b: seq<Turn>)
    ensures AllParts(a + b) == AllParts(a) + AllParts(b)
    decreases |b|
  {
    if b != [] {
      assert (a + b)[..|a + b| - 1] == a + b[..|b| - 1];
      AllPartsAppend(a, b[..|b| - 1]);
    } else {
      assert a + b == a;
    }
  }

  /** Merging adjacent groups loses and reorders no part. */
  lemma {:induction false} RunsKeepParts(ts: seq<Turn>)
    ensures AllParts(Runs(ts)) == AllParts(ts)
    decreases |ts|
  {
    if ts != [] {
      var init, t := ts[..|ts| - 1], ts[|ts| - 1];
      var r := Runs(init);
      assert ts == init + [t];
      RunsKeepParts(init);
      RunsSnoc(init, t);
      AllPartsSnoc(init, t);
      if r != [] && r[|r| - 1].author == t.author {
        var prefix, last := r[..|r| - 1], r[|r| - 1];
        assert r == prefix + [last];
        MergedPartsSnoc(prefix, last, t);
      } else {
        AllPartsSnoc(r, t);
      }
    }
  }

  /** Merging a group into the last one appends its parts. */
  lemma MergedPartsSnoc(prefix: seq<Turn>, last: Turn, t: Turn)
    ensures AllParts(prefix + [Turn(t.author, last.parts + t.parts)]) == AllParts(prefix + [last]) + t.parts
  {
    AllPartsSnoc(prefix, last);
    AllPartsSnoc(prefix, Turn(t.author, last.parts + t.parts));
    var a, b, c := AllParts(prefix), last.parts, t.parts;
    assert a + (b + c) == (a + b) + c;
  }

  /** Adjacent turns have different authors. */
  ghost predicate Alternating(r: seq<Turn>)
  {
    forall k :: 0 <= k < |r| - 1 ==> r[k].author != r[k + 1].author
  }

  /** Adjacent merged groups always have different authors. */
  lemma {:induction false} RunsAlternate(ts: seq<Turn>)
    ensures forall k :: 0 <= k < |Runs(ts)| - 1 ==> Runs(ts)[k].author != Runs(ts)[k + 1].author
    ensures ts != [] ==> Runs(ts) != [] && Runs(ts)[|Runs(ts)| - 1].author == ts[|ts| - 1].author
    decreases |ts|
  {
    if ts != [] {
      var init, t := ts[..|ts| - 1], ts[|ts| - 1];
      RunsAlternate(init);
      MergeAlternates(Runs(init), t);
    }
  }

  /** Merging one more group keeps adjacent turns apart and ends with its author. */
  lemma MergeAlternates(r: seq<Turn>, t: Turn)
    requires Alternating(r)
    ensures Alternating(Merge(r, t))
    ensures Merge(r, t) != [] && Merge(r, t)[|Merge(r, t)| - 1].author == t.author
  {
    if r != [] && r[|r| - 1].author == t.author {
      var merged := r[..|r| - 1] + [Turn(t.author, r[|r| - 1].parts + t.parts)];
      assert forall k :: 0 <= k < |merged| - 1 ==> merged[k] == r[k];
    } else {
      assert forall k :: 0 <= k < |r| ==> (r + [t])[k] == r[k];
    }
  }

  /** Merging groups that all carry parts yields turns that all carry parts. */
  lemma {:induction false} RunsOfNonEmpty(ts: seq<Turn>)
    requires forall k :: 0 <= k < |ts| ==> ts[k].parts != []
    ensures forall k :: 0 <= k < |Runs(ts)| ==> Runs(ts)[k].parts != []
    decreases |ts|
  {
    if ts != [] {
      RunsOfNonEmpty(ts[..|ts| - 1]);
    }
  }

  lemma {:induction false} NonEmptyTurnsKeepParts(ts: seq<Turn>)
    ensures AllParts(NonEmptyTurns(ts)) == AllParts(ts)
    decreases |ts|
  {
    if ts != [] {
      var init := ts[..|ts| - 1];
      var last := ts[|ts| - 1];
      NonEmptyTurnsKeepParts(init);
      AllPartsAppend(NonEmptyTurns(init), if last.parts == [] then [] else [last]);
      assert AllParts([last]) == AllParts([]) + last.parts;
    }
  }

  lemma {:induction false} NonEmptyTurnsOfNonEmpty(ts: seq<Turn>)
    requires forall k :: 0 <= k < |ts| ==> ts[k].parts != []
    ensures NonEmptyTurns(ts) == ts
    decreases |ts|
  {
    if ts != [] {
      NonEmptyTurnsOfNonEmpty(ts[..|ts| - 1]);
      assert ts[..|ts| - 1] + [ts[|ts| - 1]] == ts;
    }
  }

  lemma {:induction false} ContributionsAppend(a: seq<Message>, b: seq<Message>, env: FileHandler.Environment)
    ensures Contributions(a + b, env) == Contributions(a, env) + Contributions(b, env)
    decreases |b|
  {
    if b == [] {
      assert a + b == a;
    } else {
      assert (a + b)[..|a + b| - 1] == a + b[..|b| - 1];
      ContributionsAppend(a, b[..|b| - 1], env);
    }
  }

  lemma {:induction false} ContributionsKeepParts(msgs: seq<Message>, env: FileHandler.Environment)
    ensures AllParts(Contributions(msgs, env)) == PartsOfNonThoughts(msgs, env)
    decreases |msgs|
  {
    if msgs != [] {
      var m := msgs[|msgs| - 1];
      var init := Contributions(msgs[..|msgs| - 1], env);
      ContributionsKeepParts(msgs[..|msgs| - 1], env);
      if Skipped(m) {
        assert init + [] == init;
      } else {
        AllPartsAppend(init, [Turn(m.role, MessageParts(m, env))]);
        assert AllParts([Turn(m.role, MessageParts(m, env))]) == AllParts([]) + MessageParts(m, env);
      }
    }
  }

  /** Compaction drops no part and reorders nothing: reading the turns in
      order gives the parts of every message that is not a thought, in
      message order (attachments first, text last, within each message). */
  lemma HistoryKeepsEveryPart(msgs: seq<Message>, env: FileHandler.Environment)
    ensures AllParts(History(msgs, env)) == PartsOfNonThoughts(msgs, env)
  {
    NonEmptyTurnsKeepParts(Runs(Contributions(msgs, env)));
    RunsKeepParts(Contributions(msgs, env));
    ContributionsKeepParts(msgs, env);
  }

  lemma {:induction false} ContributionsNonEmpty(msgs: seq<Message>, env: FileHandler.Environment)
    requires forall m :: m in msgs && !Skipped(m) ==> MessageParts(m, env) != []
    ensures forall k :: 0 <= k < |Contributions(msgs, env)| ==> Contributions(msgs, env)[k].parts != []
    decreases |msgs|
  {
    if msgs != [] {
      ContributionsNonEmpty(msgs[..|msgs| - 1], env);
    }
  }

  /** When every message that takes part contributes at least one part (no
      message whose attachments all failed and that has no text), consecutive
      turns come from different authors. */
  lemma HistoryAlternates(msgs: seq<Message>, env: FileHandler.Environment)
    requires forall m :: m in msgs && !Skipped(m) ==> MessageParts(m, env) != []
    ensures forall k :: 0 <= k < |History(msgs, env)| - 1 ==> History(msgs, env)[k].author != History(msgs, env)[k + 1].author
  {
    var cs := Contributions(msgs, env);
    ContributionsNonEmpty(msgs, env);
    RunsOfNonEmpty(cs);
    NonEmptyTurnsOfNonEmpty(Runs(cs));
    RunsAlternate(cs);
  }

  /** The last turn is `author`'s and its last part is `p`. */
  predicate EndsWithPart(ts: seq<Turn>, author: Role, p: Part)
  {
    |ts| > 0 && ts[|ts| - 1].author == author &&
    |ts[|ts| - 1].parts| > 0 && ts[|ts| - 1].parts[|ts[|ts| - 1].parts| - 1] == p
  }

  /** A message that is not skipped ends the history built from a list that
      ends with it: the last turn is its author's and ends with its text. */
  lemma LastMessageEndsHistory(prefix: seq<Message>, m: Message, env: FileHandler.Environment)
    requires !Skipped(m) && m.content != ""
    ensures EndsWithPart(History(prefix + [m], env), m.role, Text(m.content, false))
  {
    var c := Contributions(prefix, env);
    var t := Turn(m.role, MessageParts(m, env));
    HistoryOfKept(prefix, m, env);
    LastRunEndsWith(c, t);
    NonEmptyTurnsKeepLast(Runs(c + [t]), m.role, Text(m.content, false));
  }

  /** A message that takes part adds its own group after those of the messages before it. */
  lemma HistoryOfKept(prefix: seq<Message>, m: Message, env: FileHandler.Environment)
    requires !Skipped(m)
    ensures History(prefix + [m], env) == NonEmptyTurns(Runs(Contributions(prefix, env) + [Turn(m.role, MessageParts(m, env))]))
  {
    ContributionsSnoc(prefix, m, env);
  }

  /** The last merged run after a non-empty group is that group's author's and
      ends with that group's last part. */
  lemma LastRunEndsWith(c: seq<Turn>, t: Turn)
    requires t.parts != []
    ensures EndsWithPart(Runs(c + [t]), t.author, t.parts[|t.parts| - 1])
  {
    RunsSnoc(c, t);
    var r := Runs(c);
    if r != [] && r[|r| - 1].author == t.author {
      var merged := r[|r| - 1].parts + t.parts;
      assert Merge(r, t) == r[..|r| - 1] + [Turn(t.author, merged)];
      assert merged[|merged| - 1] == t.parts[|t.parts| - 1];
    } else {
      assert Merge(r, t) == r + [t];
    }
  }

  /** Dropping empty turns keeps a last turn that has parts. */
  lemma NonEmptyTurnsKeepLast(ts: seq<Turn>, author: Role, p: Part)
    requires EndsWithPart(ts, author, p)
    ensures EndsWithPart(NonEmptyTurns(ts), author, p)
  {
    assert ts == ts[..|ts| - 1] + [ts[|ts| - 1]];
    NonEmptyTurnsSnoc(ts[..|ts| - 1], ts[|ts| - 1]);
  }

  /** A message that is skipped changes nothing, wherever it stands. */
  lemma SkippedMessageIgnored(a: seq<Message>, m: Message, b: seq<Message>, env: FileHandler.Environment)
    requires Skipped(m)
    ensures History(a + [m] + b, env) == History(a + b, env)
  {
    var c := Contributions(a, env);
    assert Contributions(a + [m], env) == c by {
      ContributionsSnoc(a, m, env);
    }
    assert Contributions(a + [m] + b, env) == c + Contributions(b, env) by {
      ContributionsAppend(a + [m], b, env);
    }
    assert Contributions(a + b, env) == c + Contributions(b, env) by {
      ContributionsAppend(a, b, env);
    }
  }

  /** When the target is still generating, neither it (except through its
      text, which becomes the trailing assistant turn) nor anything after it
      reaches the request. */
  lemma GeneratingTargetExcluded(msgs: seq<Message>, other: seq<Message>, index: nat, env: FileHandler.Environment)
    requires index < |msgs| && index < |other|
    requires msgs[index].isGenerating && other[index].isGenerating
    requires msgs[..index] == other[..index] && msgs[index].content == other[index].content
    ensures Session(msgs, index, env) == Session(other, index, env)
  {
  }

  /** The exception to alternation: an assistant message whose only
      attachment cannot be read, between two user messages with text, leaves
      two user turns side by side. */
  lemma FailedAttachmentBreaksAlternation(f: FilePath, first: string, second: string, model: ModelName,
                                          env: FileHandler.Environment)
    requires env.read(f).None? && first != "" && second != ""
    ensures var msgs := [UserMessage(first, model, []), Message("", Assistant, model, false, false, [f], false, false),
                         UserMessage(second, model, [])];
      History(msgs, env) == [Turn(User, [Text(first, false)]), Turn(User, [Text(second, false)])]
  {
    var u1, u3 := UserMessage(first, model, []), UserMessage(second, model, []);
    var a := Message("", Assistant, model, false, false, [f], false, false);
    var c1, c2, c3 := Turn(User, [Text(first, false)]), Turn(Assistant, []), Turn(User, [Text(second, false)]);
    assert FileParts([], env) == [];
    assert MessageParts(u1, env) == c1.parts && MessageParts(u3, env) == c3.parts;
    UnreadableAttachmentSilent(f, env);
    assert MessageParts(a, env) == [];
    ThreeContributions(u1, a, u3, env);
    assert Contributions([u1, a, u3], env) == [c1, c2, c3];
    SilentTurnMerges(c1, c2, c3);
  }

  /** An attachment that cannot be read contributes no part. */
  lemma UnreadableAttachmentSilent(f: FilePath, env: FileHandler.Environment)
    requires env.read(f).None?
    ensures FileParts([f], env) == []
  {
    assert AttachmentParts(f, env) == [];
    FilePartsSnoc([], f, env);
    assert [] + [f] == [f];
  }

  lemma ThreeContributions(u1: Message, a: Message, u3: Message, env: FileHandler.Environment)
    requires !Skipped(u1) && !Skipped(a) && !Skipped(u3)
    ensures Contributions([u1, a, u3], env) ==
      [Turn(u1.role, MessageParts(u1, env)), Turn(a.role, MessageParts(a, env)), Turn(u3.role, MessageParts(u3, env))]
  {
    ContributionsSnoc([], u1, env);
    ContributionsSnoc([u1], a, env);
    ContributionsSnoc([u1, a], u3, env);
    assert [] + [u1] == [u1] && [u1] + [a] == [u1, a] && [u1, a] + [u3] == [u1, a, u3];
  }

  /** A turn without parts between two turns of another author keeps them apart. */
  lemma SilentTurnMerges(c1: Turn, c2: Turn, c3: Turn)
    requires c1.author == c3.author != c2.author && c2.parts == [] && c1.parts != [] && c3.parts != []
    ensures NonEmptyTurns(Runs([c1, c2, c3])) == [c1, c3]
  {
    var none: seq<Turn> := [];
    var g1 := none + [c1];
    var g2 := g1 + [c2];
    var g3 := g2 + [c3];
    assert Runs(g3) == g3 by {
      RunsSnoc(none, c1);
      RunsSnoc(g1, c2);
      RunsSnoc(g2, c3);
    }
    assert NonEmptyTurns(g3) == [c1, c3] by {
      NonEmptyTurnsSnoc(none, c1);
      NonEmptyTurnsSnoc(g1, c2);
      NonEmptyTurnsSnoc(g2, c3);
    }
    assert g3 == [c1, c2, c3];
  }

  /** Every inline data part of a request carries a whitelisted MIME type. */
  predicate InlineDataWhitelisted(ps: seq<Part>)
  {
    forall k :: 0 <= k < |ps| && ps[k].InlineData? ==> ps[k].mime in FileHandler.GeminiMime
  }

  lemma {:induction false} FilePartsWhitelisted(files: seq<FilePath>, env: FileHandler.Environment)
    ensures InlineDataWhitelisted(FileParts(files, env))
    decreases |files|
  {
    if files != [] {
      FilePartsWhitelisted(files[..|files| - 1], env);
      var last := files[|files| - 1];
      assert InlineDataWhitelisted(AttachmentParts(last, env));
    }
  }

  lemma {:induction false} NonThoughtPartsWhitelisted(msgs: seq<Message>, env: FileHandler.Environment)
    ensures InlineDataWhitelisted(PartsOfNonThoughts(msgs, env))
    decreases |msgs|
  {
    if msgs != [] {
      NonThoughtPartsWhitelisted(msgs[..|msgs| - 1], env);
      FilePartsWhitelisted(msgs[|msgs| - 1].files, env);
    }
  }

  /** Every attachment that reaches a request has a MIME type the backend accepts. */
  lemma SessionInlineDataWhitelisted(msgs: seq<Message>, index: nat, env: FileHandler.Environment)
    ensures InlineDataWhitelisted(AllParts(Session(msgs, index, env)))
  {
    var h := History(Processed(msgs, index), env);
    var p := PrependTurn(msgs, index);
    AllPartsAppend(h, p);
    HistoryKeepsEveryPart(Processed(msgs, index), env);
    NonThoughtPartsWhitelisted(Processed(msgs, index), env);
    if p != [] {
      assert AllParts(p) == AllParts([]) + p[0].parts;
    }
  }
}
