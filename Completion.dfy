/** The completion task: compaction of the history into a request, the
    streaming loop that forwards response parts to the chat while honouring
    the stop flag, and the terminal outcome reported back. */
module Completion {
  import opened Common
  import FileHandler
  import Compaction

  /** One element read from the response stream: a chunk of parts or a stream
      error, together with the value the stop flag has when the loop looks at
      it (the flag is set from the interface at any time). */
  datatype Arrival = Arrival(chunk: Result<seq<Part>, string>, stopSet: bool)

  /** A progress event sent to the chat: the target index and one part. */
  datatype Progress = Progress(index: nat, part: Part)

  /** How the task ends: success with the accumulated response text, an error
      for a message index, or a panic of the task itself. */
  datatype Terminal =
    | Completed(index: nat, text: string)
    | Failed(index: nat, message: string)
    | Panicked(message: string)

  /** What a spawned completion task receives: a copy of the history, the
      target index and whether the API key was empty at spawn time. */
  datatype Request = Request(messages: seq<Message>, index: nat, apiKeyMissing: bool)

  /** The backend: given the request turns, either a failure to open the
      stream or the sequence of arrivals it delivers. */
  type Backend = seq<Turn> -> Result<seq<Arrival>, string>

  const NoApiKeyMessage: string := "API key not set."

  /** Number of leading arrivals whose parts are forwarded: the loop stops at
      the end of the stream, at a stream error, and at the first chunk for
      which it sees the stop flag set. */
  function Admitted(arrivals: seq<Arrival>): (n: nat)
    ensures n <= |arrivals|
    ensures forall j :: 0 <= j < n ==> arrivals[j].chunk.Ok? && !arrivals[j].stopSet
    ensures n < |arrivals| ==> arrivals[n].chunk.Err? || arrivals[n].stopSet
  {
    if |arrivals| == 0 || arrivals[0].chunk.Err? || arrivals[0].stopSet then 0
    else 1 + Admitted(arrivals[1..])
  }

  /** All parts carried by the chunks of a sequence of arrivals, in order. */
  function PartsOf(arrivals: seq<Arrival>): seq<Part>
  {
    if arrivals == [] then []
    else
      var last := arrivals[|arrivals| - 1];
      PartsOf(arrivals[..|arrivals| - 1]) + (if last.chunk.Ok? then last.chunk.value else [])
  }

  /** The text of a response: every text part, thoughts included, concatenated. */
  function TextOf(parts: seq<Part>): string
  {
    if parts == [] then ""
    else
      var last := parts[|parts| - 1];
      TextOf(parts[..|parts| - 1]) + (if last.Text? then last.text else "")
  }

  /** Progress events for parts sent to the same target. */
  function Tagged(index: nat, parts: seq<Part>): (r: seq<Progress>)
    ensures |r| == |parts|
  {
    seq(|parts|, k requires 0 <= k < |parts| => Progress(index, parts[k]))
  }

  lemma {:induction false} TextOfAppend(a: seq<Part>, b: seq<Part>)
    ensures TextOf(a + b) == TextOf(a) + TextOf(b)
    decreases |b|
  {
    if b == [] {
      assert a + b == a;
    } else {
      assert (a + b)[..|a + b| - 1] == a + b[..|b| - 1];
      TextOfAppend(a, b[..|b| - 1]);
    }
  }

  lemma PartsOfSnoc(arrivals: seq<Arrival>, x: Arrival)
    ensures PartsOf(arrivals + [x]) == PartsOf(arrivals) + (if x.chunk.Ok? then x.chunk.value else [])
  {
    assert (arrivals + [x])[..|arrivals|] == arrivals;
  }

  /** The inner loop over one chunk: each part is sent as progress for the
      target, and the text of each text part is appended to the response. */
  method ForwardChunk(index: nat, parts: seq<Part>, sent: seq<Progress>, responseText: string)
    returns (sent': seq<Progress>, responseText': string)
    ensures sent' == sent + Tagged(index, parts)
    ensures responseText' == responseText + TextOf(parts)
  {
    sent', responseText' := sent, responseText;
    var j := 0;
    while j < |parts|
      invariant 0 <= j <= |parts|
      invariant sent' == sent + Tagged(index, parts[..j])
      invariant responseText' == responseText + TextOf(parts[..j])
    {
      var part := parts[j];
      assert parts[..j + 1] == parts[..j] + [part];
      assert parts[..j + 1][..j] == parts[..j];
      sent' := sent' + [Progress(index, part)];
      if part.Text? {
        responseText' := responseText' + part.text;
      }
      j := j + 1;
    }
    assert parts[..j] == parts;
  }

  /** The streaming loop: reads arrivals until the stream ends or fails, checks
      the stop flag before forwarding each chunk, forwards every part of the
      chunk and accumulates the text. `stopped` records that the flag was seen
      set and stored back to false. */
  method StreamResponse(index: nat, arrivals: seq<Arrival>)
    returns (sent: seq<Progress>, responseText: string, stopped: bool)
    ensures var n := Admitted(arrivals);
      sent == Tagged(index, PartsOf(arrivals[..n])) &&
      responseText == TextOf(PartsOf(arrivals[..n])) &&
      (stopped <==> n < |arrivals| && arrivals[n].chunk.Ok? && arrivals[n].stopSet)
  {
    sent, responseText, stopped := [], "", false;
    var i := 0;
    ghost var forwarded: seq<Part> := [];
    while i < |arrivals|
      invariant 0 <= i <= Admitted(arrivals)
      invariant !stopped
      invariant forwarded == PartsOf(arrivals[..i])
      invariant sent == Tagged(index, forwarded)
      invariant responseText == TextOf(forwarded)
    {
      if arrivals[i].chunk.Err? {
        break;
      }
      if arrivals[i].stopSet {
        stopped := true;
        break;
      }
      var parts := arrivals[i].chunk.value;
      sent, responseText := ForwardChunk(index, parts, sent, responseText);
      assert sent == Tagged(index, forwarded + parts) && responseText == TextOf(forwarded + parts) by {
        TaggedAppend(index, forwarded, parts);
        TextOfAppend(forwarded, parts);
      }
      assert PartsOf(arrivals[..i + 1]) == forwarded + parts by {
        assert arrivals[..i + 1] == arrivals[..i] + [arrivals[i]];
        PartsOfSnoc(arrivals[..i], arrivals[i]);
      }
      forwarded := forwarded + parts;
      i := i + 1;
    }
    assert i == Admitted(arrivals);
  }

  lemma TaggedAppend(index: nat, a: seq<Part>, b: seq<Part>)
    ensures Tagged(index, a + b) == Tagged(index, a) + Tagged(index, b)
  {
  }

  /** Once the loop sees the stop flag on a chunk, nothing that the stream
      delivers afterwards is forwarded. */
  lemma {:induction false} StopHaltsForwarding(arrivals: seq<Arrival>, k: nat, later: seq<Arrival>)
    requires k < |arrivals| && arrivals[k].chunk.Ok? && arrivals[k].stopSet
    ensures Admitted(arrivals) <= k
    ensures Admitted(arrivals + later) == Admitted(arrivals)
    decreases k
  {
    if k > 0 && arrivals[0].chunk.Ok? && !arrivals[0].stopSet {
      assert (arrivals + later)[1..] == arrivals[1..] + later;
      StopHaltsForwarding(arrivals[1..], k - 1, later);
    }
  }

  /** Without a stop request and without a stream error, every part of every
      chunk is forwarded. */
  lemma {:induction false} UninterruptedForwardsAll(arrivals: seq<Arrival>)
    requires forall j :: 0 <= j < |arrivals| ==> arrivals[j].chunk.Ok? && !arrivals[j].stopSet
    ensures Admitted(arrivals) == |arrivals|
    ensures PartsOf(arrivals[..Admitted(arrivals)]) == PartsOf(arrivals)
  {
    assert arrivals[..|arrivals|] == arrivals;
  }

  /** `request_completion` on the streaming path: builds the request turns,
      opens the stream (a failure ends the task with the error) and runs the
      streaming loop; the success carries the text accumulated until the loop
      stopped, whether it stopped because of a stop request or a stream error. */
  method RequestCompletion(messages: seq<Message>, index: nat, env: FileHandler.Environment, backend: Backend)
    returns (session: seq<Turn>, sent: seq<Progress>, result: Result<string, string>, stopped: bool)
    ensures session == Compaction.Session(messages, index, env)
    ensures backend(session).Err? ==> sent == [] && result == Err(backend(session).error) && !stopped
    ensures backend(session).Ok? ==>
      var arrivals := backend(session).value;
      var n := Admitted(arrivals);
      sent == Tagged(index, PartsOf(arrivals[..n])) &&
      result == Ok(TextOf(PartsOf(arrivals[..n]))) &&
      (stopped <==> n < |arrivals| && arrivals[n].chunk.Ok? && arrivals[n].stopSet)
  {
    session := Compaction.BuildSession(messages, index, env);
    match backend(session) {
      case Err(e) =>
        sent, result, stopped := [], Err(e), false;
      case Ok(arrivals) =>
        var text;
        sent, text, stopped := StreamResponse(index, arrivals);
        result := Ok(text);
    }
  }

  /** The spawned task: a missing API key fails at once; otherwise the
      completion is requested and its failure or success becomes the terminal
      outcome for the request's index. */
  method RunCompletionTask(request: Request, env: FileHandler.Environment, backend: Backend)
    returns (sent: seq<Progress>, outcome: Terminal, stopped: bool)
    ensures request.apiKeyMissing ==> sent == [] && outcome == Failed(request.index, NoApiKeyMessage) && !stopped
    ensures !request.apiKeyMissing ==>
      var session := Compaction.Session(request.messages, request.index, env);
      match backend(session)
      case Err(e) => sent == [] && outcome == Failed(request.index, e) && !stopped
      case Ok(arrivals) =>
        var n := Admitted(arrivals);
        sent == Tagged(request.index, PartsOf(arrivals[..n])) &&
        outcome == Completed(request.index, TextOf(PartsOf(arrivals[..n]))) &&
        (stopped <==> n < |arrivals| && arrivals[n].chunk.Ok? && arrivals[n].stopSet)
    ensures forall k :: 0 <= k < |sent| ==> sent[k].index == request.index
    ensures outcome.Completed? || outcome.Failed?
  {
    if request.apiKeyMissing {
      return [], Failed(request.index, NoApiKeyMessage), false;
    }
    var session, result;
    session, sent, result, stopped := RequestCompletion(request.messages, request.index, env, backend);
    match result {
      case Err(e) => outcome := Failed(request.index, e);
      case Ok(text) => outcome := Completed(request.index, text);
    }
  }

  /** A stream error in the middle of a response is not reported: forwarding
      stops exactly at it, so the task still succeeds with the text of the
      chunks before it (see `RequestCompletion`). */
  lemma MidStreamErrorStillCompletes(arrivals: seq<Arrival>, k: nat)
    requires k < |arrivals| && arrivals[k].chunk.Err?
    requires forall j :: 0 <= j < k ==> arrivals[j].chunk.Ok? && !arrivals[j].stopSet
    ensures Admitted(arrivals) == k
  {
  }

  /** A prefix of clean chunks is always forwarded in full. */
  lemma {:induction false} AdmittedOfCleanPrefix(before: seq<Arrival>, rest: seq<Arrival>)
    requires forall j :: 0 <= j < |before| ==> before[j].chunk.Ok? && !before[j].stopSet
    ensures Admitted(before + rest) == |before| + Admitted(rest)
    decreases |before|
  {
    if before != [] {
      assert (before + rest)[1..] == before[1..] + rest;
      AdmittedOfCleanPrefix(before[1..], rest);
    } else {
      assert before + rest == rest;
    }
  }
}
