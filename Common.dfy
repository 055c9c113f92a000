/** Values shared by every part of the chat model: optional and fallible
    results, file paths, request parts, turns and chat messages. */
module Common {

  datatype Option<+T> = None | Some(value: T)

  datatype Result<+T, +E> = Ok(value: T) | Err(error: E)

  /** The model a message was produced with; only carried along, never inspected. */
  type ModelName = string

  // ---------------------------------------------------------------------------
  // File paths
  // ---------------------------------------------------------------------------

  /** A path, reduced to what the core looks at: its final component.
      `name` is None when the path has no final component (a root, or a
      path ending in `..`). */
  datatype FilePath = FilePath(dir: string, name: Option<string>)

  /** `file_name().unwrap_or_default()`: the final component, or "". */
  function FileName(p: FilePath): string
  {
    if p.name.Some? then p.name.value else ""
  }

  /** Position of the last occurrence of `c` in `s`. */
  function LastIndexOf(s: string, c: char): (r: Option<nat>)
    ensures r.Some? ==> r.value < |s| && s[r.value] == c
    ensures r.Some? ==> forall j :: r.value < j < |s| ==> s[j] != c
    ensures r.None? ==> forall j :: 0 <= j < |s| ==> s[j] != c
  {
    if |s| == 0 then None
    else if s[|s| - 1] == c then Some(|s| - 1)
    else LastIndexOf(s[..|s| - 1], c)
  }

  /** `Path::extension`: the text after the last '.' of the file name, provided
      that dot is not the first character of the name (".bashrc" has none). */
  function Extension(p: FilePath): (r: Option<string>)
    ensures r.Some? ==> p.name.Some? && '.' !in r.value
    ensures r.Some? ==> exists stem :: stem != [] && p.name.value == stem + "." + r.value
    ensures p.name.None? ==> r.None?
    ensures p.name.Some? && '.' !in p.name.value ==> r.None?
  {
    match p.name
    case None => None
    case Some(n) =>
      match LastIndexOf(n, '.')
      case None => None
      case Some(k) =>
        if k == 0 then None
        else
          var ext := n[k + 1..];
          assert n == n[..k] + "." + ext;
          Some(ext)
  }

  /** The converse: a file name made of a non-empty stem, a dot and a dot-free
      text has that text as its extension. */
  lemma ExtensionOfName(dir: string, stem: string, ext: string)
    requires stem != [] && '.' !in ext
    ensures Extension(FilePath(dir, Some(stem + "." + ext))) == Some(ext)
  {
    var n := stem + "." + ext;
    assert n[|stem|] == '.';
    assert LastIndexOf(n, '.') == Some(|stem|) by {
      assert forall j :: |stem| < j < |n| ==> n[j] == ext[j - |stem| - 1];
    }
    assert n[|stem| + 1..] == ext;
  }

  // ---------------------------------------------------------------------------
  // Request parts and turns
  // ---------------------------------------------------------------------------

  /** A content part of a request or a response: text (which a response may
      mark as a thought) or inline binary data with its MIME type. */
  datatype Part = Text(text: string, thought: bool) | InlineData(mime: string, data: string)

  datatype Role = User | Assistant

  /** One author's contiguous block of a request: `ask` is a user turn,
      `reply` an assistant turn. */
  datatype Turn = Turn(author: Role, parts: seq<Part>)

  // ---------------------------------------------------------------------------
  // Messages
  // ---------------------------------------------------------------------------

  /** A chat message. The timestamps and the purely visual flags of the Rust
      `Message` struct (copy-clicked, speaking) are not modelled. */
  datatype Message = Message(
    content: string,
    role: Role,
    model: ModelName,
    isGenerating: bool,
    isError: bool,
    files: seq<FilePath>,
    isPrepending: bool,
    isThought: bool)

  /** `Message::user`: a finished user message carrying the given attachments. */
  function UserMessage(content: string, model: ModelName, files: seq<FilePath>): (m: Message)
    ensures m.role == User && m.content == content && m.files == files && m.model == model
    ensures !m.isGenerating && !m.isError && !m.isThought && !m.isPrepending
  {
    Message(content, User, model, false, false, files, false, false)
  }

  /** `Message::assistant`: an assistant message that is still being generated. */
  function AssistantMessage(content: string, model: ModelName): (m: Message)
    ensures m.role == Assistant && m.content == content && m.files == [] && m.model == model
    ensures m.isGenerating && !m.isError && !m.isThought && !m.isPrepending
  {
    Message(content, Assistant, model, true, false, [], false, false)
  }
}
