/** Turning an attached file into a request part (the MIME decision and the
    whitelist), and the rule by which the attachment strip drops a file. */
module FileHandler {
  import opened Common

  type Bytes = seq<bv8>

  /** The MIME types the completion backend accepts. */
  const GeminiMime: seq<string> := [
    "image/png",
    "image/jpeg",
    "image/webp",
    "audio/aac",
    "audio/flac",
    "audio/mp3",
    "audio/m4a",
    "audio/mpeg",
    "audio/mpga",
    "audio/opus",
    "audio/pcm",
    "audio/wav",
    "audio/webm",
    "audio/aiff",
    "audio/ogg",
    "video/mp4",
    "application/pdf",
    "text/plain"
  ]

  /** An image format recognised from the leading bytes of a file. */
  datatype ImageFormat = Png | Jpeg | OtherFormat(name: string)

  datatype ConvertError =
    | ReadFailed                      // the file could not be read
    | ImageConversionFailed           // decoding or PNG re-encoding failed
    | UnsupportedMime(mime: string)   // the final MIME type is not whitelisted

  /** Everything the conversion asks of the outside world, as oracles:
      reading the file, guessing a MIME type from the path (falling back to
      `application/octet-stream`), sniffing an image format from bytes,
      decoding an image and writing it back as PNG, and Base64 encoding
      (section 4 of RFC 4648). */
  datatype Environment = Environment(
    read: FilePath -> Option<Bytes>,
    guessMime: FilePath -> string,
    guessFormat: Bytes -> Option<ImageFormat>,
    toPng: (Bytes, ImageFormat) -> Option<Bytes>,
    base64: Bytes -> string)

  /** The top-level type of a MIME type: the text before its first '/'. */
  function TopLevelType(mime: string): (r: string)
    ensures |r| <= |mime| && r == mime[..|r|]
    ensures '/' !in r
    ensures |r| < |mime| ==> mime[|r|] == '/'
  {
    if |mime| == 0 || mime[0] == '/' then "" else [mime[0]] + TopLevelType(mime[1..])
  }

  /** True when an image of this guessed type and sniffed format is re-encoded
      as PNG: the format is known and is neither PNG nor JPEG. */
  predicate Reencodes(guessed: string, sniffed: Option<ImageFormat>)
  {
    TopLevelType(guessed) == "image" && sniffed.Some? && !sniffed.value.Png? && !sniffed.value.Jpeg?
  }

  /** Reads a file and builds the inline-data part sent to the backend. */
  function ConvertFileToPart(path: FilePath, env: Environment): (r: Result<Part, ConvertError>)
    // success always carries a whitelisted MIME type
    ensures r.Ok? ==> r.value.InlineData? && r.value.mime in GeminiMime
    ensures env.read(path).None? ==> r == Err(ReadFailed)
    // JSON is sent as plain text
    ensures r.Ok? && env.guessMime(path) == "application/json" ==> r.value.mime == "text/plain"
    // a non-PNG/JPEG image is re-encoded and labelled as PNG
    ensures env.read(path).Some? && Reencodes(env.guessMime(path), env.guessFormat(env.read(path).value)) ==>
      var bytes := env.read(path).value;
      var png := env.toPng(bytes, env.guessFormat(bytes).value);
      r == (if png.Some? then Ok(InlineData("image/png", env.base64(png.value))) else Err(ImageConversionFailed))
    // everything else keeps its bytes and its guessed type, and fails exactly when that type is not whitelisted
    ensures env.read(path).Some? && !Reencodes(env.guessMime(path), env.guessFormat(env.read(path).value)) ==>
      var bytes := env.read(path).value;
      var mime := if env.guessMime(path) == "application/json" then "text/plain" else env.guessMime(path);
      r == (if mime in GeminiMime then Ok(InlineData(mime, env.base64(bytes))) else Err(UnsupportedMime(mime)))
  {
    match env.read(path)
    case None => Err(ReadFailed)
    case Some(fileBytes) =>
      var guessed := env.guessMime(path);
      var mime := if guessed == "application/json" then "text/plain" else guessed;
      var decided: Result<(string, Bytes), ConvertError> :=
        if TopLevelType(guessed) == "image" then
          match env.guessFormat(fileBytes)
          case Some(format) =>
            if format.Png? || format.Jpeg? then Ok((mime, fileBytes))
            else
              (match env.toPng(fileBytes, format)
               case None => Err(ImageConversionFailed)
               case Some(png) => Ok(("image/png", png)))
          case None => Ok((mime, fileBytes))
        else Ok((mime, fileBytes));
      match decided
      case Err(e) => Err(e)
      case Ok((finalMime, finalBytes)) =>
        if finalMime in GeminiMime then Ok(InlineData(finalMime, env.base64(finalBytes)))
        else Err(UnsupportedMime(finalMime))
  }

  lemma JsonBecomesPlainText(path: FilePath, env: Environment)
    requires env.read(path).Some? && env.guessMime(path) == "application/json"
    ensures ConvertFileToPart(path, env) == Ok(InlineData("text/plain", env.base64(env.read(path).value)))
  {
    var mime := "application/json";
    var top := TopLevelType(mime);
    assert mime[11] == '/';
    assert top != "image";
  }

  // ---------------------------------------------------------------------------
  // Removing an attachment from the strip
  // ---------------------------------------------------------------------------

  /** Where the pointer is relative to one tile of the attachment strip:
      within the tile's frame widened by 8 points, and on its close button. */
  datatype TileHit = TileHit(nearTile: bool, onCloseButton: bool)

  /** The first of the first `n` tiles that the pointer is near. */
  function FirstNear(hit: nat -> TileHit, n: nat): (r: Option<nat>)
    ensures r.Some? ==> r.value < n && hit(r.value).nearTile
    ensures r.Some? ==> forall j :: 0 <= j < r.value ==> !hit(j).nearTile
    ensures r.None? ==> forall j :: 0 <= j < n ==> !hit(j).nearTile
  {
    if n == 0 then None
    else
      match FirstNear(hit, n - 1)
      case Some(k) => Some(k)
      case None => if hit(n - 1).nearTile then Some(n - 1) else None
  }

  /** The files left after one pass of the strip: only the first tile under the
      pointer shows a close button, and it is removed when that button is clicked. */
  function Retained(files: seq<FilePath>, mutate: bool, hit: nat -> TileHit, clicked: bool): seq<FilePath>
  {
    if !mutate then files
    else
      match FirstNear(hit, |files|)
      case None => files
      case Some(k) => if hit(k).onCloseButton && clicked then files[..k] + files[k + 1..] else files
  }

  /** Without `mutate` every file is kept; otherwise at most one file is
      removed and the others keep their order. */
  lemma RetainedRemovesAtMostOne(files: seq<FilePath>, mutate: bool, hit: nat -> TileHit, clicked: bool)
    ensures !mutate ==> Retained(files, mutate, hit, clicked) == files
    ensures var kept := Retained(files, mutate, hit, clicked);
      kept == files || exists k :: 0 <= k < |files| && kept == files[..k] + files[k + 1..]
  {
  }

  /** `show_files` without the drawing: keeps each file unless it is the one
      whose close button was clicked. */
  method RetainFiles(files: seq<FilePath>, mutate: bool, hit: nat -> TileHit, clicked: bool)
    returns (kept: seq<FilePath>)
    ensures kept == Retained(files, mutate, hit, clicked)
  {
    kept := [];
    var showingX := false;
    var i := 0;
    while i < |files|
      invariant 0 <= i <= |files|
      invariant showingX <==> mutate && FirstNear(hit, i).Some?
      invariant kept == Retained(files[..i], mutate, hit, clicked)
    {
      var keep := true;
      if mutate && !showingX && hit(i).nearTile {
        showingX := true;
        if hit(i).onCloseButton && clicked {
          keep := false;
        }
      }
      assert files[..i + 1] == files[..i] + [files[i]];
      if keep {
        kept := kept + [files[i]];
      }
      i := i + 1;
    }
    assert files[..|files|] == files;
  }
}
