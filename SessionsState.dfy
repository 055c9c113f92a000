/** The list of chats shown in the side panel: adding and removing chats, the
    selection, the files dropped onto the selected chat and the files picked
    for a chat in the background. */
module SessionsState {
  import opened Common
  import ChatState

  // ---------------------------------------------------------------------------
  // Dropped files
  // ---------------------------------------------------------------------------

  /** Extensions of the image formats the file dialog and the drop filter accept. */
  const ImageFormats: seq<string> :=
    ["bmp", "dds", "ff", "gif", "hdr", "ico", "jpeg", "jpg", "exr", "png", "pnm", "qoi", "tga", "tiff", "webp"]
  /** The video list holds a single placeholder entry. */
  const VideoFormats: seq<string> := ["TODO"]

  /** Every accepted extension: images, video, then the text and music lists. */
  function AllFormats(textFormats: seq<string>, musicFormats: seq<string>): seq<string>
  {
    ImageFormats + VideoFormats + textFormats + musicFormats
  }

  /** Lower case of a character, for the ASCII letters. */
  function LowerChar(c: char): char
  {
    if 'A' <= c <= 'Z' then (c as int - 'A' as int + 'a' as int) as char else c
  }

  /** `str::to_lowercase`, for the ASCII letters. */
  function Lower(s: string): (r: string)
    ensures |r| == |s| && forall k :: 0 <= k < |s| ==> r[k] == LowerChar(s[k])
  {
    seq(|s|, k requires 0 <= k < |s| => LowerChar(s[k]))
  }

  /** What happens to one dropped file. */
  datatype Verdict =
    | Ignored                 // a drop without a path
    | Accepted(path: FilePath)
    | Rejected(notice: string)

  /** The filter applied to one dropped file: a drop without a path is
      ignored, one without an extension or with an extension whose lower case
      is not a listed format is rejected with a notice naming the file, and
      any other is attached. */
  function Judge(drop: Option<FilePath>, formats: seq<string>): (v: Verdict)
    ensures v.Accepted? <==> drop.Some? && Extension(drop.value).Some? && Lower(Extension(drop.value).value) in formats
    ensures v.Accepted? ==> v.path == drop.value
    ensures v.Ignored? <==> drop.None?
  {
    match drop
    case None => Ignored
    case Some(path) =>
      match Extension(path)
      case None => Rejected("Skipping file with no extension: `" + FileName(path) + "`")
      case Some(ext) =>
        if Lower(ext) in formats then Accepted(path)
        else Rejected("Skipping unsupported file type: `" + FileName(path) + "`")
  }

  /** The attached files, in drop order. */
  function AcceptedFiles(drops: seq<Option<FilePath>>, formats: seq<string>): seq<FilePath>
  {
    if drops == [] then []
    else
      var v := Judge(drops[|drops| - 1], formats);
      AcceptedFiles(drops[..|drops| - 1], formats) + (if v.Accepted? then [v.path] else [])
  }

  /** The notices shown for rejected files, in drop order. */
  function Notices(drops: seq<Option<FilePath>>, formats: seq<string>): seq<string>
  {
    if drops == [] then []
    else
      var v := Judge(drops[|drops| - 1], formats);
      Notices(drops[..|drops| - 1], formats) + (if v.Rejected? then [v.notice] else [])
  }

  /** The number of drops that carry a path. */
  function WithPath(drops: seq<Option<FilePath>>): nat
  {
    if drops == [] then 0
    else WithPath(drops[..|drops| - 1]) + (if drops[|drops| - 1].Some? then 1 else 0)
  }

  lemma DropsSnoc(drops: seq<Option<FilePath>>, d: Option<FilePath>, formats: seq<string>)
    ensures var v := Judge(d, formats);
      AcceptedFiles(drops + [d], formats) == AcceptedFiles(drops, formats) + (if v.Accepted? then [v.path] else []) &&
      Notices(drops + [d], formats) == Notices(drops, formats) + (if v.Rejected? then [v.notice] else []) &&
      WithPath(drops + [d]) == WithPath(drops) + (if d.Some? then 1 else 0)
  {
    assert (drops + [d])[..|drops|] == drops;
  }

  /** Every attached file has an extension whose lower case is a listed format. */
  lemma {:induction false} AcceptedAreSupported(drops: seq<Option<FilePath>>, formats: seq<string>)
    ensures forall p :: p in AcceptedFiles(drops, formats) ==>
      Extension(p).Some? && Lower(Extension(p).value) in formats
  {
    if drops != [] {
      AcceptedAreSupported(drops[..|drops| - 1], formats);
    }
  }

  /** Every supported file dropped with a path is attached. */
  lemma {:induction false} SupportedAreAccepted(drops: seq<Option<FilePath>>, formats: seq<string>, k: nat)
    requires k < |drops| && drops[k].Some?
    requires Extension(drops[k].value).Some? && Lower(Extension(drops[k].value).value) in formats
    ensures drops[k].value in AcceptedFiles(drops, formats)
    decreases |drops|
  {
    if k < |drops| - 1 {
      assert drops[..|drops| - 1][k] == drops[k];
      SupportedAreAccepted(drops[..|drops| - 1], formats, k);
    }
  }

  /** Each drop with a path is either attached or reported, never both. */
  lemma {:induction false} EveryPathAccounted(drops: seq<Option<FilePath>>, formats: seq<string>)
    ensures |AcceptedFiles(drops, formats)| + |Notices(drops, formats)| == WithPath(drops)
  {
    if drops != [] {
      EveryPathAccounted(drops[..|drops| - 1], formats);
    }
  }

  /** The video placeholder is upper case, so no lower-cased extension ever
      matches it: only images, text and music are accepted. */
  lemma VideoPlaceholderNeverMatches(ext: string, textFormats: seq<string>, musicFormats: seq<string>)
    ensures Lower(ext) in AllFormats(textFormats, musicFormats) <==>
      Lower(ext) in ImageFormats + textFormats + musicFormats
  {
    var l := Lower(ext);
    assert l != "TODO" by {
      if |ext| > 0 {
        assert l[0] == LowerChar(ext[0]) != 'T';
      }
    }
    assert l !in VideoFormats;
  }

  /** The loop over dropped files: accepted paths in drop order, and one
      notice per rejected file in drop order. */
  method SortDrops(drops: seq<Option<FilePath>>, formats: seq<string>) returns (accepted: seq<FilePath>, rejected: seq<string>)
    ensures accepted == AcceptedFiles(drops, formats)
    ensures rejected == Notices(drops, formats)
  {
    accepted, rejected := [], [];
    var i := 0;
    while i < |drops|
      invariant 0 <= i <= |drops|
      invariant accepted == AcceptedFiles(drops[..i], formats)
      invariant rejected == Notices(drops[..i], formats)
    {
      assert drops[..i + 1] == drops[..i] + [drops[i]];
      DropsSnoc(drops[..i], drops[i], formats);
      var verdict := Judge(drops[i], formats);
      if verdict.Accepted? {
        accepted := accepted + [verdict.path];
      } else if verdict.Rejected? {
        rejected := rejected + [verdict.notice];
      }
      i := i + 1;
    }
    assert drops[..i] == drops;
  }

  // ---------------------------------------------------------------------------
  // Responses of the background tasks
  // ---------------------------------------------------------------------------

  /** What a background task reports: nothing, a notice, files picked for the
      chat with the given completion-channel id, or settings loaded from a file. */
  datatype BackendResponse =
    | Ignore
    | Notice(text: string)
    | Files(id: nat, files: seq<FilePath>)
    | NewSettings(settings: ChatState.Settings)

  /** Position of the first chat with the given id. */
  function FirstWithId(chats: seq<ChatState.Chat>, id: nat): (r: Option<nat>)
    ensures r.Some? ==> r.value < |chats| && chats[r.value].id == id
    ensures r.Some? ==> forall j :: 0 <= j < r.value ==> chats[j].id != id
    ensures r.None? ==> forall j :: 0 <= j < |chats| ==> chats[j].id != id
  {
    if chats == [] then None
    else if chats[0].id == id then Some(0)
    else
      match FirstWithId(chats[1..], id)
      case None => None
      case Some(k) => Some(k + 1)
  }

  // ---------------------------------------------------------------------------
  // The chat list
  // ---------------------------------------------------------------------------

  /** The fields of the session list, as one value, so that a method can say
      which of them it changes. */
  datatype SessionsFields = SessionsFields(
    chats: seq<ChatState.Chat>, selectedChat: nat, chatMarkedForDeletion: nat,
    editedChat: Option<nat>, settingsOpen: bool, notices: seq<string>, settings: ChatState.Settings)

  /** The fields of a chat made by `Chat::new` with the given model. */
  function EmptyChat(model: ModelName): ChatState.ChatFields
  {
    ChatState.ChatFields([], "", [], "", "", None, model)
  }

  class Sessions {
    var chats: seq<ChatState.Chat>
    var selectedChat: nat
    var chatMarkedForDeletion: nat
    var editedChat: Option<nat>
    var settingsOpen: bool
    var notices: seq<string>
    var settings: ChatState.Settings

    /** No chat object appears twice in the list. */
    predicate Valid()
      reads this
    {
      forall i, j :: 0 <= i < j < |chats| ==> chats[i] != chats[j]
    }

    /** The current values of the fields. */
    ghost function Fields(): SessionsFields
      reads this
    {
      SessionsFields(chats, selectedChat, chatMarkedForDeletion, editedChat, settingsOpen, notices, settings)
    }

    /** `Sessions::default`: a single default chat with completion-channel id 1. */
    constructor (settings: ChatState.Settings, defaultModel: ModelName)
      ensures Valid()
      ensures |chats| == 1 && fresh(chats[0]) && chats[0].id == 1 && chats[0].Fields() == EmptyChat(defaultModel)
      ensures selectedChat == 0 && chatMarkedForDeletion == 0 && editedChat == None
      ensures !settingsOpen && notices == [] && this.settings == settings
    {
      var chat := new ChatState.Chat(1, defaultModel);
      chats := [chat];
      selectedChat := 0;
      chatMarkedForDeletion := 0;
      editedChat := None;
      settingsOpen := false;
      notices := [];
      this.settings := settings;
    }

    /** `add_default_chat`: appends an empty chat with the model of the
        settings, whose id is the length of the list plus two. */
    method AddDefaultChat()
      requires Valid()
      modifies this
      ensures Valid()
      ensures |chats| == |old(chats)| + 1 && chats[..|old(chats)|] == old(chats)
      ensures var c := chats[|chats| - 1];
        fresh(c) && c.id == |old(chats)| + 2 && c.Fields() == EmptyChat(settings.model)
      ensures chats[|chats| - 1].id != 1
      ensures Fields() == old(Fields()).(chats := chats)
    {
      var c := new ChatState.Chat(|chats| + 2, settings.model);
      chats := chats + [c];
    }

    /** `remove_chat`: removes exactly the chat at `idx`. A list left empty
        gets one new default chat, selected; otherwise a selection past the
        end moves to the last chat. */
    method RemoveChat(idx: nat)
      requires Valid() && idx < |chats|
      modifies this
      ensures Valid()
      ensures var rest := old(chats)[..idx] + old(chats)[idx + 1..];
        if rest == [] then
          |chats| == 1 && fresh(chats[0]) && chats[0].id == 2 && chats[0].Fields() == EmptyChat(settings.model) &&
          selectedChat == 0
        else
          chats == rest &&
          selectedChat == (if old(selectedChat) >= |rest| then |rest| - 1 else old(selectedChat))
      ensures |chats| > 0 && selectedChat < |chats|
      ensures Fields() == old(Fields()).(chats := chats, selectedChat := selectedChat)
    {
      chats := chats[..idx] + chats[idx + 1..];
      if chats == [] {
        AddDefaultChat();
        selectedChat := 0;
      } else if selectedChat >= |chats| {
        selectedChat := |chats| - 1;
      }
    }

    /** The "New Chat" button: a default chat is added and selected, and the
        settings panel and any chat title editor are closed. */
    method NewChat()
      requires Valid()
      modifies this
      ensures Valid()
      ensures |chats| == |old(chats)| + 1 && chats[..|old(chats)|] == old(chats)
      ensures var c := chats[|chats| - 1];
        fresh(c) && c.id == |old(chats)| + 2 && c.Fields() == EmptyChat(settings.model)
      ensures selectedChat == |chats| - 1 && editedChat == None && !settingsOpen
      ensures Fields() == old(Fields()).(chats := chats, selectedChat := |chats| - 1, editedChat := None, settingsOpen := false)
    {
      AddDefaultChat();
      selectedChat := |chats| - 1;
      editedChat := None;
      settingsOpen := false;
    }

    /** A click on a chat in the side panel selects it and closes the settings
        panel and the title editor. */
    method SelectChat(idx: nat)
      modifies this
      ensures Fields() == old(Fields()).(selectedChat := idx, settingsOpen := false, editedChat := None)
    {
      selectedChat := idx;
      settingsOpen := false;
      editedChat := None;
    }

    /** The edit button of the chat at `idx` opens its title editor, or closes
        it when it is the one open. */
    method ToggleEdit(idx: nat)
      modifies this
      ensures old(editedChat) == Some(idx) ==> editedChat == None
      ensures old(editedChat) != Some(idx) ==> editedChat == Some(idx)
      ensures Fields() == old(Fields()).(editedChat := editedChat)
    {
      editedChat := if editedChat == Some(idx) then None else Some(idx);
    }

    /** The remove button of the chat at `idx`: a chat without messages, or
        any chat while Shift is held, is removed at once (as `RemoveChat`);
        otherwise it is marked for deletion (pending confirmation) and the
        title editor is closed. */
    method ClickRemove(idx: nat, shift: bool)
      requires Valid() && idx < |chats|
      modifies this
      ensures Valid()
      ensures old(chats[idx].messages) == [] || shift ==>
        var rest := old(chats)[..idx] + old(chats)[idx + 1..];
        (if rest == [] then
          |chats| == 1 && fresh(chats[0]) && chats[0].id == 2 && chats[0].Fields() == EmptyChat(settings.model) &&
          selectedChat == 0
        else
          chats == rest &&
          selectedChat == (if old(selectedChat) >= |rest| then |rest| - 1 else old(selectedChat))) &&
        Fields() == old(Fields()).(chats := chats, selectedChat := selectedChat)
      ensures !(old(chats[idx].messages) == [] || shift) ==>
        Fields() == old(Fields()).(chatMarkedForDeletion := idx, editedChat := None)
    {
      if chats[idx].messages == [] || shift {
        RemoveChat(idx);
      } else {
        chatMarkedForDeletion := idx;
        editedChat := None;
      }
    }

    /** The start of `show_selected_chat`: with a selection past the end the
        selection is reset to the first chat and nothing else happens;
        otherwise the dropped files are filtered, the accepted ones appended
        to the selected chat's attachments in drop order and a notice queued
        for each rejected one. */
    method ShowSelectedChat(drops: seq<Option<FilePath>>, textFormats: seq<string>, musicFormats: seq<string>)
      requires Valid()
      modifies this, chats
      ensures Valid()
      ensures old(selectedChat) >= |chats| ==>
        Fields() == old(Fields()).(selectedChat := 0) &&
        forall j :: 0 <= j < |chats| ==> chats[j].Fields() == old(chats[j].Fields())
      ensures old(selectedChat) < |chats| ==>
        var formats := AllFormats(textFormats, musicFormats);
        var chat := chats[old(selectedChat)];
        Fields() == old(Fields()).(notices := old(notices) + Notices(drops, formats)) &&
        chat.Fields() == old(chat.Fields()).(files := old(chat.files) + AcceptedFiles(drops, formats)) &&
        forall j :: 0 <= j < |chats| && j != old(selectedChat) ==> chats[j].Fields() == old(chats[j].Fields())
    {
      if selectedChat >= |chats| {
        selectedChat := 0;
        return;
      }
      var chat := chats[selectedChat];
      var accepted, rejected := SortDrops(drops, AllFormats(textFormats, musicFormats));
      chat.files := chat.files + accepted;
      notices := notices + rejected;
      assert forall j :: 0 <= j < |chats| && j != selectedChat ==> chats[j] != chat;
    }

    /** A finished background task: a notice is queued, picked files are
        appended in order to the first chat with the given id (to none when
        no chat has it), loaded settings replace the current ones. */
    method PollBackend(response: BackendResponse)
      requires Valid()
      modifies this, chats
      ensures Valid()
      ensures Fields() == old(Fields()).(notices := notices, settings := settings)
      ensures response.Notice? ==> notices == old(notices) + [response.text]
      ensures !response.Notice? ==> notices == old(notices)
      ensures response.NewSettings? ==> settings == response.settings
      ensures !response.NewSettings? ==> settings == old(settings)
      ensures forall j :: 0 <= j < |chats| ==> chats[j].Fields() == old(chats[j].Fields()).(files := chats[j].files)
      ensures response.Files? ==>
        match FirstWithId(chats, response.id)
        case None => forall j :: 0 <= j < |chats| ==> chats[j].files == old(chats[j].files)
        case Some(k) =>
          chats[k].files == old(chats[k].files) + response.files &&
          forall j :: 0 <= j < |chats| && j != k ==> chats[j].files == old(chats[j].files)
      ensures !response.Files? ==> forall j :: 0 <= j < |chats| ==> chats[j].files == old(chats[j].files)
    {
      match response {
        case Ignore =>
        case Notice(text) =>
          notices := notices + [text];
        case Files(id, files) =>
          AttachPicked(id, files);
        case NewSettings(s) =>
          settings := s;
      }
    }

    /** The `Files` response: a search for the first chat with the id, whose
        attachments are extended; no other field of any chat changes. */
    method AttachPicked(id: nat, files: seq<FilePath>)
      requires Valid()
      modifies chats
      ensures forall j :: 0 <= j < |chats| ==> chats[j].Fields() == old(chats[j].Fields()).(files := chats[j].files)
      ensures match FirstWithId(chats, id)
        case None => forall j :: 0 <= j < |chats| ==> chats[j].files == old(chats[j].files)
        case Some(k) =>
          chats[k].files == old(chats[k].files) + files &&
          forall j :: 0 <= j < |chats| && j != k ==> chats[j].files == old(chats[j].files)
    {
      var k := 0;
      while k < |chats| && chats[k].id != id
        invariant 0 <= k <= |chats|
        invariant forall j :: 0 <= j < k ==> chats[j].id != id
      {
        k := k + 1;
      }
      if k < |chats| {
        assert FirstWithId(chats, id) == Some(k);
        chats[k].files := chats[k].files + files;
      }
    }
  }
}
