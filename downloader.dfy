/**
 * Saving the media of a message to the temporary directory and classifying it: a fixed type
 * precedence for bot messages, the lowercased file extension for user-bot messages. The transfers
 * themselves are inputs.
 */
module Downloader {
  import opened Wrappers
  import opened Strings

  const DefaultMediaTmp: string := "/tmp/aisus_media"

  datatype MediaKind = Photo | VideoFile | Voice | Audio | Doc | Text

  /** The `type` strings of the result dictionary. */
  function KindName(k: MediaKind): string {
    match k
    case Photo => "photo"
    case VideoFile => "video"
    case Voice => "voice"
    case Audio => "audio"
    case Doc => "doc"
    case Text => "text"
  }

  /** `{"type": …, "paths": […], "text": …}` */
  datatype MediaInfo = MediaInfo(kind: MediaKind, paths: seq<string>, text: Option<string>)

  // ---------------------------------------------------------------- path helpers

  /** The last index of `c` in `s`, if any (`str.rfind`). */
  function LastIndexOf(s: string, c: char): (r: Option<nat>)
    ensures r.None? <==> forall i :: 0 <= i < |s| ==> s[i] != c
    ensures r.Some? ==> r.value < |s| && s[r.value] == c && forall i :: r.value < i < |s| ==> s[i] != c
    decreases |s|
  {
    if |s| == 0 then None
    else if s[|s| - 1] == c then Some(|s| - 1)
    else LastIndexOf(s[..|s| - 1], c)
  }

  /** `os.path.basename`: what follows the last '/'. */
  function Basename(p: string): (b: string)
    ensures |b| <= |p| && b == p[|p| - |b|..]
    ensures forall i :: 0 <= i < |b| ==> b[i] != '/'
    ensures (forall i :: 0 <= i < |p| ==> p[i] != '/') ==> b == p
  {
    match LastIndexOf(p, '/')
    case None => p
    case Some(i) => p[i + 1..]
  }

  /**
   * The extension `os.path.splitext` returns: from the last '.' of the last path component on,
   * provided that component has a character other than '.' before it (so ".bashrc" has none).
   */
  function SplitExt(p: string): (e: string)
    ensures e == "" || (|e| <= |p| && e == p[|p| - |e|..] && e[0] == '.' &&
      forall i :: 1 <= i < |e| ==> e[i] != '.' && e[i] != '/')
  {
    var sep: int := match LastIndexOf(p, '/') case None => -1 case Some(i) => i;
    match LastIndexOf(p, '.')
    case None => ""
    case Some(dot) =>
      if dot > sep && exists k :: sep < k < dot && p[k] != '.' then p[dot..] else ""
  }

  /** A plain `stem.ext` name has the extension `.ext`. */
  lemma SplitExtPlain(stem: string, ext: string)
    requires stem != "" && forall i :: 0 <= i < |stem| ==> stem[i] != '.' && stem[i] != '/'
    requires forall i :: 0 <= i < |ext| ==> ext[i] != '.' && ext[i] != '/'
    ensures SplitExt(stem + "." + ext) == "." + ext
  {
    var p := stem + "." + ext;
    var dot := |stem|;
    assert p[dot] == '.';
    assert forall i :: dot < i < |p| ==> p[i] == ext[i - dot - 1];
    assert LastIndexOf(p, '.') == Some(dot);
    assert forall i :: 0 <= i < |p| ==> p[i] != '/';
    assert p[0] == stem[0];
    assert p[dot..] == "." + ext;
  }

  // ---------------------------------------------------------------- bot-API messages

  datatype Document = Document(fileId: string, fileName: Option<string>)

  /** The media fields of a bot-API message; `photoSizes` are file ids, smallest first. */
  datatype PtbMessage = PtbMessage(chatId: int, messageId: int, text: Option<string>, caption: Option<string>,
                                   photoSizes: seq<string>, video: Option<string>, voice: Option<string>,
                                   audio: Option<string>, document: Option<Document>)

  /** One file transfer: which file id is fetched and where it is stored. */
  datatype Transfer = Transfer(fileId: string, dest: string)

  /** Whether a message carries media of that kind (a text is always there). */
  predicate Present(m: PtbMessage, k: MediaKind) {
    match k
    case Photo => m.photoSizes != []
    case VideoFile => m.video.Some?
    case Voice => m.voice.Some?
    case Audio => m.audio.Some?
    case Doc => m.document.Some?
    case Text => true
  }

  /** The place a kind has in the bot-API precedence photo, video, voice, audio, document, text. */
  function Rank(k: MediaKind): nat {
    match k
    case Photo => 0
    case VideoFile => 1
    case Voice => 2
    case Audio => 3
    case Doc => 4
    case Text => 5
  }

  /** `os.path.splitext(file_name or "file.bin")[1] or ".bin"` */
  function DocExt(fileName: Option<string>): (e: string)
    ensures e != "" && e[0] == '.'
  {
    var ext := SplitExt(if Truthy(fileName) then fileName.value else "file.bin");
    if ext == "" then ".bin" else ext
  }

  /** A document without a usable name is stored as ".bin". */
  lemma DocExtDefault()
    ensures DocExt(None) == ".bin"
    ensures DocExt(Some("")) == ".bin"
  {
    SplitExtPlain("file", "bin");
    assert "file" + "." + "bin" == "file.bin";
    assert SplitExt("file.bin") == ".bin";
    assert !Truthy(None) && !Truthy(Some(""));
  }

  /** `MEDIA_TMP / f"{chat_id}_{message_id}{ext}"` */
  function Destination(tmpDir: string, chatId: int, messageId: int, ext: string): string {
    tmpDir + "/" + IntToString(chatId) + "_" + IntToString(messageId) + ext
  }

  /** The extension a bot-API download of that kind is stored with. */
  function PtbExt(m: PtbMessage, k: MediaKind): string
    requires Present(m, k)
  {
    match k
    case Photo => ".jpg"
    case VideoFile => ".mp4"
    case Voice => ".ogg"
    case Audio => ".mp3"
    case Doc => DocExt(m.document.value.fileName)
    case Text => ""
  }

  /** `download_from_ptb_message`: the result dictionary and the one transfer, if any. */
  function PtbDownload(m: PtbMessage, tmpDir: string): (r: (MediaInfo, Option<Transfer>))
    ensures Present(m, r.0.kind) && forall k :: Present(m, k) ==> Rank(r.0.kind) <= Rank(k)
    ensures r.0.kind == Text <==> r.0.paths == [] && r.1.None?
    ensures r.0.kind != Text ==> (r.1.Some? && r.0.paths == [r.1.value.dest] &&
      r.1.value.dest == Destination(tmpDir, m.chatId, m.messageId, PtbExt(m, r.0.kind)))
    ensures r.0.kind == Photo ==> r.1.value.fileId == m.photoSizes[|m.photoSizes| - 1]
    ensures r.0.text == (if Truthy(Or(m.text, m.caption)) then Or(m.text, m.caption) else None)
  {
    var text := if Truthy(Or(m.text, m.caption)) then Or(m.text, m.caption) else None;
    var kind :=
      if m.photoSizes != [] then Photo
      else if m.video.Some? then VideoFile
      else if m.voice.Some? then Voice
      else if m.audio.Some? then Audio
      else if m.document.Some? then Doc
      else Text;
    if kind == Text then (MediaInfo(Text, [], text), None)
    else
      var fileId := match kind
        case Photo => m.photoSizes[|m.photoSizes| - 1]
        case VideoFile => m.video.value
        case Voice => m.voice.value
        case Audio => m.audio.value
        case Doc => m.document.value.fileId
        case Text => "";
      var dest := Destination(tmpDir, m.chatId, m.messageId, PtbExt(m, kind));
      (MediaInfo(kind, [dest], text), Some(Transfer(fileId, dest)))
  }

  // ---------------------------------------------------------------- user-bot messages

  /** The fields of a user-bot message the classification reads. */
  datatype TelethonMessage = TelethonMessage(chatId: int, id: int, message: Option<string>, hasMedia: bool,
                                             isPhoto: bool, isVideo: bool)

  const ImageExts: set<string> := {".jpg", ".jpeg", ".png", ".webp"}
  const VideoExts: set<string> := {".mp4", ".mov", ".mkv"}
  const VoiceExts: set<string> := {".ogg", ".oga", ".opus"}
  const AudioExts: set<string> := {".mp3", ".wav", ".m4a"}

  /** The `if/elif` chain on the message flags and the lowercased extension. */
  function Classify(ext: string, isPhoto: bool, isVideo: bool): MediaKind {
    if isPhoto || ext in ImageExts then Photo
    else if isVideo || ext in VideoExts then VideoFile
    else if ext in VoiceExts then Voice
    else if ext in AudioExts then Audio
    else Doc
  }

  /** For a plain file the extension alone decides, by four disjoint tables, and anything else is a document. */
  lemma ClassifyByExtension(ext: string)
    ensures Classify(ext, false, false) == Photo <==> ext in ImageExts
    ensures Classify(ext, false, false) == VideoFile <==> ext in VideoExts
    ensures Classify(ext, false, false) == Voice <==> ext in VoiceExts
    ensures Classify(ext, false, false) == Audio <==> ext in AudioExts
    ensures Classify(ext, false, false) == Doc <==>
      ext !in ImageExts && ext !in VideoExts && ext !in VoiceExts && ext !in AudioExts
    ensures Classify(ext, false, false) != Text
  {
  }

  /** `download_from_telethon_message`, given the path `download_media` returned. */
  function TelethonDownload(m: TelethonMessage, downloaded: Option<string>): (r: MediaInfo)
    ensures r.text == (if Truthy(m.message) then m.message else None)
    ensures r.kind == Text <==> !m.hasMedia || !Truthy(downloaded)
    ensures r.kind == Text ==> r.paths == []
    ensures r.kind != Text ==> (r.paths == [downloaded.value] &&
      r.kind == Classify(Lower(SplitExt(downloaded.value)), m.isPhoto, m.isVideo))
  {
    var text := if Truthy(m.message) then m.message else None;
    if !m.hasMedia || !Truthy(downloaded) then MediaInfo(Text, [], text)
    else
      var path := downloaded.value;
      MediaInfo(Classify(Lower(SplitExt(path)), m.isPhoto, m.isVideo), [path], text)
  }

  /** Both downloaders give every non-text result exactly one path. */
  lemma DownloadedHasOnePath(p: PtbMessage, tmpDir: string, t: TelethonMessage, downloaded: Option<string>)
    ensures var i := PtbDownload(p, tmpDir).0; i.kind != Text ==> |i.paths| == 1
    ensures var i := TelethonDownload(t, downloaded); i.kind != Text ==> |i.paths| == 1
  {
  }
}
