/**
 * Answering a mention that carries media: the user's words with the bot's name removed, the media
 * turned into a context line stored in memory, and the prompt handed on. Image description, video
 * analysis and transcription results are inputs.
 */
module MediaRouter {
  import opened Wrappers
  import opened Strings
  import opened Mentions
  import opened Downloader
  import Video

  const DefaultInstruction: string := "Проаналізуй наведене медіа і відповідай по суті завдання."
  const AudioFailure: string := "Не вдалося обробити аудіо"
  const TranscriptHead: string := "Транскрипт аудіо:\n"
  const DocumentHead: string := "Отримано документ: "
  const DocumentNote: string := " (аналіз документів додамо окремо)"
  const MediaTag: string := "[MEDIA] "
  /** `str(e)` of the `IndexError` an empty path list raises. */
  const IndexErrorText: string := "list index out of range"

  /** `_strip_bot_mention`: every case-insensitive `@bot` followed by `\b` removed, then stripped. */
  function StripBotMention(text: string, botUsername: Option<string>): (r: string)
    ensures text == "" ==> r == ""
    ensures !Truthy(botUsername) ==> r == Strip(text)
    ensures Strip(r) == r
  {
    if text == "" then ""
    else
      var t := Strip(text);
      StripIdempotent(text);
      if Truthy(botUsername) then
        var u := Strip(RemoveMention(t, Needle(botUsername.value), true));
        StripIdempotent(RemoveMention(t, Needle(botUsername.value), true));
        u
      else t
  }

  /** A string with no whitespace at either end strips to itself. */
  lemma StripEnds(s: string)
    requires s != [] && !IsSpace(s[0]) && !IsSpace(s[|s| - 1])
    ensures Strip(s) == s
  {
  }

  /** "@bot words" leaves the words: the mention is cut at the boundary the space makes. */
  lemma LeadingMentionRemoved(botUsername: string, rest: string)
    requires botUsername != [] && IsWordChar(botUsername[|botUsername| - 1])
    requires forall i :: 0 <= i < |rest| ==> rest[i] != '@'
    requires rest != [] && Strip(rest) == rest
    ensures StripBotMention(Needle(botUsername) + " " + rest, Some(botUsername)) == rest
  {
    var text := Needle(botUsername) + " " + rest;
    StripShape(rest);
    assert text[|text| - 1] == rest[|rest| - 1];
    StripEnds(text);
    assert text == Needle(botUsername) + (" " + rest);
    MentionInFrontRemoved(botUsername, " " + rest, true);
    assert TrimLeft(" " + rest) == TrimLeft(rest) by {
      assert (" " + rest)[1..] == rest;
    }
    assert TrimLeft(rest) == rest;
  }

  /** A mention in front of a request leaves the request. */
  lemma MentionBeforeRequest()
    ensures StripBotMention("@mybot зроби щось", Some("mybot")) == "зроби щось"
  {
    var rest := "зроби щось";
    StripEnds(rest);
    LeadingMentionRemoved("mybot", rest);
    assert Needle("mybot") + " " + rest == "@mybot зроби щось";
  }

  /** What the media became: a context text, a failure the user is told about, or an uncaught error. */
  datatype MediaContext = Found(text: string) | Failed(reply: string) | Raised

  /** `user_text or None`, the hint passed to image description and video analysis. */
  function Hint(userText: string): Option<string> {
    if userText == "" then None else Some(userText)
  }

  /**
   * The `if/elif` chain on `info["type"]`. `describe` is the image describer (`Err` when
   * `describe_images` raises, which no `try` around it catches), `video` the outcome of analysing
   * the first path and `transcript` the outcome of transcribing it (`Some` text when the `.txt`
   * file exists).
   */
  function ContextOf(isPtb: bool, info: MediaInfo, userText: string,
                     describe: (seq<string>, Option<string>) -> Result<string>,
                     video: Result<Video.VideoReport>, transcript: Result<Option<string>>): (c: MediaContext)
    ensures c.Raised? <==> ((info.kind == Voice || info.kind == Audio) && info.paths == []) ||
                           (info.kind == Photo && describe(info.paths, Hint(userText)).Err?)
    ensures c.Failed? ==> info.kind == VideoFile || info.kind == Voice || info.kind == Audio
    ensures info.kind == Photo && describe(info.paths, Hint(userText)).Ok? ==>
      c == Found(describe(info.paths, Hint(userText)).value)
    ensures info.kind == Text ==> c == Found(OrEmpty(info.text))
  {
    match info.kind
    case Photo =>
      (match describe(info.paths, Hint(userText))
       case Err(_) => Raised
       case Ok(t) => Found(t))
    case VideoFile =>
      if info.paths == [] then Failed(IndexErrorText)
      else if video.Err? then Failed(video.error)
      else Found(video.value.summary)
    case Voice => AudioContext(info, transcript)
    case Audio => AudioContext(info, transcript)
    case Doc =>
      if info.paths != [] then Found(DocumentHead + Basename(info.paths[0]) + (if isPtb then DocumentNote else ""))
      else Found(OrEmpty(info.text))
    case Text => Found(OrEmpty(info.text))
  }

  /** The voice and audio branch; the first path is read before the `try`. */
  function AudioContext(info: MediaInfo, transcript: Result<Option<string>>): (c: MediaContext)
    ensures c.Raised? <==> info.paths == []
    ensures c.Failed? ==> c.reply == AudioFailure
    ensures c.Found? ==> StartsWith(c.text, TranscriptHead)
  {
    if info.paths == [] then Raised
    else if transcript.Err? then Failed(AudioFailure)
    else Found(TranscriptHead + transcript.value.GetOr(""))
  }

  /** What the handler does, in order. */
  datatype Step = ReplyWith(text: string) | AppendTool(content: string) | EnsureBudget

  /** The steps taken, the prompt returned (`None` after a reported failure) and whether an error escapes. */
  datatype MentionOutcome = MentionOutcome(steps: seq<Step>, prompt: Option<string>, raised: bool)

  /** `handle_ptb_mention` / `handle_telethon_mention` once the target message has been downloaded. */
  function HandleMention(isPtb: bool, rawText: string, botUsername: string, info: MediaInfo,
                         describe: (seq<string>, Option<string>) -> Result<string>,
                         video: Result<Video.VideoReport>, transcript: Result<Option<string>>): (r: MentionOutcome)
    ensures var userText := StripBotMention(rawText, Some(botUsername));
      var c := ContextOf(isPtb, info, userText, describe, video, transcript);
      (r.raised <==> c.Raised?) &&
      (c.Failed? ==> r == MentionOutcome([ReplyWith(c.reply)], None, false)) &&
      (c.Found? && c.text == "" ==> r.steps == []) &&
      (c.Found? && c.text != "" ==> r.steps == [AppendTool(MediaTag + c.text), EnsureBudget]) &&
      (c.Found? ==> r.prompt == Some(if userText != "" then userText else DefaultInstruction))
    ensures r.prompt.Some? ==> r.prompt.value != ""
    ensures r.prompt.None? ==> forall k :: 0 <= k < |r.steps| ==> !r.steps[k].AppendTool?
  {
    var userText := StripBotMention(rawText, Some(botUsername));
    match ContextOf(isPtb, info, userText, describe, video, transcript)
    case Raised => MentionOutcome([], None, true)
    case Failed(msg) => MentionOutcome([ReplyWith(msg)], None, false)
    case Found(ctx) =>
      var steps := if ctx != "" then [AppendTool(MediaTag + ctx), EnsureBudget] else [];
      MentionOutcome(steps, Some(if userText != "" then userText else DefaultInstruction), false)
  }

  /** `(msg.text or msg.caption or "") or ""` for a bot message. */
  function PtbRawText(text: Option<string>, caption: Option<string>): string {
    OrEmpty(Or(text, caption))
  }

  /**
   * On whatever the downloaders return, the `paths[0]` of the voice and audio branch never fails:
   * an error escapes the handler exactly when the media is a photo and describing it fails.
   */
  lemma DownloadedMediaRaisesOnlyInDescribe(isPtb: bool, rawText: string, botUsername: string,
                                            p: PtbMessage, tmpDir: string, t: TelethonMessage, downloaded: Option<string>,
                                            describe: (seq<string>, Option<string>) -> Result<string>,
                                            video: Result<Video.VideoReport>, transcript: Result<Option<string>>)
    ensures var userText := StripBotMention(rawText, Some(botUsername));
      var i := PtbDownload(p, tmpDir).0;
      HandleMention(isPtb, rawText, botUsername, i, describe, video, transcript).raised <==>
        i.kind == Photo && describe(i.paths, Hint(userText)).Err?
    ensures var userText := StripBotMention(rawText, Some(botUsername));
      var i := TelethonDownload(t, downloaded);
      HandleMention(isPtb, rawText, botUsername, i, describe, video, transcript).raised <==>
        i.kind == Photo && describe(i.paths, Hint(userText)).Err?
  {
    DownloadedHasOnePath(p, tmpDir, t, downloaded);
  }

  /** A text-only mention with nothing to say still yields the default instruction and stores nothing. */
  lemma BareMention(isPtb: bool, botUsername: string, describe: (seq<string>, Option<string>) -> Result<string>,
                    video: Result<Video.VideoReport>, transcript: Result<Option<string>>)
    ensures HandleMention(isPtb, "", botUsername, MediaInfo(Text, [], None), describe, video, transcript) ==
      MentionOutcome([], Some(DefaultInstruction), false)
  {
  }
}
