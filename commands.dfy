/**
 * The slash-command handler: the gate deciding whether a command is meant for this bot, and the
 * argument guards and lookups of the individual commands.
 */
module Commands {
  import opened Wrappers
  import opened Strings
  import opened Auth

  const NoBotMessageReply: string := "Немає попереднього повідомлення бота для цього чату."
  const NoTextReply: string := "Немає тексту для озвучення."
  const NeedFileIdReply: string := "Вкажіть file_id після команди."
  const AssistantRole: string := "assistant"

  predicate IsGroupChat(chatType: string) {
    chatType == "group" || chatType == "supergroup"
  }

  /** In a group, the stripped text starts with "/" and its first token names this bot. */
  predicate AddressedToBot(text: Option<string>, botUsername: string) {
    var t := Strip(OrEmpty(text));
    StartsWith(t, "/") &&
    match FirstToken(t)
    case Some(tok) => Contains(tok, "@" + botUsername)
    case None => false
  }

  /** A text that starts with a non-space character has a first token, the run up to the first space. */
  lemma FirstTokenOfCommand(t: string)
    requires StartsWith(t, "/")
    ensures FirstToken(t) == Some(t[..RunLen(t, NotSpace)])
    ensures StartsWith(FirstToken(t).value, "/")
  {
    assert NotSpace(t[0]);
  }

  /**
   * `_is_command_for_me`: in a group or supergroup an unaddressed command is refused outright;
   * otherwise the answer is the command auth check.
   */
  function CommandForMe(chatType: string, text: Option<string>, botUsername: string,
                        flags: map<int, bool>, chat: int, password: string): (r: AuthOutcome)
    ensures !IsGroupChat(chatType) ==> r == EnsureAuthSpec(flags, chat, password)
    ensures IsGroupChat(chatType) && !AddressedToBot(text, botUsername) ==> r == AuthOutcome(false, flags, None)
    ensures IsGroupChat(chatType) && AddressedToBot(text, botUsername) ==> r == EnsureAuthSpec(flags, chat, password)
    ensures r.ok <==> (!IsGroupChat(chatType) || AddressedToBot(text, botUsername)) && (IsAuthed(flags, chat) || password == "")
  {
    if IsGroupChat(chatType) && !AddressedToBot(text, botUsername) then AuthOutcome(false, flags, None)
    else EnsureAuthSpec(flags, chat, password)
  }

  /** A group command whose first token is "/cmd@bot" passes the group test. */
  lemma AddressedCommand(cmd: string, botUsername: string, rest: string)
    requires forall i :: 0 <= i < |cmd| ==> !IsSpace(cmd[i])
    requires forall i :: 0 <= i < |botUsername| ==> !IsSpace(botUsername[i])
    ensures AddressedToBot(Some("/" + cmd + "@" + botUsername), botUsername)
  {
    var t := "/" + cmd + "@" + botUsername;
    StripNoSpace(t);
    assert StartsWith(t, "/");
    FirstTokenOfCommand(t);
    assert RunLen(t, NotSpace) == |t| by {
      RunLenAll(t);
    }
    assert t[..|t|] == t;
    var p := "@" + botUsername;
    assert OccursAt(t, p, 1 + |cmd|) by {
      assert t[1 + |cmd|..1 + |cmd| + |p|] == p;
    }
    ContainsAt(t, p);
  }

  lemma {:induction false} RunLenAll(s: string)
    requires forall i :: 0 <= i < |s| ==> !IsSpace(s[i])
    ensures RunLen(s, NotSpace) == |s|
    decreases |s|
  {
    if |s| > 0 {
      RunLenAll(s[1..]);
    }
  }

  // ---------------------------------------------------------------- resend_last_as_voice

  /** A history entry; `content` is `None` when the stored value is not a `str`. */
  datatype HistEntry = HistEntry(role: string, content: Option<string>)

  /** The entry the resend loop accepts: an assistant entry with non-blank string content. */
  predicate IsBotText(e: HistEntry) {
    e.role == AssistantRole && e.content.Some? && Strip(e.content.value) != ""
  }

  /** The index where `for entry in reversed(history)` stops, if it does. */
  function LastBotIndex(h: seq<HistEntry>): (i: Option<nat>)
    ensures i.None? <==> forall k :: 0 <= k < |h| ==> !IsBotText(h[k])
    ensures i.Some? ==> (i.value < |h| && IsBotText(h[i.value]) &&
      forall k :: i.value < k < |h| ==> !IsBotText(h[k]))
    decreases |h|
  {
    if |h| == 0 then None
    else if IsBotText(h[|h| - 1]) then Some(|h| - 1)
    else LastBotIndex(h[..|h| - 1])
  }

  /** The reversed search with `break`. */
  method FindLastBotText(h: seq<HistEntry>) returns (last: Option<string>)
    ensures LastBotIndex(h).None? ==> last.None?
    ensures LastBotIndex(h).Some? ==> last == h[LastBotIndex(h).value].content
  {
    last := None;
    var k := |h|;
    while k > 0
      invariant 0 <= k <= |h|
      invariant forall j :: k <= j < |h| ==> !IsBotText(h[j])
    {
      k := k - 1;
      var e := h[k];
      if e.role == AssistantRole && e.content.Some? && Strip(e.content.value) != "" {
        last := e.content;
        LastBotAt(h, k);
        return;
      }
    }
  }

  lemma {:induction false} LastBotAt(h: seq<HistEntry>, k: nat)
    requires k < |h| && IsBotText(h[k])
    requires forall j :: k < j < |h| ==> !IsBotText(h[j])
    ensures LastBotIndex(h) == Some(k)
    decreases |h|
  {
    if k < |h| - 1 {
      var h' := h[..|h| - 1];
      assert !IsBotText(h[|h| - 1]);
      assert forall j :: k < j < |h'| ==> h'[j] == h[j];
      LastBotAt(h', k);
    }
  }

  /** What a command does once it has passed the gate (the file-store calls are named, not modelled). */
  datatype CmdAction =
    | NoAction
    | ReplyText(text: string)
    | Speak(text: string)
    | RemoveFile(fileId: string)
    | ClearChatHistory
    | ReplyStats
    | ListFiles
    | ClearFiles

  /** `resend_last_as_voice_command`: speak the latest bot text, or say there is none. */
  function ResendAction(h: seq<HistEntry>): (a: CmdAction)
    ensures LastBotIndex(h).None? <==> a == ReplyText(NoBotMessageReply)
    ensures a.Speak? ==> exists k :: 0 <= k < |h| && IsBotText(h[k]) && h[k].content == Some(a.text)
  {
    match LastBotIndex(h)
    case None => ReplyText(NoBotMessageReply)
    case Some(i) => Speak(h[i].content.value)
  }

  // ---------------------------------------------------------------- stats and argument guards

  /** `secs // 3600, (secs % 3600) // 60, secs % 60` */
  function SplitUptime(secs: int): (r: (int, int, int))
    ensures r.0 * 3600 + r.1 * 60 + r.2 == secs
    ensures 0 <= r.1 < 60 && 0 <= r.2 < 60
    ensures secs >= 0 ==> r.0 >= 0
  {
    var m := (secs % 3600) / 60;
    var s := secs % 60;
    assert secs % 3600 == m * 60 + s by {
      ModSplit(secs);
    }
    (secs / 3600, m, s)
  }

  lemma ModSplit(secs: int)
    ensures secs % 3600 == ((secs % 3600) / 60) * 60 + secs % 60
  {
    var q := secs / 3600;
    var r := secs % 3600;
    assert secs == q * 3600 + r;
    assert secs == (q * 60 + r / 60) * 60 + r % 60;
    assert secs % 60 == r % 60;
  }

  /** `audio_command`: the arguments joined by spaces and stripped; nothing to say means a reply only. */
  function AudioAction(args: seq<string>): (a: CmdAction)
    ensures a == ReplyText(NoTextReply) || (a.Speak? && a.text != "" && a.text == Strip(Join(args, " ")))
  {
    var t := Strip(Join(args, " "));
    if t == "" then ReplyText(NoTextReply) else Speak(t)
  }

  /** Arguments that are all blank (or none at all) never reach speech synthesis. */
  lemma BlankArgsNoSpeech(args: seq<string>)
    requires forall i :: 0 <= i < |args| ==> IsBlank(args[i])
    ensures AudioAction(args) == ReplyText(NoTextReply)
  {
    JoinBlank(args);
    StripEmptyIffBlank(Join(args, " "));
  }

  lemma {:induction false} JoinBlank(args: seq<string>)
    requires forall i :: 0 <= i < |args| ==> IsBlank(args[i])
    ensures IsBlank(Join(args, " "))
    decreases |args|
  {
    if |args| > 1 {
      JoinBlank(args[1..]);
      var j := Join(args[1..], " ");
      assert Join(args, " ") == args[0] + " " + j;
      assert IsBlank(args[0]);
      forall i | 0 <= i < |args[0] + " " + j| ensures IsSpace((args[0] + " " + j)[i]) {
        if i < |args[0]| {
        } else if i == |args[0]| {
        } else {
          assert (args[0] + " " + j)[i] == j[i - |args[0]| - 1];
        }
      }
    }
  }

  /** `remove_file_command`: without arguments only a reply; otherwise the stripped first argument. */
  function RemoveFileAction(args: Option<seq<string>>): (a: CmdAction)
    ensures (args.None? || args.value == []) <==> a == ReplyText(NeedFileIdReply)
    ensures a.RemoveFile? ==> args.Some? && |args.value| > 0 && a.fileId == Strip(args.value[0])
    ensures a.ReplyText? || a.RemoveFile?
  {
    if args.None? || args.value == [] then ReplyText(NeedFileIdReply)
    else RemoveFile(Strip(args.value[0]))
  }

  /** The seven commands of `CommandHandler`. */
  datatype Command =
    | ClearHistoryCmd
    | ResendLastAsVoiceCmd
    | StatsCmd
    | AudioCmd(args: seq<string>)
    | ShowFilesCmd
    | RemoveFileCmd(removeArgs: Option<seq<string>>)
    | ClearFilesCmd

  /** The body a command runs once the gate has let it through. */
  function CommandBody(c: Command, h: seq<HistEntry>): (a: CmdAction)
    ensures a != NoAction
  {
    match c
    case ClearHistoryCmd => ClearChatHistory
    case ResendLastAsVoiceCmd => ResendAction(h)
    case StatsCmd => ReplyStats
    case AudioCmd(args) => AudioAction(args)
    case ShowFilesCmd => ListFiles
    case RemoveFileCmd(args) => RemoveFileAction(args)
    case ClearFilesCmd => ClearFiles
  }

  /** Every command first asks `_is_command_for_me`; a refused command does nothing else. */
  function HandleCommand(c: Command, chatType: string, text: Option<string>, botUsername: string,
                         flags: map<int, bool>, chat: int, password: string,
                         h: seq<HistEntry>): (r: (AuthOutcome, CmdAction))
    ensures r.0 == CommandForMe(chatType, text, botUsername, flags, chat, password)
    ensures !r.0.ok ==> r.1 == NoAction
    ensures r.1 != NoAction ==> r.0.ok && (IsAuthed(flags, chat) || password == "")
    ensures !r.0.ok ==> r.0.flags == flags
    ensures r.0.ok ==> r.1 == CommandBody(c, h) && r.1 != NoAction
  {
    var gate := CommandForMe(chatType, text, botUsername, flags, chat, password);
    if !gate.ok then (gate, NoAction) else (gate, CommandBody(c, h))
  }
}
