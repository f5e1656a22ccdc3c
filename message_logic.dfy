/**
 * The platform-neutral message flow: mention detection, the join-password gate for chats not yet
 * authorised, and the order in which the user turn, the answer and the memory upkeep happen.
 */
module MessageLogic {
  import opened Wrappers
  import opened Strings
  import opened Mentions
  import opened AgentRunner

  const PasswordAccepted: string := "✅ Пароль прийнято. Я готова працювати тут."

  /** `f"🔒 Напиши: @{bot_username} <пароль>"` */
  function PasswordHint(botUsername: string): string {
    "🔒 Напиши: @" + botUsername + " <пароль>"
  }

  /** `_has_mention_text` */
  function HasMentionText(text: string, botUsername: string): (b: bool)
    ensures text == "" || botUsername == "" ==> !b
    ensures text != "" && botUsername != "" ==> (b <==> Contains(Lower(text), Lower(Needle(botUsername))))
  {
    if text == "" || botUsername == "" then false
    else Contains(Lower(text), Lower(Needle(botUsername)))
  }

  /** `_has_mention_ptb`: an entity check first, then the same substring test as the fallback. */
  function HasMentionPtb(text: Option<string>, caption: Option<string>, entityTypes: seq<string>,
                         botUsername: string): (b: bool)
    ensures b <==> Contains(Lower(OrEmpty(Or(text, caption))), Lower(Needle(botUsername)))
  {
    var needle := Lower(Needle(botUsername));
    var t := OrEmpty(Or(text, caption));
    if (exists k :: 0 <= k < |entityTypes| && entityTypes[k] in {"mention", "text_mention"}) &&
       Contains(Lower(t), needle)
    then true
    else Contains(Lower(t), needle)
  }

  /** The fields of `UnifiedMessage` the flow reads (`text` for PTB is the raw message's text). */
  datatype Incoming = Incoming(isPtb: bool, chat: int, text: Option<string>, caption: Option<string>,
                               entityTypes: seq<string>, botUsername: Option<string>)

  /** The effects of `process_message`, in order. */
  datatype Effect =
    | UpsertAuth(chat: int, mode: string)
    | Reply(text: string)
    | HandleMention
    | AppendMemory(role: string, content: string)
    | EnsureBudget
    | RunAgent(prompt: string)
    | RunSimple(prompt: string)

  function MessageText(m: Incoming): string {
    OrEmpty(Or(m.text, m.caption))
  }

  function Mentioned(m: Incoming): bool {
    var bot := OrEmpty(m.botUsername);
    if m.isPtb then HasMentionPtb(m.text, m.caption, m.entityTypes, bot)
    else HasMentionText(MessageText(m), bot)
  }

  /** The first word left after every `@bot` is removed (case-insensitively) and the text stripped. */
  function JoinWord(m: Incoming): string {
    var stripped := Strip(RemoveMention(MessageText(m), Needle(OrEmpty(m.botUsername)), false));
    if stripped == "" then "" else FirstToken(stripped).GetOr("")
  }

  /** The password gate of an unauthorised chat. */
  function GateEffects(m: Incoming, joinPassword: string): (es: seq<Effect>)
    ensures !Mentioned(m) ==> es == []
    ensures (exists k :: 0 <= k < |es| && es[k].UpsertAuth?) <==>
      Mentioned(m) && JoinWord(m) != "" && JoinWord(m) == joinPassword
    ensures |es| <= 2
  {
    if !Mentioned(m) then []
    else
      var pw := JoinWord(m);
      if pw != "" && pw == joinPassword then
        var es := [UpsertAuth(m.chat, if m.isPtb then "bot" else "userbot"), Reply(PasswordAccepted)];
        assert es[0].UpsertAuth?;
        es
      else [Reply(PasswordHint(OrEmpty(m.botUsername)))]
  }

  /**
   * `process_message`, given whether the chat is authorised, the mention handler's result, the
   * agent-mode flags and the answer the model returns.
   */
  function ProcessEffects(m: Incoming, authed: bool, joinPassword: string, mentionResult: Option<string>,
                          strict: bool, thinkingEnabled: bool, answer: string): seq<Effect>
  {
    if !authed then GateEffects(m, joinPassword)
    else
      var mentioned := Mentioned(m);
      var userText := if mentioned then mentionResult else None;
      var base := Strip(MessageText(m));
      var prompt := if userText.Some? then userText.value else base;
      AuthedEffects(mentioned, userText, base, RunFor(prompt, strict, thinkingEnabled), answer)
  }

  /** Which completion runs: the agent when `should_use_agent` says so, the plain completion otherwise. */
  function RunFor(prompt: string, strict: bool, thinkingEnabled: bool): (e: Effect)
    ensures IsRun(e)
    ensures e.RunAgent? <==> ShouldUseAgent(prompt, strict, thinkingEnabled)
  {
    if ShouldUseAgent(prompt, strict, thinkingEnabled) then RunAgent(prompt) else RunSimple(prompt)
  }

  /** The authorised branch of `process_message`, with the model call `run` already chosen. */
  function AuthedEffects(mentioned: bool, userText: Option<string>, base: string, run: Effect,
                         answer: string): seq<Effect>
  {
    var pre := if mentioned then [HandleMention] else [];
    if userText.None? && base == "" then pre
    else
      var turn := if userText.None? then [AppendMemory("user", base), EnsureBudget] else [];
      var post := if answer == "" then [] else [Reply(answer), AppendMemory("assistant", answer), EnsureBudget];
      pre + turn + [run] + post
  }

  predicate IsRun(e: Effect) { e.RunAgent? || e.RunSimple? }

  /** An unauthorised chat never reaches memory or the model, and without a mention nothing happens at all. */
  lemma UnauthorisedChat(m: Incoming, joinPassword: string, mentionResult: Option<string>,
                         strict: bool, thinkingEnabled: bool, answer: string)
    ensures var es := ProcessEffects(m, false, joinPassword, mentionResult, strict, thinkingEnabled, answer);
      (!Mentioned(m) ==> es == []) &&
      (forall k :: 0 <= k < |es| ==> !IsRun(es[k]) && !es[k].AppendMemory? && !es[k].EnsureBudget?)
  {
  }

  /** An authorised chat runs the authorised branch on the mention handler's result and the chosen model call. */
  lemma AuthorisedBranch(m: Incoming, joinPassword: string, mentionResult: Option<string>,
                         strict: bool, thinkingEnabled: bool, answer: string)
    ensures var userText := if Mentioned(m) then mentionResult else None;
      var prompt := if userText.Some? then userText.value else Strip(MessageText(m));
      ProcessEffects(m, true, joinPassword, mentionResult, strict, thinkingEnabled, answer) ==
        AuthedEffects(Mentioned(m), userText, Strip(MessageText(m)), RunFor(prompt, strict, thinkingEnabled), answer)
  {
  }

  /**
   * In an authorised chat a plain message with a blank text touches nothing; otherwise, unless the
   * mention handler produced the prompt, the user turn is stored and the budget kept right before
   * the model runs.
   */
  lemma AuthedTurnFirst(mentioned: bool, userText: Option<string>, base: string, run: Effect, answer: string)
    requires IsRun(run)
    ensures var es := AuthedEffects(mentioned, userText, base, run, answer);
      (!mentioned && base == "" && userText.None? ==> es == []) &&
      (userText.None? && base != "" ==> exists i :: (0 <= i && i + 2 < |es| &&
        es[i] == AppendMemory("user", base) && es[i + 1] == EnsureBudget && IsRun(es[i + 2])))
  {
    if userText.None? && base != "" {
      var es := AuthedEffects(mentioned, userText, base, run, answer);
      var i := if mentioned then 1 else 0;
      assert es[i] == AppendMemory("user", base) && es[i + 1] == EnsureBudget && es[i + 2] == run;
    }
  }

  /** A non-empty answer is replied, stored and budgeted right after the model call; an empty one ends the flow. */
  lemma AuthedAnswerLast(mentioned: bool, userText: Option<string>, base: string, run: Effect, answer: string)
    requires IsRun(run)
    ensures var es := AuthedEffects(mentioned, userText, base, run, answer);
      forall k :: 0 <= k < |es| && IsRun(es[k]) ==>
        (answer == "" ==> k == |es| - 1) &&
        (answer != "" ==> (k + 4 == |es| && es[k + 1] == Reply(answer) &&
          es[k + 2] == AppendMemory("assistant", answer) && es[k + 3] == EnsureBudget))
  {
    if !(userText.None? && base == "") {
      var pre := if mentioned then [HandleMention] else [];
      var turn := if userText.None? then [AppendMemory("user", base), EnsureBudget] else [];
      var post := if answer == "" then [] else [Reply(answer), AppendMemory("assistant", answer), EnsureBudget];
      OnlyRunAt(pre + turn, run, post);
    }
  }

  /** In `head + [run] + tail` with no run in head or tail, the run is at `|head|` and only there. */
  lemma OnlyRunAt(head: seq<Effect>, run: Effect, tail: seq<Effect>)
    requires IsRun(run)
    requires forall k :: 0 <= k < |head| ==> !IsRun(head[k])
    requires forall k :: 0 <= k < |tail| ==> !IsRun(tail[k])
    ensures var es := head + [run] + tail;
      forall k :: 0 <= k < |es| && IsRun(es[k]) ==> k == |head| && es[k + 1..] == tail
  {
    var es := head + [run] + tail;
    assert es[|head| + 1..] == tail;
  }

  /** The join password is accepted exactly when the first word after the mention equals it. */
  lemma PasswordAcceptedWhenGiven(botUsername: string, pw: string, joinPassword: string, isPtb: bool, chat: int)
    requires pw != "" && forall i :: 0 <= i < |pw| ==> !IsSpace(pw[i]) && pw[i] != '@'
    requires botUsername != ""
    ensures var m := Incoming(isPtb, chat, Some(Needle(botUsername) + " " + pw), None, [], Some(botUsername));
      GateEffects(m, joinPassword) ==
        if pw == joinPassword then [UpsertAuth(chat, if isPtb then "bot" else "userbot"), Reply(PasswordAccepted)]
        else [Reply(PasswordHint(botUsername))]
  {
    var m := Incoming(isPtb, chat, Some(Needle(botUsername) + " " + pw), None, [], Some(botUsername));
    var t := Needle(botUsername) + " " + pw;
    assert MessageText(m) == t;
    assert Contains(Lower(t), Lower(Needle(botUsername))) by {
      assert Lower(t)[..|Needle(botUsername)|] == Lower(Needle(botUsername));
    }
    assert t == Needle(botUsername) + (" " + pw);
    MentionInFrontRemoved(botUsername, " " + pw, false);
    assert RemoveMention(t, Needle(botUsername), false) == " " + pw;
    StripLeadingSpace(pw);
    assert JoinWord(m) == pw by {
      FirstTokenWhole(pw);
    }
  }

  lemma StripLeadingSpace(pw: string)
    requires pw != "" && forall i :: 0 <= i < |pw| ==> !IsSpace(pw[i])
    ensures Strip(" " + pw) == pw
  {
    assert (" " + pw)[1..] == pw;
    assert TrimLeft(" " + pw) == TrimLeft(pw);
    StripNoSpace(pw);
  }

  lemma FirstTokenWhole(pw: string)
    requires pw != "" && forall i :: 0 <= i < |pw| ==> !IsSpace(pw[i])
    ensures FirstToken(pw) == Some(pw)
  {
    RunLenAll(pw);
    assert pw[..|pw|] == pw;
  }
}
