/**
 * `AuthService`: a per-chat flag map, set once a chat has given the join password (or when no
 * password is configured) and never cleared.
 */
module Auth {
  import opened Wrappers
  import opened Strings

  const SuccessReply: string := "Автентифікація успішна. Ви можете почати спілкування."
  const PasswordPrompt: string := "Будь ласка, введіть пароль для продовження."

  /** `authenticated_users.get(chat_id)` is truthy. */
  predicate IsAuthed(flags: map<int, bool>, chat: int) {
    chat in flags && flags[chat]
  }

  /** The text compared with the password: text or caption, every `@bot` removed, stripped. */
  function AuthText(text: Option<string>, caption: Option<string>, botUsername: string): string {
    Strip(Replace(OrEmpty(Or(text, caption)), "@" + botUsername, ""))
  }

  /** What `authenticate` decides: the answer, the new flag map and the reply sent (if any). */
  datatype AuthOutcome = AuthOutcome(ok: bool, flags: map<int, bool>, reply: Option<string>)

  function AuthenticateSpec(flags: map<int, bool>, chat: int, password: string,
                            text: Option<string>, caption: Option<string>, botUsername: string): (r: AuthOutcome)
    ensures IsAuthed(flags, chat) ==> r == AuthOutcome(true, flags, None)
    ensures r.ok <==> IsAuthed(flags, chat) || password == "" || AuthText(text, caption, botUsername) == password
    ensures r.ok <==> IsAuthed(r.flags, chat)
    ensures !r.ok ==> r.flags == flags && r.reply == Some(PasswordPrompt)
    ensures !IsAuthed(flags, chat) && r.ok ==> r.flags == flags[chat := true] && r.reply == Some(SuccessReply)
  {
    if IsAuthed(flags, chat) then AuthOutcome(true, flags, None)
    else if AuthText(text, caption, botUsername) == password || password == "" then
      AuthOutcome(true, flags[chat := true], Some(SuccessReply))
    else AuthOutcome(false, flags, Some(PasswordPrompt))
  }

  /** What `ensure_auth_for_command` decides; a command never carries the password. */
  function EnsureAuthSpec(flags: map<int, bool>, chat: int, password: string): (r: AuthOutcome)
    ensures r.ok <==> IsAuthed(flags, chat) || password == ""
    ensures r.ok <==> IsAuthed(r.flags, chat)
    ensures password != "" ==> r.flags == flags
    ensures !r.ok ==> r.reply == Some(PasswordPrompt)
    ensures r.ok ==> r.reply == None
  {
    if IsAuthed(flags, chat) then AuthOutcome(true, flags, None)
    else if password == "" then AuthOutcome(true, flags[chat := true], None)
    else AuthOutcome(false, flags, Some(PasswordPrompt))
  }

  /** Neither method ever clears a flag or touches another chat's entry. */
  lemma FlagsOnlyGrow(flags: map<int, bool>, chat: int, password: string,
                      text: Option<string>, caption: Option<string>, botUsername: string)
    ensures var f1 := AuthenticateSpec(flags, chat, password, text, caption, botUsername).flags;
      forall c :: IsAuthed(flags, c) ==> IsAuthed(f1, c)
    ensures var f2 := EnsureAuthSpec(flags, chat, password).flags;
      forall c :: IsAuthed(flags, c) ==> IsAuthed(f2, c)
    ensures var f1 := AuthenticateSpec(flags, chat, password, text, caption, botUsername).flags;
      forall c :: c != chat ==> (c in f1 <==> c in flags) && (c in flags ==> f1[c] == flags[c])
    ensures var f2 := EnsureAuthSpec(flags, chat, password).flags;
      forall c :: c != chat ==> (c in f2 <==> c in flags) && (c in flags ==> f2[c] == flags[c])
  {
  }

  /** The bot's own mention does not count: "@bot pw" authenticates exactly as "pw" does. */
  lemma MentionIgnored(pw: string, botUsername: string)
    requires pw != "" && forall i :: 0 <= i < |pw| ==> !IsSpace(pw[i]) && pw[i] != '@'
    ensures AuthText(Some("@" + botUsername + " " + pw), None, botUsername) == pw
  {
    var pat := "@" + botUsername;
    var s := pat + " " + pw;
    assert s[..|pat|] == pat;
    assert s[|pat|..] == " " + pw;
    assert OrEmpty(Or(Some(s), None)) == s;
    NoAtReplace(" " + pw, pat);
    assert Replace(s, pat, "") == " " + pw;
    StripSpacedWord(pw);
  }

  /** A string without '@' is left alone by replacing an '@'-pattern. */
  lemma {:induction false} NoAtReplace(s: string, pat: string)
    requires |pat| > 0 && pat[0] == '@'
    requires forall i :: 0 <= i < |s| ==> s[i] != '@'
    ensures Replace(s, pat, "") == s
    decreases |s|
  {
    if |s| >= |pat| {
      assert s[..|pat|][0] == s[0];
      NoAtReplace(s[1..], pat);
      assert [s[0]] + s[1..] == s;
    }
  }

  lemma StripSpacedWord(pw: string)
    requires pw != "" && forall i :: 0 <= i < |pw| ==> !IsSpace(pw[i])
    ensures Strip(" " + pw) == pw
  {
    assert TrimLeft(" " + pw) == TrimLeft(pw) by {
      assert (" " + pw)[1..] == pw;
    }
    StripNoSpace(pw);
  }

  class AuthService {
    /** `get_system_messages().get("password", "")` */
    const password: string
    var authenticatedUsers: map<int, bool>

    constructor(password: string)
      ensures this.password == password && authenticatedUsers == map[]
    {
      this.password := password;
      authenticatedUsers := map[];
    }

    /** `authenticate`; the reply it sends is returned. */
    method Authenticate(chat: int, text: Option<string>, caption: Option<string>, botUsername: string)
      returns (ok: bool, reply: Option<string>)
      modifies this
      ensures AuthOutcome(ok, authenticatedUsers, reply) ==
        AuthenticateSpec(old(authenticatedUsers), chat, password, text, caption, botUsername)
    {
      if chat in authenticatedUsers && authenticatedUsers[chat] {
        return true, None;
      }
      var raw := OrEmpty(Or(text, caption));
      var forAuth := Strip(Replace(raw, "@" + botUsername, ""));
      if forAuth == password || password == "" {
        authenticatedUsers := authenticatedUsers[chat := true];
        return true, Some(SuccessReply);
      }
      return false, Some(PasswordPrompt);
    }

    /** `ensure_auth_for_command` */
    method EnsureAuthForCommand(chat: int) returns (ok: bool, reply: Option<string>)
      modifies this
      ensures AuthOutcome(ok, authenticatedUsers, reply) == EnsureAuthSpec(old(authenticatedUsers), chat, password)
    {
      if chat in authenticatedUsers && authenticatedUsers[chat] {
        return true, None;
      }
      if password == "" {
        authenticatedUsers := authenticatedUsers[chat := true];
        return true, None;
      }
      return false, Some(PasswordPrompt);
    }
  }
}
