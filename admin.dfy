/** The admin commands `/mem` and `/health`, recognised by the first word of the message. */
module Admin {
  import opened Wrappers
  import opened Strings

  const MemReply: string := "Memory stats"
  const HealthReply: string := "OK"

  /** The outcome of `handle_command`: handled with a reply, not an admin command, or an `IndexError`. */
  datatype AdminOutcome = Handled(reply: string) | NotHandled | Raised

  /** `text.strip().split()[0].lower()`, which raises on a blank text. */
  function CommandWord(text: string): Option<string> {
    match FirstToken(Strip(text))
    case None => None
    case Some(tok) => Some(Lower(tok))
  }

  /** `handle_command`: the reply goes to the same chat on either platform, so only its text is kept. */
  function HandleCommand(platform: string, text: string): (r: AdminOutcome)
    ensures r.Raised? <==> IsBlank(text)
    ensures r.Handled? ==> r.reply == MemReply || r.reply == HealthReply
    ensures r == Handled(MemReply) <==> CommandWord(text) == Some("/mem")
    ensures r == Handled(HealthReply) <==> CommandWord(text) == Some("/health")
  {
    BlankIffNoToken(Strip(text));
    StripEmptyIffBlank(text);
    StripShape(text);
    assert Strip(text) != [] ==> !IsSpace(Strip(text)[0]);
    match CommandWord(text)
    case None => Raised
    case Some(cmd) =>
      if cmd == "/mem" then Handled(MemReply)
      else if cmd == "/health" then Handled(HealthReply)
      else NotHandled
  }

  /** A string has no first token exactly when it is all whitespace. */
  lemma {:induction false} BlankIffNoToken(s: string)
    ensures FirstToken(s).None? <==> IsBlank(s)
    decreases |s|
  {
    if |s| > 0 && IsSpace(s[0]) {
      BlankIffNoToken(s[1..]);
      assert IsBlank(s) <==> IsBlank(s[1..]) by {
        if IsBlank(s[1..]) {
          forall i | 0 <= i < |s| ensures IsSpace(s[i]) {
            if i > 0 {
              assert s[i] == s[1..][i - 1];
            }
          }
        }
      }
    }
  }

  /** Only the first word counts, whatever follows it and however it is capitalised. */
  lemma FirstWordDecides(platform: string, cmd: string, rest: string)
    requires cmd != [] && forall i :: 0 <= i < |cmd| ==> !IsSpace(cmd[i])
    ensures HandleCommand(platform, cmd + " " + rest) == HandleCommand(platform, cmd)
  {
    var t := cmd + " " + rest;
    assert FirstToken(t) == Some(cmd) by {
      PrefixRun(cmd, " " + rest);
      assert t == cmd + (" " + rest);
    }
    StripNoSpace(cmd);
    assert FirstToken(cmd) == Some(cmd) by {
      PrefixRun(cmd, "");
      assert cmd + "" == cmd;
    }
    StripKeepsFirstToken(t);
  }

  /** A token followed by whitespace is the first token. */
  lemma PrefixRun(cmd: string, rest: string)
    requires cmd != [] && forall i :: 0 <= i < |cmd| ==> !IsSpace(cmd[i])
    requires rest == [] || IsSpace(rest[0])
    ensures FirstToken(cmd + rest) == Some(cmd)
  {
    var s := cmd + rest;
    RunLenPrefix(cmd, rest);
    assert s[..|cmd|] == cmd;
  }

  lemma {:induction false} RunLenPrefix(cmd: string, rest: string)
    requires forall i :: 0 <= i < |cmd| ==> !IsSpace(cmd[i])
    requires rest == [] || IsSpace(rest[0])
    ensures RunLen(cmd + rest, NotSpace) == |cmd|
    decreases |cmd|
  {
    if |cmd| > 0 {
      RunLenPrefix(cmd[1..], rest);
      assert (cmd + rest)[1..] == cmd[1..] + rest;
    } else {
      assert cmd + rest == rest;
    }
  }

  /** Leading and trailing whitespace do not change the first token. */
  lemma StripKeepsFirstToken(s: string)
    ensures FirstToken(Strip(s)) == FirstToken(s)
  {
    TrimLeftToken(s);
    TrimLeftShape(s);
    TrimRightToken(TrimLeft(s));
  }

  lemma {:induction false} TrimLeftToken(s: string)
    ensures FirstToken(TrimLeft(s)) == FirstToken(s)
    decreases |s|
  {
    if |s| > 0 && IsSpace(s[0]) {
      TrimLeftToken(s[1..]);
    }
  }

  lemma TrimRightToken(s: string)
    requires s == [] || !IsSpace(s[0])
    ensures FirstToken(TrimRight(s)) == FirstToken(s)
  {
    TrimRightShape(s);
    var r := TrimRight(s);
    var ws := s[|r|..];
    assert s == r + ws;
    if r != [] {
      RunLenExtend(r, ws);
      var n := RunLen(r, NotSpace);
      assert s[..n] == r[..n];
    } else {
      BlankIffNoToken(s);
    }
  }

  /** Appending whitespace does not change the first run. */
  lemma RunLenExtend(r: string, ws: string)
    requires IsBlank(ws)
    ensures RunLen(r + ws, NotSpace) == RunLen(r, NotSpace)
  {
    var n := RunLen(r, NotSpace);
    var s := r + ws;
    if n == |r| && ws != [] {
      assert s[n] == ws[0];
    }
    assert forall i :: 0 <= i < n ==> s[i] == r[i];
    RunLenUpTo(s, n);
  }

  /** A run stops at the first character that is not part of it. */
  lemma {:induction false} RunLenUpTo(s: string, n: nat)
    requires n <= |s| && (forall i :: 0 <= i < n ==> NotSpace(s[i])) && (n == |s| || !NotSpace(s[n]))
    ensures RunLen(s, NotSpace) == n
    decreases n
  {
    if n > 0 {
      RunLenUpTo(s[1..], n - 1);
    }
  }
}
