/** The Python `str` operations the bot relies on, written over `seq<char>`. */
module Strings {
  import opened Wrappers

  /** The characters `str.strip()` and `str.split()` treat as whitespace (the ASCII ones). */
  predicate IsSpace(c: char) {
    c == ' ' || c == '\t' || c == '\n' || c == '\r' || c == '\U{000B}' || c == '\U{000C}'
  }

  predicate NotSpace(c: char) { !IsSpace(c) }

  predicate IsBlank(s: string) { forall i :: 0 <= i < |s| ==> IsSpace(s[i]) }

  predicate IsAsciiDigit(c: char) { '0' <= c <= '9' }

  /** Regex `\w`: letters, digits and `_`; letters are ASCII and the Cyrillic block. */
  predicate IsWordChar(c: char) {
    ('a' <= c <= 'z') || ('A' <= c <= 'Z') || IsAsciiDigit(c) || c == '_'
    || ('\U{0400}' <= c <= '\U{04FF}')
  }

  /** `str.lstrip()` */
  function TrimLeft(s: string): string {
    if |s| > 0 && IsSpace(s[0]) then TrimLeft(s[1..]) else s
  }

  /** `str.rstrip()` */
  function TrimRight(s: string): string {
    if |s| > 0 && IsSpace(s[|s| - 1]) then TrimRight(s[..|s| - 1]) else s
  }

  /** `lstrip` drops a blank prefix and stops at the first non-space. */
  lemma {:induction false} TrimLeftShape(s: string)
    ensures var r := TrimLeft(s); |r| <= |s| && r == s[|s| - |r|..]
    ensures var r := TrimLeft(s); r == [] || !IsSpace(r[0])
    ensures var r := TrimLeft(s); IsBlank(s[..|s| - |r|])
    decreases |s|
  {
    if |s| > 0 && IsSpace(s[0]) {
      var t := s[1..];
      var r := TrimLeft(t);
      TrimLeftShape(t);
      assert TrimLeft(s) == r;
      assert r == s[|s| - |r|..];
      forall i | 0 <= i < |s| - |r| ensures IsSpace(s[i]) {
        if i > 0 {
          assert s[i] == t[..|t| - |r|][i - 1];
        }
      }
    }
  }

  /** `rstrip` drops a blank suffix and stops at the last non-space. */
  lemma {:induction false} TrimRightShape(s: string)
    ensures var r := TrimRight(s); |r| <= |s| && r == s[..|r|]
    ensures var r := TrimRight(s); r == [] || !IsSpace(r[|r| - 1])
    ensures var r := TrimRight(s); IsBlank(s[|r|..])
    decreases |s|
  {
    if |s| > 0 && IsSpace(s[|s| - 1]) {
      var r := TrimRight(s[..|s| - 1]);
      TrimRightShape(s[..|s| - 1]);
      assert s[|r|..] == s[..|s| - 1][|r|..] + [s[|s| - 1]];
    }
  }

  /** `str.strip()` */
  function Strip(s: string): string {
    TrimRight(TrimLeft(s))
  }

  /** A string strips to "" exactly when it is all whitespace. */
  lemma StripEmptyIffBlank(s: string)
    ensures Strip(s) == [] <==> IsBlank(s)
  {
    var l := TrimLeft(s);
    TrimLeftShape(s);
    TrimRightShape(l);
    if Strip(s) == [] {
      assert IsBlank(l[0..]);
      assert s == s[..|s| - |l|] + l;
    }
  }

  /** What `Strip` keeps: a contiguous piece of the input with no whitespace at either end. */
  lemma StripShape(s: string)
    ensures exists i, j :: 0 <= i <= j <= |s| && Strip(s) == s[i..j]
    ensures Strip(s) == [] || (!IsSpace(Strip(s)[0]) && !IsSpace(Strip(s)[|Strip(s)| - 1]))
  {
    var l := TrimLeft(s);
    var r := TrimRight(l);
    TrimLeftShape(s);
    TrimRightShape(l);
    var i := |s| - |l|;
    assert r == s[i..i + |r|];
    if r != [] {
      assert r[0] == l[0];
    }
  }

  /** Stripping twice is stripping once. */
  lemma StripIdempotent(s: string)
    ensures Strip(Strip(s)) == Strip(s)
  {
    var t := Strip(s);
    StripShape(s);
    if t != [] {
      assert TrimLeft(t) == t;
      assert TrimRight(t) == t;
    }
  }

  function LowerChar(c: char): char {
    if 'A' <= c <= 'Z' then (c as int + 32) as char
    else if '\U{0410}' <= c <= '\U{042F}' then (c as int + 32) as char
    else if '\U{0400}' <= c <= '\U{040F}' then (c as int + 80) as char
    else if c == '\U{0490}' then '\U{0491}'
    else c
  }

  /** `str.lower()`, for ASCII and Cyrillic letters. */
  function Lower(s: string): (r: string)
    ensures |r| == |s|
  {
    seq(|s|, i requires 0 <= i < |s| => LowerChar(s[i]))
  }

  /** Lowercasing twice is lowercasing once. */
  lemma LowerIdempotent(s: string)
    ensures Lower(Lower(s)) == Lower(s)
  {
    forall i | 0 <= i < |s|
      ensures LowerChar(LowerChar(s[i])) == LowerChar(s[i])
    {
    }
  }

  /** Lowercasing maps word characters to word characters and leaves `-` alone. */
  lemma LowerCharWord(c: char)
    ensures IsWordChar(c) ==> IsWordChar(LowerChar(c))
    ensures c == '-' ==> LowerChar(c) == '-'
  {
  }

  /** A string without whitespace strips to itself. */
  lemma StripNoSpace(s: string)
    requires forall i :: 0 <= i < |s| ==> !IsSpace(s[i])
    ensures Strip(s) == s
  {
    assert TrimLeft(s) == s;
    assert TrimRight(s) == s;
  }

  predicate StartsWith(s: string, p: string) {
    |p| <= |s| && s[..|p|] == p
  }

  /** `p in s` for strings. */
  predicate Contains(s: string, p: string)
    decreases |s|
  {
    StartsWith(s, p) || (|s| > 0 && Contains(s[1..], p))
  }

  /** `p` occurs in `s` starting at index `i`. */
  predicate OccursAt(s: string, p: string, i: int) {
    0 <= i <= |s| - |p| && s[i..i + |p|] == p
  }

  /** `Contains` means an occurrence at some index. */
  lemma {:induction false} ContainsAt(s: string, p: string)
    ensures Contains(s, p) <==> exists i :: OccursAt(s, p, i)
    decreases |s|
  {
    if Contains(s, p) {
      if !StartsWith(s, p) {
        ContainsAt(s[1..], p);
        var i :| OccursAt(s[1..], p, i);
        assert s[1..][i..i + |p|] == s[i + 1..i + 1 + |p|];
        assert OccursAt(s, p, i + 1);
      } else {
        assert OccursAt(s, p, 0);
      }
    } else {
      if exists i :: OccursAt(s, p, i) {
        var i :| OccursAt(s, p, i);
        if i > 0 {
          assert s[1..][i - 1..i - 1 + |p|] == s[i..i + |p|];
          assert OccursAt(s[1..], p, i - 1);
          ContainsAt(s[1..], p);
        }
      }
    }
  }

  /** `s.find(p, i)`: the first occurrence of `p` at index `i` or later. */
  function FindFrom(s: string, p: string, i: nat): (r: Option<nat>)
    ensures r.Some? ==> i <= r.value && OccursAt(s, p, r.value)
    ensures r.Some? ==> forall j :: i <= j < r.value ==> !OccursAt(s, p, j)
    ensures r.None? ==> forall j :: i <= j ==> !OccursAt(s, p, j)
    decreases |s| - i
  {
    if i + |p| > |s| then None
    else if s[i..i + |p|] == p then Some(i)
    else FindFrom(s, p, i + 1)
  }

  /** `t.count(w)`: non-overlapping occurrences, scanned left to right. */
  function CountOcc(t: string, w: string): nat
    requires |w| > 0
    decreases |t|
  {
    if |t| < |w| then 0
    else if t[..|w|] == w then 1 + CountOcc(t[|w|..], w)
    else CountOcc(t[1..], w)
  }

  /** `t.count(w)` is positive exactly when `w` occurs in `t`. */
  lemma {:induction false} CountOccPositive(t: string, w: string)
    requires |w| > 0
    ensures CountOcc(t, w) > 0 <==> Contains(t, w)
    decreases |t|
  {
    if |t| < |w| {
      if Contains(t, w) {
        ContainsAt(t, w);
      }
    } else if t[..|w|] == w {
      assert StartsWith(t, w);
    } else {
      CountOccPositive(t[1..], w);
      assert !StartsWith(t, w);
    }
  }

  /** `s.replace(pat, rep)` for a non-empty pattern. */
  function Replace(s: string, pat: string, rep: string): string
    requires |pat| > 0
    decreases |s|
  {
    if |s| < |pat| then s
    else if s[..|pat|] == pat then rep + Replace(s[|pat|..], pat, rep)
    else [s[0]] + Replace(s[1..], pat, rep)
  }

  /** Replacing a pattern by "" leaves no character that was not in the input. */
  lemma {:induction false} ReplaceEmptyShrinks(s: string, pat: string)
    requires |pat| > 0
    ensures |Replace(s, pat, "")| <= |s|
    decreases |s|
  {
    if |s| >= |pat| {
      if s[..|pat|] == pat {
        ReplaceEmptyShrinks(s[|pat|..], pat);
      } else {
        ReplaceEmptyShrinks(s[1..], pat);
      }
    }
  }

  /** `sep.join(parts)` */
  function Join(parts: seq<string>, sep: string): string
  {
    if |parts| == 0 then ""
    else if |parts| == 1 then parts[0]
    else parts[0] + sep + Join(parts[1..], sep)
  }

  /** `s.split(c)` for a one-character separator: always at least one part. */
  function Split(s: string, c: char): (r: seq<string>)
    ensures |r| >= 1
    decreases |s|
  {
    if |s| == 0 then [""]
    else
      var rest := Split(s[1..], c);
      if s[0] == c then [""] + rest else [[s[0]] + rest[0]] + rest[1..]
  }

  /** No part of a split contains the separator. */
  lemma {:induction false} SplitPartsFree(s: string, c: char)
    ensures forall k :: 0 <= k < |Split(s, c)| ==> c !in Split(s, c)[k]
    decreases |s|
  {
    if |s| > 0 {
      SplitPartsFree(s[1..], c);
    }
  }

  /** Joining the parts back with the separator gives the input. */
  lemma {:induction false} JoinSplit(s: string, c: char)
    ensures Join(Split(s, c), [c]) == s
    decreases |s|
  {
    if |s| > 0 {
      var rest := Split(s[1..], c);
      JoinSplit(s[1..], c);
      if s[0] == c {
        assert Split(s, c) == [""] + rest;
      } else {
        var r := Split(s, c);
        assert r == [[s[0]] + rest[0]] + rest[1..];
        if |rest| == 1 {
          assert r == [[s[0]] + rest[0]];
        } else {
          assert r[1..] == rest[1..];
          assert Join(rest, [c]) == rest[0] + [c] + Join(rest[1..], [c]);
        }
      }
    }
  }

  /** Length of the longest prefix whose characters all satisfy `P`. */
  function RunLen(s: string, P: char -> bool): (n: nat)
    ensures n <= |s|
    ensures forall i :: 0 <= i < n ==> P(s[i])
    ensures n < |s| ==> !P(s[n])
  {
    if |s| > 0 && P(s[0]) then 1 + RunLen(s[1..], P) else 0
  }

  /** The maximal runs of characters satisfying `P`, in order: `re.findall` of `[...]+`. */
  function Runs(s: string, P: char -> bool): (r: seq<string>)
    ensures forall k :: 0 <= k < |r| ==> |r[k]| > 0
    ensures forall k, i :: 0 <= k < |r| && 0 <= i < |r[k]| ==> P(r[k][i])
    decreases |s|
  {
    if |s| == 0 then []
    else if !P(s[0]) then Runs(s[1..], P)
    else
      var n := RunLen(s, P);
      [s[..n]] + Runs(s[n..], P)
  }

  /** `s.split()`: the whitespace-separated tokens. */
  function SplitWs(s: string): seq<string> {
    Runs(s, NotSpace)
  }

  /** `s.split()[0]`, or None where Python raises IndexError. */
  function FirstToken(s: string): Option<string> {
    var toks := SplitWs(s);
    if |toks| == 0 then None else Some(toks[0])
  }

  /** `s.split(None, 1)`: the first token and the rest after the whitespace that follows it. */
  function SplitOnce(s: string): (r: seq<string>)
    ensures |r| <= 2
  {
    var t := TrimLeft(s);
    if t == [] then []
    else
      var n := RunLen(t, NotSpace);
      var rest := TrimLeft(t[n..]);
      if rest == [] then [t[..n]] else [t[..n], rest]
  }

  function DigitChar(d: nat): char
    requires d < 10
  {
    ('0' as int + d) as char
  }

  /** `str(n)` for a natural number. */
  function NatToString(n: nat): (r: string)
    ensures |r| > 0
    ensures forall i :: 0 <= i < |r| ==> IsAsciiDigit(r[i])
  {
    if n < 10 then [DigitChar(n)] else NatToString(n / 10) + [DigitChar(n % 10)]
  }

  /** `str(i)` for an integer. */
  function IntToString(i: int): (r: string)
    ensures |r| > 0
  {
    if i < 0 then "-" + NatToString(-i) else NatToString(i)
  }

  /** Python truthiness of an optional string (`None` and "" are false). */
  predicate Truthy(s: Option<string>) {
    s.Some? && s.value != ""
  }

  /** `a or b` on optional strings. */
  function Or(a: Option<string>, b: Option<string>): Option<string> {
    if Truthy(a) then a else b
  }

  /** `(a or "")` */
  function OrEmpty(a: Option<string>): string {
    a.GetOr("")
  }
}
