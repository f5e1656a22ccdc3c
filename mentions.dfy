/**
 * Removing the bot's `@username` from a message text, case-insensitively, as the two
 * `re.sub(…, "", …, flags=re.I)` calls do (one of them requires a word boundary after the name).
 */
module Mentions {
  import opened Strings

  /** The `@username` needle. */
  function Needle(botUsername: string): (p: string)
    ensures |p| == |botUsername| + 1 && p[0] == '@'
  {
    "@" + botUsername
  }

  /** Regex `\b` at position `j` of `s`. */
  predicate WordBoundary(s: string, j: nat) {
    (0 < j <= |s| && IsWordChar(s[j - 1])) != (j < |s| && IsWordChar(s[j]))
  }

  /** The pattern matches case-insensitively at the front of `s` (followed by `\b` when asked). */
  predicate MatchesFront(s: string, pat: string, boundary: bool) {
    |pat| <= |s| && Lower(s[..|pat|]) == Lower(pat) && (!boundary || WordBoundary(s, |pat|))
  }

  /** `re.sub(pat, "", s, flags=re.I)`: leftmost matches removed, scanning on after each one. */
  function RemoveMention(s: string, pat: string, boundary: bool): (r: string)
    requires |pat| > 0
    ensures |r| <= |s|
    decreases |s|
  {
    if |s| < |pat| then s
    else if MatchesFront(s, pat, boundary) then RemoveMention(s[|pat|..], pat, boundary)
    else [s[0]] + RemoveMention(s[1..], pat, boundary)
  }

  /** Only '@' lowercases to '@'. */
  lemma LowerAt(c: char)
    ensures LowerChar(c) == '@' <==> c == '@'
  {
  }

  /** A text without '@' holds no mention, so nothing is removed. */
  lemma {:induction false} NoAtUnchanged(s: string, pat: string, boundary: bool)
    requires |pat| > 0 && pat[0] == '@'
    requires forall i :: 0 <= i < |s| ==> s[i] != '@'
    ensures RemoveMention(s, pat, boundary) == s
    decreases |s|
  {
    if |s| >= |pat| {
      assert Lower(s[..|pat|])[0] == LowerChar(s[0]);
      assert Lower(pat)[0] == '@';
      LowerAt(s[0]);
      NoAtUnchanged(s[1..], pat, boundary);
      assert [s[0]] + s[1..] == s;
    }
  }

  /**
   * A mention in front is removed and the rest, which holds no further '@', is kept as it is (with a
   * required boundary, the rest must start with a non-word character, as a space does).
   */
  lemma MentionInFrontRemoved(botUsername: string, rest: string, boundary: bool)
    requires forall i :: 0 <= i < |rest| ==> rest[i] != '@'
    requires boundary ==> botUsername != [] && IsWordChar(botUsername[|botUsername| - 1])
    requires boundary ==> rest == [] || !IsWordChar(rest[0])
    ensures RemoveMention(Needle(botUsername) + rest, Needle(botUsername), boundary) == rest
  {
    var pat := Needle(botUsername);
    var s := pat + rest;
    assert s[..|pat|] == pat;
    assert s[|pat|..] == rest;
    if boundary {
      assert s[|pat| - 1] == botUsername[|botUsername| - 1];
      assert WordBoundary(s, |pat|);
    }
    assert MatchesFront(s, pat, boundary);
    NoAtUnchanged(rest, pat, boundary);
  }
}
