/** Block summarization: the block text, the no-client fallback and the tolerant reply parse. */
module Summarizer {
  import opened Wrappers
  import opened Strings
  import opened Sequences
  import opened Tokens

  /** A message dict as the summarizer reads it: role and content may be missing. */
  datatype RawMsg = RawMsg(role: Option<string>, content: Option<string>)

  /** The outcome of the chat-completion call: no client configured, a reply content, or a raised error. */
  datatype LlmReply = NoClient | Reply(content: Option<string>) | CallFailed

  datatype Summary = Summary(summary: string, importance: real, tokens: nat)

  const SummaryMarker: string := "ПІДСУМОК:"
  const ImportanceMarker: string := "ВАЖЛИВІСТЬ:"
  const FallbackLength: nat := 200
  const DefaultImportance: real := 0.5

  function MsgText(m: RawMsg): string { Strip(OrEmpty(m.content)) }

  function MsgLine(m: RawMsg): string { m.role.GetOr("user") + ": " + MsgText(m) }

  /** The lines one message contributes. */
  function LinesOf(m: RawMsg): seq<string> { if MsgText(m) == "" then [] else [MsgLine(m)] }

  /** The lines `_format_block` collects: one `role: text` per message with non-blank content. */
  function BlockLines(ms: seq<RawMsg>): (r: seq<string>)
    ensures |r| <= |ms|
    decreases |ms|
  {
    if |ms| == 0 then []
    else LinesOf(ms[0]) + BlockLines(ms[1..])
  }

  function FormatBlock(ms: seq<RawMsg>): string {
    Join(BlockLines(ms), "\n")
  }

  /** Lines come in message order: the block of a concatenation is the concatenation of the blocks' lines. */
  lemma {:induction false} BlockLinesAppend(a: seq<RawMsg>, b: seq<RawMsg>)
    ensures BlockLines(a + b) == BlockLines(a) + BlockLines(b)
    decreases |a|
  {
    if |a| == 0 {
      assert a + b == b;
    } else {
      BlockLinesAppend(a[1..], b);
      var ab := a + b;
      assert ab[0] == a[0] && ab[1..] == a[1..] + b;
      assert BlockLines(ab) == LinesOf(a[0]) + BlockLines(a[1..] + b);
    }
  }

  /** One message contributes its `role: text` line (role defaulting to "user"), or nothing when blank. */
  lemma BlockLinesOne(m: RawMsg)
    ensures MsgText(m) == "" ==> BlockLines([m]) == []
    ensures MsgText(m) != "" ==> BlockLines([m]) == [m.role.GetOr("user") + ": " + Strip(OrEmpty(m.content))]
  {
    assert [m][1..] == [];
  }

  /** The block is empty exactly when every message's stripped content is empty. */
  lemma {:induction false} FormatBlockEmptyIff(ms: seq<RawMsg>)
    ensures FormatBlock(ms) == "" <==> forall i :: 0 <= i < |ms| ==> MsgText(ms[i]) == ""
    decreases |ms|
  {
    if |ms| > 0 {
      var tail := ms[1..];
      FormatBlockEmptyIff(tail);
      var rest := BlockLines(tail);
      var l := BlockLines(ms);
      assert l == LinesOf(ms[0]) + rest;
      if MsgText(ms[0]) != "" {
        assert l[0] == MsgLine(ms[0]) && |l[0]| > 0;
        JoinNonEmpty(l, "\n");
      } else {
        assert l == rest;
        assert (forall i :: 0 <= i < |ms| ==> MsgText(ms[i]) == "") <==>
          (forall i :: 0 <= i < |tail| ==> MsgText(tail[i]) == "") by {
          assert forall i :: 1 <= i < |ms| ==> tail[i - 1] == ms[i];
        }
      }
    }
  }

  lemma JoinNonEmpty(l: seq<string>, sep: string)
    requires |l| > 0 && |l[0]| > 0
    ensures Join(l, sep) != ""
  {
    if |l| > 1 {
      assert Join(l, sep) == l[0] + sep + Join(l[1..], sep);
    }
  }

  // ---------------------------------------------------------------- reply parsing

  predicate IsNewline(c: char) { c == '\n' }

  /** The regex tail `\n+\w+:` matches at `q`. */
  predicate TermAt(s: string, q: int) {
    0 <= q < |s| && s[q] == '\n' &&
    var a := q + RunLen(s[q..], IsNewline);
    var b := a + RunLen(s[a..], IsWordChar);
    b > a && b < |s| && s[b] == ':'
  }

  /** The regex `$` (end of text, or before a final newline) matches at `q`. */
  predicate EndAt(s: string, q: int) {
    q == |s| || (0 <= q == |s| - 1 && s[q] == '\n')
  }

  /** The first position at or after `q` where the lazy capture may stop. */
  function CaptureEnd(s: string, q: nat): (e: nat)
    requires q <= |s|
    ensures q <= e <= |s|
    ensures TermAt(s, e) || EndAt(s, e)
    ensures forall k :: q <= k < e ==> !TermAt(s, k) && !EndAt(s, k)
    decreases |s| - q
  {
    if TermAt(s, q) || EndAt(s, q) then q else CaptureEnd(s, q + 1)
  }

  /** The index after the whitespace run starting at `a`. */
  function SkipSpaces(s: string, a: nat): (b: nat)
    requires a <= |s|
    ensures a <= b <= |s|
    ensures b < |s| ==> !IsSpace(s[b])
  {
    a + RunLen(s[a..], IsSpace)
  }

  /** The capture starting at `start`: at least one character, up to the first terminator. */
  function CaptureFrom(s: string, start: nat): (g: string)
    requires start < |s|
    ensures |g| > 0
  {
    s[start..CaptureEnd(s, start + 1)]
  }

  /**
   * Group 1 of `ПІДСУМОК:\s*(.+?)(?:\n+\w+:|$)` under `re.S`: at least one character after the marker
   * and its whitespace, up to the first terminator. `None` when the search finds no match.
   */
  function SummaryCapture(s: string): Option<string> {
    match FindFrom(s, SummaryMarker, 0)
    case None => None
    case Some(p) =>
      var a := p + |SummaryMarker|;
      if a == |s| then None
      else
        // `\s*` gives back one character when only whitespace follows, since `.+?` needs one.
        var start := if SkipSpaces(s, a) < |s| then SkipSpaces(s, a) else |s| - 1;
        Some(CaptureFrom(s, start))
  }

  /** The summary taken from a reply text. */
  function SummaryText(text: string): string {
    var capture := SummaryCapture(text);
    Strip(if capture.Some? then Strip(capture.value) else text)
  }

  /** Without the marker the summary is the whole (stripped) reply. */
  lemma SummaryMarkerAbsent(text: string)
    requires !Contains(text, SummaryMarker)
    ensures SummaryText(text) == Strip(text)
  {
    ContainsAt(text, SummaryMarker);
  }

  /**
   * With text after the first marker, the summary is the stripped text from the first non-space
   * after that marker up to the first terminator (`CaptureEnd`, at least one character on).
   */
  lemma SummaryAfterMarker(text: string, p: nat)
    requires OccursAt(text, SummaryMarker, p)
    requires forall j :: 0 <= j < p ==> !OccursAt(text, SummaryMarker, j)
    requires SkipSpaces(text, p + |SummaryMarker|) < |text|
    ensures SummaryText(text) == Strip(CaptureFrom(text, SkipSpaces(text, p + |SummaryMarker|)))
  {
    FirstOccurrence(text, SummaryMarker, p);
    var g := CaptureFrom(text, SkipSpaces(text, p + |SummaryMarker|));
    assert SummaryCapture(text) == Some(g);
    StripIdempotent(g);
  }

  lemma FirstOccurrence(s: string, pat: string, p: nat)
    requires OccursAt(s, pat, p)
    requires forall j :: 0 <= j < p ==> !OccursAt(s, pat, j)
    ensures FindFrom(s, pat, 0) == Some(p)
  {
  }

  /** `0.d1d2…` for a digit string. */
  function Fraction(ds: string): (r: real)
    requires forall i :: 0 <= i < |ds| ==> IsAsciiDigit(ds[i])
    ensures 0.0 <= r < 1.0
  {
    if |ds| == 0 then 0.0
    else
      assert IsAsciiDigit(ds[0]);
      var d := ds[0] as int - '0' as int;
      (d as real + Fraction(ds[1..])) / 10.0
  }

  /** The number `[0-1](?:\.\d+)?` denotes when it starts at `d`. */
  function NumberAt(s: string, d: nat): (r: real)
    requires d < |s| && (s[d] == '0' || s[d] == '1')
    ensures 0.0 <= r < 2.0
    ensures s[d] == '0' ==> r < 1.0
  {
    var whole := if s[d] == '1' then 1.0 else 0.0;
    if d + 2 < |s| && s[d + 1] == '.' && IsAsciiDigit(s[d + 2]) then
      var n := RunLen(s[d + 2..], IsAsciiDigit);
      whole + Fraction(s[d + 2..d + 2 + n])
    else whole
  }

  /** The digit position after the importance marker at `p` and its whitespace. */
  function DigitPos(s: string, p: nat): nat
    requires OccursAt(s, ImportanceMarker, p)
  {
    SkipSpaces(s, p + |ImportanceMarker|)
  }

  /** An importance marker at `p` that the regex accepts: whitespace, then `0` or `1`. */
  predicate ImportanceAt(s: string, p: nat) {
    OccursAt(s, ImportanceMarker, p) && DigitPos(s, p) < |s| && (s[DigitPos(s, p)] == '0' || s[DigitPos(s, p)] == '1')
  }

  /** `re.search(r"ВАЖЛИВІСТЬ:\s*([0-1](?:\.\d+)?)", s)` from index `i`: the first marker followed by 0 or 1. */
  function ImportanceFrom(s: string, i: nat): (r: Option<real>)
    ensures r.None? ==> forall j :: i <= j ==> !ImportanceAt(s, j)
    ensures r.Some? ==> 0.0 <= r.value < 2.0
    ensures r.Some? ==> exists j :: i <= j && ImportanceAt(s, j) && r.value == NumberAt(s, DigitPos(s, j))
    decreases |s| - i
  {
    match FindFrom(s, ImportanceMarker, i)
    case None => None
    case Some(p) =>
      if ImportanceAt(s, p) then Some(NumberAt(s, DigitPos(s, p)))
      else
        assert forall j :: i <= j <= p ==> !ImportanceAt(s, j);
        ImportanceFrom(s, p + 1)
  }

  /** `max(0.0, min(1.0, x))` */
  function Clamp(x: real): (r: real)
    ensures 0.0 <= r <= 1.0
    ensures 0.0 <= x <= 1.0 ==> r == x
    ensures x > 1.0 ==> r == 1.0
  {
    if x < 0.0 then 0.0 else if x > 1.0 then 1.0 else x
  }

  /** Importance of a reply text: the parsed number, else 0.5, clamped. */
  function ImportanceText(text: string): real {
    Clamp(ImportanceFrom(text, 0).GetOr(DefaultImportance))
  }

  /** Without a usable importance marker the importance is 0.5. */
  lemma ImportanceDefault(text: string)
    requires forall j :: 0 <= j ==> !ImportanceAt(text, j)
    ensures ImportanceText(text) == DefaultImportance
  {
  }

  /** In particular when the marker does not occur at all. */
  lemma ImportanceMarkerAbsent(text: string)
    requires !Contains(text, ImportanceMarker)
    ensures ImportanceText(text) == DefaultImportance
  {
    ContainsAt(text, ImportanceMarker);
  }

  /** `summarize_block` given the completion call's outcome; `enc` is the summarizer model's encoder. */
  function SummarizeBlock(ms: seq<RawMsg>, reply: LlmReply, enc: Option<Encoding>): (r: Result<Summary>)
    ensures reply.CallFailed? || (reply.Reply? && reply.content.None?) <==> r.Err?
    ensures r.Ok? ==> 0.0 <= r.value.importance <= 1.0
    ensures r.Ok? ==> r.value.tokens == CountText(r.value.summary, enc)
    ensures reply.NoClient? ==>
      (r.Ok? && r.value.importance == DefaultImportance &&
       |r.value.summary| <= FallbackLength && r.value.summary <= FormatBlock(ms) &&
       (|FormatBlock(ms)| >= FallbackLength ==> |r.value.summary| == FallbackLength) &&
       (|FormatBlock(ms)| < FallbackLength ==> r.value.summary == FormatBlock(ms)))
    ensures reply.Reply? && reply.content.Some? ==>
      (r.Ok? && r.value.summary == SummaryText(Strip(reply.content.value)) &&
       r.value.importance == ImportanceText(Strip(reply.content.value)))
  {
    match reply
    case NoClient =>
      var summary := PyTake(FormatBlock(ms), FallbackLength as int);
      Ok(Summary(summary, DefaultImportance, CountText(summary, enc)))
    case CallFailed => Err("completion request failed")
    case Reply(content) =>
      if content.None? then Err("reply content is None")
      else
        var text := Strip(content.value);
        var summary := SummaryText(text);
        Ok(Summary(summary, ImportanceText(text), CountText(summary, enc)))
  }
}
