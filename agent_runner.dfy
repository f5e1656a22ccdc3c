/**
 * The agent runner's text rules: when to use the agent and reasoning, how a leading `/think` is
 * removed, how a tool result becomes a tool turn, and how the cited sources are appended.
 */
module AgentRunner {
  import opened Wrappers
  import opened Strings
  import opened Sequences

  const ThinkCommand: string := "/think"
  const HardTriggers: seq<string> := ["/think", "пошукай", "знайди в інтернеті", "перевір в інтернеті", "що нового", "новини"]
  const ToolResultLimit: nat := 20000
  const MaxSourceLines: nat := 5
  const SourcesHeader: string := "\n\nДжерела:\n"

  /** `(user_text or "").strip().lower()` */
  function Normalized(text: string): string {
    Lower(Strip(text))
  }

  predicate HasHardTrigger(t: string) {
    exists k :: 0 <= k < |HardTriggers| && Contains(t, HardTriggers[k])
  }

  /** `_should_use_agent`, with `THINKING_STRICT` and `THINKING_ENABLED` already parsed. */
  function ShouldUseAgent(text: string, strict: bool, thinkingEnabled: bool): (b: bool)
    ensures HasHardTrigger(Normalized(text)) ==> b
    ensures strict ==> (b <==> HasHardTrigger(Normalized(text)))
    ensures !strict && !HasHardTrigger(Normalized(text)) ==> (b <==> thinkingEnabled)
  {
    if HasHardTrigger(Normalized(text)) then true
    else if strict then false
    else thinkingEnabled
  }

  /** Lowercase Cyrillic and ASCII punctuation are left alone by `Lower`. */
  lemma LowerFixes(s: string)
    requires forall i :: 0 <= i < |s| ==> LowerChar(s[i]) == s[i]
    ensures Lower(s) == s
  {
  }

  /** "що нового" is a trigger phrase, so it goes to the agent even in strict mode. */
  lemma WhatIsNewUsesAgent(thinkingEnabled: bool)
    ensures ShouldUseAgent("що нового", true, thinkingEnabled)
  {
    var t := "що нового";
    assert !IsSpace(t[0]) && !IsSpace(t[|t| - 1]);
    assert TrimLeft(t) == t;
    assert TrimRight(t) == t;
    LowerFixes(t);
    assert StartsWith(t, HardTriggers[4]);
  }

  /** A message starting with "/think" goes to the agent whatever follows. */
  lemma ThinkUsesAgent(rest: string, strict: bool, thinkingEnabled: bool)
    ensures ShouldUseAgent("/think" + rest, strict, thinkingEnabled)
  {
    var s := "/think" + rest;
    assert NotSpace(s[0]);
    assert TrimLeft(s) == s;
    TrimRightKeepsHead(s, 6);
    var t := Normalized(s);
    assert Strip(s)[..6] == "/think";
    assert t[..6] == Lower("/think");
    LowerFixes("/think");
    assert StartsWith(t, HardTriggers[0]);
  }

  /** Right-stripping keeps a prefix that ends in a non-space. */
  lemma TrimRightKeepsHead(s: string, n: nat)
    requires 0 < n <= |s| && !IsSpace(s[n - 1])
    ensures |TrimRight(s)| >= n && TrimRight(s)[..n] == s[..n]
  {
    TrimRightShape(s);
  }

  /** `_needs_reasoning` */
  function NeedsReasoning(text: string): (b: bool)
    ensures StartsWith(Normalized(text), ThinkCommand) ==> b
    ensures b <==> (StartsWith(Normalized(text), ThinkCommand) || Contains(text, "🧠") ||
      Contains(Normalized(text), "роздумай") || Contains(Normalized(text), "step-by-step"))
  {
    var t := Normalized(text);
    StartsWith(t, ThinkCommand) || Contains(text, "🧠") || Contains(t, "роздумай") || Contains(t, "step-by-step")
  }

  /**
   * Step 0 of `run_agent`: a stripped text whose lowercase starts with "/think" loses its first
   * token and the whitespace after it; any other text is only stripped.
   */
  function StripThink(raw: string): (r: string)
    ensures !StartsWith(Lower(Strip(raw)), ThinkCommand) ==> r == Strip(raw)
    ensures StartsWith(Lower(Strip(raw)), ThinkCommand) ==> |r| + |ThinkCommand| <= |Strip(raw)|
  {
    var tnorm := Strip(raw);
    if StartsWith(Lower(tnorm), ThinkCommand) then
      var parts := SplitOnce(tnorm);
      LowerThinkNoSpace(tnorm);
      SplitOnceRestShorter(tnorm);
      if |parts| > 1 then parts[1] else ""
    else tnorm
  }

  /** A text whose lowercase starts with "/think" starts with six non-space characters. */
  lemma LowerThinkNoSpace(t: string)
    requires StartsWith(Lower(t), ThinkCommand)
    ensures |t| >= 6 && forall i :: 0 <= i < 6 ==> !IsSpace(t[i])
  {
    forall i | 0 <= i < 6
      ensures !IsSpace(t[i])
    {
      assert Lower(t)[i] == LowerChar(t[i]);
      assert Lower(t)[..6][i] == ThinkCommand[i];
    }
  }

  /** The rest after the first token is shorter than the text by at least that token and one space. */
  lemma SplitOnceRestShorter(t: string)
    requires |t| >= 6 && !IsSpace(t[0]) && forall i :: 0 <= i < 6 ==> !IsSpace(t[i])
    ensures |SplitOnce(t)| > 1 ==> |SplitOnce(t)[1]| + 6 <= |t| && SplitOnce(t)[1] == TrimLeft(t[RunLen(t, NotSpace)..])
  {
    assert TrimLeft(t) == t;
    var n := RunLen(t, NotSpace);
    RunLenAtLeast(t, 6);
    TrimLeftShape(t[n..]);
  }

  lemma {:induction false} RunLenAtLeast(t: string, k: nat)
    requires k <= |t| && forall i :: 0 <= i < k ==> !IsSpace(t[i])
    ensures RunLen(t, NotSpace) >= k
    decreases k
  {
    if k > 0 {
      assert NotSpace(t[0]);
      RunLenAtLeast(t[1..], k - 1);
    }
  }

  /** A bare "/think" leaves nothing to answer. */
  lemma BareThink()
    ensures StripThink("/think") == ""
  {
    var t := "/think";
    StripNoSpace(t);
    LowerFixes(t);
    assert StartsWith(Lower(Strip(t)), ThinkCommand);
    RunLenAll(t);
    assert t[6..] == [];
  }

  lemma {:induction false} RunLenAll(s: string)
    requires forall i :: 0 <= i < |s| ==> !IsSpace(s[i])
    ensures RunLen(s, NotSpace) == |s|
    decreases |s|
  {
    if |s| > 0 {
      RunLenAll(s[1..]);
    }
  }

  /** "/think" followed by spaces and a question leaves exactly the question. */
  lemma ThinkPrefixRemoved(pad: string, q: string)
    requires pad != [] && IsBlank(pad)
    requires q != [] && !IsSpace(q[0]) && !IsSpace(q[|q| - 1])
    ensures StripThink("/think" + pad + q) == q
  {
    var rest := pad + q;
    var t := "/think" + rest;
    assert t == "/think" + pad + q;
    assert t[..6] == "/think" && t[6..] == rest;
    assert TrimLeft(t) == t;
    assert TrimRight(t) == t by {
      assert t[|t| - 1] == q[|q| - 1];
    }
    assert Strip(t) == t;
    assert Lower(t)[..6] == Lower("/think");
    LowerFixes("/think");
    assert StartsWith(Lower(t), ThinkCommand);
    assert RunLen(t, NotSpace) == 6 by {
      assert t[6] == pad[0];
      RunLenStopsAt(t, 6);
    }
    TrimLeftBlankPrefix(pad, q);
  }

  lemma {:induction false} RunLenStopsAt(t: string, n: nat)
    requires n < |t| && IsSpace(t[n]) && forall i :: 0 <= i < n ==> !IsSpace(t[i])
    ensures RunLen(t, NotSpace) == n
    decreases n
  {
    if n > 0 {
      RunLenStopsAt(t[1..], n - 1);
    }
  }

  lemma {:induction false} TrimLeftBlankPrefix(pad: string, q: string)
    requires IsBlank(pad)
    requires q != [] && !IsSpace(q[0])
    ensures TrimLeft(pad + q) == q
    decreases |pad|
  {
    if pad == [] {
      assert pad + q == q;
    } else {
      assert (pad + q)[1..] == pad[1..] + q;
      TrimLeftBlankPrefix(pad[1..], q);
    }
  }

  // ---------------------------------------------------------------- tool turns

  /** The `result_str` of one tool call, truncated to 20000 characters. */
  function ToolContent(name: string, searchEnabled: bool, searchJson: string, pageText: string): (r: string)
    ensures |r| <= ToolResultLimit
    ensures name == "search_web" && searchEnabled ==> r == PyTake(searchJson, ToolResultLimit)
    ensures name == "fetch_page" && searchEnabled ==> r == PyTake(pageText, ToolResultLimit)
    ensures !(searchEnabled && (name == "search_web" || name == "fetch_page")) ==>
      StartsWith(r, "TOOL_ERROR: ")
  {
    if name == "search_web" && searchEnabled then PyTake(searchJson, ToolResultLimit)
    else if name == "fetch_page" && searchEnabled then PyTake(pageText, ToolResultLimit)
    else
      var e := "TOOL_ERROR: unknown or disabled tool " + name;
      TakeKeepsPrefix(e, "TOOL_ERROR: ", ToolResultLimit);
      PyTake(e, ToolResultLimit)
  }

  /** Cutting a text to at least the length of one of its prefixes keeps that prefix. */
  lemma TakeKeepsPrefix(s: string, p: string, k: nat)
    requires StartsWith(s, p) && |p| <= k
    ensures StartsWith(PyTake(s, k), p)
  {
    var r := PyTake(s, k);
    assert |r| >= |p|;
    assert r[..|p|] == s[..|r|][..|p|] == s[..|p|];
  }

  // ---------------------------------------------------------------- cited sources

  /** One `used_sources` entry: its url and title ("" when missing). */
  datatype Source = Source(url: string, title: string)

  datatype SourceKey = SourceKey(dom: string, title: string)

  /** `urlparse(url).netloc or url`, with the parser's netloc given as a function ("" when it has none or fails). */
  function DomainOf(url: string, netloc: string -> string): string {
    if netloc(url) != "" then netloc(url) else url
  }

  function KeyOf(s: Source, netloc: string -> string): SourceKey {
    SourceKey(DomainOf(s.url, netloc), s.title)
  }

  /** `f"- {title or dom} ({dom})"` */
  function LineOf(k: SourceKey): string {
    "- " + (if k.title != "" then k.title else k.dom) + " (" + k.dom + ")"
  }

  function Keys(ss: seq<Source>, netloc: string -> string): (ks: seq<SourceKey>)
    ensures |ks| == |ss|
    ensures forall i :: 0 <= i < |ss| ==> ks[i] == KeyOf(ss[i], netloc)
    decreases |ss|
  {
    if |ss| == 0 then [] else Keys(ss[..|ss| - 1], netloc) + [KeyOf(ss[|ss| - 1], netloc)]
  }

  function Lines(ks: seq<SourceKey>): (ls: seq<string>)
    ensures |ls| == |ks|
    ensures forall i :: 0 <= i < |ks| ==> ls[i] == LineOf(ks[i])
    decreases |ks|
  {
    if |ks| == 0 then [] else Lines(ks[..|ks| - 1]) + [LineOf(ks[|ks| - 1])]
  }

  /** The `uniq` list: one line per distinct (domain, title), in the order first seen. */
  function SourceLines(ss: seq<Source>, netloc: string -> string): seq<string> {
    Lines(Dedupe(Keys(ss, netloc)))
  }

  lemma KeysStep(ss: seq<Source>, i: nat, netloc: string -> string)
    requires i < |ss|
    ensures Keys(ss[..i + 1], netloc) == Keys(ss[..i], netloc) + [KeyOf(ss[i], netloc)]
  {
    assert ss[..i + 1][..i] == ss[..i];
  }

  lemma DedupeSnoc<T>(s: seq<T>, x: T)
    ensures Dedupe(s + [x]) == if x in Dedupe(s) then Dedupe(s) else Dedupe(s) + [x]
  {
    assert (s + [x])[..|s|] == s;
  }

  lemma LinesSnoc(ks: seq<SourceKey>, k: SourceKey)
    ensures Lines(ks + [k]) == Lines(ks) + [LineOf(k)]
  {
    assert (ks + [k])[..|ks|] == ks;
  }

  /** The de-duplication loop with its `seen` set. */
  method CollectSourceLines(ss: seq<Source>, netloc: string -> string) returns (uniq: seq<string>)
    ensures uniq == SourceLines(ss, netloc)
  {
    uniq := [];
    var seen: set<SourceKey> := {};
    ghost var d: seq<SourceKey> := [];
    var i := 0;
    while i < |ss|
      invariant 0 <= i <= |ss|
      invariant d == Dedupe(Keys(ss[..i], netloc))
      invariant forall k :: k in seen <==> k in d
      invariant uniq == Lines(d)
    {
      var key := KeyOf(ss[i], netloc);
      KeysStep(ss, i, netloc);
      DedupeSnoc(Keys(ss[..i], netloc), key);
      if key in seen {
        i := i + 1;
        continue;
      }
      seen := seen + {key};
      LinesSnoc(d, key);
      d := d + [key];
      uniq := uniq + [LineOf(key)];
      i := i + 1;
    }
    assert ss[..i] == ss;
  }

  /** The final answer when the model stops calling tools. */
  function AnswerWithSources(content: Option<string>, ss: seq<Source>, netloc: string -> string): string {
    var answer := Strip(OrEmpty(content));
    var uniq := SourceLines(ss, netloc);
    if |ss| > 0 && |uniq| > 0 then answer + SourcesHeader + Join(PyTake(uniq, MaxSourceLines), "\n")
    else answer
  }

  /**
   * Without sources the answer is the stripped reply; with sources it is followed by the header and
   * the lines of the first five distinct (domain, title) pairs, in the order first seen.
   */
  lemma AnswerShape(content: Option<string>, ss: seq<Source>, netloc: string -> string)
    ensures ss == [] ==> AnswerWithSources(content, ss, netloc) == Strip(OrEmpty(content))
    ensures ss != [] ==> exists shown: seq<SourceKey> ::
      (1 <= |shown| <= MaxSourceLines && Distinct(shown) &&
      (forall k :: k in shown ==> k in Keys(ss, netloc)) &&
      KeyOf(ss[0], netloc) == shown[0] &&
      AnswerWithSources(content, ss, netloc) == Strip(OrEmpty(content)) + SourcesHeader + Join(Lines(shown), "\n"))
  {
    if ss != [] {
      var ks := Keys(ss, netloc);
      var shown := PyTake(Dedupe(ks), MaxSourceLines);
      ShownSources(ks);
      assert PyTake(SourceLines(ss, netloc), MaxSourceLines) == Lines(shown);
      assert KeyOf(ss[0], netloc) == ks[0];
    }
  }

  /** The sources shown: at most five distinct keys of the input, the first source's key in front. */
  lemma ShownSources(ks: seq<SourceKey>)
    requires |ks| > 0
    ensures var shown := PyTake(Dedupe(ks), MaxSourceLines);
      1 <= |shown| <= MaxSourceLines && Distinct(shown) &&
      (forall k :: k in shown ==> k in ks) && shown[0] == ks[0] &&
      Lines(shown) == PyTake(Lines(Dedupe(ks)), MaxSourceLines)
  {
    var d := Dedupe(ks);
    DedupeElements(ks);
    DedupeHead(ks);
    var shown := PyTake(d, MaxSourceLines);
    assert shown == d[..|shown|];
    LinesPrefix(d, |shown|);
    assert forall k :: k in shown ==> k in d;
  }

  /** The first element survives de-duplication, in front. */
  lemma {:induction false} DedupeHead<T>(s: seq<T>)
    requires |s| > 0
    ensures |Dedupe(s)| > 0 && Dedupe(s)[0] == s[0]
    decreases |s|
  {
    if |s| > 1 {
      var p := s[..|s| - 1];
      DedupeHead(p);
      assert p[0] == s[0];
    } else {
      assert s[..0] == [];
    }
  }

  lemma LinesPrefix(ks: seq<SourceKey>, n: nat)
    requires n <= |ks|
    ensures Lines(ks[..n]) == Lines(ks)[..n]
  {
  }

  /** Two results for the same page are cited once. */
  lemma DuplicateCitedOnce(s: Source, netloc: string -> string)
    ensures SourceLines([s, s], netloc) == [LineOf(KeyOf(s, netloc))]
  {
    var k := KeyOf(s, netloc);
    assert Keys([s, s], netloc) == [k, k];
    DedupeSnoc([], k);
    assert [] + [k] == [k];
    DedupeSnoc([k], k);
    assert [k] + [k] == [k, k];
    LinesSnoc([], k);
  }
}
