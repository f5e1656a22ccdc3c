/**
 * Glossary term extraction and the term-definition suggestion rule: words of a user message are
 * normalised, de-duplicated and counted per chat, and at most one suggestion per chat is made
 * every two minutes.
 */
module Glossary {
  import opened Wrappers
  import opened Strings
  import opened Sequences

  const Stopwords: set<string> := {
    "a", "about", "an", "and", "are", "be", "been", "by", "down", "for", "from", "had", "has",
    "have", "he", "her", "his", "i", "in", "into", "is", "it", "just", "me", "my", "of", "on", "or",
    "our", "out", "over", "really", "she", "such", "the", "their", "them", "they", "to", "under",
    "up", "very", "was", "we", "were", "with", "without", "you", "your", "або", "ага", "але",
    "буде", "були", "було", "бути", "в", "вже", "де", "для", "до", "дуже", "з", "зі", "коли",
    "між", "на", "над", "не", "ну", "ого", "ось", "при", "під", "та", "так", "така", "таке",
    "такий", "там", "той", "той-то", "трохи", "тут", "ті", "тієї", "у", "уже", "це", "ця",
    "через", "ще", "що", "як", "яка", "який", "які", "і", "із"
  }

  /** Seconds between two suggestions in one chat. */
  const SuggestInterval: real := 120.0

  /** The regex class `[\w\-]`. */
  predicate IsTermChar(c: char) { IsWordChar(c) || c == '-' }

  predicate AllTermChars(t: string) {
    forall i :: 0 <= i < |t| ==> IsTermChar(t[i])
  }

  /** `_normalize`: strip and lowercase; reject short, non-`[\w-]` and stopword tokens. */
  function Normalize(token: string): (r: Option<string>)
    ensures r.Some? ==> r.value == Lower(Strip(token))
    ensures r.Some? <==>
      |Lower(Strip(token))| >= 3 && AllTermChars(Lower(Strip(token))) && Lower(Strip(token)) !in Stopwords
  {
    var t := Lower(Strip(token));
    if |t| < 3 then None
    else if !AllTermChars(t) then None
    else if t in Stopwords then None
    else Some(t)
  }

  /** A normalised term normalises to itself. */
  lemma NormalizeIdempotent(token: string)
    requires Normalize(token).Some?
    ensures Normalize(Normalize(token).value) == Normalize(token)
  {
    var t := Normalize(token).value;
    assert forall i :: 0 <= i < |t| ==> !IsSpace(t[i]) by {
      forall i | 0 <= i < |t| ensures !IsSpace(t[i]) {
        assert IsTermChar(t[i]);
      }
    }
    StripNoSpace(t);
    LowerIdempotent(Strip(token));
  }

  /** The `terms` list: normalised tokens, in order, rejected ones dropped. */
  function Normalized(ws: seq<string>): seq<string>
    decreases |ws|
  {
    if |ws| == 0 then []
    else
      var n := Normalize(ws[|ws| - 1]);
      Normalized(ws[..|ws| - 1]) + (if n.Some? then [n.value] else [])
  }

  /** Every kept term is lowercase, at least three `[\w-]` characters, and not a stopword. */
  predicate GoodTerm(t: string) {
    |t| >= 3 && AllTermChars(t) && t !in Stopwords && Lower(t) == t
  }

  lemma {:induction false} NormalizedGood(ws: seq<string>)
    ensures forall t :: t in Normalized(ws) ==> GoodTerm(t)
    decreases |ws|
  {
    if |ws| > 0 {
      NormalizedGood(ws[..|ws| - 1]);
      var n := Normalize(ws[|ws| - 1]);
      if n.Some? {
        LowerIdempotent(Strip(ws[|ws| - 1]));
      }
    }
  }

  /** What `extract_terms` returns. */
  function ExtractSpec(text: string): seq<string> {
    if text == "" then [] else Dedupe(Normalized(Runs(text, IsTermChar)))
  }

  /**
   * The extracted terms are good terms with no repeats, each a normalised token of the text,
   * listed in the order of their first occurrence.
   */
  lemma ExtractSpecShape(text: string)
    ensures var r := ExtractSpec(text);
      Distinct(r) && (forall t :: t in r ==> GoodTerm(t))
    ensures text != "" ==> forall t :: t in ExtractSpec(text) <==> t in Normalized(Runs(text, IsTermChar))
  {
    if text != "" {
      var ns := Normalized(Runs(text, IsTermChar));
      var r := Dedupe(ns);
      assert ExtractSpec(text) == r;
      DedupeElements(ns);
      NormalizedGood(Runs(text, IsTermChar));
    }
  }

  /** Terms appear in the order their first occurrence has in the token list. */
  lemma ExtractSpecOrder(text: string)
    requires text != ""
    ensures var ns := Normalized(Runs(text, IsTermChar));
      var r := ExtractSpec(text);
      forall i, j :: 0 <= i < j < |r| ==> r[i] in ns && r[j] in ns && FirstIndex(ns, r[i]) < FirstIndex(ns, r[j])
  {
    DedupeFirstOccurrenceOrder(Normalized(Runs(text, IsTermChar)));
  }

  /** `extract_terms`: the two loops, normalise-and-keep, then the `seen` de-duplication. */
  method ExtractTerms(text: string) returns (res: seq<string>)
    ensures res == ExtractSpec(text)
  {
    if text == "" {
      return [];
    }
    var raw := Runs(text, IsTermChar);
    var terms: seq<string> := [];
    var i := 0;
    while i < |raw|
      invariant 0 <= i <= |raw|
      invariant terms == Normalized(raw[..i])
    {
      assert raw[..i + 1][..i] == raw[..i];
      var n := Normalize(raw[i]);
      if n.Some? {
        terms := terms + [n.value];
      }
      i := i + 1;
    }
    assert raw[..i] == raw;
    var seen: set<string> := {};
    res := [];
    var k := 0;
    while k < |terms|
      invariant 0 <= k <= |terms|
      invariant res == Dedupe(terms[..k])
      invariant forall x :: x in seen <==> x in res
    {
      assert terms[..k + 1][..k] == terms[..k];
      var t := terms[k];
      if t !in seen {
        res := res + [t];
        seen := seen + {t};
      }
      k := k + 1;
    }
    assert terms[..k] == terms;
  }

  // ---------------------------------------------------------------- the glossary table

  /** A `glossary` row; `status` "" stands for SQL `NULL`. */
  datatype TermRow = TermRow(usageCount: int, lastUsed: real, status: string)

  /** `upsert_term`: a new row starts at `inc` with status "new"; an existing one gains `inc`. */
  function Upserted(table: map<(int, string), TermRow>, chat: int, term: string, inc: int, now: real): map<(int, string), TermRow> {
    if (chat, term) in table then
      table[(chat, term) := table[(chat, term)].(usageCount := table[(chat, term)].usageCount + inc, lastUsed := now)]
    else table[(chat, term) := TermRow(inc, now, "new")]
  }

  /** The upsert loop of `process_user_text`, one `inc=1` per term. */
  function UpsertAll(table: map<(int, string), TermRow>, chat: int, ts: seq<string>, now: real): map<(int, string), TermRow>
    decreases |ts|
  {
    if |ts| == 0 then table else Upserted(UpsertAll(table, chat, ts[..|ts| - 1], now), chat, ts[|ts| - 1], 1, now)
  }

  function UsageOf(table: map<(int, string), TermRow>, chat: int, t: string): int {
    if (chat, t) in table then table[(chat, t)].usageCount else 0
  }

  /** With distinct terms, each listed term gains exactly one use and every other row is untouched. */
  lemma {:induction false} UpsertAllCounts(table: map<(int, string), TermRow>, chat: int, ts: seq<string>, now: real)
    requires Distinct(ts)
    ensures forall t :: t in ts ==>
      (chat, t) in UpsertAll(table, chat, ts, now) &&
      UsageOf(UpsertAll(table, chat, ts, now), chat, t) == UsageOf(table, chat, t) + 1
    ensures forall key :: key in table && !(key.0 == chat && key.1 in ts) ==>
      (key in UpsertAll(table, chat, ts, now) && UpsertAll(table, chat, ts, now)[key] == table[key])
    ensures forall key :: key in UpsertAll(table, chat, ts, now) ==> key in table || (key.0 == chat && key.1 in ts)
    decreases |ts|
  {
    if |ts| > 0 {
      var init := ts[..|ts| - 1];
      var last := ts[|ts| - 1];
      assert Distinct(init) by {
        forall i, j | 0 <= i < j < |init| ensures init[i] != init[j] {
          assert init[i] == ts[i] && init[j] == ts[j];
        }
      }
      assert last !in init by {
        forall i | 0 <= i < |init| ensures init[i] != last {
          assert init[i] == ts[i];
        }
      }
      UpsertAllCounts(table, chat, init, now);
      forall t | t in ts
        ensures t in init || t == last
      {
        var i :| 0 <= i < |ts| && ts[i] == t;
        if i < |ts| - 1 {
          assert init[i] == t;
        }
      }
      forall t | t in init ensures t in ts {
        var i :| 0 <= i < |init| && init[i] == t;
        assert ts[i] == t;
      }
    }
  }

  /** A row that triggers a suggestion: used often enough and still "new" (a `NULL` status counts as "new"). */
  predicate Eligible(row: TermRow, minUsage: int) {
    row.usageCount >= minUsage && (if row.status == "" then "new" else row.status) == "new"
  }

  /** The suggestion loop: the first term whose row is eligible; missing rows are skipped. */
  function FirstEligible(ts: seq<string>, table: map<(int, string), TermRow>, chat: int, minUsage: int): (r: Option<nat>)
    ensures r.Some? ==> r.value < |ts| && (chat, ts[r.value]) in table && Eligible(table[(chat, ts[r.value])], minUsage)
    ensures r.Some? ==> forall j :: 0 <= j < r.value ==> !((chat, ts[j]) in table && Eligible(table[(chat, ts[j])], minUsage))
    ensures r.None? ==> forall j :: 0 <= j < |ts| ==> !((chat, ts[j]) in table && Eligible(table[(chat, ts[j])], minUsage))
    decreases |ts|
  {
    if |ts| == 0 then None
    else if (chat, ts[0]) in table && Eligible(table[(chat, ts[0])], minUsage) then Some(0)
    else match FirstEligible(ts[1..], table, chat, minUsage)
      case None => None
      case Some(j) => Some(j + 1)
  }

  function SuggestionText(t: string): string {
    "Бачу, термін «" + t + "» часто вживається. " +
    "Дати коротке визначення і зберегти в глосарії? Напиши: «" + t + " — <визначення>»."
  }

  /** `_LAST_SUGGEST_AT.get(chat, 0)` */
  function LastAt(last: map<int, real>, chat: int): real {
    if chat in last then last[chat] else 0.0
  }

  /** Whether `process_user_text` gets as far as looking for a term to suggest. */
  predicate MaySuggest(enabled: bool, last: map<int, real>, chat: int, terms: seq<string>, now: real) {
    terms != [] && enabled && now - LastAt(last, chat) >= SuggestInterval
  }

  /** An eligible term with no eligible term before it is the first eligible one. */
  lemma FirstEligibleAt(ts: seq<string>, table: map<(int, string), TermRow>, chat: int, minUsage: int, k: nat)
    requires k < |ts| && (chat, ts[k]) in table && Eligible(table[(chat, ts[k])], minUsage)
    requires forall j :: 0 <= j < k ==> !((chat, ts[j]) in table && Eligible(table[(chat, ts[j])], minUsage))
    ensures FirstEligible(ts, table, chat, minUsage) == Some(k)
  {
    var r := FirstEligible(ts, table, chat, minUsage);
    assert r.Some?;
    assert !(r.value < k);
    assert !(k < r.value);
  }

  /** The suggestion loop of `process_user_text`, with its `continue` over terms without a row. */
  method FindEligible(ts: seq<string>, table: map<(int, string), TermRow>, chat: int, minUsage: int)
    returns (r: Option<nat>)
    ensures r == FirstEligible(ts, table, chat, minUsage)
  {
    var k := 0;
    while k < |ts|
      invariant 0 <= k <= |ts|
      invariant forall j :: 0 <= j < k ==> !((chat, ts[j]) in table && Eligible(table[(chat, ts[j])], minUsage))
    {
      var t := ts[k];
      if (chat, t) !in table {
        k := k + 1;
        continue;
      }
      if Eligible(table[(chat, t)], minUsage) {
        FirstEligibleAt(ts, table, chat, minUsage, k);
        return Some(k);
      }
      k := k + 1;
    }
    return None;
  }

  class GlossaryService {
    /** `GLOSSARY_ENABLE_SUGGESTIONS` and `GLOSSARY_MIN_USAGE_TO_ASK`. */
    const enableSuggestions: bool
    const minUsageToAsk: int
    var lastSuggestAt: map<int, real>
    var table: map<(int, string), TermRow>

    constructor(enableSuggestions: bool, minUsageToAsk: int, table: map<(int, string), TermRow>)
      ensures this.enableSuggestions == enableSuggestions && this.minUsageToAsk == minUsageToAsk
      ensures lastSuggestAt == map[] && this.table == table
    {
      this.enableSuggestions := enableSuggestions;
      this.minUsageToAsk := minUsageToAsk;
      this.table := table;
      lastSuggestAt := map[];
    }

    /**
     * `process_user_text` at time `now`. Every distinct term is upserted once. A suggestion names
     * the first eligible term and is made only with suggestions enabled and at least 120 seconds
     * after the chat's previous one; only then is the chat's suggestion time moved to `now`.
     */
    method ProcessUserText(chat: int, text: string, now: real) returns (suggestion: Option<string>)
      modifies this
      ensures table == UpsertAll(old(table), chat, ExtractSpec(text), now)
      ensures !MaySuggest(enableSuggestions, old(lastSuggestAt), chat, ExtractSpec(text), now) ==>
        suggestion == None && lastSuggestAt == old(lastSuggestAt)
      ensures MaySuggest(enableSuggestions, old(lastSuggestAt), chat, ExtractSpec(text), now) ==>
        var terms := ExtractSpec(text);
        var first := FirstEligible(terms, table, chat, minUsageToAsk);
        (first.None? ==> suggestion == None && lastSuggestAt == old(lastSuggestAt)) &&
        (first.Some? ==> suggestion == Some(SuggestionText(terms[first.value])) && lastSuggestAt == old(lastSuggestAt)[chat := now])
    {
      var terms := ExtractTerms(text);
      if terms == [] {
        return None;
      }
      var i := 0;
      while i < |terms|
        invariant 0 <= i <= |terms|
        invariant table == UpsertAll(old(table), chat, terms[..i], now)
        invariant lastSuggestAt == old(lastSuggestAt)
      {
        assert terms[..i + 1][..i] == terms[..i];
        table := Upserted(table, chat, terms[i], 1, now);
        i := i + 1;
      }
      assert terms[..i] == terms;
      if !enableSuggestions {
        return None;
      }
      if now - LastAt(lastSuggestAt, chat) < SuggestInterval {
        return None;
      }
      var first := FindEligible(terms, table, chat, minUsageToAsk);
      if first.Some? {
        lastSuggestAt := lastSuggestAt[chat := now];
        return Some(SuggestionText(terms[first.value]));
      }
      return None;
    }
  }
}
