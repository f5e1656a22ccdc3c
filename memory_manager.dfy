/**
 * The two-tier conversation memory: recent turns kept verbatim under a token budget, older
 * blocks compressed into long summaries, and a context assembled from both.
 */
module Manager {
  import opened Wrappers
  import opened Strings
  import opened Sequences
  import opened Tokens
  import opened Summarizer
  import opened MemoryStore

  const DefaultRecentBudget: int := 10000
  const DefaultLongBudget: int := 30000
  const DefaultCompressPortion: real := 0.35
  const LongMemoPrefix: string := "[LONG-MEMO] "

  /**
   * The environment settings. Each encoder is the one `_get_encoder` yields for its model:
   * `dialogEnc` for `DIALOG_MODEL`, `summaryEnc` for the summarizer model, `defaultEnc` for no model.
   */
  datatype Config = Config(recentBudget: int, longBudget: int, compressPortion: real,
                           dialogEnc: Option<Encoding>, summaryEnc: Option<Encoding>,
                           defaultEnc: Option<Encoding>)

  /** Python `int(x)` on a float: truncation toward zero. */
  function TruncToInt(x: real): (r: int)
    ensures x >= 0.0 ==> 0 <= r && r as real <= x < r as real + 1.0
    ensures x < 0.0 ==> r <= 0 && r as real - 1.0 < x <= r as real
  {
    if x >= 0.0 then x.Floor else -((-x).Floor)
  }

  /** `int(RECENT_BUDGET * COMPRESS_PORTION)`: how many tokens one compression should free. */
  function CompressTarget(cfg: Config): int {
    TruncToInt(cfg.recentBudget as real * cfg.compressPortion)
  }

  /** The smallest `k >= j` whose prefix reaches `target`, else the whole list. */
  function BlockLengthFrom(rows: seq<RecentRow>, target: int, j: nat): (k: nat)
    requires 1 <= j <= |rows|
    ensures j <= k <= |rows|
    ensures forall m :: j <= m < k ==> SumTokens(rows[..m]) < target
    ensures k < |rows| ==> SumTokens(rows[..k]) >= target
    decreases |rows| - j
  {
    if j == |rows| || SumTokens(rows[..j]) >= target then j else BlockLengthFrom(rows, target, j + 1)
  }

  /** How many of the oldest rows one compression takes: the shortest prefix reaching `target`, or all. */
  function BlockLength(rows: seq<RecentRow>, target: int): (k: nat)
    ensures |rows| == 0 <==> k == 0
    ensures k <= |rows|
    ensures forall m :: 1 <= m < k ==> SumTokens(rows[..m]) < target
    ensures 0 < k < |rows| ==> SumTokens(rows[..k]) >= target
  {
    if |rows| == 0 then 0 else BlockLengthFrom(rows, target, 1)
  }

  /** The `{"role", "content"}` dicts handed to the summarizer. */
  function BlockMsgs(rows: seq<RecentRow>): (ms: seq<RawMsg>)
    ensures |ms| == |rows|
    ensures forall i :: 0 <= i < |rows| ==> ms[i] == RawMsg(Some(rows[i].role), Some(rows[i].content))
  {
    seq(|rows|, i requires 0 <= i < |rows| => RawMsg(Some(rows[i].role), Some(rows[i].content)))
  }

  function AsChatMsgs(rows: seq<RecentRow>): (ms: seq<ChatMsg>)
    ensures |ms| == |rows|
    ensures forall i :: 0 <= i < |rows| ==> ms[i] == ChatMsg(rows[i].role, rows[i].content)
  {
    seq(|rows|, i requires 0 <= i < |rows| => ChatMsg(rows[i].role, rows[i].content))
  }

  lemma ChatRowsOrdered(recent: seq<RecentRow>, chat: int)
    requires PosIncreasing(recent)
    ensures PosIncreasing(ChatRows(recent, chat))
  {
    FilterKeepsPosOrder(recent, (r: RecentRow) => r.chat == chat);
  }

  /** In a `pos`-ordered list, `pos > rows[k-1].pos` keeps exactly `rows[k..]`. */
  lemma {:induction false} AfterPosIsSuffix(rows: seq<RecentRow>, k: nat)
    requires PosIncreasing(rows) && 1 <= k <= |rows|
    ensures Filter(rows, (r: RecentRow) => r.pos > rows[k - 1].pos) == rows[k..]
    decreases |rows|
  {
    var upto := rows[k - 1].pos;
    var p := (r: RecentRow) => r.pos > upto;
    if |rows| == k {
      forall i | 0 <= i < |rows| ensures !p(rows[i]) {}
      NoneKept(rows, p);
    } else {
      var init := rows[..|rows| - 1];
      assert init[k - 1] == rows[k - 1];
      AfterPosIsSuffix(init, k);
      assert Filter(init, p) == init[k..];
      assert p(rows[|rows| - 1]);
      assert rows[k..] == init[k..] + [rows[|rows| - 1]];
    }
  }

  /**
   * Deleting up to the `pos` of the k-th oldest row of a chat removes exactly that chat's first
   * `k` rows and leaves every other chat untouched.
   */
  lemma DeleteRemovesBlock(recent: seq<RecentRow>, chat: int, k: nat)
    requires PosIncreasing(recent)
    requires 1 <= k <= |ChatRows(recent, chat)|
    ensures var rows := ChatRows(recent, chat);
      ChatRows(DeleteUpto(recent, chat, rows[k - 1].pos), chat) == rows[k..]
    ensures forall c :: c != chat ==>
      ChatRows(DeleteUpto(recent, chat, ChatRows(recent, chat)[k - 1].pos), c) == ChatRows(recent, c)
  {
    var rows := ChatRows(recent, chat);
    var upto := rows[k - 1].pos;
    var keep := (r: RecentRow) => !(r.chat == chat && r.pos <= upto);
    var mine := (r: RecentRow) => r.chat == chat;
    var after := (r: RecentRow) => r.pos > upto;
    FilterFilter(recent, keep, mine, (r: RecentRow) => r.chat == chat && r.pos > upto);
    FilterFilter(recent, mine, after, (r: RecentRow) => r.chat == chat && r.pos > upto);
    ChatRowsOrdered(recent, chat);
    AfterPosIsSuffix(rows, k);
    forall c | c != chat
      ensures ChatRows(DeleteUpto(recent, chat, upto), c) == ChatRows(recent, c)
    {
      var theirs := (r: RecentRow) => r.chat == c;
      FilterFilter(recent, keep, theirs, theirs);
    }
  }

  // ---------------------------------------------------------------- keyword scoring

  /** `[w for w in re.findall(r"\w+", query.lower()) if len(w) > 2]` */
  function QueryWords(query: string): (q: seq<string>)
    ensures forall k :: 0 <= k < |q| ==> |q[k]| > 2
  {
    var ws := Filter(Runs(Lower(query), IsWordChar), (w: string) => |w| > 2);
    FilterMembers(Runs(Lower(query), IsWordChar), (w: string) => |w| > 2);
    assert forall k :: 0 <= k < |ws| ==> ws[k] in ws;
    ws
  }

  /** `sum(t.count(w) for w in ws)` */
  function Matches(t: string, ws: seq<string>): nat
    requires forall k :: 0 <= k < |ws| ==> |ws[k]| > 0
    decreases |ws|
  {
    if |ws| == 0 then 0 else Matches(t, ws[..|ws| - 1]) + CountOcc(t, ws[|ws| - 1])
  }

  /** Some word counts exactly when some word occurs. */
  lemma {:induction false} MatchesPositive(t: string, ws: seq<string>)
    requires forall k :: 0 <= k < |ws| ==> |ws[k]| > 0
    ensures Matches(t, ws) > 0 <==> exists k :: 0 <= k < |ws| && Contains(t, ws[k])
    decreases |ws|
  {
    if |ws| > 0 {
      var init := ws[..|ws| - 1];
      MatchesPositive(t, init);
      CountOccPositive(t, ws[|ws| - 1]);
      if exists k :: 0 <= k < |ws| && Contains(t, ws[k]) {
        var k :| 0 <= k < |ws| && Contains(t, ws[k]);
        if k < |ws| - 1 {
          assert init[k] == ws[k];
        }
      }
      if exists k :: 0 <= k < |init| && Contains(t, init[k]) {
        var k :| 0 <= k < |init| && Contains(t, init[k]);
        assert ws[k] == init[k];
      }
    }
  }

  /** What `_score` computes. */
  function ScoreSpec(text: string, query: string): real {
    var q := QueryWords(query);
    if text == "" || query == "" || |q| == 0 then 0.0
    else Matches(Lower(text), q) as real / (|text| as real / 1000.0 + 1.0)
  }

  /** A score is positive exactly when the text contains a (lowercased, 3+ character) query word. */
  lemma ScorePositiveIff(text: string, query: string)
    ensures ScoreSpec(text, query) >= 0.0
    ensures ScoreSpec(text, query) > 0.0 <==>
      text != "" && exists k :: 0 <= k < |QueryWords(query)| && Contains(Lower(text), QueryWords(query)[k])
  {
    var q := QueryWords(query);
    MatchesPositive(Lower(text), q);
    if query == "" {
      assert Lower(query) == "";
      assert Runs(Lower(query), IsWordChar) == [];
    }
  }

  /** `_score`: the keyword-count loop. */
  method Score(text: string, query: string) returns (score: real)
    ensures score == ScoreSpec(text, query)
  {
    if text == "" || query == "" {
      return 0.0;
    }
    var q := QueryWords(query);
    if |q| == 0 {
      return 0.0;
    }
    var t := Lower(text);
    var total: nat := 0;
    var i := 0;
    while i < |q|
      invariant 0 <= i <= |q|
      invariant total == Matches(t, q[..i])
    {
      assert q[..i + 1][..i] == q[..i];
      total := total + CountOcc(t, q[i]);
      i := i + 1;
    }
    assert q[..i] == q;
    score := total as real / (|text| as real / 1000.0 + 1.0);
  }

  // ---------------------------------------------------------------- long-memory selection

  datatype Scored = Scored(final: real, row: LongRow)

  /** `row["importance"] or 0.5`: an importance of 0 counts as 0.5. */
  function EffectiveImportance(r: LongRow): real {
    if r.importance == 0.0 then DefaultImportance else r.importance
  }

  function FinalScore(score: real, r: LongRow): real {
    score * 0.7 + EffectiveImportance(r) * 0.3
  }

  function ScoreRows(rows: seq<LongRow>, query: string): (s: seq<Scored>)
    ensures |s| == |rows|
    ensures forall i :: 0 <= i < |rows| ==> s[i] == Scored(FinalScore(ScoreSpec(rows[i].summary, query), rows[i]), rows[i])
  {
    seq(|rows|, i requires 0 <= i < |rows| => Scored(FinalScore(ScoreSpec(rows[i].summary, query), rows[i]), rows[i]))
  }

  /** `sort(key=final, reverse=True)`: descending and stable. */
  predicate ScoredBefore(a: Scored, b: Scored) { a.final >= b.final }

  /** The rows with final score `v`. */
  function ScoreIs(v: real): Scored -> bool {
    (t: Scored) => t.final == v
  }

  /**
   * The ranking is descending by final score, loses no row, and keeps rows of equal score in
   * their fetch order.
   */
  lemma RankingSortedPermutation(s: seq<Scored>)
    ensures SortedBy(SortBy(s, ScoredBefore), ScoredBefore)
    ensures multiset(SortBy(s, ScoredBefore)) == multiset(s)
    ensures forall v :: Filter(SortBy(s, ScoredBefore), ScoreIs(v)) == Filter(s, ScoreIs(v))
  {
    SortBySorted(s, ScoredBefore);
    SortByPermutation(s, ScoredBefore);
    forall v ensures Filter(SortBy(s, ScoredBefore), ScoreIs(v)) == Filter(s, ScoreIs(v)) {
      SortByStable(s, ScoredBefore, ScoreIs(v));
    }
  }

  /** `int(row["tokens"] or 0)`, recounted from the summary when 0. */
  function CostOf(r: LongRow, enc: Option<Encoding>): int {
    if r.tokens == 0 then CountText(r.summary, enc) else r.tokens
  }

  function TotalCost(rows: seq<LongRow>, enc: Option<Encoding>): int
    decreases |rows|
  {
    if |rows| == 0 then 0 else CostOf(rows[0], enc) + TotalCost(rows[1..], enc)
  }

  /** The greedy walk: skip a row that does not fit, take one that does, stop once nothing is left. */
  function Greedy(ranked: seq<Scored>, left: int, enc: Option<Encoding>): seq<LongRow>
    decreases |ranked|
  {
    if |ranked| == 0 then []
    else
      var t := CostOf(ranked[0].row, enc);
      if t > left then Greedy(ranked[1..], left, enc)
      else [ranked[0].row] + (if left - t <= 0 then [] else Greedy(ranked[1..], left - t, enc))
  }

  function Rows(ranked: seq<Scored>): (rs: seq<LongRow>)
    ensures |rs| == |ranked|
    ensures forall i :: 0 <= i < |ranked| ==> rs[i] == ranked[i].row
  {
    seq(|ranked|, i requires 0 <= i < |ranked| => ranked[i].row)
  }

  /** The selection never spends more than the budget (an empty selection spends nothing). */
  lemma {:induction false} GreedyWithinBudget(ranked: seq<Scored>, left: int, enc: Option<Encoding>)
    ensures var sel := Greedy(ranked, left, enc);
      (left >= 0 || sel != []) ==> TotalCost(sel, enc) <= left
    decreases |ranked|
  {
    if |ranked| > 0 {
      var t := CostOf(ranked[0].row, enc);
      if t > left {
        GreedyWithinBudget(ranked[1..], left, enc);
      } else if left - t > 0 {
        GreedyWithinBudget(ranked[1..], left - t, enc);
        var sel := Greedy(ranked, left, enc);
        assert sel[1..] == Greedy(ranked[1..], left - t, enc);
      } else {
        var sel := Greedy(ranked, left, enc);
        assert sel == [ranked[0].row];
        assert TotalCost(sel[1..], enc) == 0;
      }
    }
  }

  /** The selection keeps ranking order and only takes ranked rows. */
  lemma {:induction false} GreedySubsequence(ranked: seq<Scored>, left: int, enc: Option<Encoding>)
    ensures Subsequence(Greedy(ranked, left, enc), Rows(ranked))
    decreases |ranked|
  {
    if |ranked| > 0 {
      var t := CostOf(ranked[0].row, enc);
      var sel := Greedy(ranked, left, enc);
      var rs := Rows(ranked);
      assert rs[1..] == Rows(ranked[1..]);
      if t > left {
        GreedySubsequence(ranked[1..], left, enc);
        if sel != [] {
          assert Subsequence(sel, rs[1..]);
        }
      } else if left - t > 0 {
        GreedySubsequence(ranked[1..], left - t, enc);
        assert sel[0] == rs[0] && sel[1..] == Greedy(ranked[1..], left - t, enc);
      } else {
        assert sel[0] == rs[0] && sel[1..] == [];
      }
    }
  }

  /** A row that costs more than the whole budget is never selected. */
  lemma {:induction false} GreedySkipsTooCostly(ranked: seq<Scored>, left: int, enc: Option<Encoding>, r: LongRow)
    requires CostOf(r, enc) > left && CostOf(r, enc) >= 0
    requires forall i :: 0 <= i < |ranked| ==> CostOf(ranked[i].row, enc) >= 0
    ensures r !in Greedy(ranked, left, enc)
    decreases |ranked|
  {
    if |ranked| > 0 {
      var t := CostOf(ranked[0].row, enc);
      assert forall i :: 0 <= i < |ranked[1..]| ==> ranked[1..][i] == ranked[i + 1];
      if t > left {
        GreedySkipsTooCostly(ranked[1..], left, enc, r);
      } else if left - t > 0 {
        GreedySkipsTooCostly(ranked[1..], left - t, enc, r);
      }
    }
  }

  function Ids(rows: seq<LongRow>): (ids: seq<int>)
    ensures |ids| == |rows|
    ensures forall i :: 0 <= i < |rows| ==> ids[i] == rows[i].id
  {
    seq(|rows|, i requires 0 <= i < |rows| => rows[i].id)
  }

  function MemoMsgs(rows: seq<LongRow>): (ms: seq<ChatMsg>)
    ensures |ms| == |rows|
    ensures forall i :: 0 <= i < |rows| ==> ms[i] == ChatMsg("system", LongMemoPrefix + rows[i].summary)
  {
    seq(|rows|, i requires 0 <= i < |rows| => ChatMsg("system", LongMemoPrefix + rows[i].summary))
  }

  /** The rows `_select_long_relevant` picks, given the chat's `fetch_long_all` result. */
  function SelectionSpec(longs: seq<LongRow>, query: string, cfg: Config): seq<LongRow> {
    if |longs| == 0 then [] else Greedy(SortBy(ScoreRows(longs, query), ScoredBefore), cfg.longBudget, cfg.defaultEnc)
  }

  /** `[{"role": "system", "content": system_prompt.strip()}]` when the prompt is truthy. */
  function SystemPart(systemPrompt: Option<string>): seq<ChatMsg> {
    if Truthy(systemPrompt) then [ChatMsg("system", Strip(systemPrompt.value))] else []
  }

  /** The recent messages, trimmed only when they exceed the budget. */
  function RecentPart(msgs: seq<ChatMsg>, budget: int, enc: Option<Encoding>): seq<ChatMsg> {
    if CountMessages(msgs, enc) > budget then TrimSpec(msgs, budget, enc) else msgs
  }

  /** The summaries selected for a chat from the long table. */
  function ChatSelection(cfg: Config, long: seq<LongRow>, chat: int, query: string): seq<LongRow> {
    SelectionSpec(SortBy(ChatLongs(long, chat), LongBefore), query, cfg)
  }

  /** What `select_context` returns for a given state of the tables. */
  function ContextSpec(cfg: Config, recent: seq<RecentRow>, long: seq<LongRow>, chat: int,
                       query: string, systemPrompt: Option<string>): seq<ChatMsg>
  {
    SystemPart(systemPrompt) + MemoMsgs(ChatSelection(cfg, long, chat, query)) +
    RecentPart(AsChatMsgs(ChatRows(recent, chat)), cfg.recentBudget, cfg.defaultEnc)
  }

  /**
   * The recent part is all of the chat's messages when they fit, and otherwise a contiguous run
   * of them that fits a non-negative budget.
   */
  lemma RecentPartShape(msgs: seq<ChatMsg>, budget: int, enc: Option<Encoding>)
    ensures var r := RecentPart(msgs, budget, enc);
      (CountMessages(msgs, enc) <= budget ==> r == msgs) &&
      (exists j, k :: 0 <= j <= k <= |msgs| && r == msgs[j..k]) &&
      (budget >= 0 ==> CountMessages(r, enc) <= budget)
  {
    var r := RecentPart(msgs, budget, enc);
    if CountMessages(msgs, enc) > budget {
      assert r == TrimSpec(msgs, budget, enc);
      TrimFits(msgs, budget, enc);
      var j, k := TrimBounds(msgs, budget, enc);
    } else {
      assert r == msgs[0..|msgs|];
    }
  }

  /** Every long-memory message is a system message carrying the `[LONG-MEMO] ` prefix. */
  lemma MemoMsgsShape(sel: seq<LongRow>)
    ensures forall i :: 0 <= i < |sel| ==>
      MemoMsgs(sel)[i].role == "system" && StartsWith(MemoMsgs(sel)[i].content, LongMemoPrefix)
  {
    forall i | 0 <= i < |sel|
      ensures StartsWith(MemoMsgs(sel)[i].content, LongMemoPrefix)
    {
      assert (LongMemoPrefix + sel[i].summary)[..|LongMemoPrefix|] == LongMemoPrefix;
    }
  }

  /** The selected summaries cost at most `LONG_BUDGET`. */
  lemma SelectionWithinBudget(cfg: Config, long: seq<LongRow>, chat: int, query: string)
    ensures var sel := ChatSelection(cfg, long, chat, query);
      (cfg.longBudget >= 0 || sel != []) ==> TotalCost(sel, cfg.defaultEnc) <= cfg.longBudget
  {
    var longs := SortBy(ChatLongs(long, chat), LongBefore);
    if |longs| > 0 {
      GreedyWithinBudget(SortBy(ScoreRows(longs, query), ScoredBefore), cfg.longBudget, cfg.defaultEnc);
    }
  }

  class MemoryManager {
    const cfg: Config
    const store: Store

    constructor(cfg: Config, store: Store)
      ensures this.cfg == cfg && this.store == store
    {
      this.cfg := cfg;
      this.store := store;
    }

    /** `append_message`: one recent row counted with the dialog model's encoder; no budget check. */
    method AppendMessage(chat: int, role: string, content: string)
      requires store.Valid()
      modifies store
      ensures store.Valid()
      ensures store.recent == old(store.recent) + [RecentRow(chat, old(store.nextPos), role, content, CountText(content, cfg.dialogEnc))]
      ensures store.long == old(store.long)
    {
      store.InsertRecent(chat, role, content, CountText(content, cfg.dialogEnc));
    }

    /**
     * `ensure_budget`. Within budget, or without rows, nothing changes (`Ok(false)`). Otherwise the
     * oldest block is summarized; a failing summarizer call changes nothing (`Err`); else one long
     * summary is stored and exactly the block's rows are deleted (`Ok(true)`).
     */
    method EnsureBudget(chat: int, reply: LlmReply, now: int) returns (res: Result<bool>)
      requires store.Valid()
      modifies store
      ensures store.Valid()
      ensures var rows := ChatRows(old(store.recent), chat);
        SumTokens(rows) <= cfg.recentBudget || rows == [] ==>
          res == Ok(false) && store.recent == old(store.recent) && store.long == old(store.long)
      ensures var rows := ChatRows(old(store.recent), chat);
        var k := BlockLength(rows, CompressTarget(cfg));
        var s := SummarizeBlock(BlockMsgs(rows[..k]), reply, cfg.summaryEnc);
        SumTokens(rows) > cfg.recentBudget && rows != [] ==>
          (s.Err? ==> res.Err? && store.recent == old(store.recent) && store.long == old(store.long)) &&
          (s.Ok? ==>
            (res == Ok(true) &&
             store.long == old(store.long) + [LongRow(old(store.nextId), chat, s.value.summary, s.value.importance, 0, Some(now), s.value.tokens)] &&
             store.recent == DeleteUpto(old(store.recent), chat, rows[k - 1].pos)))
    {
      var total := store.RecentTotalTokens(chat);
      if total <= cfg.recentBudget {
        return Ok(false);
      }
      var targetFree := CompressTarget(cfg);
      var fetched := store.FetchRecent(chat, None);
      var acc, uptoPos := CollectBlock(fetched.value, targetFree);
      if acc == [] || uptoPos.None? {
        return Ok(false);
      }
      var summary := SummarizeBlock(acc, reply, cfg.summaryEnc);
      if summary.Err? {
        return Err(summary.error);
      }
      store.InsertLongSummary(chat, summary.value.summary, summary.value.importance, summary.value.tokens, now);
      store.DeleteRecentUptoPos(chat, uptoPos.value);
      res := Ok(true);
    }

    /** The `for r in rows` loop of `ensure_budget`: accumulate rows until their tokens reach `target`. */
    static method CollectBlock(rows: seq<RecentRow>, target: int) returns (acc: seq<RawMsg>, uptoPos: Option<int>)
      ensures var k := BlockLength(rows, target);
        acc == BlockMsgs(rows[..k]) && (k == 0 <==> uptoPos.None?) && (k > 0 ==> uptoPos == Some(rows[k - 1].pos))
    {
      acc := [];
      var accTokens := 0;
      uptoPos := None;
      var i := 0;
      while i < |rows|
        invariant 0 <= i <= |rows|
        invariant acc == BlockMsgs(rows[..i])
        invariant accTokens == SumTokens(rows[..i])
        invariant i == 0 <==> uptoPos.None?
        invariant i > 0 ==> uptoPos == Some(rows[i - 1].pos)
        invariant forall m :: 1 <= m <= i ==> SumTokens(rows[..m]) < target
      {
        acc := acc + [RawMsg(Some(rows[i].role), Some(rows[i].content))];
        assert rows[..i + 1][..i] == rows[..i];
        accTokens := accTokens + rows[i].tokens;
        uptoPos := Some(rows[i].pos);
        i := i + 1;
        if accTokens >= target {
          break;
        }
      }
      assert i == BlockLength(rows, target);
    }

    /** `_select_long_relevant`: score, rank, then walk the ranking under the long budget. */
    method SelectLongRelevant(chat: int, query: string) returns (selected: seq<ChatMsg>, ids: seq<int>)
      ensures selected == MemoMsgs(ChatSelection(cfg, store.long, chat, query))
      ensures ids == Ids(ChatSelection(cfg, store.long, chat, query))
    {
      var longs := store.FetchLongAll(chat);
      if |longs| == 0 {
        return [], [];
      }
      var scored := ScoreAll(longs, query);
      var ranked := SortBy(scored, ScoredBefore);
      selected, ids := WalkRanking(ranked, cfg.longBudget, cfg.defaultEnc);
    }

    /** The scoring loop of `_select_long_relevant`. */
    static method ScoreAll(longs: seq<LongRow>, query: string) returns (scored: seq<Scored>)
      ensures scored == ScoreRows(longs, query)
    {
      scored := [];
      var i := 0;
      while i < |longs|
        invariant 0 <= i <= |longs|
        invariant scored == ScoreRows(longs[..i], query)
      {
        var sc := Score(longs[i].summary, query);
        scored := scored + [Scored(FinalScore(sc, longs[i]), longs[i])];
        i := i + 1;
      }
      assert longs[..i] == longs;
    }

    /** The selection loop of `_select_long_relevant`, with its `continue` and `break`. */
    static method WalkRanking(ranked: seq<Scored>, budget: int, enc: Option<Encoding>)
      returns (selected: seq<ChatMsg>, ids: seq<int>)
      ensures selected == MemoMsgs(Greedy(ranked, budget, enc)) && ids == Ids(Greedy(ranked, budget, enc))
    {
      ghost var picked: seq<LongRow> := [];
      selected, ids := [], [];
      var budgetLeft := budget;
      var j := 0;
      while j < |ranked|
        invariant 0 <= j <= |ranked|
        invariant picked + Greedy(ranked[j..], budgetLeft, enc) == Greedy(ranked, budget, enc)
        invariant selected == MemoMsgs(picked) && ids == Ids(picked)
      {
        var row := ranked[j].row;
        var t := CostOf(row, enc);
        assert ranked[j..][1..] == ranked[j + 1..];
        if t > budgetLeft {
          j := j + 1;
          continue;
        }
        selected := selected + [ChatMsg("system", LongMemoPrefix + row.summary)];
        ids := ids + [row.id];
        picked := picked + [row];
        budgetLeft := budgetLeft - t;
        j := j + 1;
        if budgetLeft <= 0 {
          assert picked == Greedy(ranked, budget, enc);
          break;
        }
      }
      if j == |ranked| {
        assert picked == Greedy(ranked, budget, enc);
      }
    }

    /**
     * `select_context`: the assembled context (`RecentPartShape`, `MemoMsgsShape`, `SelectionWithinBudget`); afterwards exactly the
     * selected summaries' usage is bumped.
     */
    method SelectContext(chat: int, query: string, systemPrompt: Option<string>, now: int) returns (msgs: seq<ChatMsg>)
      requires store.Valid()
      modifies store
      ensures store.Valid()
      ensures msgs == ContextSpec(cfg, old(store.recent), old(store.long), chat, query, systemPrompt)
      ensures store.long == Bumped(old(store.long), Ids(ChatSelection(cfg, old(store.long), chat, query)), now)
      ensures store.recent == old(store.recent)
    {
      msgs := [];
      if Truthy(systemPrompt) {
        msgs := msgs + [ChatMsg("system", Strip(systemPrompt.value))];
      }
      assert msgs == SystemPart(systemPrompt);
      var longMsgs, longIds := SelectLongRelevant(chat, query);
      msgs := msgs + longMsgs;
      var fetched := store.FetchRecent(chat, None);
      var recentMsgs := AsChatMsgs(fetched.value);
      if CountMessages(recentMsgs, cfg.defaultEnc) > cfg.recentBudget {
        recentMsgs := BudgetTrim(recentMsgs, cfg.recentBudget, cfg.defaultEnc);
      }
      assert recentMsgs == RecentPart(AsChatMsgs(ChatRows(store.recent, chat)), cfg.recentBudget, cfg.defaultEnc);
      msgs := msgs + recentMsgs;
      store.BumpLongUsage(longIds, now);
    }
  }
}
