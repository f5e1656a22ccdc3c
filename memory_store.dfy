/**
 * The memory tables: `memory_recent` (verbatim turns, per chat, by auto-increment `pos`) and
 * `memory_long` (summaries with importance and usage), held as rows in insertion order.
 */
module MemoryStore {
  import opened Wrappers
  import opened Sequences

  datatype RecentRow = RecentRow(chat: int, pos: int, role: string, content: string, tokens: int)

  /** A long-memory row; `lastUsed` is a timestamp in seconds, `None` for SQL `NULL`. */
  datatype LongRow = LongRow(id: int, chat: int, summary: string, importance: real,
                             usageCount: nat, lastUsed: Option<int>, tokens: int)

  /** `WHERE chat_id = chat` on the recent table. */
  function ChatRows(rows: seq<RecentRow>, chat: int): seq<RecentRow> {
    Filter(rows, (r: RecentRow) => r.chat == chat)
  }

  function ChatLongs(rows: seq<LongRow>, chat: int): seq<LongRow> {
    Filter(rows, (r: LongRow) => r.chat == chat)
  }

  /** What `delete_recent_upto_pos(chat, upto)` leaves. */
  function DeleteUpto(rows: seq<RecentRow>, chat: int, upto: int): seq<RecentRow> {
    Filter(rows, (r: RecentRow) => !(r.chat == chat && r.pos <= upto))
  }

  ghost predicate PosIncreasing(rows: seq<RecentRow>) {
    forall i, j :: 0 <= i < j < |rows| ==> rows[i].pos < rows[j].pos
  }

  ghost predicate IdsIncreasing(rows: seq<LongRow>) {
    forall i, j :: 0 <= i < j < |rows| ==> rows[i].id < rows[j].id
  }

  function SumTokens(rows: seq<RecentRow>): int
    decreases |rows|
  {
    if |rows| == 0 then 0 else SumTokens(rows[..|rows| - 1]) + rows[|rows| - 1].tokens
  }

  lemma {:induction false} SumTokensConcat(a: seq<RecentRow>, b: seq<RecentRow>)
    ensures SumTokens(a + b) == SumTokens(a) + SumTokens(b)
    decreases |b|
  {
    if |b| == 0 {
      assert a + b == a;
    } else {
      var b' := b[..|b| - 1];
      SumTokensConcat(a, b');
      assert (a + b)[..|a + b| - 1] == a + b';
      assert (a + b)[|a + b| - 1] == b[|b| - 1];
    }
  }

  /** `ORDER BY pos` then `LIMIT n` for a truthy `n`; a negative limit is an SQL error. */
  function ApplyLimit(rows: seq<RecentRow>, limit: Option<int>): (r: Result<seq<RecentRow>>)
    ensures limit.None? || limit.value == 0 ==> r == Ok(rows)
    ensures limit.Some? && limit.value > 0 ==> r.Ok? && r.value == rows[..if limit.value < |rows| then limit.value else |rows|]
    ensures limit.Some? && limit.value < 0 ==> r.Err?
  {
    if limit.None? || limit.value == 0 then Ok(rows)
    else if limit.value < 0 then Err("LIMIT must not be negative")
    else Ok(PyTake(rows, limit.value))
  }

  /** An order key for `ORDER BY importance DESC, COALESCE(last_used, epoch) DESC`. */
  function LastUsedOrEpoch(r: LongRow): int { r.lastUsed.GetOr(0) }

  /** `a` may be listed before `b`. */
  predicate LongBefore(a: LongRow, b: LongRow) {
    a.importance > b.importance || (a.importance == b.importance && LastUsedOrEpoch(a) >= LastUsedOrEpoch(b))
  }

  lemma LongBeforeTotalPreorder()
    ensures Total(LongBefore) && Transitive(LongBefore)
  {
  }

  /** `UPDATE … SET usage_count = usage_count + 1, last_used = now WHERE id IN ids`. */
  function BumpRow(r: LongRow, ids: seq<int>, now: int): LongRow {
    if r.id in ids then r.(usageCount := r.usageCount + 1, lastUsed := Some(now)) else r
  }

  function Bumped(rows: seq<LongRow>, ids: seq<int>, now: int): (r: seq<LongRow>)
    ensures |r| == |rows|
    ensures forall i :: 0 <= i < |rows| ==> r[i] == BumpRow(rows[i], ids, now)
  {
    seq(|rows|, i requires 0 <= i < |rows| => BumpRow(rows[i], ids, now))
  }

  /** `IN (…)` is a set test: listing an id twice bumps it once, and the order of ids does not matter. */
  lemma BumpedDependsOnSetOfIds(rows: seq<LongRow>, ids1: seq<int>, ids2: seq<int>, now: int)
    requires forall x :: x in ids1 <==> x in ids2
    ensures Bumped(rows, ids1, now) == Bumped(rows, ids2, now)
  {
  }

  /** Each listed id's row gains exactly one use; no other row changes. */
  lemma BumpedCounts(rows: seq<LongRow>, ids: seq<int>, now: int)
    ensures forall i :: 0 <= i < |rows| ==>
      Bumped(rows, ids, now)[i].usageCount == rows[i].usageCount + (if rows[i].id in ids then 1 else 0)
    ensures forall i :: 0 <= i < |rows| && rows[i].id !in ids ==> Bumped(rows, ids, now)[i] == rows[i]
  {
  }

  /** Rows of one chat come back in ascending `pos` order. */
  lemma {:induction false} FilterKeepsPosOrder(rows: seq<RecentRow>, p: RecentRow -> bool)
    requires PosIncreasing(rows)
    ensures PosIncreasing(Filter(rows, p))
    decreases |rows|
  {
    if |rows| > 0 {
      var init := rows[..|rows| - 1];
      FilterKeepsPosOrder(init, p);
      FilterMembers(init, p);
      var f := Filter(init, p);
      forall i | 0 <= i < |f| ensures f[i].pos < rows[|rows| - 1].pos {
        assert f[i] in init;
      }
    }
  }

  class Store {
    var recent: seq<RecentRow>
    var long: seq<LongRow>
    /** The next auto-increment values of `memory_recent.pos` and `memory_long.id`. */
    var nextPos: int
    var nextId: int

    ghost predicate Valid()
      reads this
    {
      PosIncreasing(recent) && (forall i :: 0 <= i < |recent| ==> recent[i].pos < nextPos) &&
      IdsIncreasing(long) && (forall i :: 0 <= i < |long| ==> long[i].id < nextId)
    }

    constructor()
      ensures Valid() && recent == [] && long == []
    {
      recent, long, nextPos, nextId := [], [], 1, 1;
    }

    /** `insert_recent`: one new row with the next `pos`. */
    method InsertRecent(chat: int, role: string, content: string, tokens: int)
      requires Valid()
      modifies this
      ensures Valid()
      ensures recent == old(recent) + [RecentRow(chat, old(nextPos), role, content, tokens)]
      ensures nextPos == old(nextPos) + 1 && long == old(long) && nextId == old(nextId)
    {
      recent := recent + [RecentRow(chat, nextPos, role, content, tokens)];
      nextPos := nextPos + 1;
    }

    /** `fetch_recent`: the chat's rows by ascending `pos`, cut to a truthy `limit`. */
    method FetchRecent(chat: int, limit: Option<int>) returns (rows: Result<seq<RecentRow>>)
      ensures rows == ApplyLimit(ChatRows(recent, chat), limit)
    {
      var acc: seq<RecentRow> := [];
      var i := 0;
      while i < |recent|
        invariant 0 <= i <= |recent|
        invariant acc == ChatRows(recent[..i], chat)
      {
        if recent[i].chat == chat {
          acc := acc + [recent[i]];
        }
        assert recent[..i + 1][..i] == recent[..i];
        i := i + 1;
      }
      assert recent[..i] == recent;
      rows := ApplyLimit(acc, limit);
    }

    /** `recent_total_tokens`: `COALESCE(SUM(tokens), 0)` over the chat's rows. */
    method RecentTotalTokens(chat: int) returns (total: int)
      ensures total == SumTokens(ChatRows(recent, chat))
    {
      total := 0;
      var i := 0;
      while i < |recent|
        invariant 0 <= i <= |recent|
        invariant total == SumTokens(ChatRows(recent[..i], chat))
      {
        var c := ChatRows(recent[..i], chat);
        assert recent[..i + 1][..i] == recent[..i];
        if recent[i].chat == chat {
          assert ChatRows(recent[..i + 1], chat) == c + [recent[i]];
          assert (c + [recent[i]])[..|c|] == c;
          total := total + recent[i].tokens;
        } else {
          assert ChatRows(recent[..i + 1], chat) == c;
        }
        i := i + 1;
      }
      assert recent[..i] == recent;
    }

    /** `delete_recent_upto_pos`: drops the chat's rows with `pos <= upto`; every other row stays. */
    method DeleteRecentUptoPos(chat: int, upto: int)
      requires Valid()
      modifies this
      ensures Valid()
      ensures recent == DeleteUpto(old(recent), chat, upto)
      ensures long == old(long) && nextPos == old(nextPos) && nextId == old(nextId)
    {
      var keep: seq<RecentRow> := [];
      var i := 0;
      while i < |recent|
        invariant 0 <= i <= |recent|
        invariant keep == DeleteUpto(recent[..i], chat, upto)
      {
        if !(recent[i].chat == chat && recent[i].pos <= upto) {
          keep := keep + [recent[i]];
        }
        assert recent[..i + 1][..i] == recent[..i];
        i := i + 1;
      }
      assert recent[..i] == recent;
      FilterKeepsPosOrder(recent, (r: RecentRow) => !(r.chat == chat && r.pos <= upto));
      FilterMembers(recent, (r: RecentRow) => !(r.chat == chat && r.pos <= upto));
      forall k | 0 <= k < |keep| ensures keep[k].pos < nextPos {
        assert keep[k] in recent;
      }
      recent := keep;
    }

    /** `insert_long_summary`: a fresh row with no uses, last used now. */
    method InsertLongSummary(chat: int, summary: string, importance: real, tokens: int, now: int)
      requires Valid()
      modifies this
      ensures Valid()
      ensures long == old(long) + [LongRow(old(nextId), chat, summary, importance, 0, Some(now), tokens)]
      ensures nextId == old(nextId) + 1 && recent == old(recent) && nextPos == old(nextPos)
    {
      long := long + [LongRow(nextId, chat, summary, importance, 0, Some(now), tokens)];
      nextId := nextId + 1;
    }

    /** `fetch_long_all`: the chat's summaries, most important first, then most recently used. */
    method FetchLongAll(chat: int) returns (rows: seq<LongRow>)
      ensures rows == SortBy(ChatLongs(long, chat), LongBefore)
      ensures SortedBy(rows, LongBefore)
      ensures multiset(rows) == multiset(ChatLongs(long, chat))
    {
      rows := SortBy(ChatLongs(long, chat), LongBefore);
      LongBeforeTotalPreorder();
      SortBySorted(ChatLongs(long, chat), LongBefore);
      SortByPermutation(ChatLongs(long, chat), LongBefore);
    }

    /** `bump_long_usage`: an empty id list issues no update. */
    method BumpLongUsage(ids: seq<int>, now: int)
      requires Valid()
      modifies this
      ensures Valid()
      ensures long == Bumped(old(long), ids, now)
      ensures recent == old(recent) && nextPos == old(nextPos) && nextId == old(nextId)
    {
      if |ids| == 0 {
        assert Bumped(long, ids, now) == long;
        return;
      }
      var updated: seq<LongRow> := [];
      var i := 0;
      while i < |long|
        invariant 0 <= i <= |long|
        invariant |updated| == i
        invariant forall k :: 0 <= k < i ==> updated[k] == BumpRow(long[k], ids, now)
      {
        updated := updated + [BumpRow(long[i], ids, now)];
        i := i + 1;
      }
      long := updated;
    }
  }
}
