/**
 * `StatsService`: in-process counters of incoming and outgoing messages, token totals, and one
 * record per answered message.
 */
module Stats {

  /** One `per_message_stats` entry. */
  datatype OutRecord = OutRecord(chat: int, tokensIn: int, tokensOut: int, tokensTotal: int, usedFileSearch: bool)

  /** The dictionary `get_stats` returns. */
  datatype Snapshot = Snapshot(uptimeSeconds: int, messagesIn: int, messagesOut: int,
                               totalTokensIn: int, totalTokensOut: int,
                               avgTokensIn: int, avgTokensOut: int, fileSearchUses: nat)

  /** Σ tokens_in over the records. */
  function SumIn(rs: seq<OutRecord>): int
    decreases |rs|
  {
    if |rs| == 0 then 0 else SumIn(rs[..|rs| - 1]) + rs[|rs| - 1].tokensIn
  }

  /** Σ tokens_out over the records. */
  function SumOut(rs: seq<OutRecord>): int
    decreases |rs|
  {
    if |rs| == 0 then 0 else SumOut(rs[..|rs| - 1]) + rs[|rs| - 1].tokensOut
  }

  /** `sum(1 for it in per_message_stats if it.get("used_file_search"))` */
  function FileSearchCount(rs: seq<OutRecord>): (n: nat)
    ensures n <= |rs|
    ensures n == 0 <==> forall i :: 0 <= i < |rs| ==> !rs[i].usedFileSearch
    decreases |rs|
  {
    if |rs| == 0 then 0
    else FileSearchCount(rs[..|rs| - 1]) + (if rs[|rs| - 1].usedFileSearch then 1 else 0)
  }

  /** Python `int(x)`: truncation toward zero. */
  function TruncToInt(x: real): (n: int)
    ensures 0.0 <= x ==> n as real <= x < n as real + 1.0
    ensures x < 0.0 ==> n as real - 1.0 < x <= n as real
  {
    if x >= 0.0 then x.Floor else -((-x).Floor)
  }

  /** Python `a // b` for `b >= 1` (floor division; Dafny's `/` agrees for a positive divisor). */
  function FloorDiv(a: int, b: int): (q: int)
    requires b >= 1
    ensures q * b <= a < (q + 1) * b
  {
    a / b
  }

  class StatsService {
    /** `time.monotonic()` at construction. */
    const startedAt: real
    var tokensIn: int
    var tokensOut: int
    var messagesIn: int
    var messagesOut: int
    var perMessageStats: seq<OutRecord>

    /** The totals and the count of answered messages are those of the records. */
    predicate Valid()
      reads this
    {
      messagesOut == |perMessageStats| &&
      tokensIn == SumIn(perMessageStats) && tokensOut == SumOut(perMessageStats) &&
      messagesIn >= 0
    }

    constructor(now: real)
      ensures Valid() && startedAt == now
      ensures tokensIn == 0 && tokensOut == 0 && messagesIn == 0 && messagesOut == 0 && perMessageStats == []
    {
      startedAt := now;
      tokensIn := 0;
      tokensOut := 0;
      messagesIn := 0;
      messagesOut := 0;
      perMessageStats := [];
    }

    /** `record_incoming`: only `messages_in` moves, by one. */
    method RecordIncoming()
      requires Valid()
      modifies this
      ensures Valid()
      ensures messagesIn == old(messagesIn) + 1
      ensures tokensIn == old(tokensIn) && tokensOut == old(tokensOut) && messagesOut == old(messagesOut)
      ensures perMessageStats == old(perMessageStats)
    {
      messagesIn := messagesIn + 1;
    }

    /** `record_outgoing`: both totals grow by the call's tokens and one record is appended. */
    method RecordOutgoing(chat: int, tIn: int, tOut: int, usedFs: bool)
      requires Valid()
      modifies this
      ensures Valid()
      ensures tokensIn == old(tokensIn) + tIn && tokensOut == old(tokensOut) + tOut
      ensures messagesOut == old(messagesOut) + 1 && messagesIn == old(messagesIn)
      ensures perMessageStats == old(perMessageStats) + [OutRecord(chat, tIn, tOut, tIn + tOut, usedFs)]
    {
      var r := OutRecord(chat, tIn, tOut, tIn + tOut, usedFs);
      assert (perMessageStats + [r])[..|perMessageStats|] == perMessageStats;
      tokensIn := tokensIn + tIn;
      tokensOut := tokensOut + tOut;
      messagesOut := messagesOut + 1;
      perMessageStats := perMessageStats + [r];
    }

    /** `get_stats` at clock reading `now`; it reads the counters and changes nothing. */
    function GetStats(now: real): (s: Snapshot)
      reads this
      ensures s.messagesIn == messagesIn && s.messagesOut == messagesOut
      ensures s.totalTokensIn == tokensIn && s.totalTokensOut == tokensOut
      ensures var d := if messagesOut > 1 then messagesOut else 1;
        s.avgTokensIn * d <= tokensIn < (s.avgTokensIn + 1) * d &&
        s.avgTokensOut * d <= tokensOut < (s.avgTokensOut + 1) * d
      ensures s.fileSearchUses == FileSearchCount(perMessageStats) && s.fileSearchUses <= |perMessageStats|
      ensures now >= startedAt ==> 0 <= s.uptimeSeconds && s.uptimeSeconds as real <= now - startedAt
    {
      var d := if messagesOut > 1 then messagesOut else 1;
      Snapshot(TruncToInt(now - startedAt), messagesIn, messagesOut, tokensIn, tokensOut,
               FloorDiv(tokensIn, d), FloorDiv(tokensOut, d), FileSearchCount(perMessageStats))
    }
  }

  /** With nothing answered yet, both averages and the file-search count are zero. */
  lemma NothingSentZeroAverages(s: StatsService, now: real)
    requires s.Valid() && s.messagesOut == 0
    ensures s.GetStats(now).avgTokensIn == 0 && s.GetStats(now).avgTokensOut == 0
    ensures s.GetStats(now).fileSearchUses == 0
  {
  }

  /** For a single answered message the averages are that message's tokens. */
  lemma OneSentAverages(rs: seq<OutRecord>)
    requires |rs| == 1
    ensures SumIn(rs) == rs[0].tokensIn && SumOut(rs) == rs[0].tokensOut
    ensures FileSearchCount(rs) == (if rs[0].usedFileSearch then 1 else 0)
  {
    assert rs[..0] == [];
  }

  /** Appending a record adds its tokens and, if it used file search, one use. */
  lemma {:induction false} SumsAppend(rs: seq<OutRecord>, more: seq<OutRecord>)
    ensures SumIn(rs + more) == SumIn(rs) + SumIn(more)
    ensures SumOut(rs + more) == SumOut(rs) + SumOut(more)
    ensures FileSearchCount(rs + more) == FileSearchCount(rs) + FileSearchCount(more)
    decreases |more|
  {
    if |more| == 0 {
      assert rs + more == rs;
    } else {
      var m' := more[..|more| - 1];
      SumsAppend(rs, m');
      assert (rs + more)[..|rs + more| - 1] == rs + m';
    }
  }
}
