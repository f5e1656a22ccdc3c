/**
 * What the two in-memory chat-history managers share: the entry record, the length measure,
 * and the rule that pruning removes the oldest non-system entry until the history fits.
 */
module History {
  import opened Wrappers
  import opened Sequences

  /** One history entry: a `{"role", "content"}` dict, or the `ChatMessage` record. */
  datatype Message = Message(role: string, content: string)

  const SystemRole: string := "system"

  predicate IsSystem(m: Message) { m.role == SystemRole }

  predicate NotSystem(m: Message) { m.role != SystemRole }

  /** Σ len(content) */
  function TotalLength(h: seq<Message>): nat
    decreases |h|
  {
    if |h| == 0 then 0 else TotalLength(h[..|h| - 1]) + |h[|h| - 1].content|
  }

  lemma {:induction false} TotalLengthConcat(a: seq<Message>, b: seq<Message>)
    ensures TotalLength(a + b) == TotalLength(a) + TotalLength(b)
    decreases |b|
  {
    if |b| == 0 {
      assert a + b == a;
    } else {
      var b' := b[..|b| - 1];
      TotalLengthConcat(a, b');
      assert (a + b)[..|a + b| - 1] == a + b';
      assert (a + b)[|a + b| - 1] == b[|b| - 1];
    }
  }

  /** Python `list.insert(i, m)` for `i >= 0`: past the end it appends. */
  function InsertAt(h: seq<Message>, i: nat, m: Message): (r: seq<Message>)
    ensures |r| == |h| + 1
    ensures var j := if i < |h| then i else |h|; r[j] == m && r[..j] == h[..j] && r[j + 1..] == h[j..]
  {
    var j := if i < |h| then i else |h|;
    h[..j] + [m] + h[j..]
  }

  /** Python `list.pop(i)`. */
  function RemoveAt(h: seq<Message>, i: nat): (r: seq<Message>)
    requires i < |h|
    ensures |r| == |h| - 1
    ensures TotalLength(r) + |h[i].content| == TotalLength(h)
  {
    assert h == h[..i] + [h[i]] + h[i + 1..];
    TotalLengthConcat(h[..i] + [h[i]], h[i + 1..]);
    TotalLengthConcat(h[..i], [h[i]]);
    TotalLengthConcat(h[..i], h[i + 1..]);
    h[..i] + h[i + 1..]
  }

  /** Where the inner `for` loop stops: the oldest non-system entry, if any. */
  function FirstNonSystem(h: seq<Message>): (i: Option<nat>)
    ensures i.None? <==> forall k :: 0 <= k < |h| ==> IsSystem(h[k])
    ensures i.Some? ==> i.value < |h| && NotSystem(h[i.value]) && forall k :: 0 <= k < i.value ==> IsSystem(h[k])
    decreases |h|
  {
    if |h| == 0 then None
    else if NotSystem(h[0]) then Some(0)
    else match FirstNonSystem(h[1..])
      case None => None
      case Some(j) => Some(j + 1)
  }

  /** The inner loop of `prune_history`: locate the oldest non-system entry. */
  method FindFirstNonSystem(h: seq<Message>) returns (i: Option<nat>)
    ensures i == FirstNonSystem(h)
  {
    var k := 0;
    while k < |h|
      invariant 0 <= k <= |h|
      invariant forall j :: 0 <= j < k ==> IsSystem(h[j])
    {
      if h[k].role != SystemRole {
        return Some(k);
      }
      k := k + 1;
    }
    return None;
  }

  /** One pass of the outer `while` body: pop the oldest non-system entry; with none, nothing changes. */
  function PruneStep(h: seq<Message>): seq<Message> {
    match FirstNonSystem(h)
    case None => h
    case Some(i) => RemoveAt(h, i)
  }

  /**
   * `prune_history` as written, run for at most `fuel` iterations of its `while` loop:
   * `Some(h')` once the history fits, `None` if the loop is still running.
   */
  function PruneAsWritten(h: seq<Message>, maxLength: int, fuel: nat): Option<seq<Message>>
    decreases fuel
  {
    if TotalLength(h) <= maxLength then Some(h)
    else if fuel == 0 then None
    else PruneAsWritten(PruneStep(h), maxLength, fuel - 1)
  }

  /** Once only system entries are left over the limit, the loop makes no progress, however long it runs. */
  lemma {:induction false} PruneAsWrittenDiverges(h: seq<Message>, maxLength: int, fuel: nat)
    requires TotalLength(h) > maxLength
    requires forall k :: 0 <= k < |h| ==> IsSystem(h[k])
    ensures PruneAsWritten(h, maxLength, fuel) == None
    decreases fuel
  {
    assert PruneStep(h) == h;
    if fuel > 0 {
      PruneAsWrittenDiverges(h, maxLength, fuel - 1);
    }
  }

  /** A concrete history on which `prune_history(chat, 5)` never returns. */
  lemma SystemOnlyHistoryNeverPrunes(fuel: nat)
    ensures PruneAsWritten([Message(SystemRole, "System message")], 5, fuel) == None
  {
    var h := [Message(SystemRole, "System message")];
    assert h[..0] == [];
    assert TotalLength(h) == 14;
    PruneAsWrittenDiverges(h, 5, fuel);
  }

  /**
   * The intended `prune_history`: pop the oldest non-system entry while the history is over
   * the limit, and stop when none is left.
   */
  function PruneSpec(h: seq<Message>, maxLength: int): (r: seq<Message>)
    ensures |r| <= |h| && TotalLength(r) <= TotalLength(h)
    decreases |h|
  {
    if TotalLength(h) <= maxLength then h
    else match FirstNonSystem(h)
      case None => h
      case Some(i) => PruneSpec(RemoveAt(h, i), maxLength)
  }

  /**
   * The `while` loop of `prune_history`, stopping when no non-system entry is left: pop the
   * oldest non-system entry until the history fits.
   */
  method PruneLoop(h0: seq<Message>, maxLength: int) returns (h: seq<Message>)
    ensures h == PruneSpec(h0, maxLength)
  {
    h := h0;
    while TotalLength(h) > maxLength
      invariant PruneSpec(h, maxLength) == PruneSpec(h0, maxLength)
      decreases |h|
    {
      var i := FindFirstNonSystem(h);
      if i.None? {
        break;
      }
      h := RemoveAt(h, i.value);
    }
  }

  /** Over the limit, one more iteration of the loop as written is one `PruneStep`. */
  lemma PruneAsWrittenUnfold(h: seq<Message>, maxLength: int, fuel: nat)
    requires TotalLength(h) > maxLength && fuel > 0
    ensures PruneAsWritten(h, maxLength, fuel) == PruneAsWritten(PruneStep(h), maxLength, fuel - 1)
  {
  }

  /** Where pruning can finish, the loop as written finishes with the same history. */
  lemma {:induction false} PruneAsWrittenAgrees(h: seq<Message>, maxLength: int)
    requires TotalLength(PruneSpec(h, maxLength)) <= maxLength
    ensures PruneAsWritten(h, maxLength, |h|) == Some(PruneSpec(h, maxLength))
    decreases |h|
  {
    if TotalLength(h) > maxLength {
      var h' := PruneSpecAdvance(h, maxLength);
      PruneAsWrittenAdvance(h, h', maxLength);
      PruneAsWrittenAgrees(h', maxLength);
    }
  }

  /** Where pruning can finish and the history is over the limit, the corrected prune takes one pop. */
  lemma PruneSpecAdvance(h: seq<Message>, maxLength: int) returns (h': seq<Message>)
    requires TotalLength(h) > maxLength && TotalLength(PruneSpec(h, maxLength)) <= maxLength
    ensures h' == PruneStep(h) && |h'| + 1 == |h|
    ensures PruneSpec(h', maxLength) == PruneSpec(h, maxLength)
  {
    PruneCanStep(h, maxLength);
    PruneSpecStep(h, maxLength, FirstNonSystem(h).value);
    h' := PruneStep(h);
  }

  /** Over the limit, the loop as written takes the same pop. */
  lemma PruneAsWrittenAdvance(h: seq<Message>, h': seq<Message>, maxLength: int)
    requires TotalLength(h) > maxLength && h' == PruneStep(h) && |h'| + 1 == |h|
    ensures PruneAsWritten(h, maxLength, |h|) == PruneAsWritten(h', maxLength, |h'|)
  {
    PruneAsWrittenUnfold(h, maxLength, |h|);
  }

  /** A history over the limit that pruning brings within it has a non-system entry to pop. */
  lemma PruneCanStep(h: seq<Message>, maxLength: int)
    requires TotalLength(h) > maxLength && TotalLength(PruneSpec(h, maxLength)) <= maxLength
    ensures FirstNonSystem(h).Some?
  {
    if FirstNonSystem(h).None? {
      PruneSpecStuck(h, maxLength);
      assert false;
    }
  }

  /** Over the limit with no non-system entry, the corrected prune stops where it is. */
  lemma PruneSpecStuck(h: seq<Message>, maxLength: int)
    requires TotalLength(h) > maxLength && FirstNonSystem(h).None?
    ensures PruneSpec(h, maxLength) == h
  {
  }

  /** Over the limit, the corrected prune pops the oldest non-system entry and goes on. */
  lemma PruneSpecStep(h: seq<Message>, maxLength: int, i: nat)
    requires TotalLength(h) > maxLength && FirstNonSystem(h) == Some(i)
    ensures PruneSpec(h, maxLength) == PruneSpec(RemoveAt(h, i), maxLength)
    ensures PruneStep(h) == RemoveAt(h, i) && |RemoveAt(h, i)| == |h| - 1
  {
  }

  /** Afterwards the history fits, or only system entries are left; a history that fits is untouched. */
  lemma {:induction false} PruneFits(h: seq<Message>, maxLength: int)
    ensures var r := PruneSpec(h, maxLength);
      TotalLength(r) <= maxLength || forall k :: 0 <= k < |r| ==> IsSystem(r[k])
    ensures TotalLength(h) <= maxLength ==> PruneSpec(h, maxLength) == h
    decreases |h|
  {
    if TotalLength(h) > maxLength {
      match FirstNonSystem(h)
      case None =>
      case Some(i) => PruneFits(RemoveAt(h, i), maxLength);
    }
  }

  /** Removing the oldest non-system entry keeps all system entries and drops the first non-system one. */
  lemma RemoveFirstNonSystem(h: seq<Message>, i: nat)
    requires FirstNonSystem(h) == Some(i)
    ensures Filter(RemoveAt(h, i), IsSystem) == Filter(h, IsSystem)
    ensures |Filter(h, NotSystem)| > 0 && Filter(RemoveAt(h, i), NotSystem) == Filter(h, NotSystem)[1..]
  {
    var pre, post := h[..i], h[i + 1..];
    assert h == pre + [h[i]] + post;
    assert RemoveAt(h, i) == pre + post;
    DropFirstOther(pre, h[i], post);
  }

  /** Dropping a non-system entry that has only system entries before it. */
  lemma DropFirstOther(pre: seq<Message>, m: Message, post: seq<Message>)
    requires forall k :: 0 <= k < |pre| ==> IsSystem(pre[k])
    requires NotSystem(m)
    ensures Filter(pre + [m] + post, IsSystem) == Filter(pre + post, IsSystem)
    ensures Filter(pre + [m] + post, NotSystem) == [m] + Filter(pre + post, NotSystem)
  {
    assert [m][..0] == [];
    assert Filter([m], IsSystem) == [];
    assert Filter([m], NotSystem) == [m];
    NoneKept(pre, NotSystem);
    FilterAround(pre, [m], post, IsSystem);
    FilterAround(pre, [m], post, NotSystem);
  }

  /** Filtering `pre + x + post` filters the three parts. */
  lemma FilterAround(pre: seq<Message>, x: seq<Message>, post: seq<Message>, p: Message -> bool)
    ensures Filter(pre + x + post, p) == Filter(pre, p) + Filter(x, p) + Filter(post, p)
    ensures Filter(pre + post, p) == Filter(pre, p) + Filter(post, p)
  {
    FilterConcat(pre + x, post, p);
    FilterConcat(pre, x, p);
    FilterConcat(pre, post, p);
  }

  /**
   * Pruning never removes a system entry, and the non-system entries it removes are the oldest
   * ones: what is left of them is a suffix, in the original order.
   */
  lemma {:induction false} PruneKeepsSystemDropsOldest(h: seq<Message>, maxLength: int)
    ensures Filter(PruneSpec(h, maxLength), IsSystem) == Filter(h, IsSystem)
    ensures exists k :: (0 <= k <= |Filter(h, NotSystem)| &&
      Filter(PruneSpec(h, maxLength), NotSystem) == Filter(h, NotSystem)[k..])
    decreases |h|
  {
    var ns := Filter(h, NotSystem);
    if TotalLength(h) <= maxLength || FirstNonSystem(h).None? {
      assert ns[0..] == ns;
    } else {
      var i := FirstNonSystem(h).value;
      var h' := RemoveAt(h, i);
      RemoveFirstNonSystem(h, i);
      PruneKeepsSystemDropsOldest(h', maxLength);
      var k :| 0 <= k <= |Filter(h', NotSystem)| &&
        Filter(PruneSpec(h', maxLength), NotSystem) == Filter(h', NotSystem)[k..];
      assert ns[1..][k..] == ns[k + 1..];
    }
  }

  /** `add_system_message` on a history that exists: prepend a system entry unless the first entry already has the content. */
  function SystemPrepended(h: seq<Message>, content: string): (r: seq<Message>)
    ensures |r| > 0 && r[0].content == content
    ensures r == h || r == [Message(SystemRole, content)] + h
  {
    if h == [] || h[0].content != content then [Message(SystemRole, content)] + h else h
  }

  lemma SystemPrependedIdempotent(h: seq<Message>, content: string)
    ensures SystemPrepended(SystemPrepended(h, content), content) == SystemPrepended(h, content)
  {
  }
}
