/** Generic list operations the source performs with Python built-ins. */
module Sequences {

  /** Python `s[:k]`, including a negative `k` (drop the last `-k` elements). */
  function PyTake<T>(s: seq<T>, k: int): (r: seq<T>)
    ensures |r| <= |s|
    ensures r == s[..|r|]
    ensures 0 <= k ==> |r| == if k < |s| then k else |s|
  {
    if k >= 0 then (if k < |s| then s[..k] else s)
    else if |s| + k > 0 then s[..|s| + k] else []
  }

  // ---------------------------------------------------------------- filtering

  /** `[x for x in s if p(x)]`, the shape of a `WHERE` clause over rows kept in insertion order. */
  function Filter<T>(s: seq<T>, p: T -> bool): (r: seq<T>)
    ensures |r| <= |s|
    decreases |s|
  {
    if |s| == 0 then []
    else Filter(s[..|s| - 1], p) + (if p(s[|s| - 1]) then [s[|s| - 1]] else [])
  }

  /** The kept elements are exactly the input elements satisfying `p`. */
  lemma {:induction false} FilterMembers<T>(s: seq<T>, p: T -> bool)
    ensures forall x :: x in Filter(s, p) <==> x in s && p(x)
    decreases |s|
  {
    if |s| > 0 {
      FilterMembers(s[..|s| - 1], p);
      assert s == s[..|s| - 1] + [s[|s| - 1]];
    }
  }

  lemma {:induction false} FilterConcat<T>(a: seq<T>, b: seq<T>, p: T -> bool)
    ensures Filter(a + b, p) == Filter(a, p) + Filter(b, p)
    decreases |b|
  {
    if |b| == 0 {
      assert a + b == a;
    } else {
      var b' := b[..|b| - 1];
      FilterConcat(a, b', p);
      assert (a + b)[..|a + b| - 1] == a + b';
      assert (a + b)[|a + b| - 1] == b[|b| - 1];
    }
  }

  /** Filtering twice is filtering by the conjunction. */
  lemma {:induction false} FilterFilter<T>(s: seq<T>, p: T -> bool, q: T -> bool, pq: T -> bool)
    requires forall x :: pq(x) == (p(x) && q(x))
    ensures Filter(Filter(s, p), q) == Filter(s, pq)
    decreases |s|
  {
    if |s| > 0 {
      var s' := s[..|s| - 1];
      FilterFilter(s', p, q, pq);
      FilterConcat(Filter(s', p), if p(s[|s| - 1]) then [s[|s| - 1]] else [], q);
      assert Filter([s[|s| - 1]], q) == (if q(s[|s| - 1]) then [s[|s| - 1]] else []) by {
        assert [s[|s| - 1]][..0] == [];
      }
    }
  }

  /** A filter that keeps everything changes nothing. */
  lemma {:induction false} FilterKeepsAll<T>(s: seq<T>, p: T -> bool)
    requires forall i :: 0 <= i < |s| ==> p(s[i])
    ensures Filter(s, p) == s
    decreases |s|
  {
    if |s| > 0 {
      FilterKeepsAll(s[..|s| - 1], p);
    }
  }

  /** Nothing passes the filter when no element satisfies it. */
  lemma {:induction false} NoneKept<T>(s: seq<T>, p: T -> bool)
    requires forall i :: 0 <= i < |s| ==> !p(s[i])
    ensures Filter(s, p) == []
    decreases |s|
  {
    if |s| > 0 {
      NoneKept(s[..|s| - 1], p);
    }
  }

  /** `a` is `b` with some elements left out, order kept. */
  predicate Subsequence<T(==)>(a: seq<T>, b: seq<T>)
    decreases |b|
  {
    if |a| == 0 then true
    else if |b| == 0 then false
    else (a[0] == b[0] && Subsequence(a[1..], b[1..])) || Subsequence(a, b[1..])
  }

  lemma {:induction false} SubsequenceMembers<T>(a: seq<T>, b: seq<T>)
    requires Subsequence(a, b)
    ensures forall x :: x in a ==> x in b
    decreases |b|
  {
    if |a| > 0 {
      if a[0] == b[0] && Subsequence(a[1..], b[1..]) {
        SubsequenceMembers(a[1..], b[1..]);
        assert forall x :: x in a ==> x == a[0] || x in a[1..];
      } else {
        SubsequenceMembers(a, b[1..]);
      }
    }
  }

  // ---------------------------------------------------------------- de-duplication

  /** Keep the first occurrence of every element, in input order (the `seen` set idiom). */
  function Dedupe<T(==)>(s: seq<T>): seq<T>
    decreases |s|
  {
    if |s| == 0 then []
    else
      var d := Dedupe(s[..|s| - 1]);
      if s[|s| - 1] in d then d else d + [s[|s| - 1]]
  }

  predicate Distinct<T(==)>(s: seq<T>) {
    forall i, j :: 0 <= i < j < |s| ==> s[i] != s[j]
  }

  /** Index of the first occurrence of `x`. */
  function FirstIndex<T(==)>(s: seq<T>, x: T): (i: nat)
    requires x in s
    ensures i < |s| && s[i] == x
    ensures forall j :: 0 <= j < i ==> s[j] != x
  {
    if s[0] == x then 0 else 1 + FirstIndex(s[1..], x)
  }

  /** `Dedupe` keeps exactly the elements of its input, each once. */
  lemma {:induction false} DedupeElements<T>(s: seq<T>)
    ensures forall x :: x in Dedupe(s) <==> x in s
    ensures Distinct(Dedupe(s))
    decreases |s|
  {
    if |s| > 0 {
      DedupeElements(s[..|s| - 1]);
      assert s == s[..|s| - 1] + [s[|s| - 1]];
    }
  }

  lemma FirstIndexPrefix<T>(s: seq<T>, n: nat, x: T)
    requires n <= |s| && x in s[..n]
    ensures x in s && FirstIndex(s, x) == FirstIndex(s[..n], x)
  {
    var i := FirstIndex(s[..n], x);
    assert s[i] == x;
    var k := FirstIndex(s, x);
    assert k <= i;
    assert s[..n][k] == x;
  }

  /** `Dedupe` lists the elements in the order of their first occurrence. */
  lemma {:induction false} DedupeFirstOccurrenceOrder<T>(s: seq<T>)
    ensures forall x :: x in Dedupe(s) ==> x in s
    ensures forall i, j :: 0 <= i < j < |Dedupe(s)| ==>
      FirstIndex(s, Dedupe(s)[i]) < FirstIndex(s, Dedupe(s)[j])
    decreases |s|
  {
    DedupeElements(s);
    if |s| > 0 {
      var p := s[..|s| - 1];
      var d := Dedupe(p);
      DedupeFirstOccurrenceOrder(p);
      forall x | x in d ensures FirstIndex(s, x) == FirstIndex(p, x) {
        FirstIndexPrefix(s, |s| - 1, x);
      }
      var last := s[|s| - 1];
      if last !in d {
        DedupeElements(p);
        assert last !in p;
        assert FirstIndex(s, last) == |s| - 1;
        forall x | x in d ensures FirstIndex(s, x) < |s| - 1 {
          assert FirstIndex(s, x) == FirstIndex(p, x);
        }
      }
    }
  }

  // ---------------------------------------------------------------- stable sorting

  ghost predicate Total<T(!new)>(before: (T, T) -> bool) {
    forall a, b :: before(a, b) || before(b, a)
  }

  ghost predicate Transitive<T(!new)>(before: (T, T) -> bool) {
    forall a, b, c :: before(a, b) && before(b, c) ==> before(a, c)
  }

  /** Every element may stand before every later one. */
  ghost predicate SortedBy<T>(s: seq<T>, before: (T, T) -> bool) {
    forall i, j :: 0 <= i < j < |s| ==> before(s[i], s[j])
  }

  /** Insert `x` after every element that may stand before it. */
  function Insert<T>(x: T, l: seq<T>, before: (T, T) -> bool): (r: seq<T>)
    ensures multiset(r) == multiset(l) + multiset{x}
    ensures |r| == |l| + 1
  {
    if |l| == 0 || !before(l[0], x) then [x] + l
    else
      assert l == [l[0]] + l[1..];
      [l[0]] + Insert(x, l[1..], before)
  }

  /** Insertion sort: the stable sort Python's `list.sort` and SQL `ORDER BY` stand for. */
  function SortBy<T>(s: seq<T>, before: (T, T) -> bool): seq<T>
    decreases |s|
  {
    if |s| == 0 then [] else Insert(s[|s| - 1], SortBy(s[..|s| - 1], before), before)
  }

  /** Sorting only reorders. */
  lemma {:induction false} SortByPermutation<T>(s: seq<T>, before: (T, T) -> bool)
    ensures multiset(SortBy(s, before)) == multiset(s)
    ensures |SortBy(s, before)| == |s|
    decreases |s|
  {
    if |s| > 0 {
      SortByPermutation(s[..|s| - 1], before);
      assert s == s[..|s| - 1] + [s[|s| - 1]];
    }
  }

  lemma {:induction false} InsertSorted<T(!new)>(x: T, l: seq<T>, before: (T, T) -> bool)
    requires Total(before) && Transitive(before)
    requires SortedBy(l, before)
    ensures SortedBy(Insert(x, l, before), before)
    decreases |l|
  {
    var r := Insert(x, l, before);
    if |l| > 0 && before(l[0], x) {
      InsertSorted(x, l[1..], before);
      var t := Insert(x, l[1..], before);
      assert multiset(t) == multiset(l[1..]) + multiset{x};
      forall j | 0 <= j < |t| ensures before(l[0], t[j]) {
        assert t[j] in multiset(t);
        if t[j] != x {
          assert t[j] in multiset(l[1..]);
          var k :| 0 <= k < |l[1..]| && l[1..][k] == t[j];
          assert l[k + 1] == t[j];
        }
      }
      assert r == [l[0]] + t;
    }
  }

  /** With a total, transitive `before`, the result is ordered. */
  lemma {:induction false} SortBySorted<T(!new)>(s: seq<T>, before: (T, T) -> bool)
    requires Total(before) && Transitive(before)
    ensures SortedBy(SortBy(s, before), before)
    decreases |s|
  {
    if |s| > 0 {
      SortBySorted(s[..|s| - 1], before);
      InsertSorted(s[|s| - 1], SortBy(s[..|s| - 1], before), before);
    }
  }

  /** Stability: an input already in order comes back unchanged (ties keep their input order). */
  lemma {:induction false} SortByKeepsOrderedInput<T>(s: seq<T>, before: (T, T) -> bool)
    requires SortedBy(s, before)
    ensures SortBy(s, before) == s
    decreases |s|
  {
    if |s| > 0 {
      var p := s[..|s| - 1];
      assert SortedBy(p, before);
      SortByKeepsOrderedInput(p, before);
      InsertAtEnd(s[|s| - 1], p, before);
      assert p + [s[|s| - 1]] == s;
    }
  }

  /**
   * Stability: the elements of any class that `before` ties together (such as all rows with one
   * sort key) come out in their input order.
   */
  lemma {:induction false} SortByStable<T(!new)>(s: seq<T>, before: (T, T) -> bool, p: T -> bool)
    requires Total(before) && Transitive(before)
    requires forall a, b :: p(a) && p(b) ==> before(a, b)
    ensures Filter(SortBy(s, before), p) == Filter(s, p)
    decreases |s|
  {
    if |s| > 0 {
      var s' := s[..|s| - 1];
      SortByStable(s', before, p);
      SortBySorted(s', before);
      InsertFilter(s[|s| - 1], SortBy(s', before), before, p);
    }
  }

  /** Inserting into an ordered list puts `x` after every element tied with it. */
  lemma {:induction false} InsertFilter<T(!new)>(x: T, l: seq<T>, before: (T, T) -> bool, p: T -> bool)
    requires Transitive(before) && SortedBy(l, before)
    requires forall a, b :: p(a) && p(b) ==> before(a, b)
    ensures Filter(Insert(x, l, before), p) == Filter(l, p) + (if p(x) then [x] else [])
    decreases |l|
  {
    if |l| == 0 {
      FilterOne(x, p);
    } else if !before(l[0], x) {
      if p(x) {
        forall j | 0 <= j < |l| ensures !p(l[j]) {
          TiedAfterFront(x, l, before, p, j);
        }
      }
      InsertFilterFront(x, l, before, p);
    } else {
      assert SortedBy(l[1..], before);
      InsertFilter(x, l[1..], before, p);
      InsertFilterSkip(x, l, before, p);
    }
  }

  /** In an ordered list whose head does not stand before `x`, no element is tied with `x`. */
  lemma TiedAfterFront<T(!new)>(x: T, l: seq<T>, before: (T, T) -> bool, p: T -> bool, j: nat)
    requires Transitive(before) && SortedBy(l, before)
    requires forall a, b :: p(a) && p(b) ==> before(a, b)
    requires j < |l| && !before(l[0], x) && p(x)
    ensures !p(l[j])
  {
  }

  /** `x` goes in front: its filter comes first, and the rest is the list's. */
  lemma InsertFilterFront<T>(x: T, l: seq<T>, before: (T, T) -> bool, p: T -> bool)
    requires |l| > 0 && !before(l[0], x)
    requires p(x) ==> forall j :: 0 <= j < |l| ==> !p(l[j])
    ensures Filter(Insert(x, l, before), p) == Filter(l, p) + (if p(x) then [x] else [])
  {
    assert Insert(x, l, before) == [x] + l;
    FilterOne(x, p);
    FilterConcat([x], l, p);
    if p(x) {
      NoneKept(l, p);
    }
  }

  /** The head stays in front of the insertion, and so does its filter. */
  lemma InsertFilterSkip<T>(x: T, l: seq<T>, before: (T, T) -> bool, p: T -> bool)
    requires |l| > 0 && before(l[0], x)
    requires Filter(Insert(x, l[1..], before), p) == Filter(l[1..], p) + (if p(x) then [x] else [])
    ensures Filter(Insert(x, l, before), p) == Filter(l, p) + (if p(x) then [x] else [])
  {
    var head, tail, t := [l[0]], l[1..], Insert(x, l[1..], before);
    assert Insert(x, l, before) == head + t;
    assert head + tail == l;
    FilterConcat(head, t, p);
    FilterConcat(head, tail, p);
    var a, b, c := Filter(head, p), Filter(tail, p), if p(x) then [x] else [];
    assert Filter(head + t, p) == a + (b + c);
    ConcatAssoc(a, b, c);
  }

  lemma ConcatAssoc<T>(a: seq<T>, b: seq<T>, c: seq<T>)
    ensures a + (b + c) == (a + b) + c
  {
  }

  lemma FilterOne<T>(x: T, p: T -> bool)
    ensures Filter([x], p) == if p(x) then [x] else []
  {
    assert [x][..0] == [];
  }

  lemma {:induction false} InsertAtEnd<T>(x: T, l: seq<T>, before: (T, T) -> bool)
    requires forall i :: 0 <= i < |l| ==> before(l[i], x)
    ensures Insert(x, l, before) == l + [x]
    decreases |l|
  {
    if |l| > 0 {
      InsertAtEnd(x, l[1..], before);
    }
  }

  // ---------------------------------------------------------------- strides

  /** Python `s[::step]` for a positive step. */
  function Stride<T>(s: seq<T>, step: nat): seq<T>
    requires step > 0
    decreases |s|
  {
    if |s| == 0 then [] else [s[0]] + Stride(s[if step < |s| then step else |s|..], step)
  }

  /** `s[::step]` has ceil(|s|/step) elements. */
  lemma {:induction false} StrideLength<T>(s: seq<T>, step: nat)
    requires step > 0
    ensures |s| == 0 ==> |Stride(s, step)| == 0
    ensures |s| > 0 ==> (|Stride(s, step)| - 1) * step < |s| <= |Stride(s, step)| * step
    decreases |s|
  {
    if |s| > 0 {
      if step < |s| {
        var rest := s[step..];
        StrideLength(rest, step);
        var m := |Stride(rest, step)|;
        assert |Stride(s, step)| == m + 1;
        assert (m + 1) * step == m * step + step;
        assert m * step == (m - 1) * step + step;
      } else {
        assert Stride(s, step) == [s[0]] + Stride(s[|s|..], step);
      }
    }
  }

  /** The k-th element of `s[::step]` is `s[k*step]`. */
  lemma {:induction false} StrideAt<T>(s: seq<T>, step: nat, k: nat)
    requires step > 0 && k < |Stride(s, step)|
    ensures k * step < |s| && Stride(s, step)[k] == s[k * step]
    decreases k
  {
    if k > 0 {
      if step >= |s| {
        assert false;
      }
      var rest := s[step..];
      assert Stride(s, step) == [s[0]] + Stride(rest, step);
      StrideAt(rest, step, k - 1);
      var j := (k - 1) * step;
      MulSucc(k - 1, step);
      assert rest[j] == s[j + step];
    }
  }

  lemma MulSucc(a: nat, b: nat)
    ensures a * b + b == (a + 1) * b
  {
  }
}
