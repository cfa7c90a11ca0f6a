/**
 Sorting, merging and removing adjacent duplicates, the operators with which the scan
 combines a table with added quads.
 */
module Sorting {
  import opened Basics

  ghost predicate StrictWeakOrder<T(!new)>(less: (T, T) -> bool) {
    && (forall a :: !less(a, a))
    && (forall a, b, c :: less(a, b) && less(b, c) ==> less(a, c))
    && (forall a, b, c :: less(a, c) ==> less(a, b) || less(b, c))
  }

  /** Only equal elements are incomparable. */
  ghost predicate Total<T(!new)>(less: (T, T) -> bool) {
    forall a, b :: a == b || less(a, b) || less(b, a)
  }

  ghost predicate Sorted<T>(less: (T, T) -> bool, s: seq<T>) {
    forall i, j :: 0 <= i < j < |s| ==> !less(s[j], s[i])
  }

  ghost predicate StrictlySorted<T>(less: (T, T) -> bool, s: seq<T>) {
    forall i, j :: 0 <= i < j < |s| ==> less(s[i], s[j])
  }

  function Insert<T>(less: (T, T) -> bool, x: T, s: seq<T>): seq<T> {
    if s == [] || less(x, s[0]) then [x] + s else [s[0]] + Insert(less, x, s[1..])
  }

  function Sort<T>(less: (T, T) -> bool, s: seq<T>): seq<T> {
    if s == [] then [] else Insert(less, s[0], Sort(less, s[1..]))
  }

  lemma {:induction false} InsertSpec<T(!new)>(less: (T, T) -> bool, x: T, s: seq<T>)
    requires StrictWeakOrder(less) && Sorted(less, s)
    ensures multiset(Insert(less, x, s)) == multiset(s) + multiset{x}
    ensures Sorted(less, Insert(less, x, s))
  {
    if s == [] || less(x, s[0]) {
      forall y | y in s ensures !less(y, x) {
        FirstIsLeast(less, s, y);
      }
      ConsSorted(less, x, s);
    } else {
      assert s == [s[0]] + s[1..];
      var t := Insert(less, x, s[1..]);
      InsertSpec(less, x, s[1..]);
      forall y | y in t ensures !less(y, s[0]) {
        assert y in multiset(t);
        assert y == x || y in s[1..];
      }
      ConsSorted(less, s[0], t);
    }
  }

  /** Sorting yields a sorted permutation. */
  lemma {:induction false} SortSpec<T(!new)>(less: (T, T) -> bool, s: seq<T>)
    requires StrictWeakOrder(less)
    ensures multiset(Sort(less, s)) == multiset(s)
    ensures Sorted(less, Sort(less, s))
  {
    if s != [] {
      assert s == [s[0]] + s[1..];
      SortSpec(less, s[1..]);
      InsertSpec(less, s[0], Sort(less, s[1..]));
    }
  }

  lemma SameElements<T>(a: seq<T>, b: seq<T>)
    requires multiset(a) == multiset(b)
    ensures |a| == |b|
    ensures ToSet(a) == ToSet(b)
  {
    assert |a| == |multiset(a)| && |b| == |multiset(b)|;
    forall x ensures x in a <==> x in b {
      assert x in a <==> x in multiset(a);
      assert x in b <==> x in multiset(b);
    }
  }

  /** Merges two sorted inputs, the first one's elements before equal ones of the second. */
  function Merge<T>(less: (T, T) -> bool, a: seq<T>, b: seq<T>): seq<T>
    decreases |a| + |b|
  {
    if a == [] then b
    else if b == [] then a
    else if less(b[0], a[0]) then [b[0]] + Merge(less, a, b[1..])
    else [a[0]] + Merge(less, a[1..], b)
  }

  lemma ConsSorted<T(!new)>(less: (T, T) -> bool, x: T, s: seq<T>)
    requires Sorted(less, s) && forall y | y in s :: !less(y, x)
    ensures Sorted(less, [x] + s)
  {}

  lemma FirstIsLeast<T(!new)>(less: (T, T) -> bool, s: seq<T>, y: T)
    requires StrictWeakOrder(less) && Sorted(less, s) && y in s
    ensures !less(y, s[0])
  {}

  lemma NotLessThrough<T(!new)>(less: (T, T) -> bool, y: T, m: T, x: T)
    requires StrictWeakOrder(less) && !less(y, m) && !less(m, x)
    ensures !less(y, x)
  {}

  lemma TailSorted<T>(less: (T, T) -> bool, s: seq<T>)
    requires Sorted(less, s) && s != []
    ensures Sorted(less, s[1..]) && s == [s[0]] + s[1..]
  {}

  lemma {:induction false} MergeSpec<T(!new)>(less: (T, T) -> bool, a: seq<T>, b: seq<T>)
    requires StrictWeakOrder(less) && Sorted(less, a) && Sorted(less, b)
    ensures multiset(Merge(less, a, b)) == multiset(a) + multiset(b)
    ensures Sorted(less, Merge(less, a, b))
    decreases |a| + |b|
  {
    if a != [] && b != [] {
      if less(b[0], a[0]) {
        TailSorted(less, b);
        MergeSpec(less, a, b[1..]);
        MergeCons(less, b[0], Merge(less, a, b[1..]), b, b[1..], a);
      } else {
        TailSorted(less, a);
        MergeSpec(less, a[1..], b);
        MergeCons(less, a[0], Merge(less, a[1..], b), a, a[1..], b);
      }
    }
  }

  lemma MergeCons<T(!new)>(less: (T, T) -> bool, x: T, rest: seq<T>, from: seq<T>, left: seq<T>, other: seq<T>)
    requires StrictWeakOrder(less) && Sorted(less, from) && Sorted(less, other) && Sorted(less, rest)
    requires from == [x] + left && other != [] && !less(other[0], x)
    requires multiset(rest) == multiset(left) + multiset(other)
    ensures Sorted(less, [x] + rest) && multiset([x] + rest) == multiset(from) + multiset(other)
  {
    forall y | y in rest ensures !less(y, x) {
      assert y in multiset(rest);
      if y in left {
        FirstIsLeast(less, from, y);
      } else {
        FirstIsLeast(less, other, y);
        NotLessThrough(less, y, other[0], x);
      }
    }
    ConsSorted(less, x, rest);
  }

  /** Removes every element equal to its predecessor, the first one's being `previous`. */
  function DedupFrom<T(==)>(previous: Option<T>, s: seq<T>): seq<T>
    decreases |s|
  {
    if s == [] then []
    else (if previous == Some(s[0]) then [] else [s[0]]) + DedupFrom(Some(s[0]), s[1..])
  }

  function LastOr<T>(previous: Option<T>, s: seq<T>): Option<T> {
    if s == [] then previous else Some(s[|s| - 1])
  }

  lemma {:induction false} DedupConcat<T>(previous: Option<T>, a: seq<T>, b: seq<T>)
    ensures DedupFrom(previous, a + b) == DedupFrom(previous, a) + DedupFrom(LastOr(previous, a), b)
    decreases |a|
  {
    if a == [] {
      assert a + b == b;
    } else {
      assert (a + b)[0] == a[0] && (a + b)[1..] == a[1..] + b;
      DedupConcat(Some(a[0]), a[1..], b);
      var head := if previous == Some(a[0]) then [] else [a[0]];
      var last := LastOr(previous, a);
      assert LastOr(Some(a[0]), a[1..]) == last;
      calc {
        DedupFrom(previous, a + b);
        head + DedupFrom(Some(a[0]), a[1..] + b);
        head + (DedupFrom(Some(a[0]), a[1..]) + DedupFrom(last, b));
        (head + DedupFrom(Some(a[0]), a[1..])) + DedupFrom(last, b);
        DedupFrom(previous, a) + DedupFrom(last, b);
      }
    }
  }

  lemma DedupSnoc<T>(previous: Option<T>, s: seq<T>, x: T)
    ensures DedupFrom(previous, s + [x]) ==
            DedupFrom(previous, s) + if LastOr(previous, s) == Some(x) then [] else [x]
  {
    DedupConcat(previous, s, [x]);
  }

  lemma {:induction false} DedupWithoutDuplicates<T>(previous: Option<T>, s: seq<T>)
    requires s != [] ==> previous != Some(s[0])
    requires forall i :: 0 < i < |s| ==> s[i] != s[i - 1]
    ensures DedupFrom(previous, s) == s
    decreases |s|
  {
    if s != [] {
      assert |s| > 1 ==> s[1..][0] == s[1];
      forall i | 0 < i < |s[1..]| ensures s[1..][i] != s[1..][i - 1] {
        assert s[i + 1] != s[i];
      }
      DedupWithoutDuplicates(Some(s[0]), s[1..]);
    }
  }

  /** On sorted input, removing adjacent duplicates removes all of them. */
  lemma {:induction false} DedupSorted<T(!new)>(less: (T, T) -> bool, s: seq<T>)
    requires StrictWeakOrder(less) && Total(less) && Sorted(less, s)
    ensures StrictlySorted(less, DedupFrom(None, s))
    ensures ToSet(DedupFrom(None, s)) == ToSet(s)
    ensures s != [] ==> DedupFrom(None, s) != []
                        && DedupFrom(None, s)[|DedupFrom(None, s)| - 1] == s[|s| - 1]
  {
    if s != [] {
      var front, x := s[..|s| - 1], s[|s| - 1];
      assert s == front + [x];
      DedupSorted(less, front);
      DedupSnoc(None, front, x);
      var d := DedupFrom(None, front);
      ToSetSnoc(front, x);
      ToSetSnoc(d, x);
      if front != [] && front[|front| - 1] != x {
        assert less(front[|front| - 1], x);
        AppendStrictly(less, d, x);
      }
    }
  }

  lemma ToSetSnoc<T>(s: seq<T>, x: T)
    ensures ToSet(s + [x]) == ToSet(s) + {x}
  {}

  lemma AppendStrictly<T(!new)>(less: (T, T) -> bool, d: seq<T>, x: T)
    requires StrictWeakOrder(less) && StrictlySorted(less, d) && d != [] && less(d[|d| - 1], x)
    ensures StrictlySorted(less, d + [x])
  {
    forall i | 0 <= i < |d| ensures less(d[i], x) {
      assert d[i] == d[|d| - 1] || less(d[i], d[|d| - 1]);
    }
  }

  lemma StrictlySortedDistinct<T(!new)>(less: (T, T) -> bool, s: seq<T>)
    requires StrictWeakOrder(less) && StrictlySorted(less, s)
    ensures Distinct(s)
  {}

  method HasAdjacentDuplicates<T(==)>(batch: seq<T>) returns (found: bool)
    ensures found <==> exists k :: 0 < k < |batch| && batch[k] == batch[k - 1]
  {
    var i := 1;
    while i < |batch|
      invariant forall k :: 0 < k < i && k < |batch| ==> batch[k] != batch[k - 1]
    {
      if batch[i] == batch[i - 1] {
        return true;
      }
      i := i + 1;
    }
    return false;
  }

  /** Collects the rows that differ from their predecessor. */
  method UniqueRows<T(==)>(batch: seq<T>, startsWithDuplicate: bool, ghost previous: Option<T>)
    returns (unique: seq<T>)
    requires batch != [] && startsWithDuplicate == (previous == Some(batch[0]))
    ensures unique == DedupFrom(previous, batch)
    ensures startsWithDuplicate && |unique| == |batch| - 1 ==> unique == batch[1..]
  {
    unique := if startsWithDuplicate then [] else [batch[0]];
    assert batch[..1] == [] + [batch[0]];
    DedupSnoc(previous, [], batch[0]);
    for i := 1 to |batch|
      invariant unique == DedupFrom(previous, batch[..i])
      invariant startsWithDuplicate && |unique| == i - 1 ==> unique == batch[1..i]
      invariant |unique| <= if startsWithDuplicate then i - 1 else i
    {
      assert batch[..i + 1] == batch[..i] + [batch[i]];
      DedupSnoc(previous, batch[..i], batch[i]);
      if batch[i] != batch[i - 1] {
        unique := unique + [batch[i]];
      }
    }
    assert batch[..|batch|] == batch;
  }

  /**
   Removes duplicates from a sorted stream that arrives in batches. The last row of the
   previous batch is kept, and batches without duplicates are passed on as they are.
   */
  class SortedDistinctStream<T(==)> {
    var lastRow: Option<T>

    constructor ()
      ensures lastRow == None
    {
      lastRow := None;
    }

    method Poll(batch: seq<T>) returns (r: seq<T>)
      modifies this
      ensures r == DedupFrom(old(lastRow), batch)
      ensures lastRow == LastOr(old(lastRow), batch)
    {
      if |batch| == 0 {
        return batch;
      }
      ghost var previous := lastRow;
      var startsWithDuplicate := lastRow == Some(batch[0]);
      var hasDuplicates := startsWithDuplicate;
      if !hasDuplicates {
        hasDuplicates := HasAdjacentDuplicates(batch);
      }
      lastRow := Some(batch[|batch| - 1]);
      if !hasDuplicates {
        DedupWithoutDuplicates(previous, batch);
        return batch;
      }
      var unique := UniqueRows(batch, startsWithDuplicate, previous);
      r := if startsWithDuplicate && |unique| == |batch| - 1 then batch[1..] else unique;
    }
  }

  /** However the input is cut into batches, the output is that of the whole input. */
  method DistinctBatches<T(==)>(batches: seq<seq<T>>) returns (r: seq<T>)
    ensures r == DedupFrom(None, Flatten(batches))
  {
    var stream := new SortedDistinctStream<T>();
    r := [];
    for i := 0 to |batches|
      invariant r == DedupFrom(None, Flatten(batches[..i]))
      invariant stream.lastRow == LastOr(None, Flatten(batches[..i]))
      invariant fresh(stream)
    {
      assert batches[..i + 1] == batches[..i] + [batches[i]];
      FlattenConcat(batches[..i], [batches[i]]);
      FlattenSingleton(batches[i]);
      DedupConcat(None, Flatten(batches[..i]), batches[i]);
      var out := stream.Poll(batches[i]);
      r := r + out;
    }
    assert batches[..|batches|] == batches;
  }
}
