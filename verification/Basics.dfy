/**
 Options, results and the sequence operations shared by the other modules.
 */
module Basics {

  datatype Option<+T> = None | Some(value: T)

  datatype Result<+T, +E> = Ok(value: T) | Err(error: E)

  /** A statistic: exact, an estimate, or unknown. */
  datatype Precision<+T> = Exact(value: T) | Inexact(value: T) | Absent

  function Flatten<T>(ss: seq<seq<T>>): seq<T> {
    if ss == [] then [] else ss[0] + Flatten(ss[1..])
  }

  function Filter<T>(keep: T -> bool, s: seq<T>): (r: seq<T>)
    ensures forall x | x in r :: x in s && keep(x)
    ensures forall x | x in s && keep(x) :: x in r
  {
    if s == [] then []
    else (if keep(s[0]) then [s[0]] else []) + Filter(keep, s[1..])
  }

  function ToSet<T>(s: seq<T>): set<T> {
    set x | x in s
  }

  ghost predicate Distinct<T(!new)>(s: seq<T>) {
    forall i, j :: 0 <= i < j < |s| ==> s[i] != s[j]
  }

  lemma {:induction false} FlattenConcat<T>(a: seq<seq<T>>, b: seq<seq<T>>)
    ensures Flatten(a + b) == Flatten(a) + Flatten(b)
  {
    if a == [] {
      assert a + b == b;
    } else {
      assert (a + b)[1..] == a[1..] + b;
      FlattenConcat(a[1..], b);
    }
  }

  lemma FlattenSingleton<T>(s: seq<T>)
    ensures Flatten([s]) == s
  {
    assert Flatten([s]) == s + Flatten([]);
  }

  lemma {:induction false} FilterConcat<T>(keep: T -> bool, a: seq<T>, b: seq<T>)
    ensures Filter(keep, a + b) == Filter(keep, a) + Filter(keep, b)
  {
    if a == [] {
      assert a + b == b;
    } else {
      assert (a + b)[1..] == a[1..] + b;
      FilterConcat(keep, a[1..], b);
    }
  }

  /** Filtering keeps the multiplicity of what it keeps. */
  lemma {:induction false} FilterCount<T>(keep: T -> bool, s: seq<T>, x: T)
    ensures multiset(Filter(keep, s))[x] == if keep(x) then multiset(s)[x] else 0
  {
    if s != [] {
      assert s == [s[0]] + s[1..];
      FilterCount(keep, s[1..], x);
    }
  }

  lemma CountAt<T>(s: seq<T>, i: nat)
    requires i < |s|
    ensures multiset(s)[s[i]] == 1 + multiset(s[..i])[s[i]] + multiset(s[i + 1..])[s[i]]
  {
    assert s == s[..i] + [s[i]] + s[i + 1..];
  }

  lemma DistinctIffCount<T(!new)>(s: seq<T>)
    ensures Distinct(s) <==> forall x :: x in s ==> multiset(s)[x] == 1
  {
    if Distinct(s) {
      forall x | x in s ensures multiset(s)[x] == 1 {
        var i :| 0 <= i < |s| && s[i] == x;
        CountAt(s, i);
        assert x !in s[..i] && x !in s[i + 1..];
      }
    } else {
      var i, j :| 0 <= i < j < |s| && s[i] == s[j];
      CountAt(s, i);
      assert s[i + 1..][j - i - 1] == s[i];
      assert s[i] in s && multiset(s)[s[i]] >= 2;
    }
  }

  /** A list without duplicates is as long as the set of its elements. */
  lemma {:induction false} DistinctLength<T(!new)>(s: seq<T>)
    requires Distinct(s)
    ensures |ToSet(s)| == |s|
  {
    if s != [] {
      var front := s[..|s| - 1];
      DistinctLength(front);
      assert ToSet(s) == ToSet(front) + {s[|s| - 1]};
      assert s[|s| - 1] !in front;
    }
  }

  lemma {:induction false} FilterDistinct<T(!new)>(keep: T -> bool, s: seq<T>)
    requires Distinct(s)
    ensures Distinct(Filter(keep, s))
  {
    if s != [] {
      forall i, j | 0 <= i < j < |s[1..]| ensures s[1..][i] != s[1..][j] {
        assert s[i + 1] != s[j + 1];
      }
      FilterDistinct(keep, s[1..]);
      assert forall x | x in Filter(keep, s[1..]) :: x in s[1..];
      forall k | 0 <= k < |s[1..]| ensures s[1..][k] != s[0] {
        assert s[k + 1] != s[0];
      }
    }
  }

  lemma {:induction false} FilterAgree<T>(f: T -> bool, g: T -> bool, s: seq<T>)
    requires forall i :: 0 <= i < |s| ==> f(s[i]) == g(s[i])
    ensures Filter(f, s) == Filter(g, s)
  {
    if s != [] {
      FilterAgree(f, g, s[1..]);
    }
  }

  lemma {:induction false} FilterFilter<T>(f: T -> bool, g: T -> bool, both: T -> bool, s: seq<T>)
    requires forall i :: 0 <= i < |s| ==> both(s[i]) == (g(s[i]) && f(s[i]))
    ensures Filter(f, Filter(g, s)) == Filter(both, s)
  {
    if s != [] {
      FilterFilter(f, g, both, s[1..]);
      FilterConcat(f, if g(s[0]) then [s[0]] else [], Filter(g, s[1..]));
    }
  }

  lemma FilterSingleton<T>(f: T -> bool, x: T)
    ensures Filter(f, [x]) == if f(x) then [x] else []
  {
    assert [x][1..] == [];
  }

  lemma {:induction false} AllEmpty<T>(ss: seq<seq<T>>)
    requires forall k :: 0 <= k < |ss| ==> ss[k] == []
    ensures Flatten(ss) == []
  {
    if ss != [] {
      AllEmpty(ss[1..]);
    }
  }

  lemma {:induction false} FlattenUpdate<T>(ss: seq<seq<T>>, w: nat, extra: seq<T>)
    requires w < |ss|
    ensures multiset(Flatten(ss[w := ss[w] + extra])) == multiset(Flatten(ss)) + multiset(extra)
  {
    var pushed := ss[w := ss[w] + extra];
    if w == 0 {
      assert pushed[1..] == ss[1..];
      assert multiset(pushed[0] + Flatten(ss[1..])) == multiset(ss[0] + Flatten(ss[1..])) + multiset(extra);
    } else {
      assert pushed[1..] == ss[1..][w - 1 := ss[1..][w - 1] + extra] && pushed[0] == ss[0];
      FlattenUpdate(ss[1..], w - 1, extra);
    }
  }

  function Sum(s: seq<nat>): nat {
    if s == [] then 0 else s[0] + Sum(s[1..])
  }

  lemma {:induction false} SumUpdate(s: seq<nat>, i: nat, x: nat)
    requires i < |s|
    ensures Sum(s[i := x]) == Sum(s) - s[i] + x
  {
    if i > 0 {
      assert s[i := x][1..] == s[1..][i - 1 := x];
      SumUpdate(s[1..], i - 1, x);
    }
  }

  /** Lists the elements of a set, each once, in some order. */
  method ListSet<T(!new, ==)>(elements: set<T>) returns (list: seq<T>)
    ensures ToSet(list) == elements && Distinct(list)
    ensures forall x :: x in list <==> x in elements
  {
    list := [];
    var rest := elements;
    while rest != {}
      invariant rest <= elements && ToSet(list) == elements - rest && Distinct(list)
      decreases rest
    {
      var x :| x in rest;
      assert x !in ToSet(list);
      assert ToSet(list + [x]) == ToSet(list) + {x};
      list, rest := list + [x], rest - {x};
    }
    assert forall x :: x in list <==> x in ToSet(list);
  }
}
