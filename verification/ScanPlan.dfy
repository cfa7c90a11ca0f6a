/**
 Scan plans over a quad table and a changeset: the table's files are distributed over
 groups and scanned with eager pruning, cleared graphs and removed quads are taken out by
 anti joins, and added quads are sorted, merged in and deduplicated. A table of which
 nothing matches is dropped from the plan.
 */
module ScanPlan {
  import opened Basics
  import opened Quads
  import opened OperationLog
  import opened Sorting
  import opened Pruning

  datatype QuadTable = QuadTable(order: seq<Component>, version: nat, files: seq<File<Quad>>)

  function TableRows(t: QuadTable): seq<Quad> {
    AllRows(t.files)
  }

  function TableQuads(t: QuadTable): set<Quad> {
    ToSet(TableRows(t))
  }

  ghost predicate ValidTable(view: View<Quad>, t: QuadTable) {
    IsTableOrder(t.order) && Distinct(TableRows(t)) && AllDescribed(view, t.files)
  }

  function OrderOf(order: seq<Component>): (Quad, Quad) -> bool {
    (a, b) => Less(order, a, b)
  }

  lemma TableOrderIsTotal(order: seq<Component>)
    requires IsTableOrder(order)
    ensures StrictWeakOrder(OrderOf(order)) && Total(OrderOf(order))
  {
    var less := OrderOf(order);
    forall a: Quad ensures !less(a, a) {
      LessIrreflexive(order, a);
    }
    forall a: Quad, b: Quad, c: Quad | less(a, b) && less(b, c) ensures less(a, c) {
      LessTransitive(order, a, b, c);
    }
    forall a: Quad, b: Quad ensures a == b || less(a, b) || less(b, a) {
      LessTotal(order, a, b);
    }
  }

  /**
   In a sorted table, wherever two rows first differ in the table's order, the earlier row
   has no value, or both have one and the earlier row's is smaller.
   */
  lemma SortedRowsAscend(order: seq<Component>, rows: seq<Quad>, i: nat, j: nat, k: nat)
    requires StrictlySorted(OrderOf(order), rows) && i < j < |rows| && k < |order|
    requires forall c | 0 <= c < k :: Column(rows[i], order[c]) == Column(rows[j], order[c])
    requires Column(rows[i], order[k]) != Column(rows[j], order[k])
    ensures var x, y := Column(rows[i], order[k]), Column(rows[j], order[k]);
            y.Some? && (x.None? || x.value < y.value)
  {
    LessAscends(order, rows[i], rows[j], k);
  }

  // ----- Distributing the files of a table

  lemma {:induction false} AllRowsConcat<R>(a: seq<File<R>>, b: seq<File<R>>)
    ensures AllRows(a + b) == AllRows(a) + AllRows(b)
  {
    if a == [] {
      assert a + b == b;
    } else {
      assert (a + b)[1..] == a[1..] + b;
      AllRowsConcat(a[1..], b);
    }
  }

  lemma RemoveOne<T>(s: seq<T>, k: nat)
    requires k < |s|
    ensures multiset(s[..k] + s[k + 1..]) == multiset(s) - multiset{s[k]}
  {
    assert s == s[..k] + [s[k]] + s[k + 1..];
  }

  lemma IndexIn<T>(s: seq<T>, x: T) returns (k: nat)
    requires x in ToSet(s)
    ensures k < |s| && s[k] == x
  {
    k :| 0 <= k < |s| && s[k] == x;
  }

  lemma RemoveFile<R>(files: seq<File<R>>, k: nat)
    requires k < |files|
    ensures multiset(AllRows(files)) == multiset(AllRows(files[..k] + files[k + 1..])) + multiset(FileRows(files[k]))
  {
    var before, rest := files[..k], files[k + 1..];
    SplitAround(files, k);
    RowsAround(before, files[k], rest);
  }

  lemma SplitAround<T>(s: seq<T>, k: nat)
    requires k < |s|
    ensures s == s[..k] + ([s[k]] + s[k + 1..])
  {
  }

  lemma RowsAround<R>(before: seq<File<R>>, f: File<R>, rest: seq<File<R>>)
    ensures multiset(AllRows(before + ([f] + rest))) == multiset(AllRows(before + rest)) + multiset(FileRows(f))
  {
    AllRowsConcat(before, rest);
    AllRowsConcat(before, [f] + rest);
    AllRowsConcat([f], rest);
    OneFileRows(f);
    MoveOut(AllRows(before), FileRows(f), AllRows(rest));
  }

  lemma OneFileRows<R>(f: File<R>)
    ensures AllRows([f]) == FileRows(f)
  {
    assert [f][1..] == [];
    assert FileRows(f) + [] == FileRows(f);
  }

  lemma MoveOut<T>(a: seq<T>, b: seq<T>, c: seq<T>)
    ensures multiset(a + (b + c)) == multiset(a + c) + multiset(b)
  {
  }

  lemma RemoveFirst<T>(a: seq<T>, b: seq<T>, k: nat)
    requires multiset(a) == multiset(b) && a != [] && k < |b| && b[k] == a[0]
    ensures multiset(a[1..]) == multiset(b[..k] + b[k + 1..])
  {
    assert a == [a[0]] + a[1..];
    RemoveOne(b, k);
  }

  /** Files in another order hold the same rows. */
  lemma {:induction false} RowsOfPermutedFiles<R>(a: seq<File<R>>, b: seq<File<R>>)
    requires multiset(a) == multiset(b)
    ensures multiset(AllRows(a)) == multiset(AllRows(b))
    decreases |a|
  {
    SameElements(a, b);
    if a != [] {
      var k := IndexIn(b, a[0]);
      var b' := b[..k] + b[k + 1..];
      RemoveFirst(a, b, k);
      RowsOfPermutedFiles(a[1..], b');
      RemoveFile(b, k);
    }
  }

  lemma NextInTurn(i: nat, n: nat)
    requires n > 0
    ensures if i % n == n - 1 then (i + 1) % n == 0 && (i + 1) / n == i / n + 1
            else (i + 1) % n == i % n + 1 && (i + 1) / n == i / n
  {
    var q, r := i / n, i % n;
    assert i + 1 == n * q + (r + 1);
    if r == n - 1 {
      QuotientOf(i + 1, n, q + 1, 0);
    } else {
      QuotientOf(i + 1, n, q, r + 1);
    }
  }

  lemma QuotientOf(i: nat, n: nat, q: nat, r: nat)
    requires i == n * q + r && r < n
    ensures i / n == q && i % n == r
  {
    var d := i / n - q;
    assert n * d == r - i % n;
    MultipleOf(n, d);
  }

  lemma MultipleOf(n: nat, d: int)
    ensures d >= 1 ==> n * d >= n
    ensures d <= -1 ==> n * d <= 0 - n
  {
    if d >= 1 {
      assert n * d == n * (d - 1) + n;
    } else if d <= -1 {
      assert n * d == n * (d + 1) - n;
    }
  }

  /** The sizes of the groups after `i` files have been dealt out in turn. */
  ghost predicate IsDealt<T>(groups: seq<seq<T>>, i: nat) {
    groups != [] && forall g :: 0 <= g < |groups| ==>
      |groups[g]| == i / |groups| + if g < i % |groups| then 1 else 0
  }

  lemma DealOne<T>(groups: seq<seq<T>>, i: nat, file: T)
    requires IsDealt(groups, i)
    ensures IsDealt(groups[i % |groups| := groups[i % |groups|] + [file]], i + 1)
  {
    NextInTurn(i, |groups|);
  }

  lemma DealtEvenly<T>(groups: seq<seq<T>>, i: nat)
    requires IsDealt(groups, i)
    ensures forall g, h | g in groups && h in groups :: |g| <= |h| + 1
  {
  }

  /** Deals the files out to at most `partitions` groups in turn, so that their sizes differ by at most one. */
  method DealFiles<T>(files: seq<T>, partitions: nat) returns (groups: seq<seq<T>>)
    ensures multiset(Flatten(groups)) == multiset(files)
    ensures |groups| <= if partitions > 1 then partitions else 1
    ensures forall g | g in groups :: g != []
    ensures forall g, h | g in groups && h in groups :: |g| <= |h| + 1
  {
    var n := if partitions > 1 then partitions else 1;
    groups := seq(n, g => []);
    AllEmpty(groups);
    for i := 0 to |files|
      invariant |groups| == n && IsDealt(groups, i)
      invariant multiset(Flatten(groups)) == multiset(files[..i])
    {
      FlattenUpdate(groups, i % n, [files[i]]);
      DealOne(groups, i, files[i]);
      assert files[..i + 1] == files[..i] + [files[i]];
      groups := groups[i % n := groups[i % n] + [files[i]]];
    }
    assert files[..|files|] == files;
    DealtEvenly(groups, |files|);
    NonEmptyKeepsElements(groups);
    NonEmptyMembers(groups);
    groups := NonEmpty(groups);
  }

  lemma {:induction false} RowsOfGroups(pattern: Quad -> bool, groups: seq<seq<Remaining<Quad>>>)
    ensures Flatten(seq(|groups|, g requires 0 <= g < |groups| => Filter(pattern, RemainingRows(groups[g]))))
            == Filter(pattern, RemainingRows(Flatten(groups)))
  {
    var partitions := seq(|groups|, g requires 0 <= g < |groups| => Filter(pattern, RemainingRows(groups[g])));
    if groups != [] {
      RowsOfGroups(pattern, groups[1..]);
      assert partitions[1..]
          == seq(|groups[1..]|, g requires 0 <= g < |groups[1..]| => Filter(pattern, RemainingRows(groups[1..][g])));
      RemainingRowsConcat(groups[0], Flatten(groups[1..]));
      FilterConcat(pattern, RemainingRows(groups[0]), RemainingRows(Flatten(groups[1..])));
    }
  }

  lemma FilterPermutation(keep: Quad -> bool, a: seq<Quad>, b: seq<Quad>)
    requires multiset(a) == multiset(b)
    ensures multiset(Filter(keep, a)) == multiset(Filter(keep, b))
  {
    var fa, fb := multiset(Filter(keep, a)), multiset(Filter(keep, b));
    forall x: Quad ensures fa[x] == fb[x] {
      FilterCount(keep, a, x);
      FilterCount(keep, b, x);
    }
  }

  /** A plan: the rows it returns when it is executed, and what its statistics say about their number. */
  datatype Plan = Plan(rows: seq<Quad>, numRows: Precision<nat>)

  /** An exact count is the number of rows. */
  predicate TruthfulPlan(plan: Plan) {
    plan.numRows.Exact? ==> plan.numRows.value == |plan.rows|
  }

  /** Scans a table for a pattern; nothing if it has no files. */
  method ScanQuadTable(view: View<Quad>, t: QuadTable, pattern: Quad -> bool, tests: Filters<Quad>, partitions: nat)
    returns (plan: Option<Plan>)
    requires AllDescribed(view, t.files) && SoundFilters(view, pattern, tests)
    ensures plan.None? <==> t.files == []
    ensures plan.Some? ==> TruthfulPlan(plan.value)
    ensures plan.Some? ==> multiset(plan.value.rows) == multiset(Filter(pattern, TableRows(t)))
  {
    if t.files == [] {
      return None;
    }
    var groups := DealFiles(t.files, partitions);
    var remaining, numRows := ApplyEagerPruning(groups, tests, None);
    var scanned := seq(|remaining|, g requires 0 <= g < |remaining| => Filter(pattern, RemainingRows(remaining[g])));
    plan := Some(Plan(Flatten(scanned), numRows));
    RowsOfGroups(pattern, remaining);
    DealtRows(view, t.files, Flatten(groups), pattern, tests);
  }

  /** Files dealt out in another order have the same matching rows after pruning. */
  lemma DealtRows(view: View<Quad>, files: seq<File<Quad>>, dealt: seq<File<Quad>>, pattern: Quad -> bool,
                  tests: Filters<Quad>)
    requires multiset(dealt) == multiset(files)
    requires AllDescribed(view, files) && SoundFilters(view, pattern, tests)
    ensures multiset(Filter(pattern, RemainingRows(Survivors(tests, dealt))))
         == multiset(Filter(pattern, AllRows(files)))
  {
    SameElements(dealt, files);
    forall i | 0 <= i < |dealt| ensures WellDescribed(view, dealt[i]) {
      assert dealt[i] in ToSet(files);
      var k :| 0 <= k < |files| && files[k] == dealt[i];
    }
    SurvivorsKeepMatches(view, pattern, tests, dealt);
    RowsOfPermutedFiles(dealt, files);
    FilterPermutation(pattern, AllRows(dealt), AllRows(files));
  }

  // ----- Applying a changeset

  /** Sorts and merges two inputs by the table's order and removes duplicates. */
  method SortedUnion(order: seq<Component>, a: seq<Quad>, b: seq<Quad>) returns (rows: seq<Quad>)
    requires IsTableOrder(order)
    ensures StrictlySorted(OrderOf(order), rows)
    ensures ToSet(rows) == ToSet(a) + ToSet(b)
  {
    var less := OrderOf(order);
    TableOrderIsTotal(order);
    SortSpec(less, a);
    SortSpec(less, b);
    MergeSpec(less, Sort(less, a), Sort(less, b));
    var merged := Merge(less, Sort(less, a), Sort(less, b));
    rows := DistinctBatches([merged]);
    FlattenSingleton(merged);
    DedupSorted(less, merged);
    forall q ensures q in merged <==> q in a || q in b {
      assert q in merged <==> q in multiset(merged);
      assert q in a <==> q in multiset(a);
      assert q in b <==> q in multiset(b);
    }
  }

  /**
   Applies a changeset to the rows of a table that match the pattern. Removed and added
   quads are filtered by the pattern, cleared graphs are not.
   */
  method ApplyChangesetPhysical(order: seq<Component>, base: seq<Quad>, cs: Changeset, pattern: Quad -> bool,
                                ghost table: set<Quad>)
    returns (rows: seq<Quad>)
    requires IsTableOrder(order) && Distinct(base)
    requires ToSet(base) == set q | q in table && pattern(q)
    ensures ToSet(rows) == set q | q in ApplyChangeset(table, cs) && pattern(q)
    ensures Distinct(rows)
    ensures cs.added != {} ==> StrictlySorted(OrderOf(order), rows)
  {
    rows := RemoveQuads(base, cs, pattern, table);
    if cs.added != {} {
      var added := ListSet(set q | q in cs.added && pattern(q));
      assert ToSet(rows) + ToSet(added) == set q | q in ApplyChangeset(table, cs) && pattern(q);
      rows := SortedUnion(order, rows, added);
      TableOrderIsTotal(order);
      StrictlySortedDistinct(OrderOf(order), rows);
    }
  }

  /** Takes the cleared graphs and the removed quads away from the rows of a table. */
  method RemoveQuads(base: seq<Quad>, cs: Changeset, pattern: Quad -> bool, ghost table: set<Quad>)
    returns (rows: seq<Quad>)
    requires Distinct(base) && ToSet(base) == set q | q in table && pattern(q)
    ensures ToSet(rows) == set q | q in table && pattern(q) && q.graph !in cs.cleared && q !in cs.removed
    ensures Distinct(rows)
  {
    rows := base;
    if cs.cleared != {} {
      FilterDistinct((q: Quad) => q.graph !in cs.cleared, rows);
      rows := Filter((q: Quad) => q.graph !in cs.cleared, rows);
    }
    var removed := set q | q in cs.removed && pattern(q);
    if cs.removed != {} {
      FilterDistinct((q: Quad) => q !in removed, rows);
      rows := Filter((q: Quad) => q !in removed, rows);
    }
    forall q: Quad
      ensures q in rows <==> q in table && pattern(q) && q.graph !in cs.cleared && q !in cs.removed
    {
      assert q in base <==> q in ToSet(base);
    }
  }

  /** The quads a scan of a table and a changeset stands for. */
  function Target(table: Option<QuadTable>, cs: Option<Changeset>): set<Quad> {
    var base := if table.Some? then TableQuads(table.value) else {};
    if cs.Some? then ApplyChangeset(base, cs.value) else base
  }

  lemma ScannedBase(t: QuadTable, pattern: Quad -> bool, rows: seq<Quad>)
    requires Distinct(TableRows(t)) && multiset(rows) == multiset(Filter(pattern, TableRows(t)))
    ensures Distinct(rows)
    ensures ToSet(rows) == set q | q in TableQuads(t) && pattern(q)
  {
    var all := Filter(pattern, TableRows(t));
    FilterDistinct(pattern, TableRows(t));
    SameElements(rows, all);
    DistinctIffCount(all);
    DistinctIffCount(rows);
    forall x | x in rows ensures multiset(rows)[x] == 1 {
      assert x in ToSet(all);
    }
  }

  /** The pattern of all quads has no filters. */
  ghost predicate FiltersPattern(filtered: bool, pattern: Quad -> bool) {
    !filtered ==> forall q :: pattern(q)
  }

  /**
   The plan of the added quads alone. Its source knows their number; a filter above makes
   it an estimate.
   */
  method BuildWithoutQuadTable(cs: Changeset, pattern: Quad -> bool, filtered: bool) returns (plan: Plan)
    requires FiltersPattern(filtered, pattern)
    ensures ToSet(plan.rows) == set q | q in cs.added && pattern(q)
    ensures Distinct(plan.rows) && TruthfulPlan(plan)
    ensures cs.added == {} || !filtered ==> plan.numRows == Exact(|cs.added|)
  {
    var rows := ListSet(set q | q in cs.added && pattern(q));
    DistinctLength(rows);
    if cs.added == {} {
      assert ToSet(rows) == {};
      return Plan(rows, Exact(0));
    }
    assert !filtered ==> ToSet(rows) == cs.added;
    plan := Plan(rows, if filtered then Inexact(|cs.added|) else Exact(|cs.added|));
  }

  /** The scan of a table with a changeset; a table whose scan is empty is dropped from the plan. */
  method BuildWithChangeset(view: View<Quad>, t: QuadTable, cs: Changeset, pattern: Quad -> bool, filtered: bool,
                            tests: Filters<Quad>, partitions: nat)
    returns (plan: Plan)
    requires ValidTable(view, t) && SoundFilters(view, pattern, tests) && FiltersPattern(filtered, pattern)
    ensures ToSet(plan.rows) == set q | q in ApplyChangeset(TableQuads(t), cs) && pattern(q)
    ensures Distinct(plan.rows) && TruthfulPlan(plan)
  {
    var base := ScanQuadTable(view, t, pattern, tests, partitions);
    if base.Some? {
      ScannedBase(t, pattern, base.value.rows);
    }
    if base.None? || base.value.numRows == Exact(0) {
      plan := BuildWithoutQuadTable(cs, pattern, filtered);
      assert forall q | q in TableQuads(t) :: !pattern(q) by {
        if base.Some? {
          assert ToSet(base.value.rows) == {};
          assert forall q | q in TableQuads(t) && pattern(q) :: q in ToSet(base.value.rows);
        }
      }
    } else {
      var rows := ApplyChangesetPhysical(t.order, base.value.rows, cs, pattern, TableQuads(t));
      plan := Plan(rows, Absent);
    }
  }

  /**
   Builds the plan: executed, it returns each quad that matches the pattern once, and an
   exact count in its statistics is their number.
   */
  method Build(view: View<Quad>, table: Option<QuadTable>, cs: Option<Changeset>, pattern: Quad -> bool, filtered: bool,
               tests: Filters<Quad>, partitions: nat)
    returns (plan: Plan)
    requires table.Some? ==> ValidTable(view, table.value)
    requires SoundFilters(view, pattern, tests) && FiltersPattern(filtered, pattern)
    ensures ToSet(plan.rows) == set q | q in Target(table, cs) && pattern(q)
    ensures Distinct(plan.rows) && TruthfulPlan(plan)
  {
    match (table, cs) {
      case (Some(t), Some(changeset)) =>
        plan := BuildWithChangeset(view, t, changeset, pattern, filtered, tests, partitions);
      case (Some(t), None) =>
        var base := ScanQuadTable(view, t, pattern, tests, partitions);
        if base.Some? {
          ScannedBase(t, pattern, base.value.rows);
        }
        plan := if base.Some? then base.value else Plan([], Exact(0));
      case (None, Some(changeset)) =>
        plan := BuildWithoutQuadTable(changeset, pattern, filtered);
      case (None, None) =>
        plan := Plan([], Exact(0));
    }
  }
}
