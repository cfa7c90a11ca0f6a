/**
 Eager pruning of a Parquet scan: whole files by their statistics, row groups by the
 footer, row groups by Bloom filters, rows by the page index, and the regrouping of the
 files that remain.

 The tests are those of the query engine. All that is known of them is that they are sound
 for the bounds they are given: they never reject rows of which one matches. Rows are of
 any type; `view` gives the rank of a row's value in a column, or nothing for null.
 */
module Pruning {
  import opened Basics

  /** A bound of `None` is a null bound: the column only holds nulls. */
  datatype ColumnStats = ColumnStats(
    nullCount: Precision<nat>, minValue: Precision<Option<int>>, maxValue: Precision<Option<int>>)

  datatype Stats = Stats(numRows: Precision<nat>, columns: seq<ColumnStats>)

  datatype RowGroup<R> = RowGroup(rows: seq<R>, stats: Stats)

  datatype File<R> = File(id: nat, stats: Option<Stats>, rowGroups: seq<RowGroup<R>>)

  type View<!R> = (R, nat) -> Option<int>

  // ----- What statistics say

  predicate IsLowerBound(bound: Precision<Option<int>>, v: Option<int>) {
    bound.Absent? || (if bound.value.None? then v.None? else v.Some? ==> bound.value.value <= v.value)
  }

  predicate IsUpperBound(bound: Precision<Option<int>>, v: Option<int>) {
    bound.Absent? || (if bound.value.None? then v.None? else v.Some? ==> v.value <= bound.value.value)
  }

  ghost predicate Bounds<R>(view: View<R>, columns: seq<ColumnStats>, rows: seq<R>) {
    forall c, i :: 0 <= c < |columns| && 0 <= i < |rows| ==>
      IsLowerBound(columns[c].minValue, view(rows[i], c)) && IsUpperBound(columns[c].maxValue, view(rows[i], c))
  }

  function NullCount<R>(view: View<R>, rows: seq<R>, c: nat): nat {
    if rows == [] then 0 else (if view(rows[0], c).None? then 1 else 0) + NullCount(view, rows[1..], c)
  }

  /** Statistics are truthful: exact counts are the counts, and bounds are bounds. */
  ghost predicate Describes<R>(view: View<R>, stats: Stats, rows: seq<R>) {
    && (stats.numRows.Exact? ==> stats.numRows.value == |rows|)
    && (forall c :: 0 <= c < |stats.columns| && stats.columns[c].nullCount.Exact? ==>
          stats.columns[c].nullCount.value == NullCount(view, rows, c))
    && Bounds(view, stats.columns, rows)
  }

  /** A test that may match: it never rejects statistics of rows of which one matches. */
  ghost predicate Sound<R(!new)>(view: View<R>, matches: R -> bool, test: Stats -> bool) {
    forall stats, rows: seq<R>, i ::
      Describes(view, stats, rows) && 0 <= i < |rows| && matches(rows[i]) ==> test(stats)
  }

  // ----- Pruning one file

  datatype Access = Skip | Scan | Selection(keep: seq<bool>)

  /** The tests for each phase, if the phase is used. */
  datatype Filters<!R> = Filters(
    rowGroup: Option<Stats -> bool>,
    bloom: Option<RowGroup<R> -> bool>,
    page: Option<(RowGroup<R>, nat) -> bool>,
    /** Tests the negation of the filter. */
    fullMatch: Option<Stats -> bool>)

  /** The tests of the filter are sound; what the test of its negation says is never relied on. */
  ghost predicate SoundFilters<R(!new)>(view: View<R>, matches: R -> bool, f: Filters<R>) {
    && (f.rowGroup.Some? ==> Sound(view, matches, f.rowGroup.value))
    && (f.bloom.Some? ==> forall rg: RowGroup<R>, i ::
          0 <= i < |rg.rows| && matches(rg.rows[i]) ==> f.bloom.value(rg))
    && (f.page.Some? ==> SoundPages(matches, f.page.value))
  }

  ghost predicate SoundPages<R(!new)>(matches: R -> bool, page: (RowGroup<R>, nat) -> bool) {
    forall rg: RowGroup<R>, i: nat :: i < |rg.rows| && matches(rg.rows[i]) ==> page(rg, i)
  }

  function KeepRows<R>(rows: seq<R>, keep: seq<bool>): seq<R> {
    if rows == [] || keep == [] then []
    else (if keep[0] then [rows[0]] else []) + KeepRows(rows[1..], keep[1..])
  }

  function AccessRows<R>(rg: RowGroup<R>, access: Access): seq<R> {
    match access
    case Skip => []
    case Scan => rg.rows
    case Selection(keep) => KeepRows(rg.rows, keep)
  }

  function PlanRows<R>(rgs: seq<RowGroup<R>>, plan: seq<Access>): seq<R> {
    if rgs == [] || plan == [] then []
    else AccessRows(rgs[0], plan[0]) + PlanRows(rgs[1..], plan[1..])
  }

  function FileRows<R>(file: File<R>): seq<R> {
    PlanRows(file.rowGroups, seq(|file.rowGroups|, i => Scan))
  }

  predicate AllSkipped(plan: seq<Access>) {
    forall i :: 0 <= i < |plan| ==> plan[i].Skip?
  }

  function PruneByStats<R>(test: Option<Stats -> bool>, rgs: seq<RowGroup<R>>): (plan: seq<Access>)
    ensures |plan| == |rgs|
  {
    seq(|rgs|, i requires 0 <= i < |rgs| => if test.None? || test.value(rgs[i].stats) then Scan else Skip)
  }

  function PruneByBloom<R>(test: Option<RowGroup<R> -> bool>, rgs: seq<RowGroup<R>>,
                           plan: seq<Access>): (r: seq<Access>)
    requires |plan| == |rgs|
    ensures |r| == |rgs|
  {
    seq(|rgs|, i requires 0 <= i < |rgs| =>
      if test.None? || plan[i].Skip? || test.value(rgs[i]) then plan[i] else Skip)
  }

  /** The negated filter rejects every row group that is left. */
  predicate AllFullyMatch<R>(test: Option<Stats -> bool>, rgs: seq<RowGroup<R>>, plan: seq<Access>)
    requires |plan| == |rgs|
  {
    test.Some? && forall i :: 0 <= i < |rgs| && !plan[i].Skip? ==> !test.value(rgs[i].stats)
  }

  function PageSelection<R>(test: (RowGroup<R>, nat) -> bool, rg: RowGroup<R>): Access {
    var keep := seq(|rg.rows|, i requires 0 <= i => test(rg, i));
    if exists i :: 0 <= i < |keep| && keep[i] then Selection(keep) else Skip
  }

  function PruneByPages<R>(test: (RowGroup<R>, nat) -> bool, rgs: seq<RowGroup<R>>, plan: seq<Access>): (r: seq<Access>)
    requires |plan| == |rgs|
    ensures |r| == |rgs|
  {
    seq(|rgs|, i requires 0 <= i < |rgs| => if plan[i].Skip? then Skip else PageSelection(test, rgs[i]))
  }

  /** A file that remains: what is read of it, and the bounds passed on for these rows. */
  datatype Remaining<R> = Remaining(file: File<R>, plan: seq<Access>, columns: seq<ColumnStats>)

  function ToInexact<T>(p: Precision<T>): Precision<T> {
    if p.Exact? then Inexact(p.value) else p
  }

  function PassedOnBounds(stats: Option<Stats>): seq<ColumnStats> {
    if stats.None? then []
    else
      var columns := stats.value.columns;
      seq(|columns|, c requires 0 <= c < |columns| =>
        ColumnStats(Absent, ToInexact(columns[c].minValue), ToInexact(columns[c].maxValue)))
  }

  function PruneFile<R>(f: Filters<R>, file: File<R>): Option<Remaining<R>> {
    if f.rowGroup.Some? && file.stats.Some? && !f.rowGroup.value(file.stats.value) then None
    else
      var byStats := PruneByStats(f.rowGroup, file.rowGroups);
      if AllSkipped(byStats) then None
      else
        var byBloom := if f.rowGroup.Some? then PruneByBloom(f.bloom, file.rowGroups, byStats) else byStats;
        if AllSkipped(byBloom) then None
        else
          var plan :=
            if f.page.Some? && !AllFullyMatch(f.fullMatch, file.rowGroups, byBloom)
            then PruneByPages(f.page.value, file.rowGroups, byBloom) else byBloom;
          if AllSkipped(plan) then None
          else Some(Remaining(file, plan, PassedOnBounds(file.stats)))
  }

  // ----- No matching row is lost

  /** What an access reads holds the matching rows of the row group, in order. */
  ghost predicate KeepsMatches<R>(matches: R -> bool, rg: RowGroup<R>, access: Access) {
    Filter(matches, AccessRows(rg, access)) == Filter(matches, rg.rows)
  }

  ghost predicate PlanKeepsMatches<R>(matches: R -> bool, rgs: seq<RowGroup<R>>, plan: seq<Access>) {
    |plan| == |rgs| && forall i :: 0 <= i < |rgs| ==> KeepsMatches(matches, rgs[i], plan[i])
  }

  lemma NoneMatch<R>(matches: R -> bool, rows: seq<R>)
    requires forall i :: 0 <= i < |rows| ==> !matches(rows[i])
    ensures Filter(matches, rows) == []
  {
    assert forall x | x in Filter(matches, rows) :: x in rows && matches(x);
  }

  lemma {:induction false} KeepRowsKeepsMatches<R>(matches: R -> bool, rows: seq<R>, keep: seq<bool>)
    requires |keep| == |rows| && forall i :: 0 <= i < |rows| && matches(rows[i]) ==> keep[i]
    ensures Filter(matches, KeepRows(rows, keep)) == Filter(matches, rows)
  {
    if rows != [] {
      KeepRowsKeepsMatches(matches, rows[1..], keep[1..]);
      FilterConcat(matches, if keep[0] then [rows[0]] else [], KeepRows(rows[1..], keep[1..]));
    }
  }

  lemma {:induction false} PlanRowsKeepMatches<R>(matches: R -> bool, rgs: seq<RowGroup<R>>, plan: seq<Access>)
    requires PlanKeepsMatches(matches, rgs, plan)
    ensures Filter(matches, PlanRows(rgs, plan)) == Filter(matches, PlanRows(rgs, seq(|rgs|, i => Scan)))
  {
    var all := seq(|rgs|, i => Scan);
    if rgs != [] {
      assert all[1..] == seq(|rgs[1..]|, i => Scan);
      assert KeepsMatches(matches, rgs[0], plan[0]);
      forall i | 0 <= i < |rgs[1..]| ensures KeepsMatches(matches, rgs[1..][i], plan[1..][i]) {
        assert KeepsMatches(matches, rgs[i + 1], plan[i + 1]);
      }
      PlanRowsKeepMatches(matches, rgs[1..], plan[1..]);
      FilterConcat(matches, AccessRows(rgs[0], plan[0]), PlanRows(rgs[1..], plan[1..]));
      FilterConcat(matches, rgs[0].rows, PlanRows(rgs[1..], all[1..]));
    }
  }

  ghost predicate WellDescribed<R>(view: View<R>, file: File<R>) {
    && (file.stats.Some? ==> Describes(view, file.stats.value, FileRows(file)))
    && forall i :: 0 <= i < |file.rowGroups| ==> Describes(view, file.rowGroups[i].stats, file.rowGroups[i].rows)
  }

  lemma StatsPhase<R(!new)>(view: View<R>, matches: R -> bool, test: Option<Stats -> bool>, file: File<R>)
    requires WellDescribed(view, file) && (test.Some? ==> Sound(view, matches, test.value))
    ensures PlanKeepsMatches(matches, file.rowGroups, PruneByStats(test, file.rowGroups))
  {
    var rgs, plan := file.rowGroups, PruneByStats(test, file.rowGroups);
    forall i | 0 <= i < |rgs| ensures KeepsMatches(matches, rgs[i], plan[i]) {
      if plan[i].Skip? {
        assert Describes(view, rgs[i].stats, rgs[i].rows);
        NoneMatch(matches, rgs[i].rows);
      }
    }
  }

  lemma BloomPhase<R(!new)>(matches: R -> bool, test: Option<RowGroup<R> -> bool>, rgs: seq<RowGroup<R>>,
                            plan: seq<Access>)
    requires PlanKeepsMatches(matches, rgs, plan)
    requires test.Some? ==> forall rg: RowGroup<R>, i :: 0 <= i < |rg.rows| && matches(rg.rows[i]) ==> test.value(rg)
    ensures PlanKeepsMatches(matches, rgs, PruneByBloom(test, rgs, plan))
  {
    var plan' := PruneByBloom(test, rgs, plan);
    forall i | 0 <= i < |rgs| ensures KeepsMatches(matches, rgs[i], plan'[i]) {
      assert KeepsMatches(matches, rgs[i], plan[i]);
      if plan'[i] != plan[i] {
        NoneMatch(matches, rgs[i].rows);
      }
    }
  }

  lemma PagePhase<R(!new)>(matches: R -> bool, test: (RowGroup<R>, nat) -> bool, rgs: seq<RowGroup<R>>,
                           plan: seq<Access>)
    requires PlanKeepsMatches(matches, rgs, plan) && SoundPages(matches, test)
    ensures PlanKeepsMatches(matches, rgs, PruneByPages(test, rgs, plan))
  {
    var plan' := PruneByPages(test, rgs, plan);
    forall i | 0 <= i < |rgs| ensures KeepsMatches(matches, rgs[i], plan'[i]) {
      assert KeepsMatches(matches, rgs[i], plan[i]);
      if !plan[i].Skip? {
        var rg := rgs[i];
        var keep := seq(|rg.rows|, k requires 0 <= k => test(rg, k));
        forall k | 0 <= k < |rg.rows| && matches(rg.rows[k]) ensures keep[k] {}
        KeepRowsKeepsMatches(matches, rg.rows, keep);
        if plan'[i].Skip? {
          NoneMatch(matches, rg.rows);
        }
      }
    }
  }

  lemma {:induction false} SkippedPlanIsEmpty<R>(rgs: seq<RowGroup<R>>, plan: seq<Access>)
    requires AllSkipped(plan)
    ensures PlanRows(rgs, plan) == []
  {
    if rgs != [] && plan != [] {
      forall i | 0 <= i < |plan[1..]| ensures plan[1..][i].Skip? {
        assert plan[i + 1].Skip?;
      }
      SkippedPlanIsEmpty(rgs[1..], plan[1..]);
    }
  }

  /** Pruning a file loses no matching row and keeps the order of the rows. */
  lemma PruneFileKeepsMatches<R(!new)>(view: View<R>, matches: R -> bool, f: Filters<R>, file: File<R>)
    requires SoundFilters(view, matches, f) && WellDescribed(view, file)
    ensures match PruneFile(f, file)
            case None => Filter(matches, FileRows(file)) == []
            case Some(r) =>
              && r.file == file
              && Filter(matches, PlanRows(file.rowGroups, r.plan)) == Filter(matches, FileRows(file))
  {
    if f.rowGroup.Some? && file.stats.Some? && !f.rowGroup.value(file.stats.value) {
      NoneMatch(matches, FileRows(file));
    } else {
      var rgs := file.rowGroups;
      var byStats := PruneByStats(f.rowGroup, rgs);
      StatsPhase(view, matches, f.rowGroup, file);
      PlanDecides(matches, file, byStats);
      var byBloom := if f.rowGroup.Some? then PruneByBloom(f.bloom, rgs, byStats) else byStats;
      if f.rowGroup.Some? {
        BloomPhase(matches, f.bloom, rgs, byStats);
      }
      PlanDecides(matches, file, byBloom);
      if f.page.Some? && !AllFullyMatch(f.fullMatch, rgs, byBloom) {
        PagePhase(matches, f.page.value, rgs, byBloom);
        PlanDecides(matches, file, PruneByPages(f.page.value, rgs, byBloom));
      }
    }
  }

  lemma PlanDecides<R>(matches: R -> bool, file: File<R>, plan: seq<Access>)
    requires PlanKeepsMatches(matches, file.rowGroups, plan)
    ensures Filter(matches, PlanRows(file.rowGroups, plan)) == Filter(matches, FileRows(file))
    ensures AllSkipped(plan) ==> Filter(matches, FileRows(file)) == []
  {
    PlanRowsKeepMatches(matches, file.rowGroups, plan);
    if AllSkipped(plan) {
      SkippedPlanIsEmpty(file.rowGroups, plan);
    }
  }

  // ----- The bounds that are passed on

  lemma {:induction false} KeepRowsMember<R>(rows: seq<R>, keep: seq<bool>, x: R)
    requires x in KeepRows(rows, keep)
    ensures x in rows
  {
    if x != rows[0] {
      KeepRowsMember(rows[1..], keep[1..], x);
    }
  }

  lemma {:induction false} PlanRowsMember<R>(rgs: seq<RowGroup<R>>, plan: seq<Access>, x: R)
    requires |plan| == |rgs| && x in PlanRows(rgs, plan)
    ensures x in PlanRows(rgs, seq(|rgs|, i => Scan))
  {
    assert seq(|rgs|, i => Scan)[1..] == seq(|rgs[1..]|, i => Scan);
    if x in AccessRows(rgs[0], plan[0]) {
      if plan[0].Selection? {
        KeepRowsMember(rgs[0].rows, plan[0].keep, x);
      }
    } else {
      PlanRowsMember(rgs[1..], plan[1..], x);
    }
  }

  /** The bounds passed on bound the rows that remain. */
  lemma BoundsRemainValid<R>(view: View<R>, f: Filters<R>, file: File<R>)
    requires WellDescribed(view, file) && PruneFile(f, file).Some?
    ensures var r := PruneFile(f, file).value;
            Bounds(view, r.columns, PlanRows(file.rowGroups, r.plan))
  {
    var r := PruneFile(f, file).value;
    var rows := PlanRows(file.rowGroups, r.plan);
    forall c, i | 0 <= c < |r.columns| && 0 <= i < |rows|
      ensures IsLowerBound(r.columns[c].minValue, view(rows[i], c))
          && IsUpperBound(r.columns[c].maxValue, view(rows[i], c))
    {
      PlanRowsMember(file.rowGroups, r.plan, rows[i]);
      var k :| 0 <= k < |FileRows(file)| && FileRows(file)[k] == rows[i];
      assert IsLowerBound(file.stats.value.columns[c].minValue, view(FileRows(file)[k], c));
    }
  }

  // ----- What is pruned

  /** No test on statistics or on Bloom filters rejects the file or its row group `i`. */
  predicate GroupPasses<R>(f: Filters<R>, file: File<R>, i: nat)
    requires i < |file.rowGroups|
  {
    f.rowGroup.Some? ==>
      && (file.stats.Some? ==> f.rowGroup.value(file.stats.value))
      && f.rowGroup.value(file.rowGroups[i].stats)
      && (f.bloom.Some? ==> f.bloom.value(file.rowGroups[i]))
  }

  /** The negated filter rejects every row group that passes. */
  predicate PassingFullyMatch<R>(f: Filters<R>, file: File<R>) {
    f.fullMatch.Some? && forall i :: 0 <= i < |file.rowGroups| && GroupPasses(f, file, i) ==>
                                       !f.fullMatch.value(file.rowGroups[i].stats)
  }

  /** No test rejects row `k` of row group `i`. */
  predicate RowPasses<R>(f: Filters<R>, file: File<R>, i: nat, k: nat)
    requires i < |file.rowGroups|
  {
    && GroupPasses(f, file, i)
    && (f.page.Some? && !PassingFullyMatch(f, file) ==> f.page.value(file.rowGroups[i], k))
  }

  predicate IsRead(access: Access, k: nat) {
    access.Scan? || (access.Selection? && k < |access.keep| && access.keep[k])
  }

  /** A row is read exactly if no test rejects it, and a file remains only if something of it is read. */
  lemma PruneFileReads<R>(f: Filters<R>, file: File<R>)
    ensures match PruneFile(f, file)
            case None => forall i, k :: 0 <= i < |file.rowGroups| && 0 <= k < |file.rowGroups[i].rows| ==>
                           !RowPasses(f, file, i, k)
            case Some(r) =>
              && |r.plan| == |file.rowGroups| && (exists i :: 0 <= i < |r.plan| && !r.plan[i].Skip?)
              && forall i, k :: 0 <= i < |file.rowGroups| && 0 <= k < |file.rowGroups[i].rows| ==>
                   (IsRead(r.plan[i], k) <==> RowPasses(f, file, i, k))
  {
    var plan := RowGroupPlan(f, file);
    if f.rowGroup.Some? && file.stats.Some? && !f.rowGroup.value(file.stats.value) {
      assert PruneFile(f, file).None?;
    } else {
      assert forall i :: 0 <= i < |plan| ==> (!plan[i].Skip? <==> GroupPasses(f, file, i));
      assert AllFullyMatch(f.fullMatch, file.rowGroups, plan) <==> PassingFullyMatch(f, file);
      if f.page.Some? && !PassingFullyMatch(f, file) {
        PagesRead(f, file, plan);
      }
    }
  }

  lemma PagesRead<R>(f: Filters<R>, file: File<R>, plan: seq<Access>)
    requires f.page.Some? && |plan| == |file.rowGroups|
    ensures forall i, k :: 0 <= i < |plan| && 0 <= k < |file.rowGroups[i].rows| ==>
              (IsRead(PruneByPages(f.page.value, file.rowGroups, plan)[i], k)
               <==> !plan[i].Skip? && f.page.value(file.rowGroups[i], k))
  {
    forall i, k | 0 <= i < |plan| && 0 <= k < |file.rowGroups[i].rows|
      ensures IsRead(PruneByPages(f.page.value, file.rowGroups, plan)[i], k)
         <==> !plan[i].Skip? && f.page.value(file.rowGroups[i], k)
    {
      var rg := file.rowGroups[i];
      var keep := seq(|rg.rows|, j requires 0 <= j => f.page.value(rg, j));
      assert keep[k] == f.page.value(rg, k);
    }
  }

  // ----- Row groups in which every row matches

  lemma {:induction false} KeepAllRows<R>(rows: seq<R>, keep: seq<bool>)
    requires |keep| == |rows| && forall i :: 0 <= i < |rows| ==> keep[i]
    ensures KeepRows(rows, keep) == rows
  {
    if rows != [] {
      KeepAllRows(rows[1..], keep[1..]);
    }
  }

  /** Pages prune nothing of a row group in which every row matches. */
  lemma PagesKeepMatchingGroup<R(!new)>(matches: R -> bool, page: (RowGroup<R>, nat) -> bool, rg: RowGroup<R>)
    requires SoundPages(matches, page) && forall k :: 0 <= k < |rg.rows| ==> matches(rg.rows[k])
    ensures AccessRows(rg, PageSelection(page, rg)) == rg.rows
  {
    var keep := seq(|rg.rows|, k requires 0 <= k => page(rg, k));
    KeepAllRows(rg.rows, keep);
    if rg.rows != [] {
      assert keep[0];
    }
  }

  lemma {:induction false} PlansAgree<R>(rgs: seq<RowGroup<R>>, p: seq<Access>, q: seq<Access>)
    requires |p| == |q| == |rgs|
    requires forall i :: 0 <= i < |rgs| ==> AccessRows(rgs[i], p[i]) == AccessRows(rgs[i], q[i])
    ensures PlanRows(rgs, p) == PlanRows(rgs, q)
  {
    if rgs != [] {
      forall i | 0 <= i < |rgs[1..]| ensures AccessRows(rgs[1..][i], p[1..][i]) == AccessRows(rgs[1..][i], q[1..][i]) {
        assert AccessRows(rgs[i + 1], p[i + 1]) == AccessRows(rgs[i + 1], q[i + 1]);
      }
      PlansAgree(rgs[1..], p[1..], q[1..]);
    }
  }

  /** The rows that are read of a file. */
  function ReadRows<R>(r: Option<Remaining<R>>): seq<R> {
    if r.None? then [] else PlanRows(r.value.file.rowGroups, r.value.plan)
  }

  /** The row groups that statistics and Bloom filters leave, each as a whole. */
  function RowGroupPlan<R>(f: Filters<R>, file: File<R>): (plan: seq<Access>)
    ensures |plan| == |file.rowGroups| && forall i :: 0 <= i < |plan| ==> plan[i].Scan? || plan[i].Skip?
  {
    var byStats := PruneByStats(f.rowGroup, file.rowGroups);
    if f.rowGroup.Some? then PruneByBloom(f.bloom, file.rowGroups, byStats) else byStats
  }

  /** If pages prune nothing where the page index is skipped, skipping it changes no row that is read. */
  lemma SameRowsWithoutFullMatch<R>(f: Filters<R>, file: File<R>)
    requires f.page.Some? && AllFullyMatch(f.fullMatch, file.rowGroups, RowGroupPlan(f, file)) ==>
               forall i :: 0 <= i < |file.rowGroups| && RowGroupPlan(f, file)[i].Scan? ==>
                 AccessRows(file.rowGroups[i], PageSelection(f.page.value, file.rowGroups[i])) == file.rowGroups[i].rows
    ensures ReadRows(PruneFile(f, file)) == ReadRows(PruneFile(f.(fullMatch := None), file))
  {
    var rgs, plan := file.rowGroups, RowGroupPlan(f, file);
    if f.page.Some? && AllFullyMatch(f.fullMatch, rgs, plan) {
      var paged := PruneByPages(f.page.value, rgs, plan);
      PlansAgree(rgs, plan, paged);
      if AllSkipped(paged) {
        SkippedPlanIsEmpty(rgs, paged);
      }
    }
  }

  // ----- All files of a scan

  function Survivors<R>(f: Filters<R>, files: seq<File<R>>): seq<Remaining<R>> {
    if files == [] then [] else Survivor(f, files[0]) + Survivors(f, files[1..])
  }

  function AllRows<R>(files: seq<File<R>>): seq<R> {
    if files == [] then [] else FileRows(files[0]) + AllRows(files[1..])
  }

  function RemainingRows<R>(remaining: seq<Remaining<R>>): seq<R> {
    if remaining == [] then []
    else PlanRows(remaining[0].file.rowGroups, remaining[0].plan) + RemainingRows(remaining[1..])
  }

  ghost predicate AllDescribed<R>(view: View<R>, files: seq<File<R>>) {
    forall i :: 0 <= i < |files| ==> WellDescribed(view, files[i])
  }

  lemma {:induction false} RemainingRowsConcat<R>(a: seq<Remaining<R>>, b: seq<Remaining<R>>)
    ensures RemainingRows(a + b) == RemainingRows(a) + RemainingRows(b)
  {
    if a == [] {
      assert a + b == b;
    } else {
      assert (a + b)[1..] == a[1..] + b;
      RemainingRowsConcat(a[1..], b);
    }
  }

  function Survivor<R>(f: Filters<R>, file: File<R>): seq<Remaining<R>> {
    match PruneFile(f, file)
    case None => []
    case Some(r) => [r]
  }

  lemma SurvivorKeepsMatches<R(!new)>(view: View<R>, matches: R -> bool, f: Filters<R>, file: File<R>)
    requires SoundFilters(view, matches, f) && WellDescribed(view, file)
    ensures Filter(matches, RemainingRows(Survivor(f, file))) == Filter(matches, FileRows(file))
  {
    PruneFileKeepsMatches(view, matches, f, file);
    if PruneFile(f, file).Some? {
      var r := PruneFile(f, file).value;
      assert RemainingRows([r]) == PlanRows(r.file.rowGroups, r.plan) + RemainingRows([r][1..]);
      assert [r][1..] == [] && RemainingRows([r]) == PlanRows(r.file.rowGroups, r.plan);
      assert Survivor(f, file) == [r];
    }
  }

  /** The surviving files, in their original order, hold every matching row in order. */
  lemma {:induction false} SurvivorsKeepMatches<R(!new)>(view: View<R>, matches: R -> bool, f: Filters<R>,
                                                         files: seq<File<R>>)
    requires SoundFilters(view, matches, f) && AllDescribed(view, files)
    ensures Filter(matches, RemainingRows(Survivors(f, files))) == Filter(matches, AllRows(files))
  {
    if files != [] {
      assert forall i :: 0 <= i < |files[1..]| ==> files[1..][i] == files[i + 1];
      var head, tail := Survivor(f, files[0]), Survivors(f, files[1..]);
      calc {
        Filter(matches, RemainingRows(head + tail));
        { RemainingRowsConcat(head, tail); }
        Filter(matches, RemainingRows(head) + RemainingRows(tail));
        { FilterConcat(matches, RemainingRows(head), RemainingRows(tail)); }
        Filter(matches, RemainingRows(head)) + Filter(matches, RemainingRows(tail));
        { SurvivorKeepsMatches(view, matches, f, files[0]); SurvivorsKeepMatches(view, matches, f, files[1..]); }
        Filter(matches, FileRows(files[0])) + Filter(matches, AllRows(files[1..]));
        { FilterConcat(matches, FileRows(files[0]), AllRows(files[1..])); }
        Filter(matches, AllRows(files));
      }
    }
  }

  lemma {:induction false} SurvivorsConcat<R>(f: Filters<R>, a: seq<File<R>>, b: seq<File<R>>)
    ensures Survivors(f, a + b) == Survivors(f, a) + Survivors(f, b)
  {
    if a == [] {
      assert a + b == b;
    } else {
      assert (a + b)[1..] == a[1..] + b;
      SurvivorsConcat(f, a[1..], b);
      var head := Survivor(f, a[0]);
      assert head + (Survivors(f, a[1..]) + Survivors(f, b)) == (head + Survivors(f, a[1..])) + Survivors(f, b);
    }
  }

  // ----- Grouping files

  /** Cuts a sequence into consecutive chunks of the given size, the last one being shorter. */
  function Chunks<T>(s: seq<T>, size: nat): seq<seq<T>>
    requires size > 0
  {
    if s == [] then [] else if |s| <= size then [s] else [s[..size]] + Chunks(s[size..], size)
  }

  function DivCeil(a: nat, b: nat): nat
    requires b > 0
  {
    (a + b - 1) / b
  }

  function SplitInOrder<T>(s: seq<T>, n: nat): seq<seq<T>>
    requires n > 0
  {
    if s == [] then [] else
      DivCeilPositive(|s|, n);
      Chunks(s, DivCeil(|s|, n))
  }

  lemma DivCeilPositive(a: nat, b: nat)
    requires a > 0 && b > 0
    ensures DivCeil(a, b) > 0 && (DivCeil(a, b) - 1) * b < a <= b * DivCeil(a, b)
  {
    var q := (a + b - 1) / b;
    assert a + b - 1 == b * q + (a + b - 1) % b;
  }

  lemma {:induction false} ChunksSpec<T>(s: seq<T>, size: nat, n: nat)
    requires size > 0 && |s| <= n * size
    ensures Flatten(Chunks(s, size)) == s
    ensures |Chunks(s, size)| <= n
    ensures forall g | g in Chunks(s, size) :: 0 < |g| <= size
  {
    if |s| > size {
      assert |s[size..]| <= (n - 1) * size;
      ChunksSpec(s[size..], size, n - 1);
      assert s == s[..size] + s[size..];
    } else if s != [] {
      FlattenSingleton(s);
      assert n > 0;
    }
  }

  /** At most `n` groups, none empty or larger than an even share, that are the files in order. */
  lemma SplitInOrderSpec<T>(s: seq<T>, n: nat)
    requires n > 0
    ensures Flatten(SplitInOrder(s, n)) == s
    ensures |SplitInOrder(s, n)| <= n
    ensures forall g | g in SplitInOrder(s, n) :: g != [] && |g| <= DivCeil(|s|, n)
  {
    if s != [] {
      DivCeilPositive(|s|, n);
      ChunksSpec(s, DivCeil(|s|, n), n);
    }
  }

  function NonEmpty<T>(groups: seq<seq<T>>): (r: seq<seq<T>>)
    ensures |r| <= |groups|
    ensures forall g | g in r :: g != []
  {
    if groups == [] then [] else (if groups[0] == [] then [] else [groups[0]]) + NonEmpty(groups[1..])
  }

  lemma {:induction false} NonEmptyMembers<T>(groups: seq<seq<T>>)
    ensures forall g | g in NonEmpty(groups) :: g in groups
  {
    if groups != [] {
      NonEmptyMembers(groups[1..]);
    }
  }

  lemma {:induction false} NonEmptyKeepsElements<T>(groups: seq<seq<T>>)
    ensures Flatten(NonEmpty(groups)) == Flatten(groups)
  {
    if groups != [] {
      NonEmptyKeepsElements(groups[1..]);
      if groups[0] != [] {
        assert NonEmpty(groups)[1..] == NonEmpty(groups[1..]);
      } else {
        assert NonEmpty(groups) == NonEmpty(groups[1..]);
      }
    }
  }

  lemma {:induction false} ExtendLastGroup<T>(groups: seq<seq<T>>, g: nat, extra: seq<T>)
    requires g < |groups| && forall k :: g < k < |groups| ==> groups[k] == []
    ensures Flatten(groups[g := groups[g] + extra]) == Flatten(groups) + extra
  {
    if g == 0 {
      assert groups[1..] == groups[0 := groups[0] + extra][1..];
      AllEmpty(groups[1..]);
    } else {
      assert groups[g := groups[g] + extra][1..] == groups[1..][g - 1 := groups[1..][g - 1] + extra];
      ExtendLastGroup(groups[1..], g - 1, extra);
    }
  }

  lemma SurvivorsSnoc<R>(f: Filters<R>, files: seq<File<R>>, file: File<R>)
    ensures Survivors(f, files + [file]) == Survivors(f, files) + Survivor(f, file)
  {
    SurvivorsConcat(f, files, [file]);
    assert Survivors(f, [file]) == Survivor(f, file) + Survivors(f, []);
  }

  method PruneFiles<R>(files: seq<File<R>>, f: Filters<R>) returns (pruned: seq<Remaining<R>>)
    ensures pruned == Survivors(f, files)
  {
    pruned := [];
    for i := 0 to |files|
      invariant pruned == Survivors(f, files[..i])
    {
      assert files[..i + 1] == files[..i] + [files[i]];
      SurvivorsSnoc(f, files[..i], files[i]);
      pruned := pruned + Survivor(f, files[i]);
    }
    assert files[..|files|] == files;
  }

  lemma FlattenSnoc<T>(ss: seq<seq<T>>, g: nat)
    requires g < |ss|
    ensures Flatten(ss[..g + 1]) == Flatten(ss[..g]) + ss[g]
  {
    assert ss[..g + 1] == ss[..g] + [ss[g]];
    FlattenConcat(ss[..g], [ss[g]]);
    FlattenSingleton(ss[g]);
  }

  /** Prunes every file and puts what remains back into its group. */
  method PruneGroups<R>(groups: seq<seq<File<R>>>, f: Filters<R>) returns (pruned: seq<seq<Remaining<R>>>)
    ensures |pruned| == |groups|
    ensures Flatten(pruned) == Survivors(f, Flatten(groups))
    ensures forall g :: 0 <= g < |groups| ==> pruned[g] == Survivors(f, groups[g])
  {
    pruned := seq(|groups|, g => []);
    AllEmpty(pruned);
    for g := 0 to |groups|
      invariant |pruned| == |groups|
      invariant Flatten(pruned) == Survivors(f, Flatten(groups[..g]))
      invariant forall k :: 0 <= k < g ==> pruned[k] == Survivors(f, groups[k])
      invariant forall k :: g <= k < |pruned| ==> pruned[k] == []
    {
      var remaining := PruneFiles(groups[g], f);
      FlattenSnoc(groups, g);
      SurvivorsConcat(f, Flatten(groups[..g]), groups[g]);
      ExtendLastGroup(pruned, g, remaining);
      pruned := pruned[g := pruned[g] + remaining];
    }
    assert groups[..|groups|] == groups;
  }

  /** A number of rows as an estimate reports it: exact only if there are none. */
  function CountOf(n: nat): Precision<nat> {
    if n > 0 then Inexact(n) else Exact(0)
  }

  /** The estimated number of rows read of a file. */
  function EstimatedRows<R>(r: Remaining<R>): Precision<nat> {
    CountOf(|PlanRows(r.file.rowGroups, r.plan)|)
  }

  /** The sum of two counts is exact only if both are. */
  function AddCounts(a: Precision<nat>, b: Precision<nat>): Precision<nat> {
    if a.Absent? || b.Absent? then Absent
    else if a.Exact? && b.Exact? then Exact(a.value + b.value)
    else Inexact(a.value + b.value)
  }

  /** Sums the estimates of all files. */
  method SumEstimates<R>(files: seq<Remaining<R>>) returns (sum: Precision<nat>)
    ensures sum == CountOf(|RemainingRows(files)|)
  {
    sum := Exact(0);
    for i := 0 to |files|
      invariant sum == CountOf(|RemainingRows(files[..i])|)
    {
      assert files[..i + 1] == files[..i] + [files[i]];
      OneMoreFile(files[..i], files[i]);
      sum := AddCounts(sum, EstimatedRows(files[i]));
    }
    assert files[..|files|] == files;
  }

  lemma OneMoreFile<R>(files: seq<Remaining<R>>, r: Remaining<R>)
    ensures |RemainingRows(files + [r])| == |RemainingRows(files)| + |PlanRows(r.file.rowGroups, r.plan)|
  {
    RemainingRowsConcat(files, [r]);
    assert [r][1..] == [];
    assert RemainingRows([r]) == PlanRows(r.file.rowGroups, r.plan) + RemainingRows([]);
  }

  /**
   Prunes the files of a scan eagerly and regroups them. The remaining files keep their
   order; without a split they stay in their group. If nothing remains, one empty group is
   returned. The number of rows is reported as exact if and only if no row is read.
   */
  method ApplyEagerPruning<R>(groups: seq<seq<File<R>>>, f: Filters<R>, split: Option<nat>)
    returns (result: seq<seq<Remaining<R>>>, numRows: Precision<nat>)
    ensures Flatten(result) == Survivors(f, Flatten(groups))
    ensures if Survivors(f, Flatten(groups)) == [] then result == [[]] else forall g | g in result :: g != []
    ensures |result| <= if split.Some? then (if split.value > 1 then split.value else 1)
                        else if |groups| > 1 then |groups| else 1
    ensures !numRows.Absent? && numRows.value == |RemainingRows(Survivors(f, Flatten(groups)))|
    ensures numRows.Exact? <==> RemainingRows(Survivors(f, Flatten(groups))) == []
  {
    var pruned := PruneGroups(groups, f);
    NonEmptyKeepsElements(pruned);
    result := NonEmpty(pruned);
    if split.Some? {
      var n := if split.value > 1 then split.value else 1;
      SplitInOrderSpec(Flatten(result), n);
      result := SplitInOrder(Flatten(result), n);
    }
    if result == [] {
      FlattenSingleton<Remaining<R>>([]);
      return [[]], Exact(0);
    }
    assert result[0] in result;
    assert Flatten(result) == result[0] + Flatten(result[1..]);
    numRows := SumEstimates(Flatten(result));
  }
}
