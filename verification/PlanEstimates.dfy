/**
 What the estimate of a pruned file says about the rows that its access plan reads: the
 estimator works on runs of selected rows and row counts of the footer, the plan on rows.
 */
module PlanEstimates {
  import opened Basics
  import opened Pruning
  import Estimator

  /** The runs select exactly the rows that the plan keeps. */
  ghost predicate Encodes(selectors: seq<Estimator.Selector>, keep: seq<bool>) {
    && Estimator.Length(selectors) == |keep|
    && forall row: nat | row < |keep| :: Estimator.IsSelected(selectors, row) <==> keep[row]
  }

  ghost predicate SameAccess<R>(rg: RowGroup<R>, access: Access, estimated: Estimator.Access) {
    match access
    case Skip => estimated.Skip?
    case Scan => estimated.Scan?
    case Selection(keep) => |keep| == |rg.rows| && estimated.Selection? && Encodes(estimated.selectors, keep)
  }

  /** The footer and the access plan that the estimator is given describe those of the file. */
  ghost predicate IsFooterOf<R>(groups: seq<Estimator.RowGroup>, accesses: seq<Estimator.Access>,
                                rgs: seq<RowGroup<R>>, plan: seq<Access>) {
    && |groups| == |accesses| == |rgs| == |plan|
    && forall i :: 0 <= i < |rgs| ==> groups[i].numRows == |rgs[i].rows| && SameAccess(rgs[i], plan[i], accesses[i])
  }

  lemma {:induction false} KeepRowsConcat<R>(a: seq<R>, b: seq<R>, keepA: seq<bool>, keepB: seq<bool>)
    requires |a| == |keepA| && |b| == |keepB|
    ensures KeepRows(a + b, keepA + keepB) == KeepRows(a, keepA) + KeepRows(b, keepB)
  {
    if a == [] {
      assert a + b == b && keepA + keepB == keepB;
    } else {
      assert (a + b)[1..] == a[1..] + b && (keepA + keepB)[1..] == keepA[1..] + keepB;
      KeepRowsConcat(a[1..], b, keepA[1..], keepB);
    }
  }

  lemma KeepOneMore<R>(rows: seq<R>, keep: seq<bool>, n: nat)
    requires |rows| == |keep| && n < |rows|
    ensures |KeepRows(rows[..n + 1], keep[..n + 1])| == |KeepRows(rows[..n], keep[..n])| + if keep[n] then 1 else 0
  {
    assert rows[..n + 1] == rows[..n] + [rows[n]] && keep[..n + 1] == keep[..n] + [keep[n]];
    KeepRowsConcat(rows[..n], [rows[n]], keep[..n], [keep[n]]);
    assert KeepRows([rows[n]], [keep[n]])
        == (if keep[n] then [rows[n]] else []) + KeepRows([rows[n]][1..], [keep[n]][1..]);
  }

  lemma {:induction false} SelectedAreKept<R>(selectors: seq<Estimator.Selector>, rows: seq<R>, keep: seq<bool>, n: nat)
    requires Encodes(selectors, keep) && n <= |keep| == |rows|
    ensures Estimator.CountSelected(selectors, n) == |KeepRows(rows[..n], keep[..n])|
  {
    if n > 0 {
      SelectedAreKept(selectors, rows, keep, n - 1);
      KeepOneMore(rows, keep, n - 1);
    }
  }

  lemma GroupRowsAreRead<R>(group: Estimator.RowGroup, estimated: Estimator.Access, rg: RowGroup<R>, access: Access)
    requires group.numRows == |rg.rows| && SameAccess(rg, access, estimated)
    ensures Estimator.GroupRows(group, estimated) == |AccessRows(rg, access)|
  {
    if access.Selection? {
      var keep := access.keep;
      Estimator.SelectedCountIsCardinality(estimated.selectors);
      SelectedAreKept(estimated.selectors, rg.rows, keep, |keep|);
      assert rg.rows[..|keep|] == rg.rows && keep[..|keep|] == keep;
    }
  }

  lemma {:induction false} PlanRowsConcat<R>(a: seq<RowGroup<R>>, b: seq<RowGroup<R>>, p: seq<Access>, q: seq<Access>)
    requires |a| == |p| && |b| == |q|
    ensures PlanRows(a + b, p + q) == PlanRows(a, p) + PlanRows(b, q)
  {
    if a == [] {
      assert a + b == b && p + q == q;
    } else {
      assert (a + b)[1..] == a[1..] + b && (p + q)[1..] == p[1..] + q;
      PlanRowsConcat(a[1..], b, p[1..], q);
    }
  }

  lemma PlanOneMore<R>(rgs: seq<RowGroup<R>>, plan: seq<Access>, n: nat)
    requires |rgs| == |plan| && n < |rgs|
    ensures PlanRows(rgs[..n + 1], plan[..n + 1]) == PlanRows(rgs[..n], plan[..n]) + AccessRows(rgs[n], plan[n])
  {
    assert rgs[..n + 1] == rgs[..n] + [rgs[n]] && plan[..n + 1] == plan[..n] + [plan[n]];
    PlanRowsConcat(rgs[..n], [rgs[n]], plan[..n], [plan[n]]);
    assert PlanRows([rgs[n]], [plan[n]]) == AccessRows(rgs[n], plan[n]) + PlanRows([rgs[n]][1..], [plan[n]][1..]);
  }

  lemma {:induction false} FirstRowsAreRead<R>(groups: seq<Estimator.RowGroup>, accesses: seq<Estimator.Access>,
                                               rgs: seq<RowGroup<R>>, plan: seq<Access>, n: nat)
    requires IsFooterOf(groups, accesses, rgs, plan) && n <= |groups|
    ensures Estimator.FileRows(groups, accesses, n) == |PlanRows(rgs[..n], plan[..n])|
  {
    if n > 0 {
      FirstRowsAreRead(groups, accesses, rgs, plan, n - 1);
      PlanOneMore(rgs, plan, n - 1);
      GroupRowsAreRead(groups[n - 1], accesses[n - 1], rgs[n - 1], plan[n - 1]);
    }
  }

  /** The estimated number of rows of a file is the number of rows that its plan reads. */
  lemma EstimateIsPlan<R>(groups: seq<Estimator.RowGroup>, accesses: seq<Estimator.Access>,
                          rgs: seq<RowGroup<R>>, plan: seq<Access>)
    requires IsFooterOf(groups, accesses, rgs, plan)
    ensures Estimator.FileRows(groups, accesses, |groups|) == |PlanRows(rgs, plan)|
  {
    FirstRowsAreRead(groups, accesses, rgs, plan, |groups|);
    assert rgs[..|groups|] == rgs && plan[..|groups|] == plan;
  }

  /**
   The estimate of a file that survived pruning is the one that the scan's statistics sum
   up: exactly zero rows if and only if the plan reads no row.
   */
  method EstimateRemaining<R>(r: Remaining<R>, groups: seq<Estimator.RowGroup>, accesses: seq<Estimator.Access>,
                              numColumns: nat)
    returns (estimate: Estimator.Estimate)
    requires IsFooterOf(groups, accesses, r.file.rowGroups, r.plan) && Estimator.RootsWithin(groups, numColumns)
    ensures estimate.rows == EstimatedRows(r)
    ensures estimate.rows == Exact(0) <==> PlanRows(r.file.rowGroups, r.plan) == []
  {
    estimate := Estimator.EstimateScan(groups, accesses, numColumns);
    EstimateIsPlan(groups, accesses, r.file.rowGroups, r.plan);
  }
}
