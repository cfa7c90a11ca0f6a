/**
 The Parquet scan of a quad pattern: the filter is rewritten, conjuncts that the statistics
 prove are dropped, files are pruned with what is left, and the source evaluates the
 conjuncts it can. If it cannot evaluate all of them, the original filter is applied above
 the scan.
 */
module ParquetScan {
  import opened Basics
  import opened Quads
  import opened Predicates
  import opened Pruning

  /** The columns of the quad schema. */
  function ColumnIndex(c: Component): nat {
    match c
    case GraphComponent => 0
    case Subject => 1
    case Predicate => 2
    case Object => 3
  }

  /** The ranks that statistics speak about are null where the column is. */
  ghost predicate IsRowView(view: View<Row>) {
    forall row, c :: view(row, ColumnIndex(c)).None? <==> Get(row, c).None?
  }

  /** A missing filter keeps every row. */
  predicate Kept(filter: Option<Expr>, row: Row) {
    filter.None? || Keeps(filter.value, row)
  }

  // ----- Conjuncts proven by statistics

  /** The exact statistics of a file guarantee the null check for all of its rows. */
  predicate FileProves(stats: Option<Stats>, column: nat, isNull: bool) {
    && stats.Some? && stats.value.numRows.Exact?
    && column < |stats.value.columns| && stats.value.columns[column].nullCount.Exact?
    && var nulls := stats.value.columns[column].nullCount.value;
       if isNull then nulls == stats.value.numRows.value else nulls == 0
  }

  predicate IsProven(e: Expr, files: seq<File<Row>>) {
    match e
    case IsNull(Col(c)) => forall i :: 0 <= i < |files| ==> FileProves(files[i].stats, ColumnIndex(c), true)
    case IsNotNull(Col(c)) => forall i :: 0 <= i < |files| ==> FileProves(files[i].stats, ColumnIndex(c), false)
    case _ => false
  }

  function RemoveProven(filter: Expr, files: seq<File<Row>>): Option<Expr> {
    Conjunction(Filter(e => !IsProven(e, files), SplitConjunction(filter)))
  }

  lemma {:induction false} NullCountIff<R>(view: View<R>, rows: seq<R>, c: nat)
    ensures NullCount(view, rows, c) <= |rows|
    ensures NullCount(view, rows, c) == 0 <==> forall k :: 0 <= k < |rows| ==> view(rows[k], c).Some?
    ensures NullCount(view, rows, c) == |rows| <==> forall k :: 0 <= k < |rows| ==> view(rows[k], c).None?
  {
    if rows != [] {
      NullCountIff(view, rows[1..], c);
      assert rows == [rows[0]] + rows[1..];
    }
  }

  lemma ProvenHolds(view: View<Row>, e: Expr, files: seq<File<Row>>, i: nat, k: nat)
    requires IsRowView(view) && AllDescribed(view, files) && IsProven(e, files)
    requires i < |files| && k < |FileRows(files[i])|
    ensures Keeps(e, FileRows(files[i])[k])
  {
    var rows := FileRows(files[i]);
    assert WellDescribed(view, files[i]);
    var c := e.e.c;
    assert FileProves(files[i].stats, ColumnIndex(c), e.IsNull?);
    NullCountIff(view, rows, ColumnIndex(c));
    assert Eval(Col(c), rows[k]) == TermValue(Get(rows[k], c));
  }

  /** Dropping proven conjuncts changes the verdict on no row of the scanned files. */
  lemma RemoveProvenKeepsRows(view: View<Row>, filter: Expr, files: seq<File<Row>>, i: nat, k: nat)
    requires IsRowView(view) && AllDescribed(view, files)
    requires i < |files| && k < |FileRows(files[i])|
    ensures Kept(RemoveProven(filter, files), FileRows(files[i])[k]) <==> Keeps(filter, FileRows(files[i])[k])
  {
    var row := FileRows(files[i])[k];
    var all := SplitConjunction(filter);
    var kept := Filter(e => !IsProven(e, files), all);
    SplitKeeps(filter, row);
    ConjunctionKeeps(kept, row);
    if KeepsAll(kept, row) {
      forall e | e in all ensures Keeps(e, row) {
        if IsProven(e, files) {
          ProvenHolds(view, e, files, i, k);
        } else {
          assert e in kept;
        }
      }
    }
  }

  /** Every file has exact counts for the column. */
  predicate CountsKnown(files: seq<File<Row>>, column: nat) {
    forall i :: 0 <= i < |files| ==>
      && files[i].stats.Some? && files[i].stats.value.numRows.Exact?
      && column < |files[i].stats.value.columns| && files[i].stats.value.columns[column].nullCount.Exact?
  }

  /** A null check is proven exactly if the exact counts are known and it holds for every row. */
  lemma ProvenIff(view: View<Row>, e: Expr, files: seq<File<Row>>)
    requires IsRowView(view) && AllDescribed(view, files)
    requires (e.IsNull? || e.IsNotNull?) && e.e.Col?
    ensures IsProven(e, files)
       <==> && CountsKnown(files, ColumnIndex(e.e.c))
            && forall i, k :: 0 <= i < |files| && 0 <= k < |FileRows(files[i])| ==> Keeps(e, FileRows(files[i])[k])
  {
    var c := e.e.c;
    forall i | 0 <= i < |files| && CountsKnown([files[i]], ColumnIndex(c))
      ensures FileProves(files[i].stats, ColumnIndex(c), e.IsNull?)
         <==> forall k :: 0 <= k < |FileRows(files[i])| ==> Keeps(e, FileRows(files[i])[k])
    {
      var rows := FileRows(files[i]);
      assert WellDescribed(view, files[i]) && [files[i]][0] == files[i];
      NullCountIff(view, rows, ColumnIndex(c));
      forall k | 0 <= k < |rows| ensures Keeps(e, rows[k]) <==> (view(rows[k], ColumnIndex(c)).None? <==> e.IsNull?) {
        assert Eval(Col(c), rows[k]) == TermValue(Get(rows[k], c));
      }
    }
    KnownEach(files, ColumnIndex(c));
  }

  lemma KnownEach(files: seq<File<Row>>, column: nat)
    ensures CountsKnown(files, column) <==> forall i :: 0 <= i < |files| ==> CountsKnown([files[i]], column)
  {
    assert forall i :: 0 <= i < |files| ==> [files[i]][0] == files[i];
  }

  /** No filter is left exactly if every conjunct is proven. */
  lemma RemoveProvenLeaves(filter: Expr, files: seq<File<Row>>)
    ensures RemoveProven(filter, files).None?
       <==> forall e | e in SplitConjunction(filter) :: IsProven(e, files)
  {
    var kept := Filter(e => !IsProven(e, files), SplitConjunction(filter));
    if kept != [] {
      assert kept[0] in SplitConjunction(filter) && !IsProven(kept[0], files);
    }
  }

  // ----- Testing the negation of the filter

  /** A test built from the negated filter: it never rejects rows of which one satisfies the negation. */
  ghost predicate SoundForNegation(view: View<Row>, e: Expr, test: Stats -> bool) {
    Negate(e).Some? && Sound(view, (r: Row) => Keeps(Negate(e).value, r), test)
  }

  /** A test that never rejects rows of which one does not match the filter. */
  ghost predicate SoundForComplement(view: View<Row>, e: Expr, test: Stats -> bool) {
    Sound(view, (r: Row) => !Keeps(e, r), test)
  }

  /** Without null literals, testing the negated filter tests for rows that do not match. */
  lemma NegatedTestIsSound(view: View<Row>, e: Expr, test: Stats -> bool)
    requires SoundForNegation(view, e, test) && NoNullLiterals(e)
    ensures SoundForComplement(view, e, test)
  {
    forall stats, rows: seq<Row>, i | Describes(view, stats, rows) && 0 <= i < |rows| && !Keeps(e, rows[i])
      ensures test(stats)
    {
      NegationIsComplement(e, rows[i]);
    }
  }

  /** The statistics of quads without nulls. */
  const NO_NULLS: Stats :=
    Stats(Absent, seq(4, _ => ColumnStats(Exact(0), Absent, Absent)))

  lemma NoNullsHaveValues(view: View<Row>, rows: seq<Row>, c: Component, k: nat)
    requires IsRowView(view) && Describes(view, NO_NULLS, rows) && k < |rows|
    ensures Get(rows[k], c).Some?
  {
    assert NO_NULLS.columns[ColumnIndex(c)].nullCount == Exact(0);
    NullCountIff(view, rows, ColumnIndex(c));
  }

  lemma NoNullsDescribeQuad(view: View<Row>, row: Row)
    requires IsRowView(view) && row.graph.Some?
    ensures Describes(view, NO_NULLS, [row])
  {
    forall c: nat | c < 4 ensures NullCount(view, [row], c) == 0 {
      assert [row][1..] == [];
      var component :=
        if c == 0 then GraphComponent else if c == 1 then Subject else if c == 2 then Predicate else Object;
      assert ColumnIndex(component) == c && Get(row, component).Some?;
    }
  }

  /**
   For the equality of a column with a literal, every test that is sound for the negated
   filter is sound for the rows that do not match, if and only if the literal is not null.
   */
  lemma NegatedTestIsSoundIff(view: View<Row>, c: Component, lit: Lit)
    requires IsRowView(view)
    ensures var e := Binary(Col(c), Eq, Literal(lit));
            !LitValue(lit).Null?
            <==> forall test :: SoundForNegation(view, e, test) ==> SoundForComplement(view, e, test)
  {
    var e := Binary(Col(c), Eq, Literal(lit));
    if LitValue(lit).Null? {
      var test := (stats: Stats) => stats != NO_NULLS;
      forall rows: seq<Row>, i | Describes(view, NO_NULLS, rows) && 0 <= i < |rows|
        ensures !Keeps(Negate(e).value, rows[i])
      {
        NoNullsHaveValues(view, rows, c, i);
        NegationIsExact(e, rows[i]);
        assert Eval(Col(c), rows[i]) == TermValue(Get(rows[i], c));
        assert Lost(e, rows[i]);
      }
      assert SoundForNegation(view, e, test);
      var term := PlainTerm(NAMED_NODE, "", None, None);
      var row := Row(Some(term), term, term, term);
      NoNullsDescribeQuad(view, row);
      assert !Keeps(e, row) by { assert Eval(e, row) == Null; }
      assert Describes(view, NO_NULLS, [row]) && !Keeps(e, [row][0]) && !test(NO_NULLS);
      assert !SoundForComplement(view, e, test);
    } else {
      forall test | SoundForNegation(view, e, test) ensures SoundForComplement(view, e, test) {
        NegatedTestIsSound(view, e, test);
      }
    }
  }

  /**
   If a test of the negated filter rejects the row groups that are left, each of their rows
   matches the filter, or is lost to both by a null literal.
   */
  lemma FullyMatchingRows(view: View<Row>, e: Expr, test: Stats -> bool, file: File<Row>, plan: seq<Access>, i: nat,
                          k: nat)
    requires SoundForNegation(view, e, test) && WellDescribed(view, file) && |plan| == |file.rowGroups|
    requires AllFullyMatch(Some(test), file.rowGroups, plan)
    requires i < |plan| && !plan[i].Skip? && k < |file.rowGroups[i].rows|
    ensures var row := file.rowGroups[i].rows[k];
            && (Keeps(e, row) <==> !Lost(e, row))
            && (NoNullLiterals(e) ==> Keeps(e, row))
  {
    var rg := file.rowGroups[i];
    assert Describes(view, rg.stats, rg.rows);
    assert !Keeps(Negate(e).value, rg.rows[k]);
    NegationIsExact(e, rg.rows[k]);
    if NoNullLiterals(e) {
      NothingLost(e, rg.rows[k]);
    }
  }

  /**
   Then the page index could not have pruned a row: a file is read in the same rows as if
   the page index had always been loaded.
   */
  lemma SkippingPageIndexLosesNothing(view: View<Row>, e: Expr, f: Filters<Row>, file: File<Row>)
    requires f.page.Some? ==> SoundPages((r: Row) => Keeps(e, r), f.page.value)
    requires f.fullMatch.Some? ==> SoundForNegation(view, e, f.fullMatch.value) && NoNullLiterals(e)
    requires WellDescribed(view, file)
    ensures ReadRows(PruneFile(f, file)) == ReadRows(PruneFile(f.(fullMatch := None), file))
  {
    var plan := RowGroupPlan(f, file);
    if f.page.Some? && AllFullyMatch(f.fullMatch, file.rowGroups, plan) {
      forall i | 0 <= i < |plan| && plan[i].Scan?
        ensures AccessRows(file.rowGroups[i], PageSelection(f.page.value, file.rowGroups[i])) == file.rowGroups[i].rows
      {
        var rg := file.rowGroups[i];
        forall k | 0 <= k < |rg.rows| ensures Keeps(e, rg.rows[k]) {
          FullyMatchingRows(view, e, f.fullMatch.value, file, plan, i, k);
        }
        PagesKeepMatchingGroup((r: Row) => Keeps(e, r), f.page.value, rg);
      }
    }
    SameRowsWithoutFullMatch(f, file);
  }

  // ----- Filtering sequences

  lemma {:induction false} FilterTwice<T>(f: T -> bool, g: T -> bool, s: seq<T>)
    requires forall i :: 0 <= i < |s| && f(s[i]) ==> g(s[i])
    ensures Filter(f, Filter(g, s)) == Filter(f, s)
  {
    if s != [] {
      FilterTwice(f, g, s[1..]);
      FilterConcat(f, if g(s[0]) then [s[0]] else [], Filter(g, s[1..]));
    }
  }

  lemma {:induction false} AllRowsMember<R>(files: seq<File<R>>, x: R) returns (i: nat, k: nat)
    requires x in AllRows(files)
    ensures i < |files| && k < |FileRows(files[i])| && FileRows(files[i])[k] == x
  {
    if x in FileRows(files[0]) {
      i := 0;
      k :| 0 <= k < |FileRows(files[0])| && FileRows(files[0])[k] == x;
    } else {
      i, k := AllRowsMember(files[1..], x);
      i := i + 1;
    }
  }

  lemma {:induction false} SurvivingRowsMember<R>(f: Filters<R>, files: seq<File<R>>, x: R)
    requires x in RemainingRows(Survivors(f, files))
    ensures x in AllRows(files)
  {
    if files != [] {
      var head := Survivor(f, files[0]);
      RemainingRowsConcat(head, Survivors(f, files[1..]));
      if x in RemainingRows(head) {
        var r := head[0];
        assert RemainingRows(head) == PlanRows(r.file.rowGroups, r.plan) + RemainingRows(head[1..]);
        assert RemainingRows(head[1..]) == [];
        PlanRowsMember(r.file.rowGroups, r.plan, x);
      } else {
        SurvivingRowsMember(f, files[1..], x);
      }
    }
  }

  // ----- The scan

  /** The conjuncts of the pushed filter that the source evaluates. */
  function SourceConjuncts(pushed: Option<Expr>, evaluates: Expr -> bool): seq<Expr> {
    if pushed.None? then [] else Filter(evaluates, SplitConjunction(pushed.value))
  }

  /** The source can evaluate every part of the filter. */
  predicate FullyPushable(pushed: Option<Expr>, evaluates: Expr -> bool) {
    pushed.Some? ==> forall e | e in SplitConjunction(pushed.value) :: evaluates(e)
  }

  /** What the scan returns for rows the pruning left: filtered by the source, and above it if need be. */
  function Output(filter: Option<Expr>, pushed: Option<Expr>, evaluates: Expr -> bool, rows: seq<Row>): seq<Row> {
    var fromSource := Filter(r => KeepsAll(SourceConjuncts(pushed, evaluates), r), rows);
    if FullyPushable(pushed, evaluates) then fromSource else Filter(r => Kept(filter, r), fromSource)
  }

  lemma OutputIsFiltered(filter: Option<Expr>, pushed: Option<Expr>, evaluates: Expr -> bool, rows: seq<Row>)
    requires forall i :: 0 <= i < |rows| ==> (Kept(pushed, rows[i]) <==> Kept(filter, rows[i]))
    ensures Output(filter, pushed, evaluates, rows) == Filter(r => Kept(pushed, r), rows)
  {
    var bySource := (r: Row) => KeepsAll(SourceConjuncts(pushed, evaluates), r);
    var byPushed := (r: Row) => Kept(pushed, r);
    var byFilter := (r: Row) => Kept(filter, r);
    forall i | 0 <= i < |rows|
      ensures byPushed(rows[i]) ==> bySource(rows[i])
      ensures FullyPushable(pushed, evaluates) ==> bySource(rows[i]) == byPushed(rows[i])
    {
      if pushed.Some? {
        SplitKeeps(pushed.value, rows[i]);
      }
    }
    if FullyPushable(pushed, evaluates) {
      FilterAgree(bySource, byPushed, rows);
    } else {
      FilterAgree(byFilter, byPushed, rows);
      FilterTwice(byFilter, bySource, rows);
    }
  }

  lemma {:induction false} OutputConcat(filter: Option<Expr>, pushed: Option<Expr>, evaluates: Expr -> bool,
                                        a: seq<Row>, b: seq<Row>)
    ensures Output(filter, pushed, evaluates, a + b)
        == Output(filter, pushed, evaluates, a) + Output(filter, pushed, evaluates, b)
  {
    var bySource := (r: Row) => KeepsAll(SourceConjuncts(pushed, evaluates), r);
    FilterConcat(bySource, a, b);
    FilterConcat((r: Row) => Kept(filter, r), Filter(bySource, a), Filter(bySource, b));
  }

  function Partitions(filter: Option<Expr>, pushed: Option<Expr>, evaluates: Expr -> bool,
                      groups: seq<seq<Remaining<Row>>>): seq<seq<Row>> {
    seq(|groups|, g requires 0 <= g < |groups| => Output(filter, pushed, evaluates, RemainingRows(groups[g])))
  }

  lemma {:induction false} PartitionsTogether(filter: Option<Expr>, pushed: Option<Expr>, evaluates: Expr -> bool,
                                              groups: seq<seq<Remaining<Row>>>)
    ensures Flatten(Partitions(filter, pushed, evaluates, groups)) ==
            Output(filter, pushed, evaluates, RemainingRows(Flatten(groups)))
  {
    if groups != [] {
      PartitionsTogether(filter, pushed, evaluates, groups[1..]);
      assert Partitions(filter, pushed, evaluates, groups)[1..] == Partitions(filter, pushed, evaluates, groups[1..]);
      RemainingRowsConcat(groups[0], Flatten(groups[1..]));
      OutputConcat(filter, pushed, evaluates, RemainingRows(groups[0]), RemainingRows(Flatten(groups[1..])));
    }
  }

  /** The filter pushed into the source. */
  function Pushed(filter: Option<Expr>, files: seq<File<Row>>): Result<Option<Expr>, RewriteError> {
    if filter.None? then Ok(None)
    else
      match Rewrite(filter.value)
      case Ok(rewritten) => Ok(RemoveProven(rewritten, files))
      case Err(error) => Err(error)
  }

  lemma PushedKeepsRows(view: View<Row>, filter: Option<Expr>, files: seq<File<Row>>, row: Row)
    requires IsRowView(view) && AllDescribed(view, files)
    requires filter.Some? ==> IsPatternFilter(filter.value)
    requires Pushed(filter, files).Ok? && row in AllRows(files) && WellFormedRow(row)
    ensures Kept(Pushed(filter, files).value, row) <==> Kept(filter, row)
  {
    if filter.Some? {
      var i, k := AllRowsMember(files, row);
      RewriteKeepsRows(filter.value, row);
      RemoveProvenKeepsRows(view, Rewrite(filter.value).value, files, i, k);
    }
  }

  /**
   The scan returns exactly the rows that the filter keeps, in the order of the files,
   whatever sound tests prune it and whichever conjuncts the source can evaluate.
   */
  method BuildScan(view: View<Row>, groups: seq<seq<File<Row>>>, filter: Option<Expr>,
                   tests: Option<Expr> -> Filters<Row>, evaluates: Expr -> bool, split: Option<nat>)
    returns (r: Result<seq<seq<Row>>, RewriteError>)
    requires IsRowView(view) && AllDescribed(view, Flatten(groups))
    requires forall row | row in AllRows(Flatten(groups)) :: WellFormedRow(row)
    requires filter.Some? ==> IsPatternFilter(filter.value)
    requires forall p :: SoundFilters(view, r => Kept(p, r), tests(p))
    ensures r.Err? <==> filter.Some? && !Rewritable(filter.value)
    ensures r.Ok? ==> Flatten(r.value) == Filter(row => Kept(filter, row), AllRows(Flatten(groups)))
  {
    var files := Flatten(groups);
    var pushed := Pushed(filter, files);
    if filter.Some? {
      RewriteSucceedsIff(filter.value);
    }
    if pushed.Err? {
      return Err(pushed.error);
    }
    var p := pushed.value;
    var remaining, numRows := ApplyEagerPruning(groups, tests(p), split);
    r := Ok(Partitions(filter, p, evaluates, remaining));
    PartitionsTogether(filter, p, evaluates, remaining);
    ghost var rows := RemainingRows(Survivors(tests(p), files));
    forall i | 0 <= i < |rows| ensures Kept(p, rows[i]) <==> Kept(filter, rows[i]) {
      assert rows[i] in rows;
      SurvivingRowsMember(tests(p), files, rows[i]);
      PushedKeepsRows(view, filter, files, rows[i]);
    }
    OutputIsFiltered(filter, p, evaluates, rows);
    ghost var byPushed, byFilter := (r: Row) => Kept(p, r), (r: Row) => Kept(filter, r);
    SurvivorsKeepMatches(view, byPushed, tests(p), files);
    ghost var all := AllRows(files);
    forall i | 0 <= i < |all| ensures byPushed(all[i]) == byFilter(all[i]) {
      assert all[i] in all;
      PushedKeepsRows(view, filter, files, all[i]);
    }
    FilterAgree(byPushed, byFilter, all);
  }
}
