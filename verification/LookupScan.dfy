/**
 The lookup of a switched scan as a filter of a Parquet scan: it is added to the filter of
 the pattern, rewritten and pruned with like any other filter.
 */
module LookupScan {
  import opened Basics
  import opened Quads
  import opened Predicates
  import opened Pruning
  import opened ParquetScan
  import Switch

  /** The disjunction of equalities with the values, or a filter that is never true. */
  function LookupExpr(c: Component, values: seq<PlainTerm>): Expr {
    if values == [] then Literal(OtherLit(Boolean(false)))
    else if |values| == 1 then EqualTo(c, values[0])
    else Binary(LookupExpr(c, values[..|values| - 1]), Or, EqualTo(c, values[|values| - 1]))
  }

  function EqualTo(c: Component, value: PlainTerm): Expr {
    Binary(Col(c), Eq, Literal(PlainLit(Some(value))))
  }

  predicate LooksUp(row: Row, c: Component, values: seq<PlainTerm>) {
    Get(row, c).Some? && Get(row, c).value in values
  }

  lemma EqualToSpec(c: Component, value: PlainTerm, row: Row)
    ensures IsPatternFilter(EqualTo(c, value)) && Rewritable(EqualTo(c, value))
    ensures Keeps(EqualTo(c, value), row) <==> Get(row, c) == Some(value)
  {
    var column, literal := Col(c), Literal(PlainLit(Some(value)));
    assert Rewrite(column) == Ok(column) && Rewrite(literal) == Ok(literal);
    TermConjunctsKeep(c, value, row);
    assert Eval(column, row) == TermValue(Get(row, c)) && Eval(literal, row) == Term(value);
  }

  /** A lookup is a filter like those of patterns, can be rewritten, and keeps the rows with one of the values. */
  lemma {:induction false} LookupSpec(c: Component, values: seq<PlainTerm>, row: Row)
    ensures IsPatternFilter(LookupExpr(c, values)) && Rewritable(LookupExpr(c, values))
    ensures Keeps(LookupExpr(c, values), row) <==> LooksUp(row, c, values)
  {
    if |values| == 1 {
      EqualToSpec(c, values[0], row);
    } else if |values| > 1 {
      var front, last := values[..|values| - 1], values[|values| - 1];
      assert values == front + [last];
      LookupSpec(c, front, row);
      EqualToSpec(c, last, row);
      OrKeeps(LookupExpr(c, front), EqualTo(c, last), row);
    }
  }

  lemma OrKeeps(l: Expr, r: Expr, row: Row)
    ensures Keeps(Binary(l, Or, r), row) <==> Keeps(l, row) || Keeps(r, row)
    ensures IsPatternFilter(l) && IsPatternFilter(r) ==> IsPatternFilter(Binary(l, Or, r))
    ensures Rewritable(Binary(l, Or, r)) <==> Rewritable(l) && Rewritable(r)
  {
  }

  /** The filter of the pattern and the additional filter of the lookup. */
  function WithLookup(filter: Option<Expr>, c: Component, values: seq<PlainTerm>): Expr {
    if filter.None? then LookupExpr(c, values) else Binary(filter.value, And, LookupExpr(c, values))
  }

  lemma WithLookupSpec(filter: Option<Expr>, c: Component, values: seq<PlainTerm>, row: Row)
    requires filter.Some? ==> IsPatternFilter(filter.value)
    ensures IsPatternFilter(WithLookup(filter, c, values))
    ensures Rewritable(WithLookup(filter, c, values)) <==> filter.Some? ==> Rewritable(filter.value)
    ensures Keeps(WithLookup(filter, c, values), row) <==> Kept(filter, row) && LooksUp(row, c, values)
  {
    LookupSpec(c, values, row);
    if filter.Some? {
      AndKeeps(filter.value, LookupExpr(c, values), row);
    }
  }

  lemma AndKeeps(l: Expr, r: Expr, row: Row)
    ensures Keeps(Binary(l, And, r), row) <==> Keeps(l, row) && Keeps(r, row)
    ensures IsPatternFilter(l) && IsPatternFilter(r) ==> IsPatternFilter(Binary(l, And, r))
    ensures Rewritable(Binary(l, And, r)) <==> Rewritable(l) && Rewritable(r)
  {
  }

  /**
   The alternative scan returns exactly the rows of its files that the pattern keeps and
   that hold one of the values, in the order of the files. It fails only if the filter of
   the pattern cannot be rewritten.
   */
  method BuildLookupScan(view: View<Row>, groups: seq<seq<File<Row>>>, filter: Option<Expr>, c: Component,
                         values: seq<PlainTerm>, tests: Option<Expr> -> Filters<Row>, evaluates: Expr -> bool,
                         partitions: nat)
    returns (r: Result<seq<seq<Row>>, RewriteError>)
    requires IsRowView(view) && AllDescribed(view, Flatten(groups))
    requires forall row | row in AllRows(Flatten(groups)) :: WellFormedRow(row)
    requires filter.Some? ==> IsPatternFilter(filter.value)
    requires forall p :: SoundFilters(view, r => Kept(p, r), tests(p))
    ensures r.Err? <==> filter.Some? && !Rewritable(filter.value)
    ensures r.Ok? ==>
              Flatten(r.value) == Filter(row => Kept(filter, row) && LooksUp(row, c, values), AllRows(Flatten(groups)))
  {
    var e := WithLookup(filter, c, values);
    forall row: Row
      ensures Keeps(e, row) <==> Kept(filter, row) && LooksUp(row, c, values)
    {
      WithLookupSpec(filter, c, values, row);
    }
    ghost var term := PlainTerm(0, "", None, None);
    WithLookupSpec(filter, c, values, Row(None, term, term, term));
    r := BuildScan(view, groups, Some(e), tests, evaluates, Some(partitions));
    FilterAgree((row: Row) => Kept(Some(e), row), (row: Row) => Kept(filter, row) && LooksUp(row, c, values),
                AllRows(Flatten(groups)));
  }

  /** The quad of a row, its terms replaced by their numbers. */
  function Numbered(row: Row, number: PlainTerm -> Term): Quad {
    Quad(if row.graph.None? then None else Some(number(row.graph.value)),
         number(row.subj), number(row.pred), number(row.obj))
  }

  function Numbers(values: seq<PlainTerm>, number: PlainTerm -> Term): seq<Term> {
    seq(|values|, i requires 0 <= i < |values| => number(values[i]))
  }

  /** On numbered terms, the filter keeps the rows that the lookup of the switch is meant to keep. */
  lemma LookupAgrees(c: Component, values: seq<PlainTerm>, row: Row, number: PlainTerm -> Term)
    requires forall a, b :: number(a) == number(b) ==> a == b
    ensures Keeps(LookupExpr(c, values), row)
       <==> Switch.EvalLookup(Switch.MakeLookup(c, Numbers(values, number)), Numbered(row, number)).True?
  {
    LookupSpec(c, values, row);
    var numbers, quad := Numbers(values, number), Numbered(row, number);
    Switch.LookupIsCondition(c, numbers, quad);
    if LooksUp(row, c, values) {
      var i :| 0 <= i < |values| && values[i] == Get(row, c).value;
      assert numbers[i] == Column(quad, c).value;
    }
    if Switch.Satisfies(quad, Switch.Condition(c, numbers)) {
      var i :| 0 <= i < |numbers| && numbers[i] == Column(quad, c).value;
      assert number(values[i]) == number(Get(row, c).value);
    }
  }
}
