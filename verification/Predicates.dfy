/**
 Filter expressions over quads of plain terms, under SQL's three-valued logic, and the
 transformations applied before a filter is pushed into a Parquet scan: comparing the
 fields of terms instead of whole terms, negating a filter, and dropping conjuncts that
 the statistics of the files prove.
 */
module Predicates {
  import opened Basics
  import opened Quads

  /** A term as it is stored: a struct with two nullable fields. */
  datatype PlainTerm = PlainTerm(termType: int, value: string, dataType: Option<string>, languageTag: Option<string>)

  const NAMED_NODE: int := 0

  /** Only the graph of a quad may be null. */
  datatype Row = Row(graph: Option<PlainTerm>, subj: PlainTerm, pred: PlainTerm, obj: PlainTerm)

  function Get(row: Row, c: Component): Option<PlainTerm> {
    match c
    case GraphComponent => row.graph
    case Subject => Some(row.subj)
    case Predicate => Some(row.pred)
    case Object => Some(row.obj)
  }

  datatype Value = Null | Boolean(b: bool) | Int8(i: int) | Utf8(s: string) | Term(term: PlainTerm)

  datatype Lit = PlainLit(term: Option<PlainTerm>) | OtherLit(value: Value)

  datatype Field = TermTypeField | ValueField | DataTypeField | LanguageTagField

  datatype Operator = And | Or | Eq | NotEq

  datatype Expr =
    | Col(c: Component)
    | Literal(lit: Lit)
    | GetField(c: Component, f: Field)
    | Binary(left: Expr, op: Operator, right: Expr)
    | IsNull(e: Expr)
    | IsNotNull(e: Expr)
    | InList(e: Expr, list: seq<Expr>, negated: bool)

  // ----- Meaning

  function TermValue(t: Option<PlainTerm>): Value {
    if t.Some? then Term(t.value) else Null
  }

  function StringValue(s: Option<string>): Value {
    if s.Some? then Utf8(s.value) else Null
  }

  function FieldValue(t: Option<PlainTerm>, f: Field): Value {
    if t.None? then Null
    else
      match f
      case TermTypeField => Int8(t.value.termType)
      case ValueField => Utf8(t.value.value)
      case DataTypeField => StringValue(t.value.dataType)
      case LanguageTagField => StringValue(t.value.languageTag)
  }

  function Apply(op: Operator, a: Value, b: Value): Value {
    match op
    case And =>
      if a == Boolean(false) || b == Boolean(false) then Boolean(false)
      else if a == Boolean(true) && b == Boolean(true) then Boolean(true)
      else Null
    case Or =>
      if a == Boolean(true) || b == Boolean(true) then Boolean(true)
      else if a == Boolean(false) && b == Boolean(false) then Boolean(false)
      else Null
    case Eq => if a.Null? || b.Null? then Null else Boolean(a == b)
    case NotEq => if a.Null? || b.Null? then Null else Boolean(a != b)
  }

  function LitValue(lit: Lit): Value {
    match lit
    case PlainLit(t) => TermValue(t)
    case OtherLit(v) => v
  }

  function Eval(e: Expr, row: Row): Value {
    match e
    case Col(c) => TermValue(Get(row, c))
    case Literal(lit) => LitValue(lit)
    case GetField(c, f) => FieldValue(Get(row, c), f)
    case Binary(l, op, r) => Apply(op, Eval(l, row), Eval(r, row))
    case IsNull(x) => Boolean(Eval(x, row).Null?)
    case IsNotNull(x) => Boolean(!Eval(x, row).Null?)
    case InList(x, list, negated) =>
      var v := Eval(x, row);
      if v.Null? then Null
      else if exists i :: 0 <= i < |list| && Eval(list[i], row) == v then Boolean(!negated)
      else if exists i :: 0 <= i < |list| && Eval(list[i], row).Null? then Null
      else Boolean(negated)
  }

  /** A filter keeps the rows for which it is true, neither false nor null. */
  predicate Keeps(e: Expr, row: Row) {
    Eval(e, row) == Boolean(true)
  }

  /** Named nodes carry neither a datatype nor a language tag. */
  predicate WellFormedTerm(t: PlainTerm) {
    t.termType == NAMED_NODE ==> t.dataType.None? && t.languageTag.None?
  }

  predicate WellFormedRow(row: Row) {
    && (row.graph.Some? ==> WellFormedTerm(row.graph.value))
    && WellFormedTerm(row.subj) && WellFormedTerm(row.pred) && WellFormedTerm(row.obj)
  }

  // ----- Conjunctions

  function Conjunction(es: seq<Expr>): Option<Expr> {
    if es == [] then None
    else if |es| == 1 then Some(es[0])
    else Some(Binary(Conjunction(es[..|es| - 1]).value, And, es[|es| - 1]))
  }

  function SplitConjunction(e: Expr): seq<Expr> {
    match e
    case Binary(l, And, r) => SplitConjunction(l) + SplitConjunction(r)
    case _ => [e]
  }

  predicate KeepsAll(es: seq<Expr>, row: Row) {
    forall e | e in es :: Keeps(e, row)
  }

  lemma {:induction false} ConjunctionKeeps(es: seq<Expr>, row: Row)
    ensures Conjunction(es).None? <==> es == []
    ensures es != [] ==> (Keeps(Conjunction(es).value, row) <==> KeepsAll(es, row))
  {
    if |es| > 1 {
      var front, last := es[..|es| - 1], es[|es| - 1];
      ConjunctionKeeps(front, row);
      assert es == front + [last];
      assert Conjunction(es).value == Binary(Conjunction(front).value, And, last);
      assert KeepsAll(es, row) <==> KeepsAll(front, row) && Keeps(last, row);
    }
  }

  lemma {:induction false} SplitKeeps(e: Expr, row: Row)
    ensures Keeps(e, row) <==> KeepsAll(SplitConjunction(e), row)
  {
    match e
    case Binary(l, And, r) =>
      SplitKeeps(l, row);
      SplitKeeps(r, row);
    case _ =>
  }

  // ----- Negation

  function Negate(e: Expr): Option<Expr> {
    match e
    case Binary(l, And, r) =>
      (match (Negate(l), Negate(r))
       case (Some(nl), Some(nr)) => Some(Binary(nl, Or, nr))
       case _ => None)
    case Binary(l, Eq, r) =>
      if r.Literal? then Some(Binary(Binary(l, NotEq, r), Or, IsNull(l)))
      else if l.Literal? then Some(Binary(Binary(l, NotEq, r), Or, IsNull(r)))
      else None
    case IsNull(x) => Some(IsNotNull(x))
    case IsNotNull(x) => Some(IsNull(x))
    case _ => None
  }

  /**
   Rows that neither the filter nor its negation keeps: every conjunct is kept or compares
   a value that is not null with a null literal, and at least one does the latter.
   */
  predicate Lost(e: Expr, row: Row) {
    match e
    case Binary(l, And, r) =>
      (Lost(l, row) || Lost(r, row)) && (Lost(l, row) || Keeps(l, row)) && (Lost(r, row) || Keeps(r, row))
    case Binary(l, Eq, r) =>
      if r.Literal? then !Eval(l, row).Null? && Eval(r, row).Null?
      else l.Literal? && !Eval(r, row).Null? && Eval(l, row).Null?
    case _ => false
  }

  /** On every row exactly one of three things holds: the filter, its negation, or neither. */
  lemma {:induction false} NegationIsExact(e: Expr, row: Row)
    requires Negate(e).Some?
    ensures Keeps(Negate(e).value, row) <==> !Keeps(e, row) && !Lost(e, row)
    ensures !(Lost(e, row) && Keeps(e, row))
    ensures Eval(e, row).Boolean? || Eval(e, row).Null?
    ensures Eval(Negate(e).value, row).Boolean? || Eval(Negate(e).value, row).Null?
  {
    match e
    case Binary(l, And, r) =>
      NegationIsExact(l, row);
      NegationIsExact(r, row);
    case Binary(l, Eq, r) =>
      var value := if r.Literal? then l else r;
      assert Eval(Binary(l, NotEq, r), row) == Apply(NotEq, Eval(l, row), Eval(r, row));
      assert Eval(IsNull(value), row) == Boolean(Eval(value, row).Null?);
    case _ =>
  }

  /** Conjunctions of equalities with a literal and of null checks. */
  predicate Negatable(e: Expr) {
    match e
    case Binary(l, And, r) => Negatable(l) && Negatable(r)
    case Binary(l, Eq, r) => l.Literal? || r.Literal?
    case IsNull(_) => true
    case IsNotNull(_) => true
    case _ => false
  }

  lemma {:induction false} NegateSucceedsIff(e: Expr)
    ensures Negate(e).Some? <==> Negatable(e)
  {
    match e
    case Binary(l, And, r) =>
      NegateSucceedsIff(l);
      NegateSucceedsIff(r);
    case _ =>
  }

  predicate NoNullLiterals(e: Expr) {
    match e
    case Literal(lit) => !LitValue(lit).Null?
    case Binary(l, _, r) => NoNullLiterals(l) && NoNullLiterals(r)
    case _ => true
  }

  /** Without null literals the negation keeps exactly the rows that the filter does not. */
  lemma {:induction false} NegationIsComplement(e: Expr, row: Row)
    requires Negate(e).Some? && NoNullLiterals(e)
    ensures Keeps(Negate(e).value, row) <==> !Keeps(e, row)
  {
    NegationIsExact(e, row);
    NothingLost(e, row);
  }

  lemma {:induction false} NothingLost(e: Expr, row: Row)
    requires NoNullLiterals(e)
    ensures !Lost(e, row)
  {
    match e
    case Binary(l, And, r) =>
      NothingLost(l, row);
      NothingLost(r, row);
    case _ =>
  }

  /** The negation keeps the row if and only if the filter does not. */
  ghost predicate NegatedRightly(e: Expr, row: Row)
    requires Negate(e).Some?
  {
    Keeps(Negate(e).value, row) <==> !Keeps(e, row)
  }

  /**
   The negation of an equality is its complement on all rows exactly if the literal is not
   null, or the compared value always is.
   */
  lemma EqualityNegationIff(value: Expr, lit: Lit)
    requires !value.Literal?
    ensures (forall row :: NegatedRightly(Binary(value, Eq, Literal(lit)), row))
            <==> (!LitValue(lit).Null? || forall row :: IsNullAt(value, row))
  {
    var e := Binary(value, Eq, Literal(lit));
    forall row ensures NegatedRightly(e, row) <==> !LitValue(lit).Null? || IsNullAt(value, row) {
      NegationIsExact(e, row);
      assert Lost(e, row) <==> LitValue(lit).Null? && !Eval(value, row).Null?;
    }
  }

  ghost predicate IsNullAt(value: Expr, row: Row) {
    Eval(value, row).Null?
  }

  // ----- Comparing fields instead of terms

  datatype RewriteError = NonColumn | NullTerm | NegatedInList | NonPlainTermElement | NonIriElement

  function FieldIs(c: Component, f: Field, s: Option<string>): Expr {
    if s.Some? then Binary(GetField(c, f), Eq, Literal(OtherLit(Utf8(s.value)))) else IsNull(GetField(c, f))
  }

  function TermConjuncts(c: Component, t: PlainTerm): seq<Expr> {
    [ Binary(GetField(c, TermTypeField), Eq, Literal(OtherLit(Int8(t.termType)))),
      Binary(GetField(c, ValueField), Eq, Literal(OtherLit(Utf8(t.value)))),
      FieldIs(c, DataTypeField, t.dataType),
      FieldIs(c, LanguageTagField, t.languageTag) ]
  }

  /** Rewrites `other = literal`; `Ok(None)` if the literal is not a plain term. */
  function RewriteEq(other: Expr, literal: Expr): Result<Option<Expr>, RewriteError> {
    if !(literal.Literal? && literal.lit.PlainLit?) then Ok(None)
    else if !other.Col? then Err(NonColumn)
    else if literal.lit.term.None? then Err(NullTerm)
    else Ok(Conjunction(TermConjuncts(other.c, literal.lit.term.value)))
  }

  function SameField(a: Component, b: Component, f: Field): Expr {
    var l, r := GetField(a, f), GetField(b, f);
    Binary(Binary(l, Eq, r), Or, Binary(IsNull(l), And, IsNull(r)))
  }

  function RewriteColEq(l: Expr, r: Expr): Option<Expr> {
    if l.Col? && r.Col? && l.c != r.c
    then Conjunction([ SameField(l.c, r.c, TermTypeField), SameField(l.c, r.c, ValueField),
                       SameField(l.c, r.c, DataTypeField), SameField(l.c, r.c, LanguageTagField) ])
    else None
  }

  predicate IsPlainLiteral(e: Expr) {
    e.Literal? && e.lit.PlainLit?
  }

  function InListValues(list: seq<Expr>): Result<seq<Expr>, RewriteError> {
    if list == [] then Ok([])
    else if !IsPlainLiteral(list[0]) then Err(NonPlainTermElement)
    else if list[0].lit.term.None? then Err(NullTerm)
    else if list[0].lit.term.value.termType != NAMED_NODE then Err(NonIriElement)
    else
      match InListValues(list[1..])
      case Ok(rest) => Ok([Literal(OtherLit(Utf8(list[0].lit.term.value.value)))] + rest)
      case Err(e) => Err(e)
  }

  function RewriteInList(e: Expr, list: seq<Expr>, negated: bool): Result<Expr, RewriteError> {
    if !(exists i :: 0 <= i < |list| && IsPlainLiteral(list[i])) then Ok(InList(e, list, negated))
    else if !e.Col? then Err(NonColumn)
    else if negated then Err(NegatedInList)
    else
      match InListValues(list)
      case Ok(values) =>
        Ok(Binary(Binary(GetField(e.c, TermTypeField), Eq, Literal(OtherLit(Int8(NAMED_NODE)))), And,
                  InList(GetField(e.c, ValueField), values, false)))
      case Err(error) => Err(error)
  }

  function Rewrite(e: Expr): Result<Expr, RewriteError> {
    match e
    case Binary(l, op, r) =>
      (match (Rewrite(l), Rewrite(r))
       case (Ok(left), Ok(right)) =>
         if op.Eq? then
           match (RewriteEq(left, right), RewriteEq(right, left))
           case (Ok(Some(p)), _) => Ok(p)
           case (Err(error), _) => Err(error)
           case (_, Ok(Some(p))) => Ok(p)
           case (_, Err(error)) => Err(error)
           case _ =>
             var p := RewriteColEq(left, right);
             if p.Some? then Ok(p.value) else Ok(Binary(left, op, right))
         else Ok(Binary(left, op, right))
       case (Err(error), _) => Err(error)
       case (_, Err(error)) => Err(error))
    case InList(x, list, negated) =>
      (match (Rewrite(x), RewriteAll(list))
       case (Ok(x'), Ok(list')) => RewriteInList(x', list', negated)
       case (Err(error), _) => Err(error)
       case (_, Err(error)) => Err(error))
    case _ => Ok(e)
  }

  function RewriteAll(es: seq<Expr>): Result<seq<Expr>, RewriteError> {
    if es == [] then Ok([])
    else
      match (Rewrite(es[0]), RewriteAll(es[1..]))
      case (Ok(e), Ok(rest)) => Ok([e] + rest)
      case (Err(error), _) => Err(error)
      case (_, Err(error)) => Err(error)
  }

  /** A column or a literal. */
  predicate IsOperand(e: Expr) {
    e.Col? || e.Literal?
  }

  predicate WellFormedLiteral(e: Expr) {
    e.Literal? && (e.lit.PlainLit? && e.lit.term.Some? ==> WellFormedTerm(e.lit.term.value))
  }

  /** The filters of quad patterns: AND/OR trees of comparisons, IN lists and null checks. */
  predicate IsPatternFilter(e: Expr) {
    match e
    case Binary(l, And, r) => IsPatternFilter(l) && IsPatternFilter(r)
    case Binary(l, Or, r) => IsPatternFilter(l) && IsPatternFilter(r)
    case Binary(l, Eq, r) => IsOperand(l) && IsOperand(r)
    case IsNull(x) => x.Col?
    case IsNotNull(x) => x.Col?
    case InList(x, list, _) => x.Col? && forall i :: 0 <= i < |list| ==> WellFormedLiteral(list[i])
    case Literal(lit) => lit.OtherLit?
    case _ => false
  }

  lemma FieldIsKeeps(c: Component, f: Field, s: Option<string>, row: Row)
    ensures Keeps(FieldIs(c, f, s), row) <==> FieldValue(Get(row, c), f) == StringValue(s)
  {
    if s.Some? {
      FieldEqKeeps(c, f, Utf8(s.value), row);
    } else {
      assert Eval(GetField(c, f), row) == FieldValue(Get(row, c), f);
    }
  }

  lemma FieldEqKeeps(c: Component, f: Field, v: Value, row: Row)
    requires !v.Null?
    ensures Keeps(Binary(GetField(c, f), Eq, Literal(OtherLit(v))), row) <==> FieldValue(Get(row, c), f) == v
  {
    assert Eval(Literal(OtherLit(v)), row) == v;
    assert Eval(GetField(c, f), row) == FieldValue(Get(row, c), f);
  }

  lemma TermConjunctsKeep(c: Component, t: PlainTerm, row: Row)
    ensures Conjunction(TermConjuncts(c, t)).Some?
    ensures Keeps(Conjunction(TermConjuncts(c, t)).value, row) <==> Get(row, c) == Some(t)
  {
    var es := TermConjuncts(c, t);
    ConjunctionKeeps(es, row);
    assert KeepsAll(es, row) <==> Keeps(es[0], row) && Keeps(es[1], row) && Keeps(es[2], row) && Keeps(es[3], row);
    FieldEqKeeps(c, TermTypeField, Int8(t.termType), row);
    FieldEqKeeps(c, ValueField, Utf8(t.value), row);
    FieldIsKeeps(c, DataTypeField, t.dataType, row);
    FieldIsKeeps(c, LanguageTagField, t.languageTag, row);
  }

  lemma SameFieldKeeps(a: Component, b: Component, f: Field, row: Row)
    ensures Keeps(SameField(a, b, f), row) <==> FieldValue(Get(row, a), f) == FieldValue(Get(row, b), f)
  {
    var l, r := GetField(a, f), GetField(b, f);
    assert Eval(l, row) == FieldValue(Get(row, a), f) && Eval(r, row) == FieldValue(Get(row, b), f);
    assert Eval(Binary(l, Eq, r), row) == Apply(Eq, Eval(l, row), Eval(r, row));
    assert Eval(IsNull(l), row) == Boolean(Eval(l, row).Null?) && Eval(IsNull(r), row) == Boolean(Eval(r, row).Null?);
    assert Eval(Binary(IsNull(l), And, IsNull(r)), row) == Apply(And, Eval(IsNull(l), row), Eval(IsNull(r), row));
  }

  /** Two different columns are never both null, so null-safe equality is equality. */
  lemma ColEqKeeps(l: Expr, r: Expr, row: Row)
    requires RewriteColEq(l, r).Some?
    ensures Keeps(RewriteColEq(l, r).value, row) <==> Keeps(Binary(l, Eq, r), row)
  {
    var es := [ SameField(l.c, r.c, TermTypeField), SameField(l.c, r.c, ValueField),
                SameField(l.c, r.c, DataTypeField), SameField(l.c, r.c, LanguageTagField) ];
    ConjunctionKeeps(es, row);
    assert KeepsAll(es, row) <==> Keeps(es[0], row) && Keeps(es[1], row) && Keeps(es[2], row) && Keeps(es[3], row);
    SameFieldKeeps(l.c, r.c, TermTypeField, row);
    SameFieldKeeps(l.c, r.c, ValueField, row);
    SameFieldKeeps(l.c, r.c, DataTypeField, row);
    SameFieldKeeps(l.c, r.c, LanguageTagField, row);
    var a, b := Get(row, l.c), Get(row, r.c);
    assert a.Some? || b.Some?;
    assert Keeps(Binary(l, Eq, r), row) <==> a.Some? && a == b by {
      assert Eval(l, row) == TermValue(a) && Eval(r, row) == TermValue(b);
    }
    if FieldValue(a, TermTypeField) == FieldValue(b, TermTypeField) {
      assert a.Some? && b.Some?;
    }
  }

  lemma {:induction false} InListValuesSpec(list: seq<Expr>, i: nat)
    requires InListValues(list).Ok?
    ensures |InListValues(list).value| == |list|
    ensures i < |list| ==>
              && IsPlainLiteral(list[i]) && list[i].lit.term.Some?
              && list[i].lit.term.value.termType == NAMED_NODE
              && InListValues(list).value[i] == Literal(OtherLit(Utf8(list[i].lit.term.value.value)))
  {
    if list != [] {
      InListValuesSpec(list[1..], if i > 0 then i - 1 else 0);
    }
  }

  lemma InListValuesAgree(list: seq<Expr>, t: PlainTerm, row: Row)
    requires list != [] && InListValues(list).Ok? && WellFormedTerm(t)
    requires forall i :: 0 <= i < |list| ==> WellFormedLiteral(list[i])
    ensures |InListValues(list).value| == |list|
    ensures forall i :: 0 <= i < |list| ==>
              (Eval(list[i], row) == Term(t)
               <==> t.termType == NAMED_NODE && Eval(InListValues(list).value[i], row) == Utf8(t.value))
  {
    InListValuesSpec(list, 0);
    forall i | 0 <= i < |list|
      ensures Eval(list[i], row) == Term(t)
          <==> t.termType == NAMED_NODE && Eval(InListValues(list).value[i], row) == Utf8(t.value)
    {
      InListValuesSpec(list, i);
      assert WellFormedLiteral(list[i]);
    }
  }

  lemma {:induction false} InListMeans(e: Expr, list: seq<Expr>, row: Row)
    requires !Eval(e, row).Null?
    ensures Keeps(InList(e, list, false), row) <==> exists i :: 0 <= i < |list| && Eval(list[i], row) == Eval(e, row)
  {
  }

  lemma InListValuesKeep(c: Component, list: seq<Expr>, row: Row)
    requires list != [] && forall i :: 0 <= i < |list| ==> WellFormedLiteral(list[i])
    requires WellFormedRow(row) && InListValues(list).Ok? && Get(row, c).Some?
    ensures Keeps(InList(Col(c), list, false), row)
       <==> && Get(row, c).value.termType == NAMED_NODE
            && Keeps(InList(GetField(c, ValueField), InListValues(list).value, false), row)
  {
    var t, values := Get(row, c).value, InListValues(list).value;
    InListValuesAgree(list, t, row);
    assert Eval(Col(c), row) == Term(t) && Eval(GetField(c, ValueField), row) == Utf8(t.value);
    InListMeans(Col(c), list, row);
    InListMeans(GetField(c, ValueField), values, row);
  }

  lemma InListKeeps(e: Expr, list: seq<Expr>, negated: bool, row: Row)
    requires e.Col? && forall i :: 0 <= i < |list| ==> WellFormedLiteral(list[i])
    requires WellFormedRow(row) && RewriteInList(e, list, negated).Ok?
    ensures Keeps(RewriteInList(e, list, negated).value, row) <==> Keeps(InList(e, list, negated), row)
  {
    if exists i :: 0 <= i < |list| && IsPlainLiteral(list[i]) {
      var isIri := Binary(GetField(e.c, TermTypeField), Eq, Literal(OtherLit(Int8(NAMED_NODE))));
      var inValues := InList(GetField(e.c, ValueField), InListValues(list).value, false);
      assert RewriteInList(e, list, negated).value == Binary(isIri, And, inValues);
      FieldEqKeeps(e.c, TermTypeField, Int8(NAMED_NODE), row);
      if Get(row, e.c).Some? {
        InListValuesKeep(e.c, list, row);
      } else {
        assert Eval(e, row) == Null;
      }
    }
  }

  lemma {:induction false} RewriteAllOperands(es: seq<Expr>)
    requires forall i :: 0 <= i < |es| ==> es[i].Literal?
    ensures RewriteAll(es) == Ok(es)
  {
    if es != [] {
      RewriteAllOperands(es[1..]);
      assert es == [es[0]] + es[1..];
    }
  }

  /** A rewritten pattern filter keeps the same rows. */
  lemma {:induction false} RewriteKeepsRows(e: Expr, row: Row)
    requires IsPatternFilter(e) && WellFormedRow(row) && Rewrite(e).Ok?
    ensures Keeps(Rewrite(e).value, row) <==> Keeps(e, row)
  {
    match e
    case Binary(l, And, r) =>
      RewriteKeepsRows(l, row);
      RewriteKeepsRows(r, row);
    case Binary(l, Or, r) =>
      RewriteKeepsRows(l, row);
      RewriteKeepsRows(r, row);
    case Binary(l, Eq, r) =>
      assert Rewrite(l) == Ok(l) && Rewrite(r) == Ok(r);
      if IsPlainLiteral(r) {
        TermConjunctsKeep(l.c, r.lit.term.value, row);
        assert Eval(l, row) == TermValue(Get(row, l.c)) && Eval(r, row) == TermValue(r.lit.term);
      } else if IsPlainLiteral(l) {
        TermConjunctsKeep(r.c, l.lit.term.value, row);
        assert Eval(r, row) == TermValue(Get(row, r.c)) && Eval(l, row) == TermValue(l.lit.term);
      } else if RewriteColEq(l, r).Some? {
        ColEqKeeps(l, r, row);
      }
    case InList(x, list, negated) =>
      RewriteAllOperands(list);
      InListKeeps(x, list, negated, row);
    case _ =>
  }

  /** A comparison with a plain-term literal compares a column with a term that is not null. */
  predicate ComparesColumn(literal: Expr, other: Expr) {
    IsPlainLiteral(literal) ==> other.Col? && literal.lit.term.Some?
  }

  predicate IsNamedNodeLiteral(e: Expr) {
    IsPlainLiteral(e) && e.lit.term.Some? && e.lit.term.value.termType == NAMED_NODE
  }

  /** What can be rewritten: comparisons of columns with terms, and lists of named nodes. */
  predicate Rewritable(e: Expr) {
    match e
    case Binary(l, Eq, r) => ComparesColumn(l, r) && ComparesColumn(r, l)
    case Binary(l, _, r) => Rewritable(l) && Rewritable(r)
    case InList(_, list, negated) =>
      (exists i :: 0 <= i < |list| && IsPlainLiteral(list[i])) ==>
        !negated && forall i :: 0 <= i < |list| ==> IsNamedNodeLiteral(list[i])
    case _ => true
  }

  lemma {:induction false} InListValuesIff(list: seq<Expr>)
    ensures InListValues(list).Ok? <==> forall i :: 0 <= i < |list| ==> IsNamedNodeLiteral(list[i])
  {
    if list != [] {
      InListValuesIff(list[1..]);
      assert list == [list[0]] + list[1..];
    }
  }

  /** Rewriting a pattern filter succeeds exactly if each of its comparisons can be rewritten. */
  lemma {:induction false} RewriteSucceedsIff(e: Expr)
    requires IsPatternFilter(e)
    ensures Rewrite(e).Ok? <==> Rewritable(e)
  {
    match e
    case Binary(l, And, r) =>
      RewriteSucceedsIff(l);
      RewriteSucceedsIff(r);
    case Binary(l, Or, r) =>
      RewriteSucceedsIff(l);
      RewriteSucceedsIff(r);
    case Binary(l, Eq, r) =>
      assert Rewrite(l) == Ok(l) && Rewrite(r) == Ok(r);
    case InList(x, list, negated) =>
      RewriteAllOperands(list);
      InListValuesIff(list);
      assert Rewrite(x) == Ok(x);
    case _ =>
  }

  /** A plain-term literal that the Parquet source could not evaluate. */
  predicate MentionsPlainLiteral(e: Expr) {
    match e
    case Literal(lit) => lit.PlainLit?
    case Binary(l, _, r) => MentionsPlainLiteral(l) || MentionsPlainLiteral(r)
    case IsNull(x) => MentionsPlainLiteral(x)
    case IsNotNull(x) => MentionsPlainLiteral(x)
    case InList(x, list, _) => MentionsPlainLiteral(x) || exists i :: 0 <= i < |list| && MentionsPlainLiteral(list[i])
    case _ => false
  }

  lemma {:induction false} ConjunctionMentions(es: seq<Expr>)
    requires es != [] && forall e | e in es :: !MentionsPlainLiteral(e)
    ensures !MentionsPlainLiteral(Conjunction(es).value)
  {
    if |es| > 1 {
      ConjunctionMentions(es[..|es| - 1]);
    }
  }

  lemma TermConjunctsMention(c: Component, t: PlainTerm)
    ensures !MentionsPlainLiteral(Conjunction(TermConjuncts(c, t)).value)
  {
    var es := TermConjuncts(c, t);
    forall v: Value, f: Field
      ensures !MentionsPlainLiteral(Binary(GetField(c, f), Eq, Literal(OtherLit(v))))
    {
      assert !MentionsPlainLiteral(Literal(OtherLit(v))) && !MentionsPlainLiteral(GetField(c, f));
    }
    assert !MentionsPlainLiteral(GetField(c, DataTypeField)) && !MentionsPlainLiteral(GetField(c, LanguageTagField));
    ConjunctionMentions(es);
  }

  lemma SameFieldMentions(a: Component, b: Component, f: Field)
    ensures !MentionsPlainLiteral(SameField(a, b, f))
  {
    var l, r := GetField(a, f), GetField(b, f);
    assert !MentionsPlainLiteral(Binary(l, Eq, r));
    assert !MentionsPlainLiteral(IsNull(l)) && !MentionsPlainLiteral(IsNull(r));
    assert !MentionsPlainLiteral(Binary(IsNull(l), And, IsNull(r)));
  }

  lemma ColEqMentions(l: Expr, r: Expr)
    requires RewriteColEq(l, r).Some?
    ensures !MentionsPlainLiteral(RewriteColEq(l, r).value)
  {
    SameFieldMentions(l.c, r.c, TermTypeField);
    SameFieldMentions(l.c, r.c, ValueField);
    SameFieldMentions(l.c, r.c, DataTypeField);
    SameFieldMentions(l.c, r.c, LanguageTagField);
    ConjunctionMentions([ SameField(l.c, r.c, TermTypeField), SameField(l.c, r.c, ValueField),
                          SameField(l.c, r.c, DataTypeField), SameField(l.c, r.c, LanguageTagField) ]);
  }

  lemma InListMentions(x: Expr, list: seq<Expr>, negated: bool)
    requires x.Col? && RewriteInList(x, list, negated).Ok?
    requires forall i :: 0 <= i < |list| ==> WellFormedLiteral(list[i])
    ensures !MentionsPlainLiteral(RewriteInList(x, list, negated).value)
  {
    if exists i :: 0 <= i < |list| && IsPlainLiteral(list[i]) {
      var values := InListValues(list).value;
      forall i | 0 <= i < |values| ensures !MentionsPlainLiteral(values[i]) {
        InListValuesSpec(list, i);
      }
      assert !MentionsPlainLiteral(InList(GetField(x.c, ValueField), values, false));
      assert !MentionsPlainLiteral(Binary(GetField(x.c, TermTypeField), Eq, Literal(OtherLit(Int8(NAMED_NODE)))));
    }
  }

  /** No comparison with a whole term survives the rewriting; what cannot be rewritten is rejected. */
  lemma {:induction false} RewriteLeavesNoPlainLiteral(e: Expr)
    requires IsPatternFilter(e) && Rewrite(e).Ok?
    ensures !MentionsPlainLiteral(Rewrite(e).value)
  {
    match e
    case Binary(l, And, r) =>
      RewriteLeavesNoPlainLiteral(l);
      RewriteLeavesNoPlainLiteral(r);
    case Binary(l, Or, r) =>
      RewriteLeavesNoPlainLiteral(l);
      RewriteLeavesNoPlainLiteral(r);
    case Binary(l, Eq, r) =>
      assert Rewrite(l) == Ok(l) && Rewrite(r) == Ok(r);
      if IsPlainLiteral(r) {
        TermConjunctsMention(l.c, r.lit.term.value);
      } else if IsPlainLiteral(l) {
        TermConjunctsMention(r.c, l.lit.term.value);
      } else if RewriteColEq(l, r).Some? {
        ColEqMentions(l, r);
      }
    case InList(x, list, negated) =>
      RewriteAllOperands(list);
      InListMentions(x, list, negated);
    case _ =>
  }
}
