/**
 Quads and the sort orders of quad tables.

 A term is identified with its position in the native order of its column, so that
 comparing terms is comparing numbers. A graph name is optional: `None` is the default
 graph, stored as null, which sorts first.
 */
module Quads {
  import opened Basics

  type Term = int

  type GraphName = Option<Term>

  datatype Quad = Quad(graph: GraphName, subj: Term, pred: Term, obj: Term)

  datatype Component = GraphComponent | Subject | Predicate | Object

  /** The component of a quad as a nullable column value. */
  function Column(q: Quad, c: Component): Option<Term> {
    match c
    case GraphComponent => q.graph
    case Subject => Some(q.subj)
    case Predicate => Some(q.pred)
    case Object => Some(q.obj)
  }

  /** Ascending order of nullable values, nulls first. */
  predicate NullsFirstLess(a: Option<Term>, b: Option<Term>) {
    b.Some? && (a.None? || a.value < b.value)
  }

  /** The components by which a quad table is sorted: each of the four once. */
  ghost predicate IsTableOrder(order: seq<Component>) {
    |order| == 4 && forall c: Component :: c in order
  }

  /** Lexicographic order by the given components. */
  predicate Less(order: seq<Component>, a: Quad, b: Quad) {
    order != [] &&
    var x, y := Column(a, order[0]), Column(b, order[0]);
    NullsFirstLess(x, y) || (x == y && Less(order[1..], a, b))
  }

  lemma {:induction false} LessTransitive(order: seq<Component>, a: Quad, b: Quad, c: Quad)
    requires Less(order, a, b) && Less(order, b, c)
    ensures Less(order, a, c)
  {
    if Column(a, order[0]) == Column(b, order[0]) == Column(c, order[0]) {
      LessTransitive(order[1..], a, b, c);
    }
  }

  lemma {:induction false} LessIrreflexive(order: seq<Component>, a: Quad)
    ensures !Less(order, a, a)
  {
    if order != [] {
      LessIrreflexive(order[1..], a);
    }
  }

  lemma {:induction false} UncomparableAgree(order: seq<Component>, a: Quad, b: Quad, c: Component)
    requires !Less(order, a, b) && !Less(order, b, a) && c in order
    ensures Column(a, c) == Column(b, c)
  {
    if c != order[0] {
      UncomparableAgree(order[1..], a, b, c);
    }
  }

  /** Every permutation of the four components orders quads totally. */
  lemma LessTotal(order: seq<Component>, a: Quad, b: Quad)
    requires IsTableOrder(order)
    ensures a == b || Less(order, a, b) || Less(order, b, a)
  {
    if !Less(order, a, b) && !Less(order, b, a) {
      UncomparableAgree(order, a, b, GraphComponent);
      UncomparableAgree(order, a, b, Subject);
      UncomparableAgree(order, a, b, Predicate);
      UncomparableAgree(order, a, b, Object);
    }
  }

  predicate AgreeOn(order: seq<Component>, a: Quad, b: Quad) {
    forall i :: 0 <= i < |order| ==> Column(a, order[i]) == Column(b, order[i])
  }

  /** The first column in which two ordered quads differ ascends, with nulls first. */
  lemma {:induction false} LessAscends(order: seq<Component>, a: Quad, b: Quad, k: nat)
    requires Less(order, a, b) && k < |order| && AgreeOn(order[..k], a, b)
    requires Column(a, order[k]) != Column(b, order[k])
    ensures var x, y := Column(a, order[k]), Column(b, order[k]);
            y.Some? && (x.None? || x.value < y.value)
  {
    if k > 0 {
      assert order[..k][0] == order[0];
      assert order[1..][k - 1] == order[k];
      var rest := order[1..][..k - 1];
      forall i | 0 <= i < |rest| ensures Column(a, rest[i]) == Column(b, rest[i]) {
        assert rest[i] == order[..k][i + 1];
      }
      LessAscends(order[1..], a, b, k - 1);
    }
  }
}
