/**
 The meaning of the operation log, and what a changeset does to a set of quads.

 The log is replayed operation by operation. A changeset condenses a stretch of the log
 into cleared graphs, removed quads and added quads. Everything about changesets is
 stated through the last operation that touches a quad: it alone decides whether the
 quad exists afterwards, and it decides it whatever was stored before.
 */
module OperationLog {
  import opened Basics
  import opened Quads

  datatype Op =
    | DropGraph(graph: GraphName)
    | ClearGraph(graph: GraphName)
    | CreateGraph(graph: GraphName)
    | RemoveQuad(quad: Quad)
    | InsertQuad(quad: Quad)

  /** The effect of one operation on the stored quads (SPARQL 1.1 Update, section 3). */
  function ApplyOp(quads: set<Quad>, op: Op): set<Quad> {
    match op
    case InsertQuad(q) => quads + {q}
    case RemoveQuad(q) => quads - {q}
    case ClearGraph(g) => set q | q in quads && q.graph != g
    case DropGraph(g) => set q | q in quads && q.graph != g
    case CreateGraph(_) => quads
  }

  function Replay(quads: set<Quad>, ops: seq<Op>): set<Quad> {
    if ops == [] then quads
    else ApplyOp(Replay(quads, ops[..|ops| - 1]), ops[|ops| - 1])
  }

  /** What a stretch of the log leaves behind for one quad. */
  datatype Verdict = Untouched | Present | Gone

  predicate Holds(v: Verdict, before: bool) {
    v.Present? || (v.Untouched? && before)
  }

  predicate Touches(op: Op, q: Quad) {
    match op
    case InsertQuad(r) => q == r
    case RemoveQuad(r) => q == r
    case ClearGraph(g) => q.graph == g
    case DropGraph(g) => q.graph == g
    case CreateGraph(_) => false
  }

  function LastTouch(ops: seq<Op>, q: Quad): Verdict {
    if ops == [] then Untouched
    else
      var last := ops[|ops| - 1];
      if Touches(last, q) then (if last.InsertQuad? then Present else Gone)
      else LastTouch(ops[..|ops| - 1], q)
  }

  lemma {:induction false} ReplayByLastTouch(quads: set<Quad>, ops: seq<Op>, q: Quad)
    ensures q in Replay(quads, ops) <==> Holds(LastTouch(ops, q), q in quads)
  {
    if ops != [] {
      ReplayByLastTouch(quads, ops[..|ops| - 1], q);
    }
  }

  lemma {:induction false} ReplayConcat(quads: set<Quad>, xs: seq<Op>, ys: seq<Op>)
    ensures Replay(quads, xs + ys) == Replay(Replay(quads, xs), ys)
  {
    if ys == [] {
      assert xs + ys == xs;
    } else {
      assert (xs + ys)[..|xs + ys| - 1] == xs + ys[..|ys| - 1];
      ReplayConcat(quads, xs, ys[..|ys| - 1]);
    }
  }

  lemma {:induction false} LastTouchConcat(xs: seq<Op>, ys: seq<Op>, q: Quad)
    ensures LastTouch(xs + ys, q) ==
            if LastTouch(ys, q).Untouched? then LastTouch(xs, q) else LastTouch(ys, q)
  {
    if ys == [] {
      assert xs + ys == xs;
    } else {
      assert (xs + ys)[..|xs + ys| - 1] == xs + ys[..|ys| - 1];
      LastTouchConcat(xs, ys[..|ys| - 1], q);
    }
  }

  /** Splits the operations at the last one that touches `q`. */
  lemma {:induction false} LastTouchIndex(ops: seq<Op>, q: Quad) returns (k: nat)
    requires !LastTouch(ops, q).Untouched?
    ensures k < |ops| && Touches(ops[k], q)
    ensures LastTouch(ops, q) == if ops[k].InsertQuad? then Present else Gone
    ensures forall i :: k < i < |ops| ==> !Touches(ops[i], q)
  {
    k := |ops| - 1;
    if !Touches(ops[k], q) {
      k := LastTouchIndex(ops[..|ops| - 1], q);
    }
  }

  lemma {:induction false} UntouchedIff(ops: seq<Op>, q: Quad)
    ensures LastTouch(ops, q).Untouched? <==> forall i :: 0 <= i < |ops| ==> !Touches(ops[i], q)
  {
    if ops != [] {
      UntouchedIff(ops[..|ops| - 1], q);
      if LastTouch(ops, q).Untouched? {
        assert forall i :: 0 <= i < |ops| - 1 ==> ops[..|ops| - 1][i] == ops[i];
      } else {
        var k := LastTouchIndex(ops, q);
      }
    }
  }

  /** The condensed form of a stretch of the log. */
  datatype Changeset = Changeset(
    cleared: set<GraphName>,
    removed: set<Quad>,
    added: set<Quad>,
    addedGraphs: set<GraphName>,
    droppedGraphs: set<GraphName>)

  /** Base without the cleared graphs and the removed quads, and with the added quads. */
  function ApplyChangeset(base: set<Quad>, cs: Changeset): set<Quad> {
    (set q | q in base && q.graph !in cs.cleared) - cs.removed + cs.added
  }

  function Effect(cs: Changeset, q: Quad): Verdict {
    if q in cs.added then Present
    else if q in cs.removed || q.graph in cs.cleared then Gone
    else Untouched
  }

  /** A changeset stands for the operations it was computed from. */
  ghost predicate Represents(cs: Changeset, ops: seq<Op>) {
    forall q: Quad :: Effect(cs, q) == LastTouch(ops, q)
  }

  /** Two sets of quads that differ at most on quads the operations touch. */
  ghost predicate AgreeOffTouched(a: set<Quad>, b: set<Quad>, ops: seq<Op>) {
    forall q: Quad :: LastTouch(ops, q).Untouched? ==> (q in a <==> q in b)
  }

  /**
   A changeset may be applied to any table that agrees with the state before its first
   operation on the quads it does not touch, in particular to a table that already
   contains some of the changes.
   */
  lemma OverlapIsHarmless(table: set<Quad>, before: set<Quad>, ops: seq<Op>, cs: Changeset)
    requires Represents(cs, ops)
    requires AgreeOffTouched(table, before, ops)
    ensures ApplyChangeset(table, cs) == Replay(before, ops)
  {
    forall q: Quad
      ensures q in ApplyChangeset(table, cs) <==> q in Replay(before, ops)
    {
      ReplayByLastTouch(before, ops, q);
      assert Effect(cs, q) == LastTouch(ops, q);
    }
  }

  /** A table at any point between the start and the end of the changeset. */
  lemma TableWithinRange(before: set<Quad>, xs: seq<Op>, ys: seq<Op>, cs: Changeset)
    requires Represents(cs, xs + ys)
    ensures ApplyChangeset(Replay(before, xs), cs) == Replay(before, xs + ys)
  {
    forall q: Quad | LastTouch(xs + ys, q).Untouched?
      ensures q in Replay(before, xs) <==> q in before
    {
      LastTouchConcat(xs, ys, q);
      ReplayByLastTouch(before, xs, q);
    }
    OverlapIsHarmless(Replay(before, xs), before, xs + ys, cs);
  }

  /**
   The converse of `OverlapIsHarmless`: where the table disagrees off the touched quads,
   the changeset does not reach the replayed state.
   */
  lemma DisagreementSurvives(table: set<Quad>, before: set<Quad>, ops: seq<Op>, cs: Changeset)
    requires Represents(cs, ops)
    ensures ApplyChangeset(table, cs) == Replay(before, ops) <==> AgreeOffTouched(table, before, ops)
  {
    if ApplyChangeset(table, cs) == Replay(before, ops) {
      forall q: Quad | LastTouch(ops, q).Untouched?
        ensures q in table <==> q in before
      {
        ReplayByLastTouch(before, ops, q);
        assert Effect(cs, q) == Untouched;
        assert q in ApplyChangeset(table, cs) <==> q in table;
      }
    } else if AgreeOffTouched(table, before, ops) {
      OverlapIsHarmless(table, before, ops, cs);
    }
  }

  /**
   The graphs that exist by name after replaying: created or cleared since they were last
   dropped.
   */
  function NamedGraphs(ops: seq<Op>): set<GraphName> {
    if ops == [] then {}
    else
      var before := NamedGraphs(ops[..|ops| - 1]);
      match ops[|ops| - 1]
      case CreateGraph(g) => if g.Some? then before + {g} else before
      case ClearGraph(g) => if g.Some? then before + {g} else before
      case DropGraph(g) => before - {g}
      case _ => before
  }

  /** The graphs that exist: by name, or because they hold a quad. */
  function LiveGraphs(ops: seq<Op>): set<GraphName> {
    NamedGraphs(ops) + set q | q in Replay({}, ops) && q.graph.Some? :: q.graph
  }

  /** The operation creates, clears or drops the graph. */
  predicate Names(op: Op, g: GraphName) {
    (op.CreateGraph? || op.ClearGraph? || op.DropGraph?) && op.graph == g
  }

  /** The last operation that names the graph decides whether it exists by name. */
  lemma {:induction false} LastNamingIndex(ops: seq<Op>, g: GraphName) returns (k: nat)
    requires g.Some? && exists i :: 0 <= i < |ops| && Names(ops[i], g)
    ensures k < |ops| && Names(ops[k], g) && forall i :: k < i < |ops| ==> !Names(ops[i], g)
    ensures g in NamedGraphs(ops) <==> !ops[k].DropGraph?
  {
    k := |ops| - 1;
    if !Names(ops[k], g) {
      var front := ops[..k];
      var i :| 0 <= i < |ops| && Names(ops[i], g);
      assert front[i] == ops[i];
      k := LastNamingIndex(front, g);
    }
  }

  lemma {:induction false} NeverNamed(ops: seq<Op>, g: GraphName)
    requires forall i :: 0 <= i < |ops| ==> !Names(ops[i], g)
    ensures g !in NamedGraphs(ops)
  {
    if ops != [] {
      NeverNamed(ops[..|ops| - 1], g);
    }
  }

  lemma {:induction false} NamedGraphsAreNamed(ops: seq<Op>)
    ensures None !in NamedGraphs(ops)
  {
    if ops != [] {
      NamedGraphsAreNamed(ops[..|ops| - 1]);
    }
  }
}
