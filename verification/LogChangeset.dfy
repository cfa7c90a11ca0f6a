/**
 Computing changesets from log operations: the aggregation of a stream of operations into
 one entry per quad and graph operation, the partition of the entries into a changeset,
 and extending a changeset by further operations.
 */
module LogChangeset {
  import opened Basics
  import opened Quads
  import opened OperationLog

  datatype GraphKind = Drop | Clear | Create

  /**
   The key of an entry. A quad has one entry, whatever is done to it; a graph has one entry
   for each kind of graph operation.
   */
  datatype Key = QuadKey(quad: Quad) | GraphKey(graph: GraphName, kind: GraphKind)

  type Aggregate = map<Key, Op>

  function KeyOf(op: Op): Key {
    match op
    case DropGraph(g) => GraphKey(g, Drop)
    case ClearGraph(g) => GraphKey(g, Clear)
    case CreateGraph(g) => GraphKey(g, Create)
    case RemoveQuad(q) => QuadKey(q)
    case InsertQuad(q) => QuadKey(q)
  }

  function GraphOf(k: Key): GraphName {
    match k
    case QuadKey(q) => q.graph
    case GraphKey(g, _) => g
  }

  function RemoveForGraph(st: Aggregate, g: GraphName, removeAll: bool): Aggregate {
    map k | k in st && !(GraphOf(k) == g && (removeAll || k.QuadKey?)) :: st[k]
  }

  function Step(st: Aggregate, op: Op): Aggregate {
    match op
    case DropGraph(g) => RemoveForGraph(st, g, true)[KeyOf(op) := op]
    case ClearGraph(g) => RemoveForGraph(st, g, false)[KeyOf(op) := op]
    case _ => st[KeyOf(op) := op]
  }

  function Fold(st: Aggregate, ops: seq<Op>): Aggregate {
    if ops == [] then st else Step(Fold(st, ops[..|ops| - 1]), ops[|ops| - 1])
  }

  ghost predicate WellKeyed(st: Aggregate) {
    forall k :: k in st ==> KeyOf(st[k]) == k
  }

  lemma {:induction false} FoldConcat(st: Aggregate, xs: seq<Op>, ys: seq<Op>)
    ensures Fold(st, xs + ys) == Fold(Fold(st, xs), ys)
  {
    if ys == [] {
      assert xs + ys == xs;
    } else {
      assert (xs + ys)[..|xs + ys| - 1] == xs + ys[..|ys| - 1];
      FoldConcat(st, xs, ys[..|ys| - 1]);
    }
  }

  lemma {:induction false} FoldWellKeyed(ops: seq<Op>)
    ensures WellKeyed(Fold(map[], ops))
  {
    if ops != [] {
      FoldWellKeyed(ops[..|ops| - 1]);
    }
  }

  /** What the entries say about a quad: its own entry, or else a barrier on its graph. */
  function EntryVerdict(st: Aggregate, q: Quad): Verdict {
    if QuadKey(q) in st then (if st[QuadKey(q)].InsertQuad? then Present else Gone)
    else if GraphKey(q.graph, Clear) in st || GraphKey(q.graph, Drop) in st then Gone
    else Untouched
  }

  /** The entries keep exactly the last touch of every quad. */
  lemma {:induction false} FoldKeepsLastTouch(ops: seq<Op>, q: Quad)
    ensures EntryVerdict(Fold(map[], ops), q) == LastTouch(ops, q)
  {
    if ops != [] {
      FoldKeepsLastTouch(ops[..|ops| - 1], q);
    }
  }

  lemma {:induction false} FoldKeepsNamedGraphs(ops: seq<Op>, g: GraphName)
    requires g.Some?
    ensures g in NamedGraphs(ops) <==>
            GraphKey(g, Create) in Fold(map[], ops) || GraphKey(g, Clear) in Fold(map[], ops)
  {
    if ops != [] {
      FoldKeepsNamedGraphs(ops[..|ops| - 1], g);
    }
  }

  /** The rows produced from the entries: each entry once, in any order. */
  ghost predicate Lists(rows: seq<Op>, st: Aggregate) {
    forall op: Op :: op in rows <==> KeyOf(op) in st && st[KeyOf(op)] == op
  }

  function PartitionOf(rows: seq<Op>): Changeset {
    Changeset(
      set op | op in rows && (op.ClearGraph? || op.DropGraph?) :: op.graph,
      set op | op in rows && op.RemoveQuad? :: op.quad,
      set op | op in rows && op.InsertQuad? :: op.quad,
      (set op | op in rows && (op.ClearGraph? || op.CreateGraph?) && op.graph.Some? :: op.graph)
      + (set op | op in rows && op.InsertQuad? && op.quad.graph.Some? :: op.quad.graph),
      set op | op in rows && op.DropGraph? && op.graph.Some? :: op.graph)
  }

  lemma PartitionKeepsVerdicts(rows: seq<Op>, st: Aggregate, q: Quad)
    requires Lists(rows, st) && WellKeyed(st)
    ensures Effect(PartitionOf(rows), q) == EntryVerdict(st, q)
  {
    var cs := PartitionOf(rows);
    assert q in cs.added <==> InsertQuad(q) in rows;
    assert q in cs.removed <==> RemoveQuad(q) in rows;
    assert q.graph in cs.cleared <==> ClearGraph(q.graph) in rows || DropGraph(q.graph) in rows;
    if QuadKey(q) in st {
      assert KeyOf(st[QuadKey(q)]) == QuadKey(q);
    }
    if GraphKey(q.graph, Clear) in st {
      assert KeyOf(st[GraphKey(q.graph, Clear)]) == GraphKey(q.graph, Clear);
    }
    if GraphKey(q.graph, Drop) in st {
      assert KeyOf(st[GraphKey(q.graph, Drop)]) == GraphKey(q.graph, Drop);
    }
  }

  /** Dropped graphs are cleared too, so that replaying a changeset's parts clears them. */
  ghost predicate WellFormed(cs: Changeset) {
    cs.droppedGraphs <= cs.cleared
  }

  /**
   The graphs a changeset that starts at the empty log adds are the ones that exist by name
   and the ones that hold a quad.
   */
  lemma AddedGraphsAreLiveGraphs(rows: seq<Op>, ops: seq<Op>)
    requires Lists(rows, Fold(map[], ops))
    ensures PartitionOf(rows).addedGraphs == LiveGraphs(ops)
  {
    var st := Fold(map[], ops);
    FoldWellKeyed(ops);
    var live := set q | q in Replay({}, ops) && q.graph.Some? :: q.graph;
    forall g: GraphName
      ensures g in PartitionOf(rows).addedGraphs <==> g in NamedGraphs(ops) + live
    {
      if g.Some? {
        FoldKeepsNamedGraphs(ops, g);
        assert ClearGraph(g) in rows <==> GraphKey(g, Clear) in st by {
          if GraphKey(g, Clear) in st { assert KeyOf(st[GraphKey(g, Clear)]) == GraphKey(g, Clear); }
        }
        assert CreateGraph(g) in rows <==> GraphKey(g, Create) in st by {
          if GraphKey(g, Create) in st { assert KeyOf(st[GraphKey(g, Create)]) == GraphKey(g, Create); }
        }
        forall q: Quad | q.graph == g
          ensures InsertQuad(q) in rows <==> q in Replay({}, ops)
        {
          FoldKeepsLastTouch(ops, q);
          ReplayByLastTouch({}, ops, q);
          if QuadKey(q) in st { assert KeyOf(st[QuadKey(q)]) == QuadKey(q); }
        }
        if g in live {
          var q :| q in Replay({}, ops) && q.graph.Some? && q.graph == g;
          assert InsertQuad(q) in rows;
        }
      } else {
        NamedGraphsAreNamed(ops);
      }
    }
  }

  /** A dropped graph stays listed as dropped, whatever happens to it later. */
  lemma {:induction false} FoldKeepsDrops(ops: seq<Op>, g: GraphName)
    ensures GraphKey(g, Drop) in Fold(map[], ops) <==> DropGraph(g) in ops
  {
    if ops != [] {
      FoldKeepsDrops(ops[..|ops| - 1], g);
      assert ops == ops[..|ops| - 1] + [ops[|ops| - 1]];
    }
  }

  /** The dropped graphs of a changeset are those that were dropped by name. */
  lemma DroppedGraphsWereDropped(rows: seq<Op>, ops: seq<Op>)
    requires Lists(rows, Fold(map[], ops))
    ensures PartitionOf(rows).droppedGraphs == set op | op in ops && op.DropGraph? && op.graph.Some? :: op.graph
  {
    var st := Fold(map[], ops);
    FoldWellKeyed(ops);
    forall g: GraphName ensures DropGraph(g) in rows <==> DropGraph(g) in ops {
      FoldKeepsDrops(ops, g);
      if GraphKey(g, Drop) in st { assert KeyOf(st[GraphKey(g, Drop)]) == GraphKey(g, Drop); }
    }
    forall g: GraphName
      ensures g in PartitionOf(rows).droppedGraphs <==> DropGraph(g) in ops && g.Some?
    {
    }
  }

  /** Aggregates a stream of operations, batch by batch. */
  class ChangesetStream {
    var state: Aggregate

    constructor ()
      ensures state == map[]
    {
      state := map[];
    }

    method RemoveEntriesForGraph(g: GraphName, removeAll: bool)
      modifies this
      ensures state == RemoveForGraph(old(state), g, removeAll)
    {
      var toRemove := set k | k in state && GraphOf(k) == g && (removeAll || k.QuadKey?);
      var rest := toRemove;
      while rest != {}
        invariant rest <= toRemove
        invariant state == map k | k in old(state) && k !in toRemove - rest :: old(state)[k]
        decreases rest
      {
        var k :| k in rest;
        state := map x | x in state && x != k :: state[x];
        rest := rest - {k};
      }
    }

    method ProcessBatch(batch: seq<Op>)
      modifies this
      ensures state == Fold(old(state), batch)
    {
      for i := 0 to |batch|
        invariant state == Fold(old(state), batch[..i])
      {
        var op := batch[i];
        match op {
          case DropGraph(g) => RemoveEntriesForGraph(g, true);
          case ClearGraph(g) => RemoveEntriesForGraph(g, false);
          case _ =>
        }
        state := state[KeyOf(op) := op];
        assert batch[..i + 1][..i] == batch[..i];
      }
      assert batch[..|batch|] == batch;
    }

    /** Turns the entries into rows and forgets them. */
    method TakeRows() returns (rows: seq<Op>)
      requires WellKeyed(state)
      modifies this
      ensures Lists(rows, old(state))
      ensures state == map[]
    {
      rows := ListSet(set k | k in state :: state[k]);
      forall op: Op
        ensures op in rows <==> KeyOf(op) in state && state[KeyOf(op)] == op
      {
        if op in rows {
          var k :| k in state && state[k] == op;
        }
      }
      state := map[];
    }
  }

  /** Adds one row to the part of a changeset it belongs to. */
  method AddRow(part: Changeset, row: Op, ghost before: seq<Op>) returns (cs: Changeset)
    requires part == PartitionOf(before)
    ensures cs == PartitionOf(before + [row])
  {
    cs := part;
    match row {
      case DropGraph(g) =>
        cs := cs.(cleared := cs.cleared + {g});
        if g.Some? {
          cs := cs.(droppedGraphs := cs.droppedGraphs + {g});
        }
      case ClearGraph(g) =>
        cs := cs.(cleared := cs.cleared + {g});
        if g.Some? {
          cs := cs.(addedGraphs := cs.addedGraphs + {g});
        }
      case CreateGraph(g) =>
        if g.Some? {
          cs := cs.(addedGraphs := cs.addedGraphs + {g});
        }
      case RemoveQuad(q) =>
        cs := cs.(removed := cs.removed + {q});
      case InsertQuad(q) =>
        cs := cs.(added := cs.added + {q});
        if q.graph.Some? {
          cs := cs.(addedGraphs := cs.addedGraphs + {q.graph});
        }
    }
    assert (before + [row])[|before|] == row;
  }

  /** Sorts rows into the parts of a changeset in a single pass. */
  method PartitionOperations(rows: seq<Op>) returns (cs: Changeset)
    ensures cs == PartitionOf(rows)
  {
    cs := Changeset({}, {}, {}, {}, {});
    for i := 0 to |rows|
      invariant cs == PartitionOf(rows[..i])
    {
      assert rows[..i + 1] == rows[..i] + [rows[i]];
      cs := AddRow(cs, rows[i], rows[..i]);
    }
    assert rows[..|rows|] == rows;
  }

  /** The eager changeset of a stream of operations, however it is cut into batches. */
  method ComputeEager(batches: seq<seq<Op>>) returns (cs: Changeset)
    ensures Represents(cs, Flatten(batches))
    ensures WellFormed(cs)
    ensures cs.addedGraphs == LiveGraphs(Flatten(batches))
    ensures cs.droppedGraphs == set op | op in Flatten(batches) && op.DropGraph? && op.graph.Some? :: op.graph
  {
    var stream := new ChangesetStream();
    for i := 0 to |batches|
      invariant fresh(stream)
      invariant stream.state == Fold(map[], Flatten(batches[..i]))
    {
      assert batches[..i + 1] == batches[..i] + [batches[i]];
      FlattenConcat(batches[..i], [batches[i]]);
      FlattenSingleton(batches[i]);
      FoldConcat(map[], Flatten(batches[..i]), batches[i]);
      stream.ProcessBatch(batches[i]);
    }
    assert batches[..|batches|] == batches;
    ghost var ops := Flatten(batches);
    FoldWellKeyed(ops);
    var rows := stream.TakeRows();
    cs := PartitionOperations(rows);
    forall q: Quad ensures Effect(cs, q) == LastTouch(ops, q) {
      FoldKeepsLastTouch(ops, q);
      PartitionKeepsVerdicts(rows, Fold(map[], ops), q);
    }
    AddedGraphsAreLiveGraphs(rows, ops);
    DroppedGraphsWereDropped(rows, ops);
  }

  /** The five parts of a changeset as operations, in the order they are replayed. */
  ghost predicate IsOperationListing(cs: Changeset, parts: seq<seq<Op>>) {
    && |parts| == 5
    && (forall op: Op :: op in parts[0] <==> op.ClearGraph? && op.graph in cs.cleared)
    && (forall op: Op :: op in parts[1] <==> op.DropGraph? && op.graph in cs.droppedGraphs)
    && (forall op: Op :: op in parts[2] <==> op.CreateGraph? && op.graph in cs.addedGraphs)
    && (forall op: Op :: op in parts[3] <==> op.RemoveQuad? && op.quad in cs.removed)
    && (forall op: Op :: op in parts[4] <==> op.InsertQuad? && op.quad in cs.added)
  }

  method ToOperations(cs: Changeset) returns (parts: seq<seq<Op>>)
    ensures IsOperationListing(cs, parts)
  {
    var clears := ListSet(set g | g in cs.cleared :: ClearGraph(g));
    var drops := ListSet(set g | g in cs.droppedGraphs :: DropGraph(g));
    var creates := ListSet(set g | g in cs.addedGraphs :: CreateGraph(g));
    var removes := ListSet(set q | q in cs.removed :: RemoveQuad(q));
    var inserts := ListSet(set q | q in cs.added :: InsertQuad(q));
    parts := [clears, drops, creates, removes, inserts];
  }

  /** Operations of one kind leave the same verdict wherever one of them touches. */
  lemma {:induction false} UniformLastTouch(ops: seq<Op>, q: Quad, verdict: Verdict)
    requires !verdict.Untouched?
    requires forall op | op in ops :: Touches(op, q) ==> (op.InsertQuad? <==> verdict.Present?)
    ensures LastTouch(ops, q) == if exists op :: op in ops && Touches(op, q) then verdict else Untouched
  {
    UntouchedIff(ops, q);
    if !LastTouch(ops, q).Untouched? {
      var k := LastTouchIndex(ops, q);
      assert ops[k] in ops;
    }
  }

  lemma FlattenFive<T>(parts: seq<seq<T>>)
    requires |parts| == 5
    ensures Flatten(parts) == parts[0] + parts[1] + parts[2] + parts[3] + parts[4]
  {
    assert Flatten(parts[5..]) == [];
    assert Flatten(parts[4..]) == parts[4] + Flatten(parts[5..]);
    assert parts[3..][1..] == parts[4..] && parts[2..][1..] == parts[3..] && parts[1..][1..] == parts[2..];
    assert Flatten(parts[3..]) == parts[3] + Flatten(parts[4..]);
    assert Flatten(parts[2..]) == parts[2] + Flatten(parts[3..]);
    assert Flatten(parts[1..]) == parts[1] + Flatten(parts[2..]);
  }

  /** Replaying the listed parts of a changeset does what the changeset does. */
  lemma ListingRepresents(cs: Changeset, parts: seq<seq<Op>>)
    requires WellFormed(cs) && IsOperationListing(cs, parts)
    ensures Represents(cs, Flatten(parts))
  {
    FlattenFive(parts);
    forall q: Quad ensures Effect(cs, q) == LastTouch(Flatten(parts), q) {
      LastTouchConcat(parts[0] + parts[1] + parts[2] + parts[3], parts[4], q);
      LastTouchConcat(parts[0] + parts[1] + parts[2], parts[3], q);
      LastTouchConcat(parts[0] + parts[1], parts[2], q);
      LastTouchConcat(parts[0], parts[1], q);
      UniformLastTouch(parts[0], q, Gone);
      UniformLastTouch(parts[1], q, Gone);
      UniformLastTouch(parts[2], q, Gone);
      UniformLastTouch(parts[3], q, Gone);
      UniformLastTouch(parts[4], q, Present);
      assert q in cs.added <==> InsertQuad(q) in parts[4];
      assert q in cs.removed <==> RemoveQuad(q) in parts[3];
      assert q.graph in cs.cleared <==> ClearGraph(q.graph) in parts[0];
    }
  }

  /** Extends a changeset by operations that follow the ones it stands for. */
  method Extend(cs: Changeset, newOps: seq<seq<Op>>, ghost ops: seq<Op>) returns (r: Changeset)
    requires WellFormed(cs) && Represents(cs, ops)
    ensures Represents(r, ops + Flatten(newOps))
    ensures WellFormed(r)
  {
    var parts := ToOperations(cs);
    r := ComputeEager(parts + newOps);
    ListingRepresents(cs, parts);
    FlattenConcat(parts, newOps);
    forall q: Quad ensures Effect(r, q) == LastTouch(ops + Flatten(newOps), q) {
      LastTouchConcat(Flatten(parts), Flatten(newOps), q);
      LastTouchConcat(ops, Flatten(newOps), q);
      assert Effect(cs, q) == LastTouch(ops, q) == LastTouch(Flatten(parts), q);
    }
  }

  /** The changeset read lazily from files that contain insertions only. */
  function InsertionsOnly(ops: seq<Op>): Changeset {
    Changeset(
      {}, {},
      set op | op in ops && op.InsertQuad? :: op.quad,
      set op | op in ops && op.InsertQuad? && op.quad.graph.Some? :: op.quad.graph,
      {})
  }

  lemma {:induction false} InsertionsNameNothing(ops: seq<Op>)
    requires forall op | op in ops :: op.InsertQuad?
    ensures NamedGraphs(ops) == {}
  {
    if ops != [] {
      assert ops[|ops| - 1] in ops;
      InsertionsNameNothing(ops[..|ops| - 1]);
    }
  }

  lemma InsertionsOnlyRepresents(ops: seq<Op>)
    requires forall op | op in ops :: op.InsertQuad?
    ensures Represents(InsertionsOnly(ops), ops)
    ensures WellFormed(InsertionsOnly(ops))
    ensures InsertionsOnly(ops).addedGraphs == LiveGraphs(ops)
  {
    InsertionsNameNothing(ops);
    forall q: Quad ensures q in Replay({}, ops) <==> InsertQuad(q) in ops {
      UniformLastTouch(ops, q, Present);
      ReplayByLastTouch({}, ops, q);
    }
    forall g: GraphName ensures g in InsertionsOnly(ops).addedGraphs <==> g in LiveGraphs(ops) {
      if g in InsertionsOnly(ops).addedGraphs {
        var op :| op in ops && op.InsertQuad? && op.quad.graph.Some? && op.quad.graph == g;
        assert op == InsertQuad(op.quad);
      }
      if g in LiveGraphs(ops) {
        var q :| q in Replay({}, ops) && q.graph.Some? && q.graph == g;
        assert InsertQuad(q) in ops;
      }
    }
    forall q: Quad ensures Effect(InsertionsOnly(ops), q) == LastTouch(ops, q) {
      UniformLastTouch(ops, q, Present);
      assert q in InsertionsOnly(ops).added <==> InsertQuad(q) in ops;
    }
  }
}
