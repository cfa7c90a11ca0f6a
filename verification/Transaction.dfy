/**
 Transactions: calls are recorded as parts, each under its position as sequence id, and are
 either read back through an extended changeset or written to the log by the worker pool.
 */
module Transaction {
  import opened Basics
  import opened Quads
  import opened OperationLog
  import opened LogChangeset
  import opened DeltaLog
  import opened CommitWorkers

  datatype Error = InvalidSchema | CommitConflict

  function QuadOp(insert: bool, q: Quad): Op {
    if insert then InsertQuad(q) else RemoveQuad(q)
  }

  function GraphOp(kind: GraphKind, g: GraphName): Op {
    match kind
    case Drop => DropGraph(g)
    case Clear => ClearGraph(g)
    case Create => CreateGraph(g)
  }

  function QuadOps(insert: bool, quads: seq<Quad>): (r: seq<Op>)
    ensures |r| == |quads|
  {
    seq(|quads|, i requires 0 <= i < |quads| => QuadOp(insert, quads[i]))
  }

  function GraphOps(kind: GraphKind, graphs: seq<GraphName>): (r: seq<Op>)
    ensures |r| == |graphs|
  {
    seq(|graphs|, i requires 0 <= i < |graphs| => GraphOp(kind, graphs[i]))
  }

  /** Inserting quads adds exactly them, removing quads takes exactly them away. */
  lemma {:induction false} QuadOpsReplay(stored: set<Quad>, insert: bool, quads: seq<Quad>)
    ensures Replay(stored, QuadOps(insert, quads)) == if insert then stored + ToSet(quads) else stored - ToSet(quads)
  {
    if quads != [] {
      var front, last := quads[..|quads| - 1], quads[|quads| - 1];
      QuadOpsReplay(stored, insert, front);
      assert QuadOps(insert, quads) == QuadOps(insert, front) + [QuadOp(insert, last)];
      assert quads == front + [last];
      assert ToSet(quads) == ToSet(front) + {last};
    }
  }

  /** What graph operations do to the stored quads. */
  function AfterGraphOps(stored: set<Quad>, kind: GraphKind, graphs: seq<GraphName>): set<Quad> {
    if kind.Create? then stored else set q | q in stored && q.graph !in graphs
  }

  /** What graph operations do to the graphs that exist by name. */
  function AfterNaming(named: set<GraphName>, kind: GraphKind, graphs: seq<GraphName>): set<GraphName> {
    if kind.Drop? then named - ToSet(graphs) else named + set g | g in graphs && g.Some?
  }

  /** Clearing and dropping leave no quad of the listed graphs and keep all others; creating changes no quad. */
  lemma {:induction false} GraphOpsReplay(stored: set<Quad>, kind: GraphKind, graphs: seq<GraphName>)
    ensures Replay(stored, GraphOps(kind, graphs)) == AfterGraphOps(stored, kind, graphs)
  {
    if graphs != [] {
      var front, last := graphs[..|graphs| - 1], graphs[|graphs| - 1];
      GraphOpsReplay(stored, kind, front);
      assert GraphOps(kind, graphs) == GraphOps(kind, front) + [GraphOp(kind, last)];
      assert graphs == front + [last];
    }
  }

  /** Creating and clearing name the listed graphs, dropping ends their existence. */
  lemma {:induction false} GraphOpsName(before: seq<Op>, kind: GraphKind, graphs: seq<GraphName>)
    ensures NamedGraphs(before + GraphOps(kind, graphs)) == AfterNaming(NamedGraphs(before), kind, graphs)
  {
    if graphs == [] {
      assert before + GraphOps(kind, graphs) == before;
    } else {
      var front, last := graphs[..|graphs| - 1], graphs[|graphs| - 1];
      GraphOpsName(before, kind, front);
      var shorter := before + GraphOps(kind, front);
      assert before + GraphOps(kind, graphs) == shorter + [GraphOp(kind, last)];
      OneMoreNamed(shorter, kind, last);
      assert graphs == front + [last];
      OneMoreNaming(NamedGraphs(before), kind, front, last);
    }
  }

  lemma OneMoreNamed(ops: seq<Op>, kind: GraphKind, g: GraphName)
    ensures NamedGraphs(ops + [GraphOp(kind, g)]) == AfterNaming(NamedGraphs(ops), kind, [g])
  {
    assert (ops + [GraphOp(kind, g)])[..|ops|] == ops;
  }

  lemma OneMoreNaming(named: set<GraphName>, kind: GraphKind, graphs: seq<GraphName>, g: GraphName)
    ensures AfterNaming(named, kind, graphs + [g]) == AfterNaming(AfterNaming(named, kind, graphs), kind, [g])
  {
    assert ToSet(graphs + [g]) == ToSet(graphs) + {g} && ToSet([g]) == {g};
  }

  lemma {:induction false} QuadOpsNameNothing(before: seq<Op>, insert: bool, quads: seq<Quad>)
    ensures NamedGraphs(before + QuadOps(insert, quads)) == NamedGraphs(before)
  {
    if quads == [] {
      assert before + QuadOps(insert, quads) == before;
    } else {
      var front, last := quads[..|quads| - 1], quads[|quads| - 1];
      QuadOpsNameNothing(before, insert, front);
      var shorter, longer := before + QuadOps(insert, front), before + QuadOps(insert, quads);
      assert longer == shorter + [QuadOp(insert, last)];
      assert longer[..|longer| - 1] == shorter;
    }
  }

  /** The rows of the call at position `i`. */
  ghost predicate IsPart(rows: seq<FileRow>, i: nat) {
    && (forall r | r in rows :: r.seqId == i)
    && (forall a, b | a in rows && b in rows :: SameKind(a.op, b.op))
  }

  ghost predicate ArePartsFrom(parts: seq<seq<FileRow>>, first: nat) {
    forall i :: 0 <= i < |parts| ==> IsPart(parts[i], first + i)
  }

  lemma {:induction false} PartsInCallOrder(parts: seq<seq<FileRow>>, first: nat)
    requires ArePartsFrom(parts, first)
    ensures InCallOrder(Flatten(parts)) && UniformCalls(Flatten(parts))
    ensures forall r | r in Flatten(parts) :: first <= r.seqId
  {
    if parts != [] {
      assert IsPart(parts[0], first + 0);
      forall i | 0 <= i < |parts[1..]| ensures IsPart(parts[1..][i], first + 1 + i) {
        assert IsPart(parts[i + 1], first + (i + 1));
      }
      PartsInCallOrder(parts[1..], first + 1);
      var rest := Flatten(parts[1..]);
      assert forall j :: 0 <= j < |rest| ==> rest[j] in rest;
      assert forall j :: 0 <= j < |parts[0]| ==> parts[0][j] in parts[0];
    }
  }

  /** The rows of each part, however its physical plan partitions and batches them. */
  ghost predicate IsPartitioning(partitions: seq<seq<Stream<FileRow>>>, parts: seq<seq<FileRow>>) {
    && |partitions| == |parts|
    && forall i :: 0 <= i < |parts| ==> multiset(StreamRows(partitions[i])) == multiset(parts[i])
  }

  lemma {:induction false} PartitioningKeepsRows(partitions: seq<seq<Stream<FileRow>>>, parts: seq<seq<FileRow>>)
    requires IsPartitioning(partitions, parts)
    ensures multiset(StreamRows(Flatten(partitions))) == multiset(Flatten(parts))
  {
    if parts != [] {
      PartitioningKeepsRows(partitions[1..], parts[1..]);
      StreamRowsConcat(partitions[0], Flatten(partitions[1..]));
    }
  }

  /** One file for each worker that wrote rows. */
  function WorkerFiles(written: seq<seq<FileRow>>, collect: seq<FileRow> -> Option<OpStats>): seq<LogFile> {
    if written == [] then []
    else
      (if written[0] == [] then [] else [LogFile(written[0], |written[0]|, collect(written[0]))])
      + WorkerFiles(written[1..], collect)
  }

  lemma {:induction false} WorkerFilesHoldRows(written: seq<seq<FileRow>>, collect: seq<FileRow> -> Option<OpStats>)
    requires forall rows :: Truthful(rows, collect(rows))
    ensures FileRows(WorkerFiles(written, collect)) == Flatten(written)
    ensures forall f | f in WorkerFiles(written, collect) :: Truthful(f.rows, f.stats)
  {
    if written != [] {
      WorkerFilesHoldRows(written[1..], collect);
      if written[0] != [] {
        var file := LogFile(written[0], |written[0]|, collect(written[0]));
        var rest := WorkerFiles(written[1..], collect);
        assert WorkerFiles(written, collect) == [file] + rest;
        assert ([file] + rest)[1..] == rest;
      } else {
        assert WorkerFiles(written, collect) == WorkerFiles(written[1..], collect);
      }
    }
  }

  class DeltaQuadsTransaction {
    /** The log version of the snapshot the transaction started from. */
    const baseVersion: nat
    var parts: seq<seq<FileRow>>
    var mayDependOnDatabaseState: bool

    constructor (baseVersion: nat)
      ensures this.baseVersion == baseVersion && parts == [] && !mayDependOnDatabaseState
      ensures Valid()
    {
      this.baseVersion := baseVersion;
      parts, mayDependOnDatabaseState := [], false;
    }

    ghost predicate Valid()
      reads this
    {
      ArePartsFrom(parts, 0)
    }

    /** The operations of all calls so far, in call order. */
    ghost function Pending(): seq<Op>
      reads this
    {
      RowOps(Flatten(parts))
    }

    method AppendPart(ops: seq<Op>)
      requires Valid()
      requires forall a, b | a in ops && b in ops :: SameKind(a, b)
      modifies this`parts
      ensures Valid() && |parts| == old(|parts|) + 1
      ensures Pending() == old(Pending()) + ops
    {
      var seqId := |parts|;
      var rows := seq(|ops|, i requires 0 <= i < |ops| => FileRow(seqId, ops[i]));
      FlattenConcat(parts, [rows]);
      FlattenSingleton(rows);
      assert RowOps(Flatten(parts) + rows) == RowOps(Flatten(parts)) + ops;
      parts := parts + [rows];
    }

    /** Inserts or removes quads. Quads of another schema are rejected. */
    method AppendQuads(quads: seq<Quad>, insert: bool, schemaMatches: bool) returns (r: Result<(), Error>)
      requires Valid()
      modifies this`parts
      ensures Valid()
      ensures r == if schemaMatches then Ok(()) else Err(InvalidSchema)
      ensures r.Err? ==> parts == old(parts)
      ensures r.Ok? ==> Pending() == old(Pending()) + QuadOps(insert, quads)
      ensures r.Ok? ==> forall stored :: Replay(stored, Pending()) ==
                          var before := Replay(stored, old(Pending()));
                          if insert then before + ToSet(quads) else before - ToSet(quads)
      ensures NamedGraphs(Pending()) == NamedGraphs(old(Pending()))
    {
      if !schemaMatches {
        return Err(InvalidSchema);
      }
      ghost var before := Pending();
      AppendPart(QuadOps(insert, quads));
      QuadOpsNameNothing(before, insert, quads);
      forall stored: set<Quad>
        ensures Replay(stored, Pending()) == Replay(Replay(stored, before), QuadOps(insert, quads))
      {
        ReplayConcat(stored, before, QuadOps(insert, quads));
      }
      forall stored: set<Quad>
        ensures Replay(stored, QuadOps(insert, quads))
             == if insert then stored + ToSet(quads) else stored - ToSet(quads)
      {
        QuadOpsReplay(stored, insert, quads);
      }
      return Ok(());
    }

    method AppendGraphOperations(kind: GraphKind, graphs: seq<GraphName>)
      requires Valid()
      modifies this`parts
      ensures Valid()
      ensures Pending() == old(Pending()) + GraphOps(kind, graphs)
      ensures forall stored :: Replay(stored, Pending()) == AfterGraphOps(Replay(stored, old(Pending())), kind, graphs)
      ensures NamedGraphs(Pending()) == AfterNaming(NamedGraphs(old(Pending())), kind, graphs)
    {
      ghost var before := Pending();
      AppendPart(GraphOps(kind, graphs));
      GraphOpsName(before, kind, graphs);
      forall stored: set<Quad>
        ensures Replay(stored, Pending()) == AfterGraphOps(Replay(stored, before), kind, graphs)
      {
        ReplayConcat(stored, before, GraphOps(kind, graphs));
        GraphOpsReplay(Replay(stored, before), kind, graphs);
      }
    }

    /**
     The changeset that overlays the base snapshot with the pending calls, or none if
     nothing is pending.
     */
    method Snapshot(log: DeltaQuadsLog) returns (cs: Option<Changeset>)
      requires Valid() && log.Valid() && baseVersion < |log.commits|
      modifies this`mayDependOnDatabaseState, log`cached
      ensures Valid() && log.Valid() && mayDependOnDatabaseState
      ensures cs.None? ==> Pending() == []
      ensures cs.Some? ==> Represents(cs.value, OpsBetween(log.log, 0, baseVersion) + Pending())
    {
      mayDependOnDatabaseState := true;
      if parts == [] {
        return None;
      }
      var rows := Flatten(parts);
      if rows == [] {
        return None;
      }
      var initial := log.ComputeChangeset(0, baseVersion);
      var extended := Extend(initial, [RowOps(rows)], OpsBetween(log.log, 0, baseVersion));
      FlattenSingleton(RowOps(rows));
      return Some(extended);
    }

    /**
     Writes the parts with the worker pool and commits the files on the shared table state.
     Whatever the partitioning of the parts and the schedule of the workers, the new commit
     means the calls in order. A transaction that may have read the store is not retried: it
     fails if the store holds a commit that the shared state does not include. Its base
     version plays no part.
     */
    method Execute(log: DeltaQuadsLog, partitions: seq<seq<Stream<FileRow>>>, workers: nat,
                   collect: seq<FileRow> -> Option<OpStats>)
      returns (r: Result<bool, Error>)
      requires Valid() && log.Valid()
      requires IsPartitioning(partitions, parts)
      requires forall rows :: Truthful(rows, collect(rows))
      modifies log
      ensures log.Valid()
      ensures r.Err? <==> parts != [] && mayDependOnDatabaseState && old(log.Version() < log.StoreVersion())
      ensures r.Ok? ==> r.value == (parts != [])
      ensures log.log == old(log.log) + if r == Ok(true) then [Pending()] else []
      ensures log.Version() == if r == Ok(true) then log.StoreVersion() else old(log.Version())
    {
      if parts == [] {
        return Ok(false);
      }
      var written, takenBy := RunWorkers(Flatten(partitions), if workers > 1 then workers else 1);
      var files := WorkerFiles(written, collect);
      var nextVersion := log.shared + 1;
      if mayDependOnDatabaseState && nextVersion < |log.commits| {
        return Err(CommitConflict);
      }
      WorkerFilesHoldRows(written, collect);
      PartitioningKeepsRows(partitions, parts);
      PartsInCallOrder(parts, 0);
      log.Append(files, Flatten(parts));
      log.CatchUp();
      return Ok(true);
    }
  }

  /**
   A transaction that has read the store commits although another transaction of the same
   node committed after its base: the commit is built on the shared state, not on the base.
   */
  method StaleReaderCommits(reader: DeltaQuadsTransaction, writer: DeltaQuadsTransaction, log: DeltaQuadsLog,
                            read: seq<seq<Stream<FileRow>>>, written: seq<seq<Stream<FileRow>>>, workers: nat,
                            collect: seq<FileRow> -> Option<OpStats>)
    returns (r: Result<bool, Error>)
    requires reader.Valid() && writer.Valid() && log.Valid()
    requires reader.mayDependOnDatabaseState && reader.parts != [] && writer.parts != []
    requires reader.baseVersion == log.Version() == log.StoreVersion()
    requires IsPartitioning(read, reader.parts) && IsPartitioning(written, writer.parts)
    requires forall rows :: Truthful(rows, collect(rows))
    modifies log
    ensures log.Valid() && r == Ok(true)
    ensures log.log == old(log.log) + [writer.Pending(), reader.Pending()]
    ensures reader.baseVersion + 2 == log.StoreVersion()
  {
    var first := writer.Execute(log, written, workers, collect);
    r := reader.Execute(log, read, workers, collect);
  }
}
