/**
 The storage of one node: the log, the quad tables with their rows, optimizing them, taking
 snapshots and scanning a snapshot.
 */
module Storage {
  import opened Basics
  import opened Quads
  import opened OperationLog
  import opened DeltaLog
  import opened Sorting
  import opened Pruning
  import opened ScanPlan
  import opened StoreProtocol
  import opened Transaction

  datatype StorageError = OlderTarget | NewerTable

  /** A snapshot of the tables and the log version, with the overlay of a transaction. */
  datatype StorageSnapshot = StorageSnapshot(tables: seq<QuadTable>, version: nat, transactional: Option<Changeset>)

  /** The table as the transition system sees it. */
  function Abstract(t: QuadTable): Table {
    Table(t.version, TableQuads(t))
  }

  /** No table has a higher score, and none after this one the same. */
  predicate IsBest(tables: seq<QuadTable>, score: QuadTable -> nat, i: nat)
    requires i < |tables|
  {
    forall k :: 0 <= k < |tables| ==>
      score(tables[k]) <= score(tables[i]) && (i < k ==> score(tables[k]) < score(tables[i]))
  }

  /** The table with the best score, the last one on ties. */
  method BestTable(tables: seq<QuadTable>, score: QuadTable -> nat) returns (best: Option<QuadTable>)
    ensures best.None? <==> tables == []
    ensures best.Some? ==> best.value in tables
    ensures forall i | 0 <= i < |tables| && IsBest(tables, score, i) :: best == Some(tables[i])
  {
    best := None;
    ghost var b := 0;
    for i := 0 to |tables|
      invariant best.None? <==> i == 0
      invariant best.Some? ==> b < i && best.value == tables[b] && IsBest(tables[..i], score, b)
    {
      if best.None? || score(best.value) <= score(tables[i]) {
        best := Some(tables[i]);
        b := i;
      }
    }
    assert tables[..|tables|] == tables;
  }

  /** Some table is the best one. */
  lemma {:induction false} BestExists(tables: seq<QuadTable>, score: QuadTable -> nat) returns (i: nat)
    requires tables != []
    ensures i < |tables| && IsBest(tables, score, i)
  {
    i := |tables| - 1;
    if i > 0 {
      var b := BestExists(tables[..i], score);
      if score(tables[i]) < score(tables[b]) {
        assert tables[b] == tables[..i][b] && forall k :: 0 <= k < i ==> tables[..i][k] == tables[k];
        i := b;
      } else {
        assert forall k :: 0 <= k < i ==> tables[k] == tables[..i][k];
      }
    }
  }

  // ----- The score of a table

  /** Two to the power of the distance to the fourth component; later components weigh as much as it. */
  function Weight(i: nat): nat {
    if i == 0 then 8 else if i == 1 then 4 else if i == 2 then 2 else 1
  }

  function ScoreOfFirst(order: seq<Component>, bound: Component -> bool, n: nat): nat
    requires n <= |order|
  {
    if n == 0 then 0 else ScoreOfFirst(order, bound, n - 1) + if bound(order[n - 1]) then Weight(n - 1) else 0
  }

  function ScanScore(order: seq<Component>, bound: Component -> bool): nat {
    ScoreOfFirst(order, bound, |order|)
  }

  method ComputeScanScore(order: seq<Component>, bound: Component -> bool) returns (score: nat)
    ensures score == ScanScore(order, bound)
  {
    score := 0;
    for i := 0 to |order|
      invariant score == ScoreOfFirst(order, bound, i)
    {
      if bound(order[i]) {
        score := score + Weight(i);
      }
    }
  }

  /** At position `k`, the first at which they differ, `a` is bound and `b` is not. */
  predicate BoundEarlier(a: seq<Component>, b: seq<Component>, bound: Component -> bool, k: nat)
    requires k < |a| && k < |b|
  {
    bound(a[k]) && !bound(b[k]) && forall i :: 0 <= i < k ==> bound(a[i]) == bound(b[i])
  }

  lemma ScoreOfFour(order: seq<Component>, bound: Component -> bool)
    requires |order| == 4
    ensures ScanScore(order, bound) == (if bound(order[0]) then 8 else 0) + (if bound(order[1]) then 4 else 0)
                                       + (if bound(order[2]) then 2 else 0) + (if bound(order[3]) then 1 else 0)
  {
    assert ScoreOfFirst(order, bound, 1) == if bound(order[0]) then 8 else 0;
    assert ScoreOfFirst(order, bound, 2) == ScoreOfFirst(order, bound, 1) + if bound(order[1]) then 4 else 0;
    assert ScoreOfFirst(order, bound, 3) == ScoreOfFirst(order, bound, 2) + if bound(order[2]) then 2 else 0;
  }

  /** The score of one table is higher exactly if it is the first to have a bound component. */
  lemma ScoreIsLexicographic(a: seq<Component>, b: seq<Component>, bound: Component -> bool)
    requires |a| == 4 && |b| == 4
    ensures ScanScore(b, bound) < ScanScore(a, bound) <==> exists k :: 0 <= k < 4 && BoundEarlier(a, b, bound, k)
  {
    ScoreOfFour(a, bound);
    ScoreOfFour(b, bound);
    if ScanScore(b, bound) < ScanScore(a, bound) {
      var k := if bound(a[0]) != bound(b[0]) then 0 else if bound(a[1]) != bound(b[1]) then 1
               else if bound(a[2]) != bound(b[2]) then 2 else 3;
      assert BoundEarlier(a, b, bound, k);
    }
  }

  /** The first `n` components are bound, so that the pattern covers one slice of the table. */
  predicate BoundPrefix(order: seq<Component>, bound: Component -> bool, n: nat) {
    n <= |order| && forall i :: 0 <= i < n ==> bound(order[i])
  }

  /** The chosen table has the longest bound prefix of all tables. */
  lemma {:induction false} BestHasLongestPrefix(tables: seq<QuadTable>, bound: Component -> bool, best: nat, k: nat,
                                                n: nat)
    requires best < |tables| && IsBest(tables, (t: QuadTable) => ScanScore(t.order, bound), best)
    requires k < |tables| && |tables[k].order| == |tables[best].order| == 4
    requires BoundPrefix(tables[k].order, bound, n)
    ensures BoundPrefix(tables[best].order, bound, n)
  {
    if n > 0 {
      BestHasLongestPrefix(tables, bound, best, k, n - 1);
      ScoreIsLexicographic(tables[k].order, tables[best].order, bound);
      assert !BoundEarlier(tables[k].order, tables[best].order, bound, n - 1);
    }
  }

  /** The tables the scan may switch to: those with the version of the chosen one. */
  function SwitchableTables(tables: seq<QuadTable>, chosen: QuadTable): (r: seq<QuadTable>)
    ensures forall t :: t in r <==> t in tables && t.version == chosen.version
  {
    Filter((t: QuadTable) => t.version == chosen.version, tables)
  }

  ghost predicate ValidSnapshot(view: View<Quad>, log: seq<seq<Op>>, s: StorageSnapshot, pending: seq<Op>) {
    && s.version < |log|
    && (forall t | t in s.tables :: ValidTable(view, t))
    && (forall t | t in s.tables :: t.version <= s.version ==> Consistent(log, Abstract(t), s.version))
    && (s.transactional.None? ==> pending == [])
    && (s.transactional.Some? ==> Represents(s.transactional.value, OpsBetween(log, 0, s.version) + pending))
  }

  /** What a snapshot stands for: the log up to its version, then the transaction's calls. */
  ghost function SnapshotQuads(log: seq<seq<Op>>, s: StorageSnapshot, pending: seq<Op>): set<Quad>
    requires s.version < |log|
  {
    Replay(StateAt(log, s.version), pending)
  }

  /** The changeset between the chosen table and the snapshot's version, if there is one. */
  method ChangesetForLog(log: DeltaQuadsLog, table: Option<QuadTable>, target: nat)
    returns (r: Result<Option<Changeset>, StorageError>)
    requires log.Valid() && target < |log.log|
    modifies log`cached
    ensures log.Valid()
    ensures var start := if table.Some? then table.value.version else 0;
            && (r.Err? <==> target < start)
            && (r.Ok? ==> (r.value.None? <==> target == start))
            && (r.Ok? && r.value.Some? ==>
                  start < target && Represents(r.value.value, OpsBetween(log.log, start, target)))
  {
    var start := if table.Some? then table.value.version else 0;
    if target < start {
      return Err(OlderTarget);
    }
    if target <= start {
      return Ok(None);
    }
    var cs := log.ComputeChangeset(start, target);
    return Ok(Some(cs));
  }

  /** Whatever table is chosen, its changeset leads to what the snapshot stands for. */
  lemma TargetIsSnapshot(view: View<Quad>, log: seq<seq<Op>>, s: StorageSnapshot, pending: seq<Op>,
                         table: Option<QuadTable>, cs: Option<Changeset>)
    requires |log| >= 1 && log[0] == [] && ValidSnapshot(view, log, s, pending)
    requires table.Some? ==> table.value in s.tables && table.value.version <= s.version
    requires var start := if table.Some? then table.value.version else 0;
             && (cs.None? ==> start == s.version)
             && (cs.Some? ==> start < s.version && Represents(cs.value, OpsBetween(log, start, s.version)))
    ensures Target(table, if s.transactional.Some? then s.transactional else cs) == SnapshotQuads(log, s, pending)
  {
    var t := if table.Some? then Abstract(table.value) else Table(0, {});
    EmptyTableConsistent(log, s.version);
    assert Consistent(log, t, s.version);
    if s.transactional.Some? {
      TransactionScanIsReplay(log, t, s.version, pending, s.transactional.value);
    } else {
      var result := if cs.Some? then ApplyChangeset(t.quads, cs.value) else t.quads;
      assert IsScan(log, t, s.version, result);
      ScanIsReplay(log, t, s.version, result);
    }
  }

  lemma EmptyTableConsistent(log: seq<seq<Op>>, limit: nat)
    requires limit < |log| && log[0] == []
    ensures Consistent(log, Table(0, {}), limit)
  {
    assert log[0..1] == [[]];
    FlattenSingleton<Op>([]);
    assert StateAt(log, 0) == {};
  }

  /** Plans a scan of a snapshot: it returns each quad the snapshot stands for that matches the pattern, once. */
  method PlanQuadPatternScan(view: View<Quad>, log: DeltaQuadsLog, s: StorageSnapshot, pattern: Quad -> bool,
                             filtered: bool, score: QuadTable -> nat, tests: Filters<Quad>, partitions: nat,
                             ghost pending: seq<Op>)
    returns (r: Result<Plan, StorageError>)
    requires log.Valid() && ValidSnapshot(view, log.log, s, pending)
    requires SoundFilters(view, pattern, tests) && FiltersPattern(filtered, pattern)
    modifies log`cached
    ensures log.Valid()
    ensures r.Err? <==> exists i :: 0 <= i < |s.tables| && IsBest(s.tables, score, i) && s.version < s.tables[i].version
    ensures r.Ok? ==> ToSet(r.value.rows) == set q | q in SnapshotQuads(log.log, s, pending) && pattern(q)
    ensures r.Ok? ==> Distinct(r.value.rows) && TruthfulPlan(r.value)
  {
    var table := BestTable(s.tables, score);
    if s.tables != [] {
      var i := BestExists(s.tables, score);
      assert table == Some(s.tables[i]);
    }
    var cs := ChangesetForLog(log, table, s.version);
    if cs.Err? {
      return Err(cs.error);
    }
    TargetIsSnapshot(view, log.log, s, pending, table, cs.value);
    var overlay := if s.transactional.Some? then s.transactional else cs.value;
    var plan := Build(view, table, overlay, pattern, filtered, tests, partitions);
    return Ok(plan);
  }

  /**
   Counts the rows of a plan: by its statistics if they are exact, and otherwise by
   executing it, partition by partition and batch by batch.
   */
  method CountRows(partitions: seq<seq<seq<Quad>>>, numRows: Precision<nat>) returns (count: nat)
    requires TruthfulPlan(Plan(Flatten(Flatten(partitions)), numRows))
    ensures count == |Flatten(Flatten(partitions))|
  {
    if numRows.Exact? {
      return numRows.value;
    }
    count := 0;
    for p := 0 to |partitions|
      invariant count == |Flatten(Flatten(partitions[..p]))|
    {
      assert partitions[..p + 1] == partitions[..p] + [partitions[p]];
      FlattenConcat(partitions[..p], [partitions[p]]);
      FlattenSingleton(partitions[p]);
      FlattenConcat(Flatten(partitions[..p]), partitions[p]);
      ghost var before := count;
      for b := 0 to |partitions[p]|
        invariant count == before + |Flatten(partitions[p][..b])|
      {
        assert partitions[p][..b + 1] == partitions[p][..b] + [partitions[p][b]];
        FlattenConcat(partitions[p][..b], [partitions[p][b]]);
        FlattenSingleton(partitions[p][b]);
        count := count + |partitions[p][b]|;
      }
      assert partitions[p][..|partitions[p]|] == partitions[p];
    }
    assert partitions[..|partitions|] == partitions;
  }

  const NO_TESTS: Filters<Quad> := Filters(None, None, None, None)

  /** The number of quads of a snapshot. */
  method Len(view: View<Quad>, log: DeltaQuadsLog, s: StorageSnapshot, score: QuadTable -> nat, partitions: nat,
             ghost pending: seq<Op>)
    returns (r: Result<nat, StorageError>)
    requires log.Valid() && ValidSnapshot(view, log.log, s, pending)
    modifies log`cached
    ensures log.Valid()
    ensures r.Err? ==> exists t :: t in s.tables && s.version < t.version
    ensures r.Ok? ==> r.value == |SnapshotQuads(log.log, s, pending)|
  {
    var plan := PlanQuadPatternScan(view, log, s, q => true, false, score, NO_TESTS, partitions, pending);
    if plan.Err? {
      return Err(plan.error);
    }
    var rows := plan.value.rows;
    FlattenSingleton([rows]);
    FlattenSingleton(rows);
    var count := CountRows([[rows]], plan.value.numRows);
    DistinctLength(rows);
    assert ToSet(rows) == SnapshotQuads(log.log, s, pending);
    return Ok(count);
  }

  /**
   The graphs of a snapshot: those that exist at its log version. The calls of a transaction
   are not considered.
   */
  method NamedGraphsOf(log: DeltaQuadsLog, s: StorageSnapshot) returns (graphs: set<GraphName>)
    requires log.Valid() && s.version < |log.log|
    modifies log`cached
    ensures log.Valid()
    ensures graphs == LiveGraphs(OpsBetween(log.log, 0, s.version))
    ensures forall g :: g in graphs ==> g.Some?
    ensures forall q | q in StateAt(log.log, s.version) && q.graph.Some? :: q.graph in graphs
  {
    var cs := log.ComputeChangeset(0, s.version);
    NamedGraphsAreNamed(OpsBetween(log.log, 0, s.version));
    graphs := cs.addedGraphs;
  }

  /** A graph that a transaction creates is not among the graphs of its own snapshot. */
  lemma PendingGraphIsNotListed(log: seq<seq<Op>>, version: nat, g: GraphName)
    requires version < |log| && g.Some? && g !in LiveGraphs(OpsBetween(log, 0, version))
    ensures g in LiveGraphs(OpsBetween(log, 0, version) + [CreateGraph(g)])
  {
    var ops := OpsBetween(log, 0, version);
    var longer := ops + [CreateGraph(g)];
    assert longer[..|longer| - 1] == ops;
  }

  /** A writer of table files keeps the rows in order and describes them truthfully. */
  ghost predicate IsTableWriter(view: View<Quad>, write: seq<Quad> -> seq<File<Quad>>) {
    forall rows :: AllRows(write(rows)) == rows && AllDescribed(view, write(rows))
  }

  /** The table holds the quads of its version, sorted by its order and without duplicates. */
  ghost predicate ExactTable(view: View<Quad>, log: seq<seq<Op>>, t: QuadTable) {
    && ValidTable(view, t) && StrictlySorted(OrderOf(t.order), TableRows(t))
    && t.version < |log| && TableQuads(t) == StateAt(log, t.version)
  }

  /** Rewrites a table: applies the changeset, sorts by the table's order and writes new files. */
  method UpdateTable(view: View<Quad>, t: QuadTable, cs: Changeset, end: nat,
                     write: seq<Quad> -> seq<File<Quad>>, partitions: nat)
    returns (t': QuadTable)
    requires ValidTable(view, t) && IsTableWriter(view, write)
    ensures ValidTable(view, t') && StrictlySorted(OrderOf(t'.order), TableRows(t'))
    ensures t'.order == t.order && t'.version == end
    ensures TableQuads(t') == ApplyChangeset(TableQuads(t), cs)
  {
    var plan := Build(view, Some(t), Some(cs), q => true, false, NO_TESTS, partitions);
    var rows := plan.rows;
    var less := OrderOf(t.order);
    TableOrderIsTotal(t.order);
    SortSpec(less, rows);
    var sorted := Sort(less, rows);
    SameElements(sorted, rows);
    t' := QuadTable(t.order, end, write(sorted));
    DistinctIffCount(rows);
    DistinctIffCount(sorted);
    forall x | x in sorted ensures multiset(sorted)[x] == 1 {
      assert x in ToSet(rows);
    }
    assert TableRows(t') == sorted;
    assert TableQuads(t') == ToSet(rows);
  }

  /** The smallest version among the tables. */
  method MinVersion(tables: seq<QuadTable>) returns (min: nat)
    requires tables != []
    ensures exists i :: 0 <= i < |tables| && tables[i].version == min
    ensures forall i :: 0 <= i < |tables| ==> min <= tables[i].version
  {
    min := tables[0].version;
    for i := 1 to |tables|
      invariant exists k :: 0 <= k < |tables| && tables[k].version == min
      invariant forall k :: 0 <= k < i ==> min <= tables[k].version
    {
      if tables[i].version < min {
        min := tables[i].version;
      }
    }
  }

  class DeltaQuadsStorage {
    const log: DeltaQuadsLog
    var tables: seq<QuadTable>

    constructor (log: DeltaQuadsLog, tables: seq<QuadTable>)
      ensures this.log == log && this.tables == tables
    {
      this.log, this.tables := log, tables;
    }

    ghost predicate Valid(view: View<Quad>)
      reads this, log
    {
      && log.Valid()
      && forall i :: 0 <= i < |tables| ==> ExactTable(view, log.log, tables[i]) && tables[i].version <= log.Version()
    }

    /** Reads the tables first and the log version second. */
    method SnapshotImpl(ghost view: View<Quad>) returns (s: StorageSnapshot)
      requires Valid(view)
      ensures ValidSnapshot(view, log.log, s, [])
      ensures s.tables == tables && s.transactional == None
      ensures s.version == log.Version() && forall t | t in s.tables :: t.version <= s.version
    {
      var snapshots := [];
      for i := 0 to |tables|
        invariant snapshots == tables[..i]
      {
        snapshots := snapshots + [tables[i]];
      }
      s := StorageSnapshot(snapshots, log.Version(), None);
      forall t | t in s.tables
        ensures ValidTable(view, t) && t.version <= s.version && Consistent(log.log, Abstract(t), s.version)
      {
        var i :| 0 <= i < |tables| && tables[i] == t;
        assert ExactTable(view, log.log, tables[i]);
      }
    }

    /** The snapshot of a transaction that started from this storage. */
    method TransactionSnapshot(ghost view: View<Quad>, tx: DeltaQuadsTransaction, base: StorageSnapshot)
      returns (s: StorageSnapshot)
      requires log.Valid() && ValidSnapshot(view, log.log, base, []) && base.transactional.None?
      requires tx.Valid() && tx.baseVersion == base.version
      modifies tx`mayDependOnDatabaseState, log`cached
      ensures log.Valid() && tx.Valid() && tx.mayDependOnDatabaseState
      ensures ValidSnapshot(view, log.log, s, tx.Pending())
      ensures s.version == base.version && s.tables == base.tables
    {
      var cs := tx.Snapshot(log);
      s := base.(transactional := cs);
    }

    /** Updates, one after the other, the tables that are not at `end` yet. */
    method UpdateTables(view: View<Quad>, cs: Changeset, start: nat, end: nat,
                        write: seq<Quad> -> seq<File<Quad>>, partitions: nat)
      requires Valid(view) && IsTableWriter(view, write)
      requires start <= end <= log.Version() && Represents(cs, OpsBetween(log.log, start, end))
      requires forall i :: 0 <= i < |tables| ==> start <= tables[i].version <= end
      modifies this`tables
      ensures Valid(view)
      ensures |tables| == old(|tables|)
      ensures forall i :: 0 <= i < |tables| ==> tables[i].version == end && tables[i].order == old(tables)[i].order
    {
      var snapshots := tables;
      for i := 0 to |snapshots|
        invariant Valid(view)
        invariant |tables| == |snapshots| && forall k :: i <= k < |tables| ==> tables[k] == snapshots[k]
        invariant forall k :: 0 <= k < i ==> tables[k].version == end && tables[k].order == snapshots[k].order
      {
        assert ExactTable(view, log.log, tables[i]);
        if snapshots[i].version != end {
          var updated := UpdateTable(view, tables[i], cs, end, write, partitions);
          UpdatedTableIsExact(view, log.log, tables[i], start, end, cs, updated);
          tables := tables[i := updated];
        }
      }
    }

    /** Brings every table to the version of the log with one changeset for all of them. */
    method Optimize(view: View<Quad>, write: seq<Quad> -> seq<File<Quad>>, partitions: nat)
      returns (r: Result<bool, StorageError>)
      requires Valid(view) && IsTableWriter(view, write)
      modifies this`tables, log`cached
      ensures Valid(view) && r.Ok?
      ensures |tables| == old(|tables|)
      ensures forall i :: 0 <= i < |tables| ==>
          tables[i].version == log.Version() && tables[i].order == old(tables)[i].order
      ensures forall i :: 0 <= i < |tables| ==> TableQuads(tables[i]) == StateAt(log.log, log.Version())
    {
      assert forall i :: 0 <= i < |tables| ==> ExactTable(view, log.log, tables[i]);
      if tables == [] {
        return Ok(false);
      }
      var start := MinVersion(tables);
      var end := log.Version();
      if end < start {
        return Err(NewerTable);
      }
      if end == start {
        return Ok(false);
      }
      var cs := log.ComputeChangeset(start, end);
      UpdateTables(view, cs, start, end, write, partitions);
      assert forall i :: 0 <= i < |tables| ==> ExactTable(view, log.log, tables[i]);
      return Ok(true);
    }
  }

  lemma UpdatedTableIsExact(view: View<Quad>, log: seq<seq<Op>>, t: QuadTable, start: nat, end: nat, cs: Changeset,
                            t': QuadTable)
    requires ExactTable(view, log, t) && start <= t.version <= end < |log|
    requires Represents(cs, OpsBetween(log, start, end))
    requires ValidTable(view, t') && StrictlySorted(OrderOf(t'.order), TableRows(t'))
    requires t'.version == end && TableQuads(t') == ApplyChangeset(TableQuads(t), cs)
    ensures ExactTable(view, log, t')
  {
    UpdateKeepsConsistent(log, Abstract(t), start, end, cs, end);
    forall q: Quad ensures q in TableQuads(t') <==> q in StateAt(log, end) {
      assert Quiet(log, end + 1, end + 1, q);
    }
  }

  /**
   A scan that switches to another table of the same version returns the same quads, as the
   same changeset is applied on top.
   */
  lemma SwitchingTablesKeepsAnswer(view: View<Quad>, log: seq<seq<Op>>, s: StorageSnapshot, pending: seq<Op>,
                                   planned: QuadTable, other: QuadTable, cs: Option<Changeset>)
    requires |log| >= 1 && log[0] == [] && ValidSnapshot(view, log, s, pending)
    requires planned in s.tables && planned.version <= s.version
    requires other in SwitchableTables(s.tables, planned)
    requires (cs.None? ==> planned.version == s.version)
             && (cs.Some? ==>
                   && planned.version < s.version
                   && Represents(cs.value, OpsBetween(log, planned.version, s.version)))
    ensures var overlay := if s.transactional.Some? then s.transactional else cs;
            Target(Some(other), overlay) == Target(Some(planned), overlay)
  {
    TargetIsSnapshot(view, log, s, pending, Some(planned), cs);
    TargetIsSnapshot(view, log, s, pending, Some(other), cs);
  }
}
