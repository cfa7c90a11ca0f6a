/**
 The log table: commits of files whose rows carry an operation and the position of the
 call within its transaction, and the changesets computed (and cached) from a range of
 commits.

 Rows of one commit are spread over files in no particular order. What a commit means is
 fixed by its rows in call order; `SortedListingsAgree` shows that any order that sorts
 the rows by commit and call gives the same verdict for every quad.
 */
module DeltaLog {
  import opened Basics
  import opened Quads
  import opened OperationLog
  import opened LogChangeset
  import opened Sorting

  datatype FileRow = FileRow(seqId: nat, op: Op)

  /** The statistics of the operation column of a file. */
  datatype OpStats = OpStats(numRecords: nat, minOp: Option<int>, maxOp: Option<int>)

  datatype LogFile = LogFile(rows: seq<FileRow>, size: nat, stats: Option<OpStats>)

  /** A row together with the commit version of its file. */
  datatype LogRow = LogRow(version: nat, row: FileRow)

  function AsStored(op: Op): int {
    match op
    case DropGraph(_) => 10
    case ClearGraph(_) => 11
    case CreateGraph(_) => 12
    case RemoveQuad(_) => 20
    case InsertQuad(_) => 21
  }

  ghost predicate Truthful(rows: seq<FileRow>, stats: Option<OpStats>) {
    stats.Some? ==>
      && stats.value.numRecords == |rows|
      && (forall r | r in rows :: stats.value.minOp.Some? ==> stats.value.minOp.value <= AsStored(r.op))
      && (forall r | r in rows :: stats.value.maxOp.Some? ==> AsStored(r.op) <= stats.value.maxOp.value)
  }

  /** Whether the statistics show that a file only inserts quads, if they can tell. */
  function OnlyContainsQuadInsertions(file: LogFile): Option<bool> {
    if file.stats.None? || file.stats.value.numRecords == 0 then None
    else
      match (file.stats.value.minOp, file.stats.value.maxOp)
      case (Some(min), Some(max)) => Some(min == 21 && max == 21)
      case _ => None
  }

  lemma InsertionFileIsInsertions(file: LogFile)
    requires Truthful(file.rows, file.stats) && OnlyContainsQuadInsertions(file) == Some(true)
    ensures forall r | r in file.rows :: r.op.InsertQuad?
  {
    forall r | r in file.rows ensures r.op.InsertQuad? {
      assert AsStored(r.op) == 21;
    }
  }

  function FileRows(files: seq<LogFile>): seq<FileRow> {
    if files == [] then [] else files[0].rows + FileRows(files[1..])
  }

  function Tag(version: nat, rows: seq<FileRow>): (r: seq<LogRow>)
    ensures |r| == |rows|
  {
    seq(|rows|, i requires 0 <= i < |rows| => LogRow(version, rows[i]))
  }

  function OpsOf(rows: seq<LogRow>): (r: seq<Op>)
    ensures |r| == |rows|
  {
    seq(|rows|, i requires 0 <= i < |rows| => rows[i].row.op)
  }

  function RowOps(rows: seq<FileRow>): (r: seq<Op>)
    ensures |r| == |rows|
  {
    seq(|rows|, i requires 0 <= i < |rows| => rows[i].op)
  }

  predicate CommitOrder(a: LogRow, b: LogRow) {
    a.version < b.version || (a.version == b.version && a.row.seqId < b.row.seqId)
  }

  /** Both operations insert or neither does, and both drop or neither does. */
  predicate SameKind(a: Op, b: Op) {
    (a.InsertQuad? <==> b.InsertQuad?) && (a.DropGraph? <==> b.DropGraph?)
  }

  /** All rows of one call are of one kind. */
  ghost predicate UniformCalls(rows: seq<FileRow>) {
    forall a, b | a in rows && b in rows :: a.seqId == b.seqId ==> SameKind(a.op, b.op)
  }

  ghost predicate UniformLogCalls(rows: seq<LogRow>) {
    forall a, b | a in rows && b in rows ::
      a.version == b.version && a.row.seqId == b.row.seqId ==> SameKind(a.row.op, b.row.op)
  }

  lemma LastToucherNotBelow(r1: seq<LogRow>, r2: seq<LogRow>, q: Quad, i: nat, j: nat)
    requires multiset(r1) == multiset(r2) && Sorted(CommitOrder, r2)
    requires i < |r1| && Touches(r1[i].row.op, q)
    requires j < |r2| && forall k :: j < k < |r2| ==> !Touches(r2[k].row.op, q)
    ensures !CommitOrder(r2[j], r1[i])
  {
    assert r1[i] in multiset(r1);
    assert r1[i] in r2;
    var k :| 0 <= k < |r2| && r2[k] == r1[i];
    assert k <= j;
  }

  /** The order of rows within a call does not matter, nor which file they come from. */
  lemma SortedListingsAgree(r1: seq<LogRow>, r2: seq<LogRow>, q: Quad)
    requires multiset(r1) == multiset(r2)
    requires Sorted(CommitOrder, r1) && Sorted(CommitOrder, r2) && UniformLogCalls(r1)
    ensures LastTouch(OpsOf(r1), q) == LastTouch(OpsOf(r2), q)
  {
    var o1, o2 := OpsOf(r1), OpsOf(r2);
    if LastTouch(o1, q).Untouched? || LastTouch(o2, q).Untouched? {
      SameElements(r1, r2);
      if LastTouch(o1, q).Untouched? {
        UntouchedTransfers(r1, r2, q);
      } else {
        UntouchedTransfers(r2, r1, q);
      }
    } else {
      var i := LastTouchIndex(o1, q);
      var j := LastTouchIndex(o2, q);
      assert forall k :: j < k < |r2| ==> r2[k].row.op == o2[k];
      assert forall k :: i < k < |r1| ==> r1[k].row.op == o1[k];
      LastToucherNotBelow(r1, r2, q, i, j);
      LastToucherNotBelow(r2, r1, q, j, i);
      assert r2[j] in multiset(r2);
      assert r2[j] in r1;
    }
  }

  lemma UntouchedTransfers(r1: seq<LogRow>, r2: seq<LogRow>, q: Quad)
    requires ToSet(r1) == ToSet(r2) && LastTouch(OpsOf(r1), q).Untouched?
    ensures LastTouch(OpsOf(r2), q).Untouched?
  {
    UntouchedIff(OpsOf(r1), q);
    UntouchedIff(OpsOf(r2), q);
    forall k | 0 <= k < |r2| ensures !Touches(OpsOf(r2)[k], q) {
      assert r2[k] in ToSet(r1);
      var i :| 0 <= i < |r1| && r1[i] == r2[k];
      assert !Touches(OpsOf(r1)[i], q);
    }
  }

  lemma NamingTransfers(r1: seq<LogRow>, r2: seq<LogRow>, g: GraphName)
    requires ToSet(r1) == ToSet(r2) && exists i :: 0 <= i < |r1| && Names(OpsOf(r1)[i], g)
    ensures exists i :: 0 <= i < |r2| && Names(OpsOf(r2)[i], g)
  {
    var i :| 0 <= i < |r1| && Names(OpsOf(r1)[i], g);
    assert r1[i] in ToSet(r2);
    var k :| 0 <= k < |r2| && r2[k] == r1[i];
    assert OpsOf(r2)[k] == OpsOf(r1)[i];
  }

  lemma LastNamerNotBelow(r1: seq<LogRow>, r2: seq<LogRow>, g: GraphName, i: nat, j: nat)
    requires multiset(r1) == multiset(r2) && Sorted(CommitOrder, r2)
    requires i < |r1| && Names(r1[i].row.op, g)
    requires j < |r2| && forall k :: j < k < |r2| ==> !Names(r2[k].row.op, g)
    ensures !CommitOrder(r2[j], r1[i])
  {
    assert r1[i] in multiset(r1);
    assert r1[i] in r2;
    var k :| 0 <= k < |r2| && r2[k] == r1[i];
    assert k <= j;
  }

  /** Nor does the order within a call matter for the graphs that exist by name. */
  lemma SortedListingsNameAlike(r1: seq<LogRow>, r2: seq<LogRow>, g: GraphName)
    requires multiset(r1) == multiset(r2) && g.Some?
    requires Sorted(CommitOrder, r1) && Sorted(CommitOrder, r2) && UniformLogCalls(r1)
    ensures g in NamedGraphs(OpsOf(r1)) <==> g in NamedGraphs(OpsOf(r2))
  {
    var o1, o2 := OpsOf(r1), OpsOf(r2);
    SameElements(r1, r2);
    if exists i :: 0 <= i < |o1| && Names(o1[i], g) {
      NamingTransfers(r1, r2, g);
      var i := LastNamingIndex(o1, g);
      var j := LastNamingIndex(o2, g);
      assert forall k :: j < k < |r2| ==> r2[k].row.op == o2[k];
      assert forall k :: i < k < |r1| ==> r1[k].row.op == o1[k];
      LastNamerNotBelow(r1, r2, g, i, j);
      LastNamerNotBelow(r2, r1, g, j, i);
      assert r2[j] in multiset(r2);
      assert r2[j] in r1;
    } else {
      if exists i :: 0 <= i < |o2| && Names(o2[i], g) {
        NamingTransfers(r2, r1, g);
      }
      NeverNamed(o1, g);
      NeverNamed(o2, g);
    }
  }

  lemma SortedListingsLiveAlike(r1: seq<LogRow>, r2: seq<LogRow>)
    requires multiset(r1) == multiset(r2)
    requires Sorted(CommitOrder, r1) && Sorted(CommitOrder, r2) && UniformLogCalls(r1)
    ensures LiveGraphs(OpsOf(r1)) == LiveGraphs(OpsOf(r2))
  {
    forall q: Quad ensures q in Replay({}, OpsOf(r1)) <==> q in Replay({}, OpsOf(r2)) {
      SortedListingsAgree(r1, r2, q);
      ReplayByLastTouch({}, OpsOf(r1), q);
      ReplayByLastTouch({}, OpsOf(r2), q);
    }
    NamedGraphsAreNamed(OpsOf(r1));
    NamedGraphsAreNamed(OpsOf(r2));
    forall g: GraphName ensures g in NamedGraphs(OpsOf(r1)) <==> g in NamedGraphs(OpsOf(r2)) {
      if g.Some? {
        SortedListingsNameAlike(r1, r2, g);
      }
    }
  }

  /** The operations of the commits `start` to `end`, both included. */
  function OpsBetween(log: seq<seq<Op>>, start: nat, end: nat): seq<Op>
    requires start <= end < |log|
  {
    Flatten(log[start..end + 1])
  }

  /** The rows of the commits `start` to `end` in call order. */
  function CanonicalRows(canonical: seq<seq<FileRow>>, start: nat, end: nat): seq<LogRow>
    requires start <= end < |canonical|
  {
    if start == end then Tag(end, canonical[end])
    else CanonicalRows(canonical, start, end - 1) + Tag(end, canonical[end])
  }

  ghost predicate InCallOrder(rows: seq<FileRow>) {
    forall i, j :: 0 <= i < j < |rows| ==> rows[i].seqId <= rows[j].seqId
  }

  ghost predicate VersionsWithin(rows: seq<LogRow>, low: nat, high: nat) {
    forall r | r in rows :: low <= r.version <= high
  }

  lemma TagSorted(version: nat, rows: seq<FileRow>)
    requires InCallOrder(rows) && UniformCalls(rows)
    ensures Sorted(CommitOrder, Tag(version, rows))
    ensures UniformLogCalls(Tag(version, rows)) && VersionsWithin(Tag(version, rows), version, version)
  {
    assert forall r | r in Tag(version, rows) :: r.version == version && r.row in rows;
  }

  lemma LaterVersionsSorted(front: seq<LogRow>, tail: seq<LogRow>, low: nat, middle: nat)
    requires 0 < middle && low <= middle
    requires VersionsWithin(front, low, middle - 1) && VersionsWithin(tail, middle, middle)
    requires Sorted(CommitOrder, front) && Sorted(CommitOrder, tail)
    requires UniformLogCalls(front) && UniformLogCalls(tail)
    ensures Sorted(CommitOrder, front + tail)
    ensures UniformLogCalls(front + tail) && VersionsWithin(front + tail, low, middle)
  {
    forall i, j | 0 <= i < j < |front + tail|
      ensures !CommitOrder((front + tail)[j], (front + tail)[i])
    {
      if i < |front| <= j {
        assert front[i] in front && tail[j - |front|] in tail;
      }
    }
  }

  lemma {:induction false} CanonicalRowsSorted(canonical: seq<seq<FileRow>>, start: nat, end: nat)
    requires start <= end < |canonical|
    requires forall v :: 0 <= v < |canonical| ==> InCallOrder(canonical[v]) && UniformCalls(canonical[v])
    ensures Sorted(CommitOrder, CanonicalRows(canonical, start, end))
    ensures UniformLogCalls(CanonicalRows(canonical, start, end))
    ensures VersionsWithin(CanonicalRows(canonical, start, end), start, end)
  {
    TagSorted(end, canonical[end]);
    if start < end {
      CanonicalRowsSorted(canonical, start, end - 1);
      LaterVersionsSorted(CanonicalRows(canonical, start, end - 1), Tag(end, canonical[end]), start, end);
    }
  }

  lemma {:induction false} CanonicalRowsOps(canonical: seq<seq<FileRow>>, log: seq<seq<Op>>, start: nat, end: nat)
    requires start <= end < |canonical| == |log|
    requires forall v :: 0 <= v < |log| ==> log[v] == RowOps(canonical[v])
    ensures OpsOf(CanonicalRows(canonical, start, end)) == OpsBetween(log, start, end)
  {
    var tail := Tag(end, canonical[end]);
    assert log[end] == RowOps(canonical[end]);
    assert OpsOf(tail) == log[end];
    FlattenSingleton(log[end]);
    if start == end {
      assert log[start..end + 1] == [log[end]];
    } else {
      CanonicalRowsOps(canonical, log, start, end - 1);
      assert log[start..end + 1] == log[start..end] + [log[end]];
      FlattenConcat(log[start..end], [log[end]]);
      var front := CanonicalRows(canonical, start, end - 1);
      assert OpsOf(front + tail) == OpsOf(front) + OpsOf(tail);
    }
  }

  lemma {:induction false} TagCount(version: nat, rows: seq<FileRow>, r: LogRow)
    ensures multiset(Tag(version, rows))[r] == if r.version == version then multiset(rows)[r.row] else 0
  {
    if rows != [] {
      assert rows == [rows[0]] + rows[1..];
      assert Tag(version, rows) == [LogRow(version, rows[0])] + Tag(version, rows[1..]);
      TagCount(version, rows[1..], r);
    }
  }

  lemma TagPermutation(version: nat, a: seq<FileRow>, b: seq<FileRow>)
    requires multiset(a) == multiset(b)
    ensures multiset(Tag(version, a)) == multiset(Tag(version, b))
  {
    forall r: LogRow ensures multiset(Tag(version, a))[r] == multiset(Tag(version, b))[r] {
      TagCount(version, a, r);
      TagCount(version, b, r);
    }
  }

  lemma CommitOrderIsStrictWeak()
    ensures StrictWeakOrder(CommitOrder)
  {}

  /** The files of a commit hold its rows in call order, which stand for its operations. */
  ghost predicate ValidCommit(files: seq<LogFile>, rows: seq<FileRow>, ops: seq<Op>) {
    && ops == RowOps(rows) && InCallOrder(rows) && UniformCalls(rows)
    && multiset(FileRows(files)) == multiset(rows)
    && (forall f | f in files :: Truthful(f.rows, f.stats))
  }

  /** The changeset stands for the operations, and adds the graphs that are live after them. */
  ghost predicate IsChangesetOf(cs: Changeset, ops: seq<Op>) {
    Represents(cs, ops) && WellFormed(cs) && cs.addedGraphs == LiveGraphs(ops)
  }

  ghost predicate ValidCommits(commits: seq<seq<LogFile>>, canonical: seq<seq<FileRow>>, log: seq<seq<Op>>) {
    && |commits| == |canonical| == |log| >= 1
    && commits[0] == [] && canonical[0] == []
    && forall v :: 0 <= v < |log| ==> ValidCommit(commits[v], canonical[v], log[v])
  }

  lemma CommitIsValid(commits: seq<seq<LogFile>>, canonical: seq<seq<FileRow>>, log: seq<seq<Op>>, v: nat)
    requires ValidCommits(commits, canonical, log) && v < |log|
    ensures ValidCommit(commits[v], canonical[v], log[v])
  {
  }

  lemma ValidCommitsGrow(commits: seq<seq<LogFile>>, canonical: seq<seq<FileRow>>, log: seq<seq<Op>>,
                         files: seq<LogFile>, rows: seq<FileRow>)
    requires ValidCommits(commits, canonical, log) && ValidCommit(files, rows, RowOps(rows))
    ensures ValidCommits(commits + [files], canonical + [rows], log + [RowOps(rows)])
  {
  }

  lemma OpsOfLongerLog(log: seq<seq<Op>>, ops: seq<Op>, start: nat, end: nat)
    requires start <= end < |log|
    ensures OpsBetween(log + [ops], start, end) == OpsBetween(log, start, end)
  {
    assert (log + [ops])[start..end + 1] == log[start..end + 1];
  }

  /** The files and rows of the commits `start` to `end` have been loaded. */
  ghost predicate Loaded(canonical: seq<seq<FileRow>>, start: nat, end: nat, files: seq<LogFile>, rows: seq<LogRow>)
    requires start <= end < |canonical|
  {
    && (forall f | f in files :: Truthful(f.rows, f.stats))
    && multiset(rows) == multiset(CanonicalRows(canonical, start, end))
    && RowsComeFrom(rows, files)
  }

  /** Loads the files of the commits `start` to `end`, both included, commit by commit. */
  method LoadFiles(commits: seq<seq<LogFile>>, start: nat, end: nat, ghost canonical: seq<seq<FileRow>>,
                   ghost log: seq<seq<Op>>)
    returns (files: seq<LogFile>, rows: seq<LogRow>)
    requires ValidCommits(commits, canonical, log) && start <= end < |commits|
    ensures Loaded(canonical, start, end, files, rows)
  {
    CommitIsValid(commits, canonical, log, start);
    files, rows := LoadFirst(commits[start], start, canonical, log[start]);
    var version := start;
    while version < end
      invariant start <= version <= end
      invariant Loaded(canonical, start, version, files, rows)
    {
      version := version + 1;
      CommitIsValid(commits, canonical, log, version);
      files, rows := LoadNext(commits[version], start, version, canonical, log[version], files, rows);
    }
  }

  method LoadFirst(added: seq<LogFile>, start: nat, ghost canonical: seq<seq<FileRow>>, ghost ops: seq<Op>)
    returns (files: seq<LogFile>, rows: seq<LogRow>)
    requires start < |canonical| && ValidCommit(added, canonical[start], ops)
    ensures Loaded(canonical, start, start, files, rows)
  {
    files, rows := added, Tag(start, FileRows(added));
    TagPermutation(start, FileRows(added), canonical[start]);
    TagComesFrom(start, added, added);
  }

  method LoadNext(added: seq<LogFile>, start: nat, version: nat, ghost canonical: seq<seq<FileRow>>, ghost ops: seq<Op>,
                  before: seq<LogFile>, loaded: seq<LogRow>)
    returns (files: seq<LogFile>, rows: seq<LogRow>)
    requires start < version < |canonical| && ValidCommit(added, canonical[version], ops)
    requires Loaded(canonical, start, version - 1, before, loaded)
    ensures Loaded(canonical, start, version, files, rows)
  {
    OneMoreVersion(canonical, start, version, added, before, loaded);
    files, rows := before + added, loaded + Tag(version, FileRows(added));
  }

  /** The commits of the log, the state this node has seen of them, and the changesets computed so far. */
  class DeltaQuadsLog {
    /** The files added by each commit; commit 0 creates the table. */
    var commits: seq<seq<LogFile>>
    /** The version of the table state that the node's readers and writers share. */
    var shared: nat
    /** Cached changesets by version range. */
    var cached: map<(nat, nat), Changeset>
    /** The rows of each commit in call order. */
    ghost var canonical: seq<seq<FileRow>>
    /** The operations of each commit in call order. */
    ghost var log: seq<seq<Op>>

    ghost predicate Valid()
      reads this
    {
      && ValidCommits(commits, canonical, log) && shared < |commits|
      && (forall k | k in cached :: k.0 <= k.1 < |log| && IsChangesetOf(cached[k], OpsBetween(log, k.0, k.1)))
    }

    constructor ()
      ensures Valid() && log == [[]] && shared == 0
    {
      commits, shared, cached := [[]], 0, map[];
      canonical, log := [[]], [[]];
    }

    /** The log version as this node sees it. */
    function Version(): nat
      reads this
    {
      shared
    }

    /** The version of the last commit in the store. */
    function StoreVersion(): nat
      requires Valid()
      reads this
    {
      |commits| - 1
    }

    /**
     A commit, by any node, appears in the store. Cached changesets stay valid, as the log
     is append-only.
     */
    method Append(files: seq<LogFile>, ghost rows: seq<FileRow>)
      requires Valid()
      requires InCallOrder(rows) && UniformCalls(rows)
      requires multiset(FileRows(files)) == multiset(rows)
      requires forall f | f in files :: Truthful(f.rows, f.stats)
      modifies this
      ensures Valid()
      ensures log == old(log) + [RowOps(rows)] && cached == old(cached) && shared == old(shared)
    {
      forall k | k in cached
        ensures OpsBetween(log + [RowOps(rows)], k.0, k.1) == OpsBetween(log, k.0, k.1)
      {
        OpsOfLongerLog(log, RowOps(rows), k.0, k.1);
      }
      ValidCommitsGrow(commits, canonical, log, files, rows);
      commits := commits + [files];
      canonical, log := canonical + [rows], log + [RowOps(rows)];
    }

    /** Takes over the state that includes the last commit. */
    method CatchUp()
      requires Valid()
      modifies this`shared
      ensures Valid() && shared == StoreVersion()
    {
      shared := |commits| - 1;
    }

    /** The files of a range of commits, with their version. */
    method LoadAddedFilesBetween(start: nat, end: nat) returns (files: seq<LogFile>, rows: seq<LogRow>)
      requires Valid() && start <= end < |commits|
      ensures forall f | f in files :: Truthful(f.rows, f.stats)
      ensures multiset(rows) == multiset(CanonicalRows(canonical, start, end))
      ensures RowsComeFrom(rows, files)
    {
      files, rows := LoadFiles(commits, start, end, canonical, log);
    }

    /** The net changeset of the commits `start` to `end`, both included. */
    method ComputeChangeset(start: nat, end: nat) returns (cs: Changeset)
      requires Valid() && start <= end < |commits|
      modifies this`cached
      ensures Valid()
      ensures IsChangesetOf(cs, OpsBetween(log, start, end))
    {
      if (start, end) in cached {
        return cached[(start, end)];
      }
      var files, rows := LoadAddedFilesBetween(start, end);
      ghost var ordered := CanonicalRows(canonical, start, end);
      CanonicalRowsSorted(canonical, start, end);
      CanonicalRowsOps(canonical, log, start, end);
      if FilesOnlyContainAppends(files) && FilesAreLarge(files) {
        cs := InsertionsOnly(OpsOf(rows));
        LazyRepresents(files, rows, ordered);
      } else {
        CommitOrderIsStrictWeak();
        SortSpec(CommitOrder, rows);
        var sorted := Sort(CommitOrder, rows);
        cs := ComputeEager([OpsOf(sorted)]);
        FlattenSingleton(OpsOf(sorted));
        EagerRepresents(sorted, ordered, cs);
      }
      cached := cached[(start, end) := cs];
    }
  }

  ghost predicate RowsComeFrom(rows: seq<LogRow>, files: seq<LogFile>) {
    forall r | r in rows :: exists f :: f in files && r.row in f.rows
  }

  /** Loading one more commit keeps what is known of the rows loaded so far. */
  lemma OneMoreVersion(canonical: seq<seq<FileRow>>, start: nat, version: nat, added: seq<LogFile>,
                       files: seq<LogFile>, rows: seq<LogRow>)
    requires start < version < |canonical| && multiset(FileRows(added)) == multiset(canonical[version])
    requires multiset(rows) == multiset(CanonicalRows(canonical, start, version - 1)) && RowsComeFrom(rows, files)
    ensures multiset(rows + Tag(version, FileRows(added))) == multiset(CanonicalRows(canonical, start, version))
    ensures RowsComeFrom(rows + Tag(version, FileRows(added)), files + added)
  {
    var tail := Tag(version, FileRows(added));
    TagPermutation(version, FileRows(added), canonical[version]);
    assert CanonicalRows(canonical, start, version)
        == CanonicalRows(canonical, start, version - 1) + Tag(version, canonical[version]);
    TagComesFrom(version, added, files + added);
    forall r | r in rows + tail ensures exists f :: f in files + added && r.row in f.rows {
      if r in rows {
        var f :| f in files && r.row in f.rows;
        assert f in files + added;
      }
    }
  }

  lemma {:induction false} FileRowsMember(files: seq<LogFile>, r: FileRow) returns (f: LogFile)
    requires r in FileRows(files)
    ensures f in files && r in f.rows
  {
    if r in files[0].rows {
      f := files[0];
    } else {
      f := FileRowsMember(files[1..], r);
    }
  }

  lemma TagComesFrom(version: nat, added: seq<LogFile>, files: seq<LogFile>)
    requires forall f | f in added :: f in files
    ensures RowsComeFrom(Tag(version, FileRows(added)), files)
  {
    forall r | r in Tag(version, FileRows(added)) ensures exists f :: f in files && r.row in f.rows {
      assert r.row in FileRows(added);
      var f := FileRowsMember(added, r.row);
    }
  }

  /** Rows sorted by commit and call stand for the rows in call order. */
  lemma EagerRepresents(sorted: seq<LogRow>, ordered: seq<LogRow>, cs: Changeset)
    requires multiset(sorted) == multiset(ordered)
    requires Sorted(CommitOrder, sorted) && Sorted(CommitOrder, ordered) && UniformLogCalls(ordered)
    requires Represents(cs, OpsOf(sorted)) && cs.addedGraphs == LiveGraphs(OpsOf(sorted))
    ensures Represents(cs, OpsOf(ordered)) && cs.addedGraphs == LiveGraphs(OpsOf(ordered))
  {
    SortedListingsLiveAlike(ordered, sorted);
    forall q: Quad ensures Effect(cs, q) == LastTouch(OpsOf(ordered), q) {
      SortedListingsAgree(ordered, sorted, q);
    }
  }

  predicate FilesOnlyContainAppends(files: seq<LogFile>) {
    forall f | f in files :: OnlyContainsQuadInsertions(f) == Some(true)
  }

  function TotalSize(files: seq<LogFile>): nat {
    if files == [] then 0 else files[0].size + TotalSize(files[1..])
  }

  predicate FilesAreLarge(files: seq<LogFile>) {
    TotalSize(files) > 1024 * 1024 * 100
  }

  lemma OpsWithin(a: seq<LogRow>, b: seq<LogRow>, op: Op)
    requires ToSet(a) == ToSet(b) && op in OpsOf(a)
    ensures op in OpsOf(b)
  {
    var i :| 0 <= i < |a| && OpsOf(a)[i] == op;
    assert a[i] in ToSet(b);
    var k :| 0 <= k < |b| && b[k] == a[i];
    assert OpsOf(b)[k] == op;
  }

  /** Files of insertions read in any order stand for the rows in call order. */
  lemma LazyRepresents(files: seq<LogFile>, rows: seq<LogRow>, ordered: seq<LogRow>)
    requires FilesOnlyContainAppends(files)
    requires forall f | f in files :: Truthful(f.rows, f.stats)
    requires RowsComeFrom(rows, files)
    requires multiset(rows) == multiset(ordered)
    ensures Represents(InsertionsOnly(OpsOf(rows)), OpsOf(ordered))
    ensures WellFormed(InsertionsOnly(OpsOf(rows)))
    ensures InsertionsOnly(OpsOf(rows)).addedGraphs == LiveGraphs(OpsOf(ordered))
  {
    SameElements(rows, ordered);
    forall op | op in OpsOf(rows) ensures op.InsertQuad? {
      var i :| 0 <= i < |rows| && OpsOf(rows)[i] == op;
      assert rows[i] in rows;
      var f :| f in files && rows[i].row in f.rows;
      InsertionFileIsInsertions(f);
    }
    forall op: Op ensures op in OpsOf(rows) <==> op in OpsOf(ordered) {
      if op in OpsOf(rows) { OpsWithin(rows, ordered, op); }
      if op in OpsOf(ordered) { OpsWithin(ordered, rows, op); }
    }
    assert InsertionsOnly(OpsOf(rows)) == InsertionsOnly(OpsOf(ordered));
    InsertionsOnlyRepresents(OpsOf(ordered));
  }
}
