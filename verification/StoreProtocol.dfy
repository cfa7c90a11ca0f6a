/**
 The store as a transition system: commits to the log by this node and by others, refreshes
 of the local view of the log, optimize runs that bring the quad tables forward, and
 snapshots that read the tables first and the log version second. Steps of any number of
 optimize runs and snapshots interleave.

 A table is consistent at a log version if it agrees with the replayed log on every quad
 that no later commit (up to that version) touches. This is weaker than holding exactly
 the quads of its own version, and it is what survives when optimize runs overlap.
 */
module StoreProtocol {
  import opened Basics
  import opened Quads
  import opened OperationLog
  import opened DeltaLog

  datatype Table = Table(version: nat, quads: set<Quad>)

  datatype Optimizer =
    | Scanning(seen: seq<nat>)
    | Updating(seen: seq<nat>, start: nat, end: nat, changeset: Changeset, next: nat)
    | Finished
    | VersionError

  datatype Snapshot =
    | Reading(tables: seq<Table>)
    | Taken(tables: seq<Table>, version: nat)

  datatype Store = Store(
    /** The commits in the object store; commit 0 creates the log. */
    log: seq<seq<Op>>,
    /** The version of the local view of the log. */
    localVersion: nat,
    tables: seq<Table>,
    optimizers: seq<Optimizer>,
    snapshots: seq<Snapshot>)

  datatype Event =
    | LocalCommit(ops: seq<Op>)
    | RemoteCommit(ops: seq<Op>)
    | Refresh(version: nat)
    | BeginOptimize
    | OptimizeReadTable(id: nat)
    | OptimizeReadLog(id: nat, changeset: Changeset)
    | OptimizeTable(id: nat)
    | BeginSnapshot
    | SnapshotReadTable(id: nat)
    | SnapshotReadLog(id: nat)

  function Min(versions: seq<nat>): (m: nat)
    requires versions != []
    ensures m in versions && forall v | v in versions :: m <= v
  {
    if |versions| == 1 then versions[0]
    else
      var m := Min(versions[1..]);
      assert versions == [versions[0]] + versions[1..];
      if versions[0] < m then versions[0] else m
  }

  ghost predicate Initial(s: Store) {
    && s.log == [[]] && s.localVersion == 0
    && (forall i :: 0 <= i < |s.tables| ==> s.tables[i] == Table(0, {}))
    && s.optimizers == [] && s.snapshots == []
  }

  ghost predicate Enabled(s: Store, e: Event) {
    match e
    case LocalCommit(_) => true
    case RemoteCommit(_) => true
    case Refresh(version) => s.localVersion <= version < |s.log|
    case BeginOptimize => s.tables != []
    case OptimizeReadTable(id) =>
      id < |s.optimizers| && s.optimizers[id].Scanning? && |s.optimizers[id].seen| < |s.tables|
    case OptimizeReadLog(id, changeset) =>
      && id < |s.optimizers| && s.optimizers[id].Scanning?
      && |s.optimizers[id].seen| == |s.tables| > 0
      && (Min(s.optimizers[id].seen) < s.localVersion < |s.log| ==>
            Represents(changeset, OpsBetween(s.log, Min(s.optimizers[id].seen), s.localVersion)))
    case OptimizeTable(id) =>
      id < |s.optimizers| && s.optimizers[id].Updating? && s.optimizers[id].next < |s.tables|
      && |s.optimizers[id].seen| == |s.tables|
    case BeginSnapshot => true
    case SnapshotReadTable(id) =>
      id < |s.snapshots| && s.snapshots[id].Reading? && |s.snapshots[id].tables| < |s.tables|
    case SnapshotReadLog(id) =>
      id < |s.snapshots| && s.snapshots[id].Reading? && |s.snapshots[id].tables| == |s.tables|
  }

  /** The optimize run once it has read all tables and then the log version. */
  function Decide(seen: seq<nat>, localVersion: nat, changeset: Changeset): Optimizer
    requires seen != []
  {
    var min := Min(seen);
    if localVersion < min then VersionError
    else if localVersion == min then Finished
    else Updating(seen, min, localVersion, changeset, 0)
  }

  function Next(s: Store, e: Event): Store
    requires Enabled(s, e)
  {
    match e
    case LocalCommit(ops) => s.(log := s.log + [ops], localVersion := |s.log|)
    case RemoteCommit(ops) => s.(log := s.log + [ops])
    case Refresh(version) => s.(localVersion := version)
    case BeginOptimize => s.(optimizers := s.optimizers + [Scanning([])])
    case OptimizeReadTable(id) =>
      var o := s.optimizers[id];
      s.(optimizers := s.optimizers[id := Scanning(o.seen + [s.tables[|o.seen|].version])])
    case OptimizeReadLog(id, changeset) =>
      s.(optimizers := s.optimizers[id := Decide(s.optimizers[id].seen, s.localVersion, changeset)])
    case OptimizeTable(id) =>
      var o := s.optimizers[id];
      var t := s.tables[o.next];
      var t' := if o.seen[o.next] == o.end then t else Table(o.end, ApplyChangeset(t.quads, o.changeset));
      var o' := if o.next + 1 == |s.tables| then Finished else o.(next := o.next + 1);
      s.(tables := s.tables[o.next := t'], optimizers := s.optimizers[id := o'])
    case BeginSnapshot => s.(snapshots := s.snapshots + [Reading([])])
    case SnapshotReadTable(id) =>
      var read := s.snapshots[id].tables;
      s.(snapshots := s.snapshots[id := Reading(read + [s.tables[|read|]])])
    case SnapshotReadLog(id) =>
      s.(snapshots := s.snapshots[id := Taken(s.snapshots[id].tables, s.localVersion)])
  }

  // ----- The replayed state and quads that a range of commits leaves alone

  /** The quads stored at a log version. */
  function StateAt(log: seq<seq<Op>>, version: nat): set<Quad>
    requires version < |log|
  {
    Replay({}, OpsBetween(log, 0, version))
  }

  /** No commit from `low` to before `high` touches the quad. */
  ghost predicate Quiet(log: seq<seq<Op>>, low: nat, high: nat, q: Quad)
    requires high <= |log|
  {
    forall k :: low <= k < high ==> LastTouch(log[k], q).Untouched?
  }

  lemma {:induction false} QuietIff(log: seq<seq<Op>>, low: nat, high: nat, q: Quad)
    requires low <= high <= |log|
    ensures LastTouch(Flatten(log[low..high]), q).Untouched? <==> Quiet(log, low, high, q)
    decreases high - low
  {
    if low < high {
      assert log[low..high] == [log[low]] + log[low + 1..high];
      QuietIff(log, low + 1, high, q);
      LastTouchConcat(log[low], Flatten(log[low + 1..high]), q);
      if Quiet(log, low + 1, high, q) && LastTouch(log[low], q).Untouched? {
        assert Quiet(log, low, high, q);
      }
    }
  }

  lemma StateSplit(log: seq<seq<Op>>, early: nat, late: nat)
    requires early <= late < |log|
    ensures StateAt(log, late) == Replay(StateAt(log, early), Flatten(log[early + 1..late + 1]))
  {
    assert log[0..late + 1] == log[0..early + 1] + log[early + 1..late + 1];
    FlattenConcat(log[0..early + 1], log[early + 1..late + 1]);
    ReplayConcat({}, Flatten(log[0..early + 1]), Flatten(log[early + 1..late + 1]));
  }

  lemma QuietKeepsQuad(log: seq<seq<Op>>, early: nat, late: nat, q: Quad)
    requires early <= late < |log| && Quiet(log, early + 1, late + 1, q)
    ensures q in StateAt(log, early) <==> q in StateAt(log, late)
  {
    StateSplit(log, early, late);
    QuietIff(log, early + 1, late + 1, q);
    ReplayByLastTouch(StateAt(log, early), Flatten(log[early + 1..late + 1]), q);
  }

  /** A range of commits that touches a quad decides it. */
  lemma LoudRangeDecides(log: seq<seq<Op>>, start: nat, end: nat, q: Quad)
    requires start <= end < |log| && !LastTouch(OpsBetween(log, start, end), q).Untouched?
    ensures q in StateAt(log, end) <==> LastTouch(OpsBetween(log, start, end), q).Present?
  {
    if start == 0 {
      ReplayByLastTouch({}, OpsBetween(log, 0, end), q);
    } else {
      StateSplit(log, start - 1, end);
      ReplayByLastTouch(StateAt(log, start - 1), OpsBetween(log, start, end), q);
    }
  }

  // ----- Consistency of tables

  ghost predicate Consistent(log: seq<seq<Op>>, t: Table, limit: nat)
    requires limit < |log|
  {
    && t.version <= limit
    && forall q: Quad :: Quiet(log, t.version + 1, limit + 1, q) ==>
         (q in t.quads <==> q in StateAt(log, t.version))
  }

  lemma ConsistentLater(log: seq<seq<Op>>, t: Table, limit: nat, limit': nat)
    requires limit <= limit' < |log| && Consistent(log, t, limit)
    ensures Consistent(log, t, limit')
  {
    forall q: Quad | Quiet(log, t.version + 1, limit' + 1, q)
      ensures q in t.quads <==> q in StateAt(log, t.version)
    {
      assert Quiet(log, t.version + 1, limit + 1, q);
    }
  }

  lemma ConsistentGrownLog(log: seq<seq<Op>>, ops: seq<Op>, t: Table, limit: nat)
    requires limit < |log| && Consistent(log, t, limit)
    ensures Consistent(log + [ops], t, limit)
  {
    assert (log + [ops])[0..t.version + 1] == log[0..t.version + 1];
    forall q: Quad | Quiet(log + [ops], t.version + 1, limit + 1, q)
      ensures q in t.quads <==> q in StateAt(log, t.version)
    {
      assert forall k :: t.version + 1 <= k < limit + 1 ==> (log + [ops])[k] == log[k];
      assert Quiet(log, t.version + 1, limit + 1, q);
    }
  }

  function Updated(t: Table, end: nat, cs: Changeset): Table {
    Table(end, ApplyChangeset(t.quads, cs))
  }

  /**
   Applying the changeset of `start..end` to a table that is not older than the commit
   before `start` gives a consistent table at `end`, even if the table is newer than `end`.
   */
  lemma UpdateKeepsConsistent(log: seq<seq<Op>>, t: Table, start: nat, end: nat, cs: Changeset, limit: nat)
    requires limit < |log| && Consistent(log, t, limit)
    requires start <= end <= limit && Represents(cs, OpsBetween(log, start, end))
    requires start <= t.version + 1
    ensures Consistent(log, Updated(t, end, cs), limit)
  {
    forall q: Quad | Quiet(log, end + 1, limit + 1, q)
      ensures q in ApplyChangeset(t.quads, cs) <==> q in StateAt(log, end)
    {
      assert Effect(cs, q) == LastTouch(OpsBetween(log, start, end), q);
      if LastTouch(OpsBetween(log, start, end), q).Untouched? {
        QuietIff(log, start, end + 1, q);
        assert Quiet(log, t.version + 1, limit + 1, q);
        if t.version <= end {
          QuietKeepsQuad(log, t.version, end, q);
        } else {
          QuietKeepsQuad(log, end, t.version, q);
        }
      } else {
        LoudRangeDecides(log, start, end, q);
      }
    }
  }

  ghost predicate UpdateIsRight(log: seq<seq<Op>>, t: Table, start: nat, end: nat, cs: Changeset, limit: nat) {
    (limit < |log| && start <= end <= limit && Consistent(log, t, limit)
     && Represents(cs, OpsBetween(log, start, end))) ==> Consistent(log, Updated(t, end, cs), limit)
  }

  /** A log of `n + 1` commits whose only operation, an insertion, is in commit `at`. */
  function OneInsertion(n: nat, at: nat, q: Quad): (log: seq<seq<Op>>)
    ensures |log| == n + 1
  {
    seq(n + 1, k => if k == at then [InsertQuad(q)] else [])
  }

  lemma OneInsertionState(n: nat, at: nat, q: Quad, version: nat)
    requires 0 < at <= n && version <= n
    ensures q in StateAt(OneInsertion(n, at, q), version) <==> at <= version
  {
    var log := OneInsertion(n, at, q);
    if version < at {
      QuietIff(log, 0, version + 1, q);
      ReplayByLastTouch({}, OpsBetween(log, 0, version), q);
    } else {
      assert log[at..at + 1] == [[InsertQuad(q)]];
      FlattenSingleton([InsertQuad(q)]);
      LoudRangeDecides(log, at, at, q);
      QuietKeepsQuad(log, at, version, q);
    }
  }

  /** The versions for which an update is right whatever the log and the table hold. */
  lemma UpdateRightIff(version: nat, start: nat, end: nat, limit: nat)
    requires version <= limit && start <= end <= limit
    ensures start <= version + 1 <==>
            forall log, quads, cs :: UpdateIsRight(log, Table(version, quads), start, end, cs, limit)
  {
    if start <= version + 1 {
      forall log, quads, cs ensures UpdateIsRight(log, Table(version, quads), start, end, cs, limit) {
        if limit < |log| && Consistent(log, Table(version, quads), limit)
           && Represents(cs, OpsBetween(log, start, end)) {
          UpdateKeepsConsistent(log, Table(version, quads), start, end, cs, limit);
        }
      }
    } else {
      var q := Quad(None, 0, 0, 0);
      var log := OneInsertion(limit, version + 1, q);
      var cs := Changeset({}, {}, {}, {}, {});
      var t := Table(version, {});
      forall r: Quad | Quiet(log, version + 1, limit + 1, r)
        ensures r !in StateAt(log, version)
      {
        assert Quiet(log, 0, version + 1, r);
        QuietIff(log, 0, version + 1, r);
        ReplayByLastTouch({}, OpsBetween(log, 0, version), r);
      }
      assert Consistent(log, t, limit);
      forall r: Quad ensures Effect(cs, r) == LastTouch(OpsBetween(log, start, end), r) {
        assert Quiet(log, start, end + 1, r);
        QuietIff(log, start, end + 1, r);
      }
      OneInsertionState(limit, version + 1, q, end);
      assert Quiet(log, end + 1, limit + 1, q);
      assert !Consistent(log, Updated(t, end, cs), limit);
      assert !UpdateIsRight(log, Table(version, {}), start, end, cs, limit);
    }
  }

  // ----- Scans of a snapshot

  /** What a scan of a snapshot's table returns, the changeset being any that it computes. */
  ghost predicate IsScan(log: seq<seq<Op>>, t: Table, version: nat, result: set<Quad>)
    requires t.version <= version < |log|
  {
    if t.version == version then result == t.quads
    else exists cs :: Represents(cs, OpsBetween(log, t.version, version)) && result == ApplyChangeset(t.quads, cs)
  }

  /** Whichever table is scanned, the answer is the replayed log. */
  lemma ScanIsReplay(log: seq<seq<Op>>, t: Table, version: nat, result: set<Quad>)
    requires version < |log| && Consistent(log, t, version) && IsScan(log, t, version, result)
    ensures result == StateAt(log, version)
  {
    if t.version == version {
      forall q: Quad ensures q in result <==> q in StateAt(log, version) {
        assert Quiet(log, t.version + 1, version + 1, q);
      }
    } else {
      var cs :| Represents(cs, OpsBetween(log, t.version, version)) && result == ApplyChangeset(t.quads, cs);
      UpdateKeepsConsistent(log, t, t.version, version, cs, version);
      forall q: Quad ensures q in result <==> q in StateAt(log, version) {
        assert Quiet(log, version + 1, version + 1, q);
      }
    }
  }

  /**
   Read your own writes: the changeset of the whole log up to the base version and the
   pending operations may be overlaid on a table of any version up to the base version.
   */
  lemma TransactionScanIsReplay(log: seq<seq<Op>>, t: Table, base: nat, pending: seq<Op>, cs: Changeset)
    requires base < |log| && Consistent(log, t, base)
    requires Represents(cs, OpsBetween(log, 0, base) + pending)
    ensures ApplyChangeset(t.quads, cs) == Replay(StateAt(log, base), pending)
  {
    var ops := OpsBetween(log, 0, base) + pending;
    forall q: Quad | LastTouch(ops, q).Untouched?
      ensures q in t.quads <==> q in {}
    {
      LastTouchConcat(OpsBetween(log, 0, base), pending, q);
      QuietIff(log, 0, base + 1, q);
      assert Quiet(log, t.version + 1, base + 1, q);
      assert Quiet(log, 0, t.version + 1, q);
      QuietIff(log, 0, t.version + 1, q);
      ReplayByLastTouch({}, OpsBetween(log, 0, t.version), q);
    }
    OverlapIsHarmless(t.quads, {}, ops, cs);
    ReplayConcat({}, OpsBetween(log, 0, base), pending);
  }

  // ----- Runs

  ghost predicate Inv(s: Store) {
    && |s.log| >= 1 && s.localVersion < |s.log|
    && (forall i :: 0 <= i < |s.tables| ==> Consistent(s.log, s.tables[i], s.localVersion))
    && (forall i :: 0 <= i < |s.optimizers| ==> OptimizerInv(s, s.optimizers[i]))
    && (forall i :: 0 <= i < |s.snapshots| ==> SnapshotInv(s, s.snapshots[i]))
  }

  ghost predicate OptimizerInv(s: Store, o: Optimizer)
    requires s.localVersion < |s.log|
  {
    match o
    case Scanning(seen) => |seen| <= |s.tables| && forall i :: 0 <= i < |seen| ==> seen[i] <= s.localVersion
    case Updating(seen, start, end, changeset, next) =>
      && |seen| == |s.tables| && next < |s.tables|
      && start <= end <= s.localVersion
      && Represents(changeset, OpsBetween(s.log, start, end))
      && (forall i :: 0 <= i < |seen| ==> start <= seen[i] <= end)
    case Finished => true
    case VersionError => false
  }

  ghost predicate SnapshotInv(s: Store, snapshot: Snapshot)
    requires s.localVersion < |s.log|
  {
    var limit := if snapshot.Taken? then snapshot.version else s.localVersion;
    && limit <= s.localVersion
    && forall i :: 0 <= i < |snapshot.tables| ==> Consistent(s.log, snapshot.tables[i], limit)
  }

  /** An optimize run updates a table that has not fallen behind the changeset's start. */
  ghost predicate Guarded(s: Store, e: Event)
    requires Enabled(s, e)
  {
    e.OptimizeTable? ==>
      var o := s.optimizers[e.id];
      o.start <= s.tables[o.next].version + 1
  }

  lemma GrowKeepsInv(s: Store, ops: seq<Op>, localVersion: nat)
    requires Inv(s) && s.localVersion <= localVersion <= |s.log|
    ensures Inv(s.(log := s.log + [ops], localVersion := localVersion))
  {
    var s' := s.(log := s.log + [ops], localVersion := localVersion);
    forall t: Table, limit: nat | limit <= s.localVersion && Consistent(s.log, t, limit)
      ensures Consistent(s'.log, t, limit)
    {
      ConsistentGrownLog(s.log, ops, t, limit);
    }
    LaterKeepsInv(s.(log := s'.log), localVersion) by {
      forall i | 0 <= i < |s.optimizers| ensures OptimizerInv(s.(log := s'.log), s.optimizers[i]) {
        assert OptimizerInv(s, s.optimizers[i]);
        if s.optimizers[i].Updating? {
          OpsOfLongerLog(s.log, ops, s.optimizers[i].start, s.optimizers[i].end);
        }
      }
      forall i | 0 <= i < |s.snapshots| ensures SnapshotInv(s.(log := s'.log), s.snapshots[i]) {
        assert SnapshotInv(s, s.snapshots[i]);
      }
    }
  }

  lemma LaterKeepsInv(s: Store, localVersion: nat)
    requires Inv(s) && s.localVersion <= localVersion < |s.log|
    ensures Inv(s.(localVersion := localVersion))
  {
    var s' := s.(localVersion := localVersion);
    forall t: Table | Consistent(s.log, t, s.localVersion)
      ensures Consistent(s.log, t, localVersion)
    {
      ConsistentLater(s.log, t, s.localVersion, localVersion);
    }
    forall i | 0 <= i < |s.optimizers| ensures OptimizerInv(s', s.optimizers[i]) {
      assert OptimizerInv(s, s.optimizers[i]);
    }
    forall i | 0 <= i < |s.snapshots| ensures SnapshotInv(s', s.snapshots[i]) {
      assert SnapshotInv(s, s.snapshots[i]);
    }
  }

  lemma OptimizeTableKeepsInv(s: Store, e: Event)
    requires Inv(s) && e.OptimizeTable? && Enabled(s, e) && Guarded(s, e)
    ensures Inv(Next(s, e))
  {
    var o := s.optimizers[e.id];
    assert OptimizerInv(s, o);
    UpdateKeepsConsistent(s.log, s.tables[o.next], o.start, o.end, o.changeset, s.localVersion);
    OthersKeepInv(s, Next(s, e));
  }

  lemma OptimizeReadKeepsInv(s: Store, e: Event)
    requires Inv(s) && (e.OptimizeReadTable? || e.OptimizeReadLog?) && Enabled(s, e)
    ensures Inv(Next(s, e))
  {
    var s', seen := Next(s, e), s.optimizers[e.id].seen;
    assert OptimizerInv(s, s.optimizers[e.id]);
    if e.OptimizeReadTable? {
      assert Consistent(s.log, s.tables[|seen|], s.localVersion);
    } else {
      assert forall i :: 0 <= i < |seen| ==> seen[i] in seen;
    }
    assert OptimizerInv(s', s'.optimizers[e.id]);
    OthersKeepInv(s, s');
  }

  lemma SnapshotReadKeepsInv(s: Store, e: Event)
    requires Inv(s) && (e.SnapshotReadTable? || e.SnapshotReadLog?) && Enabled(s, e)
    ensures Inv(Next(s, e))
  {
    assert SnapshotInv(s, s.snapshots[e.id]);
    OthersKeepInv(s, Next(s, e));
  }

  /** Every guarded step keeps every table and every snapshot consistent. */
  lemma StepKeepsInv(s: Store, e: Event)
    requires Inv(s) && Enabled(s, e) && Guarded(s, e)
    ensures Inv(Next(s, e))
  {
    match e {
      case LocalCommit(ops) => GrowKeepsInv(s, ops, |s.log|);
      case RemoteCommit(ops) => GrowKeepsInv(s, ops, s.localVersion);
      case Refresh(version) => LaterKeepsInv(s, version);
      case OptimizeTable(_) => OptimizeTableKeepsInv(s, e);
      case OptimizeReadTable(_) => OptimizeReadKeepsInv(s, e);
      case OptimizeReadLog(_, _) => OptimizeReadKeepsInv(s, e);
      case SnapshotReadTable(_) => SnapshotReadKeepsInv(s, e);
      case SnapshotReadLog(_) => SnapshotReadKeepsInv(s, e);
      case BeginOptimize => OthersKeepInv(s, Next(s, e));
      case BeginSnapshot => OthersKeepInv(s, Next(s, e));
    }
  }

  /** Optimize runs and snapshots that a step leaves alone keep their invariants. */
  lemma OthersKeepInv(s: Store, s': Store)
    requires Inv(s) && s'.log == s.log && s'.localVersion == s.localVersion && |s'.tables| == |s.tables|
    requires forall i :: 0 <= i < |s'.tables| ==> Consistent(s'.log, s'.tables[i], s'.localVersion)
    requires forall i :: 0 <= i < |s'.optimizers| ==>
      OptimizerInv(s', s'.optimizers[i]) || (i < |s.optimizers| && s'.optimizers[i] == s.optimizers[i])
    requires forall i :: 0 <= i < |s'.snapshots| ==>
      SnapshotInv(s', s'.snapshots[i]) || (i < |s.snapshots| && s'.snapshots[i] == s.snapshots[i])
    ensures Inv(s')
  {
    forall i | 0 <= i < |s'.optimizers| ensures OptimizerInv(s', s'.optimizers[i]) {
      if i < |s.optimizers| {
        assert OptimizerInv(s, s.optimizers[i]);
      }
    }
    forall i | 0 <= i < |s'.snapshots| ensures SnapshotInv(s', s'.snapshots[i]) {
      if i < |s.snapshots| {
        assert SnapshotInv(s, s.snapshots[i]);
      }
    }
  }

  ghost predicate IsRun(states: seq<Store>, events: seq<Event>) {
    && |states| == |events| + 1
    && Initial(states[0])
    && forall i :: 0 <= i < |events| ==> Enabled(states[i], events[i]) && states[i + 1] == Next(states[i], events[i])
  }

  ghost predicate IsGuardedRun(states: seq<Store>, events: seq<Event>) {
    IsRun(states, events) && forall i :: 0 <= i < |events| ==> Guarded(states[i], events[i])
  }

  lemma {:induction false} RunKeepsInv(states: seq<Store>, events: seq<Event>, i: nat)
    requires IsGuardedRun(states, events) && i < |states|
    ensures Inv(states[i])
  {
    if i == 0 {
      var s := states[0];
      FlattenSingleton<Op>([]);
      assert s.log[0..1] == [[]];
    } else {
      RunKeepsInv(states, events, i - 1);
      assert Guarded(states[i - 1], events[i - 1]);
      StepKeepsInv(states[i - 1], events[i - 1]);
    }
  }

  /**
   In every guarded run, at every moment, a scan of any table of any snapshot returns the
   replay of the log up to the snapshot's version.
   */
  lemma EveryScanIsReplay(states: seq<Store>, events: seq<Event>, i: nat, id: nat, table: nat, result: set<Quad>)
    requires IsGuardedRun(states, events) && i < |states|
    requires id < |states[i].snapshots| && states[i].snapshots[id].Taken?
    requires table < |states[i].snapshots[id].tables|
    ensures var snapshot := states[i].snapshots[id];
            snapshot.tables[table].version <= snapshot.version < |states[i].log| &&
            (IsScan(states[i].log, snapshot.tables[table], snapshot.version, result) ==>
               result == StateAt(states[i].log, snapshot.version))
  {
    RunKeepsInv(states, events, i);
    var snapshot := states[i].snapshots[id];
    assert SnapshotInv(states[i], snapshot);
    if IsScan(states[i].log, snapshot.tables[table], snapshot.version, result) {
      ScanIsReplay(states[i].log, snapshot.tables[table], snapshot.version, result);
    }
  }

  /**
   In every guarded run, a transaction that takes any snapshot as its base reads its own
   writes from any table of the snapshot.
   */
  lemma EveryTransactionScanIsReplay(states: seq<Store>, events: seq<Event>, i: nat, id: nat, table: nat,
                                     pending: seq<Op>, cs: Changeset)
    requires IsGuardedRun(states, events) && i < |states|
    requires id < |states[i].snapshots| && states[i].snapshots[id].Taken?
    requires table < |states[i].snapshots[id].tables|
    ensures var snapshot := states[i].snapshots[id];
            snapshot.version < |states[i].log| &&
            (Represents(cs, OpsBetween(states[i].log, 0, snapshot.version) + pending) ==>
               ApplyChangeset(snapshot.tables[table].quads, cs)
                   == Replay(StateAt(states[i].log, snapshot.version), pending))
  {
    RunKeepsInv(states, events, i);
    var snapshot := states[i].snapshots[id];
    assert SnapshotInv(states[i], snapshot);
    if Represents(cs, OpsBetween(states[i].log, 0, snapshot.version) + pending) {
      TransactionScanIsReplay(states[i].log, snapshot.tables[table], snapshot.version, pending, cs);
    }
  }

  // ----- Versions, in every run

  ghost predicate OptimizerVersions(s: Store, o: Optimizer) {
    match o
    case Scanning(seen) => |seen| <= |s.tables| && forall i :: 0 <= i < |seen| ==> seen[i] <= s.localVersion
    case Updating(_, _, end, _, _) => end <= s.localVersion
    case Finished => true
    case VersionError => false
  }

  ghost predicate SnapshotVersions(s: Store, snapshot: Snapshot) {
    var limit := if snapshot.Taken? then snapshot.version else s.localVersion;
    limit <= s.localVersion && forall i :: 0 <= i < |snapshot.tables| ==> snapshot.tables[i].version <= limit
  }

  ghost predicate VersionInv(s: Store) {
    && s.localVersion < |s.log|
    && (forall i :: 0 <= i < |s.tables| ==> s.tables[i].version <= s.localVersion)
    && (forall i :: 0 <= i < |s.optimizers| ==> OptimizerVersions(s, s.optimizers[i]))
    && (forall i :: 0 <= i < |s.snapshots| ==> SnapshotVersions(s, s.snapshots[i]))
  }

  lemma StepKeepsVersions(s: Store, e: Event)
    requires VersionInv(s) && Enabled(s, e)
    ensures VersionInv(Next(s, e))
  {
    var s' := Next(s, e);
    forall i | 0 <= i < |s'.optimizers| ensures OptimizerVersions(s', s'.optimizers[i]) {
      if i < |s.optimizers| {
        assert OptimizerVersions(s, s.optimizers[i]);
      }
    }
    forall i | 0 <= i < |s'.snapshots| ensures SnapshotVersions(s', s'.snapshots[i]) {
      if i < |s.snapshots| {
        assert SnapshotVersions(s, s.snapshots[i]);
      }
    }
  }

  lemma {:induction false} RunKeepsVersions(states: seq<Store>, events: seq<Event>, i: nat)
    requires IsRun(states, events) && i < |states|
    ensures VersionInv(states[i])
  {
    if i > 0 {
      RunKeepsVersions(states, events, i - 1);
      assert Enabled(states[i - 1], events[i - 1]) && states[i] == Next(states[i - 1], events[i - 1]);
      StepKeepsVersions(states[i - 1], events[i - 1]);
    }
  }

  /**
   In every run, however optimize runs overlap, no table of a snapshot is newer than the
   snapshot's log version, so a scan never fails for an older target version.
   */
  lemma SnapshotTablesAreOlder(states: seq<Store>, events: seq<Event>, i: nat, id: nat, table: nat)
    requires IsRun(states, events) && i < |states|
    requires id < |states[i].snapshots| && states[i].snapshots[id].Taken?
    requires table < |states[i].snapshots[id].tables|
    ensures states[i].snapshots[id].tables[table].version <= states[i].snapshots[id].version < |states[i].log|
  {
    RunKeepsVersions(states, events, i);
    assert SnapshotVersions(states[i], states[i].snapshots[id]);
  }

  /** In every run no optimize run finds all tables newer than the log. */
  lemma NoVersionError(states: seq<Store>, events: seq<Event>, i: nat, id: nat)
    requires IsRun(states, events) && i < |states| && id < |states[i].optimizers|
    ensures !states[i].optimizers[id].VersionError?
  {
    RunKeepsVersions(states, events, i);
    assert OptimizerVersions(states[i], states[i].optimizers[id]);
  }

  // ----- Commits that conflict

  /** The store holds a commit that the local view does not include, so a reading transaction fails. */
  predicate StoreAhead(s: Store) {
    s.localVersion + 1 < |s.log|
  }

  /** Every commit that the local view lacks was made by another node. */
  lemma {:induction false} UnseenCommitIsRemote(states: seq<Store>, events: seq<Event>, i: nat, version: nat)
    returns (j: nat)
    requires IsRun(states, events) && i < |states| && states[i].localVersion < version < |states[i].log|
    ensures j < i && events[j].RemoteCommit? && |states[j].log| == version
  {
    var before, e := states[i - 1], events[i - 1];
    assert Enabled(before, e) && states[i] == Next(before, e);
    if e.RemoteCommit? && version == |before.log| {
      j := i - 1;
    } else {
      j := UnseenCommitIsRemote(states, events, i - 1, version);
    }
  }

  /**
   In every run in which only this node commits, no transaction conflicts, however old the
   snapshot is that it read.
   */
  lemma LocalCommitsNeverConflict(states: seq<Store>, events: seq<Event>, i: nat)
    requires IsRun(states, events) && i < |states| && forall j :: 0 <= j < i ==> !events[j].RemoteCommit?
    ensures !StoreAhead(states[i])
  {
    if StoreAhead(states[i]) {
      var j := UnseenCommitIsRemote(states, events, i, states[i].localVersion + 1);
      assert false;
    }
  }

  /** A commit of another node makes every reading transaction fail until the view is refreshed. */
  lemma RemoteCommitConflicts(states: seq<Store>, events: seq<Event>, i: nat)
    requires IsRun(states, events) && i < |events| && events[i].RemoteCommit?
    ensures StoreAhead(states[i + 1])
  {
    RunKeepsVersions(states, events, i);
    assert states[i + 1] == Next(states[i], events[i]);
  }
}
