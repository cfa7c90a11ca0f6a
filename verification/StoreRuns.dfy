/**
 Runs of the store with one optimize run at a time, in which every table holds exactly the
 quads of its version; and a run with overlapping optimize runs in which one does not.
 */
module StoreRuns {
  import opened Basics
  import opened Quads
  import opened OperationLog
  import opened DeltaLog
  import opened StoreProtocol

  predicate Active(o: Optimizer) {
    o.Scanning? || o.Updating?
  }

  ghost predicate AtMostOneOptimizer(s: Store) {
    forall i, j | 0 <= i < |s.optimizers| && 0 <= j < |s.optimizers| ::
      Active(s.optimizers[i]) && Active(s.optimizers[j]) ==> i == j
  }

  ghost predicate IsSequentialRun(states: seq<Store>, events: seq<Event>) {
    IsRun(states, events) && forall i :: 0 <= i < |states| ==> AtMostOneOptimizer(states[i])
  }

  ghost predicate Exact(log: seq<seq<Op>>, t: Table) {
    t.version < |log| && t.quads == StateAt(log, t.version)
  }

  /** What the active optimize run has seen of the tables it has not updated yet still holds. */
  ghost predicate UpToDate(s: Store, o: Optimizer) {
    match o
    case Scanning(seen) =>
      |seen| <= |s.tables| && forall i :: 0 <= i < |seen| ==> seen[i] == s.tables[i].version
    case Updating(seen, _, _, _, next) =>
      |seen| == |s.tables| && forall i :: next <= i < |seen| ==> seen[i] == s.tables[i].version
    case _ => true
  }

  ghost predicate SequentialInv(s: Store) {
    && Inv(s)
    && (forall i :: 0 <= i < |s.tables| ==> Exact(s.log, s.tables[i]))
    && (forall i :: 0 <= i < |s.optimizers| ==> UpToDate(s, s.optimizers[i]))
    && (forall i, j :: 0 <= i < |s.snapshots| && 0 <= j < |s.snapshots[i].tables| ==>
          Exact(s.log, s.snapshots[i].tables[j]))
  }

  lemma ExactGrownLog(log: seq<seq<Op>>, ops: seq<Op>, t: Table)
    requires Exact(log, t)
    ensures Exact(log + [ops], t)
  {
    OpsOfLongerLog(log, ops, 0, t.version);
  }

  lemma UpdateKeepsExact(log: seq<seq<Op>>, t: Table, start: nat, end: nat, cs: Changeset)
    requires Exact(log, t) && start <= t.version <= end < |log|
    requires Represents(cs, OpsBetween(log, start, end))
    ensures Exact(log, Updated(t, end, cs))
  {
    UpdateKeepsConsistent(log, t, start, end, cs, end);
    forall q: Quad ensures q in ApplyChangeset(t.quads, cs) <==> q in StateAt(log, end) {
      assert Quiet(log, end + 1, end + 1, q);
    }
  }

  lemma SequentialStepIsGuarded(s: Store, e: Event)
    requires SequentialInv(s) && Enabled(s, e)
    ensures Guarded(s, e)
  {
    if e.OptimizeTable? {
      var o := s.optimizers[e.id];
      assert OptimizerInv(s, o) && UpToDate(s, o);
      assert o.seen[o.next] == s.tables[o.next].version;
    }
  }

  lemma SequentialStepKeepsTables(s: Store, e: Event)
    requires SequentialInv(s) && Enabled(s, e)
    ensures forall i :: 0 <= i < |Next(s, e).tables| ==> Exact(Next(s, e).log, Next(s, e).tables[i])
  {
    if e.OptimizeTable? {
      var o := s.optimizers[e.id];
      assert OptimizerInv(s, o) && UpToDate(s, o);
      assert o.seen[o.next] == s.tables[o.next].version;
      UpdateKeepsExact(s.log, s.tables[o.next], o.start, o.end, o.changeset);
    } else if e.LocalCommit? || e.RemoteCommit? {
      forall i | 0 <= i < |s.tables| ensures Exact(s.log + [e.ops], s.tables[i]) {
        ExactGrownLog(s.log, e.ops, s.tables[i]);
      }
    }
  }

  lemma SequentialStepKeepsSnapshots(s: Store, e: Event)
    requires SequentialInv(s) && Enabled(s, e)
    ensures forall i, j :: 0 <= i < |Next(s, e).snapshots| && 0 <= j < |Next(s, e).snapshots[i].tables| ==>
              Exact(Next(s, e).log, Next(s, e).snapshots[i].tables[j])
  {
    if e.LocalCommit? || e.RemoteCommit? {
      forall i, j | 0 <= i < |s.snapshots| && 0 <= j < |s.snapshots[i].tables|
        ensures Exact(s.log + [e.ops], s.snapshots[i].tables[j])
      {
        ExactGrownLog(s.log, e.ops, s.snapshots[i].tables[j]);
      }
    }
  }

  lemma SequentialStepKeepsOptimizers(s: Store, e: Event)
    requires SequentialInv(s) && Enabled(s, e) && AtMostOneOptimizer(s)
    ensures forall i :: 0 <= i < |Next(s, e).optimizers| ==> UpToDate(Next(s, e), Next(s, e).optimizers[i])
  {
    var s' := Next(s, e);
    forall i | 0 <= i < |s'.optimizers| ensures UpToDate(s', s'.optimizers[i]) {
      if i < |s.optimizers| {
        assert UpToDate(s, s.optimizers[i]);
        if e.OptimizeTable? && i != e.id {
          assert !Active(s.optimizers[i]);
        }
      }
    }
  }

  lemma {:induction false} SequentialRunKeepsInv(states: seq<Store>, events: seq<Event>, i: nat)
    requires IsSequentialRun(states, events) && i < |states|
    ensures SequentialInv(states[i])
    ensures i < |events| ==> Guarded(states[i], events[i])
  {
    if i == 0 {
      var s := states[0];
      FlattenSingleton<Op>([]);
      assert s.log[0..1] == [[]];
      assert Inv(s);
    } else {
      var s, e := states[i - 1], events[i - 1];
      SequentialRunKeepsInv(states, events, i - 1);
      assert Enabled(s, e) && states[i] == Next(s, e);
      SequentialStepIsGuarded(s, e);
      StepKeepsInv(s, e);
      SequentialStepKeepsTables(s, e);
      SequentialStepKeepsSnapshots(s, e);
      SequentialStepKeepsOptimizers(s, e);
    }
    if i < |events| {
      assert Enabled(states[i], events[i]);
      SequentialStepIsGuarded(states[i], events[i]);
    }
  }

  /** With one optimize run at a time every run is guarded, so every scan is right. */
  lemma SequentialRunIsGuarded(states: seq<Store>, events: seq<Event>)
    requires IsSequentialRun(states, events)
    ensures IsGuardedRun(states, events)
  {
    forall i | 0 <= i < |events| ensures Guarded(states[i], events[i]) {
      SequentialRunKeepsInv(states, events, i);
    }
  }

  /** With one optimize run at a time, tables of one version always hold the same quads. */
  lemma EqualVersionsEqualTables(states: seq<Store>, events: seq<Event>, i: nat, a: nat, b: nat)
    requires IsSequentialRun(states, events) && i < |states|
    requires a < |states[i].tables| && b < |states[i].tables|
    requires states[i].tables[a].version == states[i].tables[b].version
    ensures states[i].tables[a].version < |states[i].log|
    ensures states[i].tables[a].quads == states[i].tables[b].quads
            == StateAt(states[i].log, states[i].tables[a].version)
  {
    SequentialRunKeepsInv(states, events, i);
    assert Exact(states[i].log, states[i].tables[a]) && Exact(states[i].log, states[i].tables[b]);
  }

  /**
   The same for the tables of a snapshot, among which a scan chooses the ones it may switch
   to: tables of one version hold the same quads, now and at any later moment.
   */
  lemma EqualVersionsEqualSnapshotTables(states: seq<Store>, events: seq<Event>, i: nat, id: nat, a: nat, b: nat)
    requires IsSequentialRun(states, events) && i < |states| && id < |states[i].snapshots|
    requires a < |states[i].snapshots[id].tables| && b < |states[i].snapshots[id].tables|
    requires states[i].snapshots[id].tables[a].version == states[i].snapshots[id].tables[b].version
    ensures var tables := states[i].snapshots[id].tables;
            && tables[a].version < |states[i].log|
            && tables[a].quads == tables[b].quads == StateAt(states[i].log, tables[a].version)
  {
    SequentialRunKeepsInv(states, events, i);
    var tables := states[i].snapshots[id].tables;
    assert Exact(states[i].log, tables[a]) && Exact(states[i].log, tables[b]);
  }

  // ----- Overlapping optimize runs

  const NO_CHANGE := Changeset({}, {}, {}, {}, {})

  function LogOf(q: Quad): seq<seq<Op>> {
    [[], [InsertQuad(q)], [RemoveQuad(q)], [], []]
  }

  lemma ComputedChangesets(q: Quad)
    ensures Represents(NO_CHANGE.(added := {q}), OpsBetween(LogOf(q), 0, 1))
    ensures Represents(NO_CHANGE.(removed := {q}), OpsBetween(LogOf(q), 0, 3))
    ensures Represents(NO_CHANGE, OpsBetween(LogOf(q), 3, 4))
    ensures q !in StateAt(LogOf(q), 4)
  {
    var log := LogOf(q);
    assert log[0..2] == [[], [InsertQuad(q)]];
    assert OpsBetween(log, 0, 1) == [InsertQuad(q)] by {
      assert Flatten(log[0..2]) == [] + ([InsertQuad(q)] + Flatten(log[0..2][1..][1..]));
    }
    assert log[0..4] == [[], [InsertQuad(q)]] + [[RemoveQuad(q)], []];
    FlattenConcat([[], [InsertQuad(q)]], [[RemoveQuad(q)], []]);
    assert Flatten([[RemoveQuad(q)], []]) == [RemoveQuad(q)] + Flatten([[RemoveQuad(q)], []][1..]);
    assert OpsBetween(log, 0, 3) == [InsertQuad(q), RemoveQuad(q)];
    assert log[3..5] == [[], []];
    assert OpsBetween(log, 3, 4) == [];
    assert log[0..5] == log[0..4] + [[]];
    FlattenConcat(log[0..4], [[]]);
    assert OpsBetween(log, 0, 4) == [InsertQuad(q), RemoveQuad(q)];
    ReplayByLastTouch({}, [InsertQuad(q), RemoveQuad(q)], q);
    forall r: Quad
      ensures LastTouch([InsertQuad(q), RemoveQuad(q)], r) == if r == q then Gone else Untouched
    {
      assert [InsertQuad(q), RemoveQuad(q)] == [InsertQuad(q)] + [RemoveQuad(q)];
      LastTouchConcat([InsertQuad(q)], [RemoveQuad(q)], r);
      assert LastTouch([RemoveQuad(q)], r) == if r == q then Gone else Untouched;
    }
  }

  ghost predicate AtMostTwoOptimizers(s: Store) {
    forall i, j, k | 0 <= i < j < k < |s.optimizers| ::
      !(Active(s.optimizers[i]) && Active(s.optimizers[j]) && Active(s.optimizers[k]))
  }

  /** `s` reaches `last` by the given events, each enabled in its turn, with at most two runs active. */
  ghost predicate Leads(s: Store, events: seq<Event>, last: Store)
    decreases |events|
  {
    && AtMostTwoOptimizers(s)
    && if events == [] then last == s else Enabled(s, events[0]) && Leads(Next(s, events[0]), events[1..], last)
  }

  /** The states that the events lead through. */
  lemma {:induction false} LeadsThrough(s: Store, events: seq<Event>, last: Store) returns (states: seq<Store>)
    requires Leads(s, events, last)
    ensures |states| == |events| + 1 && states[0] == s && states[|events|] == last
    ensures forall i :: 0 <= i < |events| ==>
              Enabled(states[i], events[i]) && states[i + 1] == Next(states[i], events[i])
    ensures forall i :: 0 <= i < |states| ==> AtMostTwoOptimizers(states[i])
    decreases |events|
  {
    if events == [] {
      states := [s];
    } else {
      var rest := LeadsThrough(Next(s, events[0]), events[1..], last);
      states := [s] + rest;
      forall i | 0 <= i < |events|
        ensures Enabled(states[i], events[i]) && states[i + 1] == Next(states[i], events[i])
      {
        if i > 0 {
          assert states[i] == rest[i - 1] && states[i + 1] == rest[i] && events[i] == events[1..][i - 1];
        }
      }
    }
  }

  lemma {:induction false} LeadsConcat(s: Store, xs: seq<Event>, middle: Store, ys: seq<Event>, last: Store)
    requires Leads(s, xs, middle) && Leads(middle, ys, last)
    ensures Leads(s, xs + ys, last)
    decreases |xs|
  {
    if xs == [] {
      assert xs + ys == ys;
    } else {
      assert (xs + ys)[0] == xs[0] && (xs + ys)[1..] == xs[1..] + ys;
      LeadsConcat(Next(s, xs[0]), xs[1..], middle, ys, last);
    }
  }

  lemma OneStep(s: Store, e: Event, s': Store)
    requires Enabled(s, e) && s' == Next(s, e) && AtMostTwoOptimizers(s) && AtMostTwoOptimizers(s')
    ensures Leads(s, [e], s')
  {
    assert [e][1..] == [] && Leads(s', [], s');
  }

  lemma TwoSteps(s: Store, e1: Event, s1: Store, e2: Event, s2: Store)
    requires Enabled(s, e1) && s1 == Next(s, e1) && Enabled(s1, e2) && s2 == Next(s1, e2)
    requires AtMostTwoOptimizers(s) && AtMostTwoOptimizers(s1) && AtMostTwoOptimizers(s2)
    ensures Leads(s, [e1, e2], s2)
  {
    OneStep(s, e1, s1);
    OneStep(s1, e2, s2);
    LeadsConcat(s, [e1], s1, [e2], s2);
    assert [e1, e2] == [e1] + [e2];
  }

  lemma BeginReads(s: Store, s1: Store, s2: Store)
    requires |s.tables| == 1 && AtMostOneOptimizer(s)
    requires s1 == s.(optimizers := s.optimizers + [Scanning([])])
    requires s2 == s.(optimizers := s.optimizers + [Scanning([s.tables[0].version])])
    ensures Leads(s, [BeginOptimize, OptimizeReadTable(|s.optimizers|)], s2)
  {
    assert s2.optimizers == s1.optimizers[|s.optimizers| := Scanning([s.tables[0].version])];
    assert [] + [s.tables[0].version] == [s.tables[0].version];
    TwoSteps(s, BeginOptimize, s1, OptimizeReadTable(|s.optimizers|), s2);
  }

  lemma BeginDecides(s: Store, before: Store, v: nat, cs: Changeset)
    requires |s.tables| == 1 && v < s.localVersion < |s.log| && s.optimizers == before.optimizers + [Scanning([v])]
    requires AtMostOneOptimizer(before) && Represents(cs, OpsBetween(s.log, v, s.localVersion))
    ensures Leads(s, [OptimizeReadLog(|before.optimizers|, cs)],
                  s.(optimizers := before.optimizers + [Updating([v], v, s.localVersion, cs, 0)]))
  {
    var run, id := Updating([v], v, s.localVersion, cs, 0), |before.optimizers|;
    assert before.optimizers + [run] == s.optimizers[id := run];
    OneStep(s, OptimizeReadLog(id, cs), s.(optimizers := before.optimizers + [run]));
  }

  /** The first three steps of an optimize run on a store with one table. */
  lemma BeginRun(s: Store, cs: Changeset, s': Store)
    requires |s.tables| == 1 && s.tables[0].version < s.localVersion < |s.log| && AtMostOneOptimizer(s)
    requires Represents(cs, OpsBetween(s.log, s.tables[0].version, s.localVersion))
    requires var v := s.tables[0].version;
             s' == s.(optimizers := s.optimizers + [Updating([v], v, s.localVersion, cs, 0)])
    ensures Leads(s, BeginEvents(|s.optimizers|, cs), s')
  {
    var id, v := |s.optimizers|, s.tables[0].version;
    var middle := s.(optimizers := s.optimizers + [Scanning([v])]);
    BeginReads(s, s.(optimizers := s.optimizers + [Scanning([])]), middle);
    BeginDecides(middle, s, v, cs);
    LeadsConcat(s, [BeginOptimize, OptimizeReadTable(id)], middle, [OptimizeReadLog(id, cs)], s');
    assert BeginEvents(id, cs) == [BeginOptimize, OptimizeReadTable(id)] + [OptimizeReadLog(id, cs)];
  }

  function BeginEvents(id: nat, cs: Changeset): seq<Event> {
    [BeginOptimize, OptimizeReadTable(id), OptimizeReadLog(id, cs)]
  }

  /**
   Events in which three optimize runs overlap on one table. Run 0 stalls after computing
   its changeset for the versions 0 to 1. Run 1 brings the table to version 3. Run 2
   computes a changeset for 3 to 4. Then run 0 sets the table back to version 1, and run 2
   goes on from there.
   */
  function OverlappingEvents(q: Quad): seq<Event> {
    [LocalCommit([InsertQuad(q)])]
    + BeginEvents(0, NO_CHANGE.(added := {q}))
    + [LocalCommit([RemoveQuad(q)]), LocalCommit([])]
    + BeginEvents(1, NO_CHANGE.(removed := {q}))
    + [OptimizeTable(1), LocalCommit([])]
    + BeginEvents(2, NO_CHANGE)
    + [OptimizeTable(0), OptimizeTable(2)]
  }

  function Run0(q: Quad): Optimizer { Updating([0], 0, 1, NO_CHANGE.(added := {q}), 0) }

  function Run1(q: Quad): Optimizer { Updating([0], 0, 3, NO_CHANGE.(removed := {q}), 0) }

  const RUN_2 := Updating([3], 3, 4, NO_CHANGE, 0)

  /** The store between the groups of events of `OverlappingEvents`. */
  function Stage(q: Quad, k: nat): Store {
    match k
    case 0 => Store([[]], 0, [Table(0, {})], [], [])
    case 1 => Store(LogOf(q)[..2], 1, [Table(0, {})], [], [])
    case 2 => Store(LogOf(q)[..2], 1, [Table(0, {})], [Run0(q)], [])
    case 3 => Store(LogOf(q)[..4], 3, [Table(0, {})], [Run0(q)], [])
    case 4 => Store(LogOf(q)[..4], 3, [Table(0, {})], [Run0(q), Run1(q)], [])
    case 5 => Store(LogOf(q), 4, [Table(3, {})], [Run0(q), Finished], [])
    case 6 => Store(LogOf(q), 4, [Table(3, {})], [Run0(q), Finished, RUN_2], [])
    case _ => Store(LogOf(q), 4, [Table(4, {q})], [Finished, Finished, Finished], [])
  }

  lemma CommitStages(q: Quad)
    ensures Leads(Stage(q, 0), [LocalCommit([InsertQuad(q)])], Stage(q, 1))
    ensures Leads(Stage(q, 2), [LocalCommit([RemoveQuad(q)]), LocalCommit([])], Stage(q, 3))
  {
    var log := LogOf(q);
    assert log[..2] == [[]] + [[InsertQuad(q)]];
    OneStep(Stage(q, 0), LocalCommit([InsertQuad(q)]), Stage(q, 1));
    var middle := Store(log[..3], 2, [Table(0, {})], [Run0(q)], []);
    assert log[..3] == log[..2] + [[RemoveQuad(q)]] && log[..4] == log[..3] + [[]];
    TwoSteps(Stage(q, 2), LocalCommit([RemoveQuad(q)]), middle, LocalCommit([]), Stage(q, 3));
  }

  lemma BeginFirst(q: Quad)
    ensures Leads(Stage(q, 1), BeginEvents(0, NO_CHANGE.(added := {q})), Stage(q, 2))
  {
    var log := LogOf(q);
    ComputedChangesets(q);
    assert log[..2][0..2] == log[0..2];
    BeginRun(Stage(q, 1), NO_CHANGE.(added := {q}), Stage(q, 2));
  }

  lemma BeginSecond(q: Quad)
    ensures Leads(Stage(q, 3), BeginEvents(1, NO_CHANGE.(removed := {q})), Stage(q, 4))
  {
    var log := LogOf(q);
    ComputedChangesets(q);
    assert log[..4][0..4] == log[0..4];
    BeginRun(Stage(q, 3), NO_CHANGE.(removed := {q}), Stage(q, 4));
  }

  lemma BeginThird(q: Quad)
    ensures Leads(Stage(q, 5), BeginEvents(2, NO_CHANGE), Stage(q, 6))
  {
    ComputedChangesets(q);
    BeginRun(Stage(q, 5), NO_CHANGE, Stage(q, 6));
  }

  lemma UpdateStages(q: Quad)
    ensures Leads(Stage(q, 4), [OptimizeTable(1), LocalCommit([])], Stage(q, 5))
    ensures Leads(Stage(q, 6), [OptimizeTable(0), OptimizeTable(2)], Stage(q, 7))
  {
    var log := LogOf(q);
    var middle := Store(log[..4], 3, [Table(3, {})], [Run0(q), Finished], []);
    assert ApplyChangeset({}, NO_CHANGE.(removed := {q})) == {};
    assert [Table(0, {})][0 := Table(3, {})] == [Table(3, {})];
    assert [Run0(q), Run1(q)][1 := Finished] == [Run0(q), Finished];
    assert log == log[..4] + [[]];
    TwoSteps(Stage(q, 4), OptimizeTable(1), middle, LocalCommit([]), Stage(q, 5));
    var middle' := Store(log, 4, [Table(1, {q})], [Finished, Finished, RUN_2], []);
    assert ApplyChangeset({}, NO_CHANGE.(added := {q})) == {q} && ApplyChangeset({q}, NO_CHANGE) == {q};
    assert [Run0(q), Finished, RUN_2][0 := Finished] == [Finished, Finished, RUN_2];
    assert [Finished, Finished, RUN_2][2 := Finished] == [Finished, Finished, Finished];
    TwoSteps(Stage(q, 6), OptimizeTable(0), middle', OptimizeTable(2), Stage(q, 7));
  }

  /**
   Overlapping optimize runs can lose a removal: the table claims the version of the log,
   but it holds a quad that has been removed. Never more than two runs are active, so the
   bound of one in `SequentialRunIsGuarded` is tight.
   */
  lemma OverlappingOptimizeLosesRemoval(q: Quad) returns (states: seq<Store>)
    ensures IsRun(states, OverlappingEvents(q))
    ensures forall i :: 0 <= i < |states| ==> AtMostTwoOptimizers(states[i])
    ensures var last := states[|states| - 1];
            && last.tables == [Table(4, {q})] && last.localVersion == 4 && last.log == LogOf(q)
            && q !in StateAt(last.log, 4)
  {
    OverlappingLeads(q);
    RemovedAtFour(q);
    FirstAndLastStage(q);
    states := RunOf(Stage(q, 0), OverlappingEvents(q), Stage(q, 7));
  }

  lemma RunOf(s: Store, events: seq<Event>, last: Store) returns (states: seq<Store>)
    requires Initial(s) && Leads(s, events, last)
    ensures IsRun(states, events) && states[|states| - 1] == last
    ensures forall i :: 0 <= i < |states| ==> AtMostTwoOptimizers(states[i])
  {
    states := LeadsThrough(s, events, last);
  }

  lemma FirstAndLastStage(q: Quad)
    ensures Initial(Stage(q, 0))
    ensures var last := Stage(q, 7); last.tables == [Table(4, {q})] && last.localVersion == 4 && last.log == LogOf(q)
  {
  }

  lemma RemovedAtFour(q: Quad)
    ensures q !in StateAt(LogOf(q), 4)
  {
    ComputedChangesets(q);
  }

  lemma OverlappingLeads(q: Quad)
    ensures Leads(Stage(q, 0), OverlappingEvents(q), Stage(q, 7))
  {
    CommitStages(q);
    BeginFirst(q);
    BeginSecond(q);
    BeginThird(q);
    UpdateStages(q);
    Chain(Stage(q, 0), [LocalCommit([InsertQuad(q)])], Stage(q, 1), BeginEvents(0, NO_CHANGE.(added := {q})),
          Stage(q, 2),
          [LocalCommit([RemoveQuad(q)]), LocalCommit([])], Stage(q, 3), BeginEvents(1, NO_CHANGE.(removed := {q})),
          Stage(q, 4), [OptimizeTable(1), LocalCommit([])], Stage(q, 5), BeginEvents(2, NO_CHANGE), Stage(q, 6),
          [OptimizeTable(0), OptimizeTable(2)], Stage(q, 7));
  }

  lemma Chain(s0: Store, e1: seq<Event>, s1: Store, e2: seq<Event>, s2: Store, e3: seq<Event>, s3: Store,
              e4: seq<Event>, s4: Store, e5: seq<Event>, s5: Store, e6: seq<Event>, s6: Store,
              e7: seq<Event>, s7: Store)
    requires Leads(s0, e1, s1) && Leads(s1, e2, s2) && Leads(s2, e3, s3) && Leads(s3, e4, s4)
    requires Leads(s4, e5, s5) && Leads(s5, e6, s6) && Leads(s6, e7, s7)
    ensures Leads(s0, e1 + e2 + e3 + e4 + e5 + e6 + e7, s7)
  {
    LeadsConcat(s0, e1, s1, e2, s2);
    LeadsConcat(s0, e1 + e2, s2, e3, s3);
    LeadsConcat(s0, e1 + e2 + e3, s3, e4, s4);
    LeadsConcat(s0, e1 + e2 + e3 + e4, s4, e5, s5);
    LeadsConcat(s0, e1 + e2 + e3 + e4 + e5, s5, e6, s6);
    LeadsConcat(s0, e1 + e2 + e3 + e4 + e5 + e6, s6, e7, s7);
  }
}
