/**
 What runs of the store bring about: the log holds the commits that were made, snapshots are
 recent, and snapshots and optimize runs that nothing disturbs reach their end.
 */
module StoreHistory {
  import opened Basics
  import opened OperationLog
  import opened DeltaLog
  import opened StoreProtocol

  // ----- What the log and the snapshots hold, in every run

  /** The operations of the commits among the events, in order. */
  function CommittedOps(events: seq<Event>): seq<seq<Op>> {
    if events == [] then []
    else
      var last := events[|events| - 1];
      CommittedOps(events[..|events| - 1]) + if last.LocalCommit? || last.RemoteCommit? then [last.ops] else []
  }

  /** The log holds exactly the commits that were made, after the one that created it. */
  lemma {:induction false} LogIsCommits(states: seq<Store>, events: seq<Event>, i: nat)
    requires IsRun(states, events) && i < |states|
    ensures states[i].log == [[]] + CommittedOps(events[..i])
  {
    if i > 0 {
      LogIsCommits(states, events, i - 1);
      assert states[i] == Next(states[i - 1], events[i - 1]);
      assert events[..i][..i - 1] == events[..i - 1];
    }
  }

  /** The local view never goes backwards, the log only grows, and there are always the same tables. */
  lemma {:induction false} ViewGrows(states: seq<Store>, events: seq<Event>, i: nat, j: nat)
    requires IsRun(states, events) && i <= j < |states|
    ensures states[i].localVersion <= states[j].localVersion && |states[i].tables| == |states[j].tables|
    ensures |states[i].snapshots| <= |states[j].snapshots| && states[i].log <= states[j].log
    decreases j - i
  {
    if i < j {
      ViewGrows(states, events, i, j - 1);
      RunKeepsVersions(states, events, j - 1);
      assert Enabled(states[j - 1], events[j - 1]) && states[j] == Next(states[j - 1], events[j - 1]);
    }
  }

  /** A local commit and a refresh move the local view to their version. */
  lemma ViewAfter(states: seq<Store>, events: seq<Event>, j: nat)
    requires IsRun(states, events) && j < |events|
    ensures events[j].LocalCommit? ==>
              states[j + 1].localVersion == |states[j].log| && states[j + 1].log == states[j].log + [events[j].ops]
    ensures events[j].Refresh? ==> states[j + 1].localVersion == events[j].version
  {
    assert states[j + 1] == Next(states[j], events[j]);
  }

  /**
   A snapshot in progress at state `i` that began with event `b`: each table it has read was
   the store's at some moment in between, and so was its version, once it is taken.
   */
  ghost predicate ReadSince(states: seq<Store>, b: nat, i: nat, snapshot: Snapshot)
    requires b < i < |states|
  {
    && |snapshot.tables| <= |states[b].tables|
    && (forall t | 0 <= t < |snapshot.tables| :: HeldSince(states, b, i, t, snapshot.tables[t]))
    && (snapshot.Taken? ==>
          && |snapshot.tables| == |states[b].tables|
          && exists k :: b < k < i && states[k].localVersion == snapshot.version)
  }

  /** The table was the store's `t`-th at some moment after event `b` and before state `i`. */
  ghost predicate HeldSince(states: seq<Store>, b: nat, i: nat, t: nat, table: Table)
    requires i < |states|
  {
    exists k: nat :: b < k < i && TableAt(states, k, t, table)
  }

  ghost predicate TableAt(states: seq<Store>, k: nat, t: nat, table: Table)
    requires k < |states|
  {
    t < |states[k].tables| && states[k].tables[t] == table
  }

  lemma {:induction false} SnapshotReadsSince(states: seq<Store>, events: seq<Event>, b: nat, i: nat)
    requires IsRun(states, events) && b < i < |states| && events[b].BeginSnapshot?
    ensures var id := |states[b].snapshots|;
            id < |states[i].snapshots| && ReadSince(states, b, i, states[i].snapshots[id])
    decreases i - b
  {
    var id, before, e := |states[b].snapshots|, states[i - 1], events[i - 1];
    assert Enabled(before, e) && states[i] == Next(before, e);
    if i - 1 == b {
      assert states[i].snapshots[id] == Reading([]);
    } else {
      SnapshotReadsSince(states, events, b, i - 1);
      ViewGrows(states, events, b, i - 1);
      var was, now := before.snapshots[id], states[i].snapshots[id];
      SinceLater(states, b, i - 1, was);
      SnapshotStep(before, e, id);
      if e == SnapshotReadTable(id) {
        OneMoreTableRead(states, b, i, was, now);
      } else if e == SnapshotReadLog(id) {
        assert states[i - 1].localVersion == now.version;
      }
    }
  }

  /** How a step changes a snapshot that has begun. */
  lemma SnapshotStep(s: Store, e: Event, id: nat)
    requires Enabled(s, e) && id < |s.snapshots|
    ensures id < |Next(s, e).snapshots|
    ensures var was, now := s.snapshots[id], Next(s, e).snapshots[id];
            && (e == SnapshotReadTable(id) ==>
                  |was.tables| < |s.tables| && now == Reading(was.tables + [s.tables[|was.tables|]]))
            && (e == SnapshotReadLog(id) ==> |was.tables| == |s.tables| && now == Taken(was.tables, s.localVersion))
            && (e != SnapshotReadTable(id) && e != SnapshotReadLog(id) ==> now == was)
  {
  }

  lemma OneMoreTableRead(states: seq<Store>, b: nat, i: nat, was: Snapshot, now: Snapshot)
    requires b + 1 < i < |states| && ReadSince(states, b, i, was) && now.Reading?
    requires |was.tables| < |states[i - 1].tables| == |states[b].tables|
    requires now.tables == was.tables + [states[i - 1].tables[|was.tables|]]
    ensures ReadSince(states, b, i, now)
  {
    assert TableAt(states, i - 1, |was.tables|, states[i - 1].tables[|was.tables|]);
    forall u | 0 <= u < |now.tables| ensures HeldSince(states, b, i, u, now.tables[u]) {
      if u < |was.tables| {
        assert now.tables[u] == was.tables[u];
        assert HeldSince(states, b, i, u, was.tables[u]);
      }
    }
  }

  lemma SinceLater(states: seq<Store>, b: nat, i: nat, snapshot: Snapshot)
    requires b < i < |states| - 1 && ReadSince(states, b, i, snapshot)
    ensures ReadSince(states, b, i + 1, snapshot)
  {
    forall t | 0 <= t < |snapshot.tables| ensures HeldSince(states, b, i + 1, t, snapshot.tables[t]) {
      assert HeldSince(states, b, i, t, snapshot.tables[t]);
      var k: nat :| b < k < i && TableAt(states, k, t, snapshot.tables[t]);
      assert b < k < i + 1 && TableAt(states, k, t, snapshot.tables[t]);
    }
    if snapshot.Taken? {
      var k :| b < k < i && states[k].localVersion == snapshot.version;
    }
  }

  /**
   A snapshot is recent: once taken, it has one table per store table, each as it was at
   some moment since the snapshot began, and its version is one the local view had since.
   */
  lemma SnapshotIsRecent(states: seq<Store>, events: seq<Event>, b: nat, i: nat)
    requires IsRun(states, events) && b < i < |states| && events[b].BeginSnapshot?
    requires |states[b].snapshots| < |states[i].snapshots| && states[i].snapshots[|states[b].snapshots|].Taken?
    ensures var snapshot := states[i].snapshots[|states[b].snapshots|];
            && |snapshot.tables| == |states[i].tables|
            && (forall t | 0 <= t < |states[i].tables| :: HeldSince(states, b, i, t, snapshot.tables[t]))
            && states[b].localVersion <= snapshot.version <= states[i].localVersion
  {
    SnapshotReadsSince(states, events, b, i);
    ViewGrows(states, events, b, i);
    var snapshot := states[i].snapshots[|states[b].snapshots|];
    var k :| b < k < i && states[k].localVersion == snapshot.version;
    ViewGrows(states, events, b, k);
    ViewGrows(states, events, k, i);
  }

  /** A snapshot includes every local commit and every refresh that came before it began. */
  lemma SnapshotIncludesEarlier(states: seq<Store>, events: seq<Event>, j: nat, b: nat, i: nat)
    requires IsRun(states, events) && j < b < i < |states| && events[b].BeginSnapshot?
    requires |states[b].snapshots| < |states[i].snapshots| && states[i].snapshots[|states[b].snapshots|].Taken?
    ensures var snapshot := states[i].snapshots[|states[b].snapshots|];
            && (events[j].LocalCommit? ==>
                  && |states[j].log| <= snapshot.version < |states[i].log|
                  && states[i].log[|states[j].log|] == events[j].ops)
            && (events[j].Refresh? ==> events[j].version <= snapshot.version)
  {
    SnapshotIsRecent(states, events, b, i);
    ViewAfter(states, events, j);
    ViewGrows(states, events, j + 1, b);
    ViewGrows(states, events, j + 1, i);
    RunKeepsVersions(states, events, i);
  }

  // ----- Undisturbed snapshots and optimize runs

  /** The store after the events, if each is enabled in its turn. */
  ghost function After(s: Store, events: seq<Event>): Option<Store> {
    if events == [] then Some(s)
    else
      var before, e := After(s, events[..|events| - 1]), events[|events| - 1];
      if before.Some? && Enabled(before.value, e) then Some(Next(before.value, e)) else None
  }

  lemma AfterOneMore(s: Store, events: seq<Event>, e: Event, before: Store)
    requires After(s, events) == Some(before) && Enabled(before, e)
    ensures After(s, events + [e]) == Some(Next(before, e))
  {
    var longer := events + [e];
    assert longer[..|longer| - 1] == events && longer[|longer| - 1] == e;
  }

  function Repeat(e: Event, n: nat): (r: seq<Event>)
    ensures |r| == n
  {
    seq(n, _ => e)
  }

  lemma RepeatOneMore(front: seq<Event>, e: Event, n: nat)
    requires n > 0
    ensures front + Repeat(e, n) == (front + Repeat(e, n - 1)) + [e]
  {
  }

  lemma {:induction false} SnapshotReadsTables(s: Store, n: nat)
    requires n <= |s.tables|
    ensures After(s, [BeginSnapshot] + Repeat(SnapshotReadTable(|s.snapshots|), n))
         == Some(s.(snapshots := s.snapshots + [Reading(s.tables[..n])]))
  {
    var id := |s.snapshots|;
    var read := SnapshotReadTable(id);
    if n == 0 {
      assert [BeginSnapshot] + Repeat(read, 0) == [] + [BeginSnapshot];
      AfterOneMore(s, [], BeginSnapshot, s);
    } else {
      SnapshotReadsTables(s, n - 1);
      RepeatOneMore([BeginSnapshot], read, n);
      var before := s.(snapshots := s.snapshots + [Reading(s.tables[..n - 1])]);
      AfterOneMore(s, [BeginSnapshot] + Repeat(read, n - 1), read, before);
      assert s.tables[..n] == s.tables[..n - 1] + [s.tables[n - 1]];
      assert Next(before, read).snapshots == s.snapshots + [Reading(s.tables[..n])];
    }
  }

  /** A snapshot that nothing disturbs holds the tables and the version of the store. */
  lemma UndisturbedSnapshot(s: Store)
    ensures var id := |s.snapshots|;
            After(s, [BeginSnapshot] + Repeat(SnapshotReadTable(id), |s.tables|) + [SnapshotReadLog(id)])
            == Some(s.(snapshots := s.snapshots + [Taken(s.tables, s.localVersion)]))
  {
    var id := |s.snapshots|;
    SnapshotReadsTables(s, |s.tables|);
    assert s.tables[..|s.tables|] == s.tables;
    var before := s.(snapshots := s.snapshots + [Reading(s.tables)]);
    AfterOneMore(s, [BeginSnapshot] + Repeat(SnapshotReadTable(id), |s.tables|), SnapshotReadLog(id), before);
    assert Next(before, SnapshotReadLog(id)).snapshots == s.snapshots + [Taken(s.tables, s.localVersion)];
  }

  function Versions(tables: seq<Table>): (r: seq<nat>)
    ensures |r| == |tables|
  {
    seq(|tables|, i requires 0 <= i < |tables| => tables[i].version)
  }

  lemma {:induction false} OptimizeReadsTables(s: Store, n: nat)
    requires s.tables != [] && n <= |s.tables|
    ensures After(s, [BeginOptimize] + Repeat(OptimizeReadTable(|s.optimizers|), n))
         == Some(s.(optimizers := s.optimizers + [Scanning(Versions(s.tables[..n]))]))
  {
    var id := |s.optimizers|;
    var read := OptimizeReadTable(id);
    if n == 0 {
      assert [BeginOptimize] + Repeat(read, 0) == [] + [BeginOptimize];
      AfterOneMore(s, [], BeginOptimize, s);
      assert Versions(s.tables[..0]) == [];
    } else {
      OptimizeReadsTables(s, n - 1);
      RepeatOneMore([BeginOptimize], read, n);
      var before := s.(optimizers := s.optimizers + [Scanning(Versions(s.tables[..n - 1]))]);
      AfterOneMore(s, [BeginOptimize] + Repeat(read, n - 1), read, before);
      assert Versions(s.tables[..n]) == Versions(s.tables[..n - 1]) + [s.tables[n - 1].version];
      assert Next(before, read).optimizers == s.optimizers + [Scanning(Versions(s.tables[..n]))];
    }
  }

  /** The first `n` tables have been brought to the version `end`. */
  function Forwarded(tables: seq<Table>, n: nat, end: nat, cs: Changeset): (r: seq<Table>)
    ensures |r| == |tables|
  {
    seq(|tables|, i requires 0 <= i < |tables| =>
      if i < n && tables[i].version != end then Updated(tables[i], end, cs) else tables[i])
  }

  function Running(s: Store, n: nat, cs: Changeset): Optimizer
    requires s.tables != []
  {
    if n == |s.tables| then Finished
    else Updating(Versions(s.tables), Min(Versions(s.tables)), s.localVersion, cs, n)
  }

  lemma OptimizeOneTable(s: Store, n: nat, cs: Changeset)
    requires n < |s.tables|
    ensures var id := |s.optimizers|;
            var before := s.(tables := Forwarded(s.tables, n, s.localVersion, cs),
                             optimizers := s.optimizers + [Running(s, n, cs)]);
            && Enabled(before, OptimizeTable(id))
            && Next(before, OptimizeTable(id))
               == s.(tables := Forwarded(s.tables, n + 1, s.localVersion, cs),
                     optimizers := s.optimizers + [Running(s, n + 1, cs)])
  {
    var id := |s.optimizers|;
    var before := s.(tables := Forwarded(s.tables, n, s.localVersion, cs),
                     optimizers := s.optimizers + [Running(s, n, cs)]);
    var after := Next(before, OptimizeTable(id));
    assert after.tables == Forwarded(s.tables, n + 1, s.localVersion, cs);
    assert after.optimizers == s.optimizers + [Running(s, n + 1, cs)];
  }

  /** The events of an optimize run up to the update of the first `n` tables. */
  function OptimizeEvents(s: Store, cs: Changeset, n: nat): seq<Event> {
    var id := |s.optimizers|;
    [BeginOptimize] + Repeat(OptimizeReadTable(id), |s.tables|) + [OptimizeReadLog(id, cs)]
    + Repeat(OptimizeTable(id), n)
  }

  lemma OptimizeDecides(s: Store, cs: Changeset)
    requires s.tables != [] && Min(Versions(s.tables)) < s.localVersion < |s.log|
    requires Represents(cs, OpsBetween(s.log, Min(Versions(s.tables)), s.localVersion))
    ensures After(s, OptimizeEvents(s, cs, 0)) == Some(s.(optimizers := s.optimizers + [Running(s, 0, cs)]))
  {
    var id := |s.optimizers|;
    var before := s.(optimizers := s.optimizers + [Scanning(Versions(s.tables))]);
    OptimizeReadsTables(s, |s.tables|);
    assert s.tables[..|s.tables|] == s.tables;
    DecideStep(s, before, cs);
    AfterOneMore(s, [BeginOptimize] + Repeat(OptimizeReadTable(id), |s.tables|), OptimizeReadLog(id, cs), before);
    NoUpdatesYet(s, cs);
  }

  lemma DecideStep(s: Store, before: Store, cs: Changeset)
    requires s.tables != [] && Min(Versions(s.tables)) < s.localVersion < |s.log|
    requires Represents(cs, OpsBetween(s.log, Min(Versions(s.tables)), s.localVersion))
    requires before == s.(optimizers := s.optimizers + [Scanning(Versions(s.tables))])
    ensures Enabled(before, OptimizeReadLog(|s.optimizers|, cs))
    ensures Next(before, OptimizeReadLog(|s.optimizers|, cs)) == s.(optimizers := s.optimizers + [Running(s, 0, cs)])
  {
    var after := Next(before, OptimizeReadLog(|s.optimizers|, cs));
    assert after.optimizers == s.optimizers + [Running(s, 0, cs)];
  }

  lemma NoUpdatesYet(s: Store, cs: Changeset)
    ensures var id := |s.optimizers|;
            OptimizeEvents(s, cs, 0)
            == ([BeginOptimize] + Repeat(OptimizeReadTable(id), |s.tables|)) + [OptimizeReadLog(id, cs)]
  {
    assert Repeat(OptimizeTable(|s.optimizers|), 0) == [];
  }

  lemma {:induction false} OptimizeUpdates(s: Store, cs: Changeset, n: nat)
    requires s.tables != [] && Min(Versions(s.tables)) < s.localVersion < |s.log| && n <= |s.tables|
    requires Represents(cs, OpsBetween(s.log, Min(Versions(s.tables)), s.localVersion))
    ensures After(s, OptimizeEvents(s, cs, n))
         == Some(s.(tables := Forwarded(s.tables, n, s.localVersion, cs),
                    optimizers := s.optimizers + [Running(s, n, cs)]))
  {
    if n == 0 {
      OptimizeDecides(s, cs);
      assert Forwarded(s.tables, 0, s.localVersion, cs) == s.tables;
    } else {
      OptimizeUpdates(s, cs, n - 1);
      OptimizeOneTable(s, n - 1, cs);
      var id := |s.optimizers|;
      var front := [BeginOptimize] + Repeat(OptimizeReadTable(id), |s.tables|) + [OptimizeReadLog(id, cs)];
      RepeatOneMore(front, OptimizeTable(id), n);
      var before := s.(tables := Forwarded(s.tables, n - 1, s.localVersion, cs),
                       optimizers := s.optimizers + [Running(s, n - 1, cs)]);
      AfterOneMore(s, OptimizeEvents(s, cs, n - 1), OptimizeTable(id), before);
    }
  }

  /** An optimize run that nothing disturbs brings every table to the version of the local view. */
  lemma UndisturbedOptimize(s: Store, cs: Changeset)
    requires s.tables != [] && Min(Versions(s.tables)) < s.localVersion < |s.log|
    requires Represents(cs, OpsBetween(s.log, Min(Versions(s.tables)), s.localVersion))
    ensures var end := After(s, OptimizeEvents(s, cs, |s.tables|));
            && end.Some? && |end.value.tables| == |s.tables|
            && end.value.optimizers == s.optimizers + [Finished]
            && (forall i | 0 <= i < |s.tables| :: end.value.tables[i].version == s.localVersion)
            && (forall i | 0 <= i < |s.tables| :: end.value.tables[i].quads ==
                  if s.tables[i].version == s.localVersion then s.tables[i].quads
                  else ApplyChangeset(s.tables[i].quads, cs))
  {
    OptimizeUpdates(s, cs, |s.tables|);
  }
}
