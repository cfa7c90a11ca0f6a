/**
 Refreshing the local view of the log, as a transition system over the steps of concurrent
 calls of `ensure_fresh`, commits by this node and by others, and changes of the maximum
 age. Every step happens at its own instant.

 The table version is the number of commits that the local view includes.
 */
module Refresh {
  import opened Basics

  type Time = nat

  /** Where a call of `ensure_fresh` that arrived at `arrival` stands. */
  datatype Phase =
    | Arrived(arrival: Time)
    | FastCheck(arrival: Time, age: nat)
    | WaitForMutex(arrival: Time, age: nat)
    | SecondCheck(arrival: Time, age: nat)
    | Stale(arrival: Time, age: nat)
    | Started(arrival: Time, age: nat, start: Time)
    | Loaded(arrival: Time, age: nat, start: Time, version: nat)
    | Replaced(arrival: Time, age: nat, start: Time)
    /** Returned, having used the given maximum age, if there was one. */
    | Returned(arrival: Time, maxAge: Option<nat>)
    | Failed(arrival: Time)

  datatype System = System(
    now: Time,
    /** The instants of the commits in the object store. */
    commits: seq<Time>,
    tableVersion: nat,
    lastSuccess: Time,
    maxAge: Option<nat>,
    mutex: Option<nat>,
    calls: seq<Phase>)

  datatype Event =
    | RemoteCommit
    | LocalCommit
    | SetMaxAge(maxAge: Option<nat>)
    | Arrive
    | Step(id: nat)
    /** Loading the table fails. */
    | Fail(id: nat)

  predicate IsFresh(last: Time, arrival: Time, age: nat) {
    last >= arrival || arrival - last <= age
  }

  predicate HoldsMutex(p: Phase) {
    p.SecondCheck? || p.Stale? || p.Started? || p.Loaded? || p.Replaced?
  }

  predicate Enabled(s: System, e: Event, at: Time) {
    && s.now < at
    && match e
       case Step(id) =>
         && id < |s.calls| && !s.calls[id].Returned? && !s.calls[id].Failed?
         && (s.calls[id].WaitForMutex? ==> s.mutex.None?)
       case Fail(id) => id < |s.calls| && s.calls[id].Started?
       case _ => true
  }

  function To(s: System, id: nat, p: Phase): System
    requires id < |s.calls|
  {
    s.(calls := s.calls[id := p])
  }

  function StepCall(s: System, id: nat): System
    requires id < |s.calls|
  {
    match s.calls[id]
    case Arrived(t) =>
      if s.maxAge.None? then To(s, id, Returned(t, None)) else To(s, id, FastCheck(t, s.maxAge.value))
    case FastCheck(t, m) =>
      To(s, id, if IsFresh(s.lastSuccess, t, m) then Returned(t, Some(m)) else WaitForMutex(t, m))
    case WaitForMutex(t, m) => To(s, id, SecondCheck(t, m)).(mutex := Some(id))
    case SecondCheck(t, m) =>
      if IsFresh(s.lastSuccess, t, m) then To(s, id, Returned(t, Some(m))).(mutex := None)
      else To(s, id, Stale(t, m))
    case Stale(t, m) => To(s, id, Started(t, m, s.now))
    case Started(t, m, start) => To(s, id, Loaded(t, m, start, |s.commits|))
    case Loaded(t, m, start, version) =>
      To(s, id, Replaced(t, m, start)).(tableVersion := if version >= s.tableVersion then version else s.tableVersion)
    case Replaced(t, m, start) => To(s, id, Returned(t, Some(m))).(lastSuccess := start, mutex := None)
    case _ => s
  }

  function Next(s: System, e: Event, at: Time): System
    requires Enabled(s, e, at)
  {
    var s := s.(now := at);
    match e
    case RemoteCommit => s.(commits := s.commits + [at])
    case LocalCommit => s.(commits := s.commits + [at], tableVersion := |s.commits| + 1)
    case SetMaxAge(maxAge) => s.(maxAge := maxAge)
    case Arrive => s.(calls := s.calls + [Arrived(at)])
    case Step(id) => StepCall(s, id)
    case Fail(id) => To(s, id, Failed(s.calls[id].arrival)).(mutex := None)
  }

  /** The version includes every commit made up to the given instant. */
  ghost predicate Covers(commits: seq<Time>, version: nat, until: Time) {
    forall k :: 0 <= k < |commits| && commits[k] <= until ==> k < version
  }

  ghost predicate CallInv(s: System, p: Phase) {
    && p.arrival <= s.now
    && (p.Started? || p.Loaded? || p.Replaced? ==> s.lastSuccess <= p.start <= s.now && p.arrival <= p.start)
    && (p.Loaded? ==> p.version <= |s.commits| && Covers(s.commits, p.version, p.start))
    && (p.Replaced? ==> Covers(s.commits, s.tableVersion, p.start))
    && (p.Returned? && p.maxAge.Some? && p.maxAge.value <= p.arrival ==>
          Covers(s.commits, s.tableVersion, p.arrival - p.maxAge.value))
  }

  ghost predicate Inv(s: System) {
    && (forall k :: 0 <= k < |s.commits| ==> s.commits[k] <= s.now)
    && s.tableVersion <= |s.commits| && s.lastSuccess <= s.now
    && Covers(s.commits, s.tableVersion, s.lastSuccess)
    && (forall i :: 0 <= i < |s.calls| ==> CallInv(s, s.calls[i]))
    && (s.mutex.Some? ==> s.mutex.value < |s.calls|)
    && (forall i :: 0 <= i < |s.calls| ==> (HoldsMutex(s.calls[i]) <==> s.mutex == Some(i)))
  }

  /** A refresher is created with its creation as the last success. */
  ghost predicate Initial(s: System) {
    && s.calls == [] && s.mutex == None && s.lastSuccess == s.now
    && s.tableVersion == |s.commits|
    && forall k :: 0 <= k < |s.commits| ==> s.commits[k] <= s.now
  }

  lemma FreshIsCovered(s: System, arrival: Time, age: nat)
    requires Covers(s.commits, s.tableVersion, s.lastSuccess) && IsFresh(s.lastSuccess, arrival, age) && age <= arrival
    ensures Covers(s.commits, s.tableVersion, arrival - age)
  {}

  /** Calls that a step leaves alone keep what they know. */
  lemma OthersKeepCallInv(s: System, s': System, i: nat)
    requires Inv(s) && i < |s.calls| && s.now < s'.now
    requires s'.commits == s.commits || s'.commits == s.commits + [s'.now]
    requires s.tableVersion <= s'.tableVersion
    requires s'.lastSuccess == s.lastSuccess || (s.mutex.Some? && s.mutex.value != i)
    ensures CallInv(s', s.calls[i])
  {
    var p := s.calls[i];
    assert CallInv(s, p);
    assert HoldsMutex(p) <==> s.mutex == Some(i);
  }

  predicate IsOwn(e: Event, i: nat) {
    (e.Step? || e.Fail?) && e.id == i
  }

  lemma StepKeepsTable(s: System, e: Event, at: Time)
    requires Inv(s) && Enabled(s, e, at)
    ensures var s' := Next(s, e, at);
            && (forall k :: 0 <= k < |s'.commits| ==> s'.commits[k] <= s'.now)
            && s.tableVersion <= s'.tableVersion <= |s'.commits|
            && s.lastSuccess <= s'.lastSuccess <= s'.now
            && Covers(s'.commits, s'.tableVersion, s'.lastSuccess)
  {
    if e.Step? {
      assert CallInv(s, s.calls[e.id]);
    }
  }

  lemma StepKeepsOwnCall(s: System, e: Event, at: Time, i: nat)
    requires Inv(s) && Enabled(s, e, at) && i < |s.calls| && IsOwn(e, i)
    ensures CallInv(Next(s, e, at), Next(s, e, at).calls[i])
  {
    var p := s.calls[i];
    assert CallInv(s, p);
    if (p.FastCheck? || p.SecondCheck?) && IsFresh(s.lastSuccess, p.arrival, p.age) && p.age <= p.arrival {
      FreshIsCovered(s, p.arrival, p.age);
    }
  }

  lemma StepKeepsMutex(s: System, e: Event, at: Time)
    requires Inv(s) && Enabled(s, e, at)
    ensures var s' := Next(s, e, at);
            && (s'.mutex.Some? ==> s'.mutex.value < |s'.calls|)
            && forall i :: 0 <= i < |s'.calls| ==> (HoldsMutex(s'.calls[i]) <==> s'.mutex == Some(i))
  {
    var s' := Next(s, e, at);
    forall i | 0 <= i < |s'.calls| ensures HoldsMutex(s'.calls[i]) <==> s'.mutex == Some(i) {
      if i < |s.calls| {
        assert HoldsMutex(s.calls[i]) <==> s.mutex == Some(i);
      }
      if e.Step? || e.Fail? {
        assert HoldsMutex(s.calls[e.id]) <==> s.mutex == Some(e.id);
      }
    }
  }

  /** Every step of every call keeps the view as fresh as the calls that returned relied on. */
  lemma StepKeepsInv(s: System, e: Event, at: Time)
    requires Inv(s) && Enabled(s, e, at)
    ensures Inv(Next(s, e, at))
    ensures s.tableVersion <= Next(s, e, at).tableVersion
    ensures s.lastSuccess <= Next(s, e, at).lastSuccess
  {
    var s' := Next(s, e, at);
    StepKeepsTable(s, e, at);
    StepKeepsMutex(s, e, at);
    forall i | 0 <= i < |s'.calls| ensures CallInv(s', s'.calls[i]) {
      if i < |s.calls| {
        if IsOwn(e, i) {
          StepKeepsOwnCall(s, e, at, i);
        } else {
          StepOfAnotherCall(s, e, at, i);
        }
      }
    }
  }

  lemma StepOfAnotherCall(s: System, e: Event, at: Time, i: nat)
    requires Inv(s) && Enabled(s, e, at) && i < |s.calls| && !IsOwn(e, i)
    ensures Next(s, e, at).calls[i] == s.calls[i] && CallInv(Next(s, e, at), s.calls[i])
  {
    if e.Step? {
      assert HoldsMutex(s.calls[e.id]) <==> s.mutex == Some(e.id);
    }
    OthersKeepCallInv(s, Next(s, e, at), i);
  }

  ghost predicate IsRun(states: seq<System>, events: seq<Event>, times: seq<Time>) {
    && |states| == |events| + 1 == |times| + 1
    && Initial(states[0])
    && forall i :: 0 <= i < |events| ==>
         Enabled(states[i], events[i], times[i]) && states[i + 1] == Next(states[i], events[i], times[i])
  }

  lemma {:induction false} RunKeepsInv(states: seq<System>, events: seq<Event>, times: seq<Time>, i: nat)
    requires IsRun(states, events, times) && i < |states|
    ensures Inv(states[i])
  {
    if i > 0 {
      RunKeepsInv(states, events, times, i - 1);
      StepKeepsInv(states[i - 1], events[i - 1], times[i - 1]);
    }
  }

  /**
   Whenever a call has returned under a maximum age, now or at any later moment of any
   concurrent run, the local view includes every commit made up to the arrival minus the age.
   */
  lemma ReturnedIsFresh(states: seq<System>, events: seq<Event>, times: seq<Time>, i: nat, id: nat, k: nat)
    requires IsRun(states, events, times) && i < |states|
    requires id < |states[i].calls| && states[i].calls[id].Returned? && states[i].calls[id].maxAge.Some?
    requires k < |states[i].commits|
    requires states[i].commits[k] + states[i].calls[id].maxAge.value <= states[i].calls[id].arrival
    ensures k < states[i].tableVersion
  {
    RunKeepsInv(states, events, times, i);
    assert CallInv(states[i], states[i].calls[id]);
  }

  // ----- Where a call comes from

  /** The maximum age that a call past its first step goes by. */
  function GoesBy(p: Phase): Option<nat> {
    match p
    case Returned(_, maxAge) => maxAge
    case Arrived(_) => None
    case Failed(_) => None
    case _ => Some(p.age)
  }

  /** The `j`-th event is the arrival of the call. */
  ghost predicate ArrivedAt(states: seq<System>, events: seq<Event>, times: seq<Time>, id: nat, j: nat, arrival: Time)
    requires |states| == |events| + 1 == |times| + 1
  {
    j < |events| && events[j].Arrive? && |states[j].calls| == id && times[j] == arrival
  }

  lemma {:induction false} ArrivalOf(states: seq<System>, events: seq<Event>, times: seq<Time>, i: nat, id: nat)
    returns (j: nat)
    requires IsRun(states, events, times) && i < |states| && id < |states[i].calls|
    ensures j < i && ArrivedAt(states, events, times, id, j, states[i].calls[id].arrival)
  {
    var before, e := states[i - 1], events[i - 1];
    assert Enabled(before, e, times[i - 1]) && states[i] == Next(before, e, times[i - 1]);
    if id == |before.calls| {
      j := i - 1;
    } else {
      j := ArrivalOf(states, events, times, i - 1, id);
    }
  }

  /** The `k`-th event is the first step of the call. */
  ghost predicate FirstStepAt(states: seq<System>, events: seq<Event>, id: nat, k: nat)
    requires |states| == |events| + 1
  {
    k < |events| && events[k] == Step(id) && id < |states[k].calls| && states[k].calls[id].Arrived?
  }

  predicate IsUnderWay(p: Phase) {
    !p.Arrived? && !p.Failed?
  }

  /** Once it is under way, a call does not change the maximum age it goes by. */
  lemma StepKeepsAge(s: System, e: Event, at: Time, id: nat)
    requires Enabled(s, e, at) && id < |Next(s, e, at).calls| && IsUnderWay(Next(s, e, at).calls[id])
    ensures id < |s.calls|
    ensures if e == Step(id) && s.calls[id].Arrived? then GoesBy(Next(s, e, at).calls[id]) == s.maxAge
            else IsUnderWay(s.calls[id]) && GoesBy(Next(s, e, at).calls[id]) == GoesBy(s.calls[id])
  {
  }

  /** A call goes by the maximum age that was configured at its first step. */
  lemma {:induction false} FirstStepOf(states: seq<System>, events: seq<Event>, times: seq<Time>, i: nat, id: nat)
    returns (k: nat)
    requires IsRun(states, events, times) && i < |states| && id < |states[i].calls|
    requires IsUnderWay(states[i].calls[id])
    ensures k < i && FirstStepAt(states, events, id, k) && GoesBy(states[i].calls[id]) == states[k].maxAge
  {
    var before, e := states[i - 1], events[i - 1];
    assert Enabled(before, e, times[i - 1]) && states[i] == Next(before, e, times[i - 1]);
    StepKeepsAge(before, e, times[i - 1], id);
    if e == Step(id) && before.calls[id].Arrived? {
      k := i - 1;
    } else {
      k := FirstStepOf(states, events, times, i - 1, id);
    }
  }

  /**
   A call that has returned arrived at the time of its arrival event and goes by the
   maximum age configured at its first step: either none was configured, or the local view
   includes every commit made up to the arrival minus the age.
   */
  lemma ReturnedMeetsConfiguredAge(states: seq<System>, events: seq<Event>, times: seq<Time>, i: nat, id: nat)
    returns (j: nat, k: nat)
    requires IsRun(states, events, times) && i < |states|
    requires id < |states[i].calls| && states[i].calls[id].Returned?
    ensures j < i && events[j].Arrive? && |states[j].calls| == id && states[i].calls[id].arrival == times[j]
    ensures k < i && FirstStepAt(states, events, id, k)
    ensures states[k].maxAge.Some? ==>
              forall c | 0 <= c < |states[i].commits| && states[i].commits[c] + states[k].maxAge.value <= times[j] ::
                c < states[i].tableVersion
  {
    j := ArrivalOf(states, events, times, i, id);
    k := FirstStepOf(states, events, times, i, id);
    if states[k].maxAge.Some? {
      forall c | 0 <= c < |states[i].commits| && states[i].commits[c] + states[k].maxAge.value <= times[j]
        ensures c < states[i].tableVersion
      {
        ReturnedIsFresh(states, events, times, i, id, c);
      }
    }
  }

  /** The maximum age that was configured last. */
  function ConfiguredAge(initial: Option<nat>, events: seq<Event>): Option<nat> {
    if events == [] then initial
    else
      var last := events[|events| - 1];
      if last.SetMaxAge? then last.maxAge else ConfiguredAge(initial, events[..|events| - 1])
  }

  /** The instants of the commits among the events. */
  function CommitTimes(events: seq<Event>, times: seq<Time>): seq<Time>
    requires |events| == |times|
  {
    if events == [] then []
    else
      var n := |events| - 1;
      CommitTimes(events[..n], times[..n])
      + if events[n].RemoteCommit? || events[n].LocalCommit? then [times[n]] else []
  }

  lemma StepOfStore(s: System, e: Event, at: Time)
    requires Enabled(s, e, at)
    ensures Next(s, e, at).commits == s.commits + if e.RemoteCommit? || e.LocalCommit? then [at] else []
    ensures Next(s, e, at).maxAge == if e.SetMaxAge? then e.maxAge else s.maxAge
  {
  }

  /** The store holds exactly the commits that were made, and the configuration is the last one that was set. */
  lemma {:induction false} StateFollowsEvents(states: seq<System>, events: seq<Event>, times: seq<Time>, i: nat)
    requires IsRun(states, events, times) && i < |states|
    ensures states[i].commits == states[0].commits + CommitTimes(events[..i], times[..i])
    ensures states[i].maxAge == ConfiguredAge(states[0].maxAge, events[..i])
  {
    if i > 0 {
      StateFollowsEvents(states, events, times, i - 1);
      assert states[i] == Next(states[i - 1], events[i - 1], times[i - 1]);
      StepOfStore(states[i - 1], events[i - 1], times[i - 1]);
      assert events[..i][..i - 1] == events[..i - 1] && times[..i][..i - 1] == times[..i - 1];
    }
  }

  /** A commit of this node is in its view at once. */
  lemma LocalCommitIsSeen(states: seq<System>, events: seq<Event>, times: seq<Time>, i: nat)
    requires IsRun(states, events, times) && i < |events| && events[i].LocalCommit?
    ensures states[i + 1].tableVersion == |states[i + 1].commits| == |states[i].commits| + 1
  {
    assert states[i + 1] == Next(states[i], events[i], times[i]);
  }

  /** How many steps a call has left at most. */
  function StepsLeft(p: Phase): nat {
    match p
    case Arrived(_) => 8
    case FastCheck(_, _) => 7
    case WaitForMutex(_, _) => 6
    case SecondCheck(_, _) => 5
    case Stale(_, _) => 4
    case Started(_, _, _) => 3
    case Loaded(_, _, _, _) => 2
    case Replaced(_, _, _) => 1
    case _ => 0
  }

  /** Every step brings the call that takes it closer to its end and leaves the others where they are. */
  lemma StepAdvances(s: System, id: nat, at: Time)
    requires Enabled(s, Step(id), at)
    ensures var s' := Next(s, Step(id), at);
            && |s'.calls| == |s.calls| && StepsLeft(s'.calls[id]) < StepsLeft(s.calls[id])
            && forall i | 0 <= i < |s.calls| && i != id :: s'.calls[i] == s.calls[i]
  {
  }

  /** Neither the table version nor the time of the last success ever goes backwards. */
  lemma {:induction false} NeverBackwards(states: seq<System>, events: seq<Event>, times: seq<Time>, i: nat, j: nat)
    requires IsRun(states, events, times) && i <= j < |states|
    ensures states[i].tableVersion <= states[j].tableVersion
    ensures states[i].lastSuccess <= states[j].lastSuccess
    decreases j - i
  {
    if i < j {
      NeverBackwards(states, events, times, i, j - 1);
      RunKeepsInv(states, events, times, j - 1);
      StepKeepsInv(states[j - 1], events[j - 1], times[j - 1]);
    }
  }

  // ----- No needless refresh

  /** Past the second check: the call loads the table or is about to. */
  predicate IsLoading(p: Phase) {
    p.Stale? || p.Started? || p.Loaded? || p.Replaced?
  }

  /** Whoever loads still finds the last success too old for its arrival. */
  ghost predicate LoadsForAReason(s: System) {
    forall i :: 0 <= i < |s.calls| && IsLoading(s.calls[i]) ==>
      s.lastSuccess + s.calls[i].age < s.calls[i].arrival
  }

  lemma StepKeepsReason(s: System, e: Event, at: Time)
    requires Inv(s) && LoadsForAReason(s) && Enabled(s, e, at)
    ensures LoadsForAReason(Next(s, e, at))
  {
    if e.Step? {
      assert HoldsMutex(s.calls[e.id]) <==> s.mutex == Some(e.id);
    }
  }

  /** In every run, a call loads only while the last success is too old for it: others may have refreshed before it. */
  lemma {:induction false} LoadsOnlyIfStale(states: seq<System>, events: seq<Event>, times: seq<Time>, i: nat)
    requires IsRun(states, events, times) && i < |states|
    ensures LoadsForAReason(states[i])
  {
    if i > 0 {
      LoadsOnlyIfStale(states, events, times, i - 1);
      RunKeepsInv(states, events, times, i - 1);
      StepKeepsReason(states[i - 1], events[i - 1], times[i - 1]);
    }
  }

  /** One success serves every call that it is fresh enough for: none of them loads at any later moment. */
  lemma OneRefreshServesAll(states: seq<System>, events: seq<Event>, times: seq<Time>, i: nat, j: nat, id: nat)
    requires IsRun(states, events, times) && i <= j < |states| && id < |states[j].calls|
    requires GoesBy(states[j].calls[id]).Some?
    requires states[j].calls[id].arrival <= states[i].lastSuccess + GoesBy(states[j].calls[id]).value
    ensures !IsLoading(states[j].calls[id])
  {
    NeverBackwards(states, events, times, i, j);
    LoadsOnlyIfStale(states, events, times, j);
  }

  /** At most one call refreshes at a time. */
  lemma OneRefreshAtATime(states: seq<System>, events: seq<Event>, times: seq<Time>, i: nat, a: nat, b: nat)
    requires IsRun(states, events, times) && i < |states|
    requires a < |states[i].calls| && b < |states[i].calls|
    requires HoldsMutex(states[i].calls[a]) && HoldsMutex(states[i].calls[b])
    ensures a == b
  {
    RunKeepsInv(states, events, times, i);
  }
}
