/**
 The pool of workers that writes the rows of a transaction.

 Workers take streams from a shared iterator and write their batches to their own files.
 Each step below is one that a worker takes under a lock or on its own, and the worker that
 takes the next step is arbitrary, so that the contract holds for every schedule.
 */
module CommitWorkers {
  import opened Basics

  /** The batches of one partition of one part. */
  type Stream<T> = seq<seq<T>>

  /** The rows of the streams that worker `w` took, in the order it took them. */
  function Assigned<T>(streams: seq<Stream<T>>, takenBy: seq<nat>, w: nat): seq<T>
    requires |takenBy| <= |streams|
  {
    if takenBy == [] then []
    else
      var k := |takenBy| - 1;
      Assigned(streams, takenBy[..k], w) + if takenBy[k] == w then Flatten(streams[k]) else []
  }

  function StreamRows<T>(streams: seq<Stream<T>>): seq<T> {
    if streams == [] then [] else Flatten(streams[0]) + StreamRows(streams[1..])
  }

  function StreamWork<T>(streams: seq<Stream<T>>): nat {
    if streams == [] then 0 else |streams[0]| + 2 + StreamWork(streams[1..])
  }

  lemma {:induction false} StreamRowsConcat<T>(a: seq<Stream<T>>, b: seq<Stream<T>>)
    ensures StreamRows(a + b) == StreamRows(a) + StreamRows(b)
  {
    if a == [] {
      assert a + b == b;
    } else {
      assert (a + b)[1..] == a[1..] + b;
      StreamRowsConcat(a[1..], b);
    }
  }

  lemma StreamRowsSnoc<T>(streams: seq<Stream<T>>, k: nat)
    requires k < |streams|
    ensures StreamRows(streams[..k + 1]) == StreamRows(streams[..k]) + Flatten(streams[k])
  {
    assert streams[..k + 1] == streams[..k] + [streams[k]];
    StreamRowsConcat(streams[..k], [streams[k]]);
    assert StreamRows([streams[k]]) == Flatten(streams[k]) + StreamRows([]);
  }

  function AllAssigned<T>(streams: seq<Stream<T>>, takenBy: seq<nat>, workers: nat): (r: seq<seq<T>>)
    requires |takenBy| <= |streams|
    ensures |r| == workers
  {
    seq(workers, w requires 0 <= w < workers => Assigned(streams, takenBy, w))
  }

  lemma AllAssignedSnoc<T>(streams: seq<Stream<T>>, takenBy: seq<nat>, workers: nat)
    requires 0 < |takenBy| <= |streams| && takenBy[|takenBy| - 1] < workers
    ensures var k := |takenBy| - 1;
            var before := AllAssigned(streams, takenBy[..k], workers);
            AllAssigned(streams, takenBy, workers) == before[takenBy[k] := before[takenBy[k]] + Flatten(streams[k])]
  {
    var k := |takenBy| - 1;
    var before := AllAssigned(streams, takenBy[..k], workers);
    var after := before[takenBy[k] := before[takenBy[k]] + Flatten(streams[k])];
    forall w | 0 <= w < workers ensures Assigned(streams, takenBy, w) == after[w] {
      assert before[w] == Assigned(streams, takenBy[..k], w);
      if takenBy[k] != w {
        assert after[w] == before[w] == before[w] + [];
      }
    }
    assert AllAssigned(streams, takenBy, workers) == after;
  }

  /** Whichever worker took which stream, together they have the rows of all streams. */
  lemma {:induction false} AssignedIsEverything<T>(streams: seq<Stream<T>>, takenBy: seq<nat>, workers: nat)
    requires |takenBy| <= |streams|
    requires forall k :: 0 <= k < |takenBy| ==> takenBy[k] < workers
    ensures multiset(Flatten(AllAssigned(streams, takenBy, workers))) == multiset(StreamRows(streams[..|takenBy|]))
  {
    if takenBy == [] {
      AllEmpty(AllAssigned(streams, takenBy, workers));
    } else {
      var k := |takenBy| - 1;
      var before := AllAssigned(streams, takenBy[..k], workers);
      AssignedIsEverything(streams, takenBy[..k], workers);
      StreamRowsSnoc(streams, k);
      calc {
        multiset(Flatten(AllAssigned(streams, takenBy, workers)));
        { AllAssignedSnoc(streams, takenBy, workers); }
        multiset(Flatten(before[takenBy[k] := before[takenBy[k]] + Flatten(streams[k])]));
        { FlattenUpdate(before, takenBy[k], Flatten(streams[k])); }
        multiset(Flatten(before)) + multiset(Flatten(streams[k]));
        multiset(StreamRows(streams[..k])) + multiset(Flatten(streams[k]));
        multiset(StreamRows(streams[..k]) + Flatten(streams[k]));
      }
    }
  }

  /** A worker: its writer, the stream it holds, and whether it still runs. */
  datatype Worker<T> = Worker(written: seq<T>, holding: Option<Stream<T>>, open: bool)
  {
    /** What it has written and still has to write of the streams it took. */
    function Owes(): seq<T> {
      written + if holding.Some? then Flatten(holding.value) else []
    }

    function Work(): nat {
      (if open then 1 else 0) + if holding.Some? then |holding.value| + 1 else 0
    }
  }

  datatype Pool<T> = Pool(workers: seq<Worker<T>>, takenBy: seq<nat>)
  {
    ghost predicate Valid(streams: seq<Stream<T>>) {
      && |takenBy| <= |streams|
      && (forall k :: 0 <= k < |takenBy| ==> takenBy[k] < |workers|)
      && (forall w :: 0 <= w < |workers| ==> workers[w].Owes() == Assigned(streams, takenBy, w))
      && (forall w :: 0 <= w < |workers| && !workers[w].open ==> workers[w].holding.None? && |takenBy| == |streams|)
    }

    ghost function Works(): seq<nat> {
      seq(|workers|, w requires 0 <= w < |workers| => workers[w].Work())
    }

    ghost function Work(streams: seq<Stream<T>>): nat
      requires Valid(streams)
    {
      StreamWork(streams[|takenBy|..]) + Sum(Works())
    }
  }

  /** One step of an open worker. */
  function Step<T>(streams: seq<Stream<T>>, pool: Pool<T>, w: nat): Pool<T>
    requires w < |pool.workers| && |pool.takenBy| <= |streams|
  {
    var me := pool.workers[w];
    var next := |pool.takenBy|;
    match me.holding
    case None =>
      if next < |streams|
      then Pool(pool.workers[w := me.(holding := Some(streams[next]))], pool.takenBy + [w])
      else pool.(workers := pool.workers[w := me.(open := false)])
    case Some(batches) =>
      if batches == []
      then pool.(workers := pool.workers[w := me.(holding := None)])
      else pool.(workers := pool.workers[w := me.(written := me.written + batches[0], holding := Some(batches[1..]))])
  }

  lemma TakingAssigns<T>(streams: seq<Stream<T>>, takenBy: seq<nat>, w: nat, v: nat)
    requires |takenBy| < |streams|
    ensures Assigned(streams, takenBy + [w], v) ==
            Assigned(streams, takenBy, v) + if v == w then Flatten(streams[|takenBy|]) else []
  {
    assert (takenBy + [w])[..|takenBy|] == takenBy;
  }

  lemma StepKeepsValid<T>(streams: seq<Stream<T>>, pool: Pool<T>, w: nat)
    requires pool.Valid(streams) && w < |pool.workers| && pool.workers[w].open
    ensures Step(streams, pool, w).Valid(streams)
  {
    var me, pool' := pool.workers[w], Step(streams, pool, w);
    if me.holding.None? && |pool.takenBy| < |streams| {
      forall v | 0 <= v < |pool.workers|
        ensures pool'.workers[v].Owes() == Assigned(streams, pool'.takenBy, v)
      {
        TakingAssigns(streams, pool.takenBy, w, v);
        assert pool.workers[v].Owes() == Assigned(streams, pool.takenBy, v);
      }
    } else if me.holding.Some? && me.holding.value != [] {
      var batches := me.holding.value;
      assert me.written + Flatten(batches) == (me.written + batches[0]) + Flatten(batches[1..]);
      assert pool'.workers[w].Owes() == me.Owes();
    }
  }

  lemma StepMakesProgress<T>(streams: seq<Stream<T>>, pool: Pool<T>, w: nat)
    requires pool.Valid(streams) && w < |pool.workers| && pool.workers[w].open
    requires Step(streams, pool, w).Valid(streams)
    ensures Step(streams, pool, w).Work(streams) < pool.Work(streams)
  {
    var pool' := Step(streams, pool, w);
    SumUpdate(pool.Works(), w, pool'.workers[w].Work());
    assert pool'.Works() == pool.Works()[w := pool'.workers[w].Work()];
    if pool'.takenBy != pool.takenBy {
      assert streams[|pool.takenBy|..][1..] == streams[|pool'.takenBy|..];
    }
  }

  /** Runs the workers until the iterator is exhausted and every writer is closed. */
  method RunWorkers<T>(streams: seq<Stream<T>>, workers: nat) returns (written: seq<seq<T>>, takenBy: seq<nat>)
    requires workers > 0
    ensures |written| == workers && |takenBy| == |streams|
    ensures forall k :: 0 <= k < |takenBy| ==> takenBy[k] < workers
    ensures forall w :: 0 <= w < workers ==> written[w] == Assigned(streams, takenBy, w)
    ensures multiset(Flatten(written)) == multiset(StreamRows(streams))
  {
    var pool: Pool<T> := Pool(seq(workers, w => Worker([], None, true)), []);
    while exists w :: 0 <= w < |pool.workers| && pool.workers[w].open
      invariant |pool.workers| == workers
      invariant pool.Valid(streams)
      decreases pool.Work(streams)
    {
      var w :| 0 <= w < |pool.workers| && pool.workers[w].open;
      StepKeepsValid(streams, pool, w);
      StepMakesProgress(streams, pool, w);
      pool := Step(streams, pool, w);
    }
    written := seq(workers, w requires 0 <= w < workers => pool.workers[w].written);
    takenBy := pool.takenBy;
    FinishedPool(streams, pool, written);
  }

  /** Once every writer is closed, each worker has written what it took. */
  lemma FinishedPool<T>(streams: seq<Stream<T>>, pool: Pool<T>, written: seq<seq<T>>)
    requires pool.Valid(streams) && |written| == |pool.workers| > 0
    requires forall w :: 0 <= w < |pool.workers| ==> !pool.workers[w].open && written[w] == pool.workers[w].written
    ensures |pool.takenBy| == |streams|
    ensures forall k :: 0 <= k < |pool.takenBy| ==> pool.takenBy[k] < |pool.workers|
    ensures forall w :: 0 <= w < |written| ==> written[w] == Assigned(streams, pool.takenBy, w)
    ensures multiset(Flatten(written)) == multiset(StreamRows(streams))
  {
    assert !pool.workers[0].open;
    forall w | 0 <= w < |written| ensures written[w] == Assigned(streams, pool.takenBy, w) {
      assert pool.workers[w].Owes() == pool.workers[w].written;
    }
    assert written == AllAssigned(streams, pool.takenBy, |written|);
    AssignedIsEverything(streams, pool.takenBy, |written|);
    assert streams[..|streams|] == streams;
  }
}
