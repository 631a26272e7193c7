/** The two-phase stop: dispatchers are joined before any worker is told to stop, and a
    worker leaves only after finding its ring empty once more. */
module Stop {
  import opened Pipeline
  import opened Worker
  import opened TicketQueue

  predicate DispatchersJoined(e: Engine) {
    e.stopper.StopWorker? || e.stopper.JoinWorker? || e.stopper.Down?
  }

  /** How many workers have been joined. */
  function Joined(e: Engine): nat {
    match e.stopper
    case StopWorker(i) => i
    case JoinWorker(i) => i
    case Down => |e.shards|
    case _ => 0
  }

  ghost predicate ShardStop(e: Engine, i: nat)
    requires i < |e.shards|
  {
    var s := e.shards[i];
    && (DispatchersJoined(e) ==> s.dispatcher.DispatcherExited?)
    && (s.dispatcher.DispatcherExited? ==> !e.running)
    && (!s.workerRunning ==> DispatchersJoined(e))
    && (s.thread.Second? || s.thread.ThreadExited? ==> !s.workerRunning)
    && (s.thread.ThreadExited? ==> s.ring == [])
    && (i < Joined(e) ==> s.thread.ThreadExited?)
  }

  ghost predicate StopInv(e: Engine) {
    && (e.running <==> e.stopper.Up?)
    && Joined(e) <= |e.shards|
    && (e.stopper.JoinWorker? ==> e.stopper.current < |e.shards|)
    && forall i | 0 <= i < |e.shards| :: ShardStop(e, i)
  }

  lemma ThreadsKeepStop(e: Engine, a: Act)
    requires StopInv(e) && Enabled(e, a) && (a.Dispatch? || a.TakeBatch? || a.Work?)
    ensures StopInv(Step(e, a))
  {
    hide Process, ShardOf, Claim, Publish, CanTake, IsBenchmark;
    var e' := Step(e, a);
    forall i | 0 <= i < |e'.shards| ensures ShardStop(e', i) {
      ThreadsKeepShardStop(e, a, i);
    }
  }

  lemma ThreadsKeepShardStop(e: Engine, a: Act, i: nat)
    requires StopInv(e) && Enabled(e, a) && (a.Dispatch? || a.TakeBatch? || a.Work?) && i < |e.shards|
    ensures |Step(e, a).shards| == |e.shards| && ShardStop(Step(e, a), i)
  {
    assert ShardStop(e, i);
    if a.i != i {
      ThreadLeavesOthers(e, a, i);
      hide Step, Enabled;
    } else if a.Dispatch? {
      hide Process, ShardOf, Claim, Publish, CanTake, IsBenchmark;
    } else {
      WorkerKeepsShardStop(e, a);
    }
  }

  lemma WorkerKeepsShardStop(e: Engine, a: Act)
    requires StopInv(e) && Enabled(e, a) && (a.TakeBatch? || a.Work?)
    ensures |Step(e, a).shards| == |e.shards| && ShardStop(Step(e, a), a.i)
  {
    hide Process, ShardOf, Claim, Publish, CanTake, IsBenchmark;
    assert ShardStop(e, a.i);
  }

  lemma ThreadLeavesOthers(e: Engine, a: Act, i: nat)
    requires Enabled(e, a) && (a.Dispatch? || a.TakeBatch? || a.Work?) && i < |e.shards| && a.i != i
    ensures |Step(e, a).shards| == |e.shards| && Step(e, a).shards[i] == e.shards[i]
    ensures Step(e, a) == e.(shards := Step(e, a).shards, shared := Step(e, a).shared)
  {
    hide Process, ShardOf, Claim, Publish, CanTake, IsBenchmark;
  }

  lemma OthersKeepStop(e: Engine, a: Act)
    requires StopInv(e) && Enabled(e, a) && (a.Accept? || a.PublishEntry? || a.DrainCall? || a.DrainStep?)
    ensures StopInv(Step(e, a))
  {
    hide Process, ShardOf;
    var e' := Step(e, a);
    forall i | 0 <= i < |e'.shards| ensures ShardStop(e', i) {
      assert ShardStop(e, i);
    }
  }

  lemma StopperKeepsStop(e: Engine, a: Act)
    requires StopInv(e) && Enabled(e, a) && (a.StopCall? || a.StopStep?)
    ensures StopInv(Step(e, a))
  {
    hide Process, ShardOf;
    var e' := Step(e, a);
    forall i | 0 <= i < |e'.shards| ensures ShardStop(e', i) {
      assert ShardStop(e, i);
    }
  }

  lemma StepKeepsStop(e: Engine, a: Act)
    requires StopInv(e) && Enabled(e, a)
    ensures StopInv(Step(e, a))
  {
    hide Process, ShardOf, Step, StopInv;
    if a.StopCall? || a.StopStep? {
      StopperKeepsStop(e, a);
    } else if a.Dispatch? || a.TakeBatch? || a.Work? {
      ThreadsKeepStop(e, a);
    } else {
      OthersKeepStop(e, a);
    }
  }

  lemma {:induction false} RunKeepsStop(e: Engine, run: seq<Act>)
    requires StopInv(e) && FlowInv(e) && ValidRun(e, run)
    ensures StopInv(Exec(e, run)) && FlowInv(Exec(e, run)) && |Exec(e, run).shards| == |e.shards|
    decreases |run|
  {
    hide Step, StopInv, FlowInv;
    if run != [] {
      StepKeepsStop(e, run[0]);
      StepKeepsFlow(e, run[0]);
      ShardCountFixed(e, run[0]);
      RunKeepsStop(Step(e, run[0]), run[1..]);
    }
  }

  lemma InitStops(n: nat, inventory: map<int, int>, flags: map<int, bool>)
    ensures StopInv(Init(n, inventory, flags)) && FlowInv(Init(n, inventory, flags))
  {
    var e := Init(n, inventory, flags);
    forall i | 0 <= i < n ensures Conserved(e.shards[i]) {
      assert Pending(e.shards[i]) == [];
    }
  }

  /** Main result: when the stop has finished, on every shard whatever the dispatcher took has
      been processed exactly once: the ring, the dispatcher's hand and the batch are empty, what
      was processed followed by what is left in the queue is what was accepted, and the processed
      count is right. So the accepted requests were all processed exactly if no queue holds any. */
  lemma StoppedShardsAreSettled(n: nat, inventory: map<int, int>, flags: map<int, bool>, run: seq<Act>)
    requires 0 < n && ValidRun(Init(n, inventory, flags), run)
    ensures
      var e := Exec(Init(n, inventory, flags), run);
      |e.shards| == n &&
      (e.stopper.Down? ==>
        && (forall i | 0 <= i < n ::
              var s := e.shards[i];
              && s.ring == [] && s.dispatcher.DispatcherExited? && s.thread.ThreadExited?
              && s.processed + Values(s.mpmc) == s.accepted && s.counted == |s.processed|)
        && ((forall i | 0 <= i < n :: e.shards[i].processed == e.shards[i].accepted)
            <==> forall i | 0 <= i < n :: e.shards[i].mpmc == []))
  {
    InitStops(n, inventory, flags);
    RunKeepsStop(Init(n, inventory, flags), run);
    var e := Exec(Init(n, inventory, flags), run);
    if e.stopper.Down? {
      forall i | 0 <= i < n
        ensures e.shards[i].ring == [] && e.shards[i].dispatcher.DispatcherExited? && e.shards[i].thread.ThreadExited?
        ensures e.shards[i].processed + Values(e.shards[i].mpmc) == e.shards[i].accepted
        ensures e.shards[i].counted == |e.shards[i].processed|
        ensures e.shards[i].processed == e.shards[i].accepted <==> e.shards[i].mpmc == []
      {
        assert ShardStop(e, i) && Conserved(e.shards[i]);
        assert Pending(e.shards[i]) == Values(e.shards[i].mpmc);
        assert |e.shards[i].accepted| == |e.shards[i].processed| + |e.shards[i].mpmc|;
        if e.shards[i].mpmc == [] {
          assert e.shards[i].processed + [] == e.shards[i].processed;
        }
      }
    }
  }

  // ---- When nothing is lost ----

  /** The run claims no new entry, neither for a client nor for a barrier. */
  predicate ClaimsNothing(e: Engine, run: seq<Act>)
    requires ValidRun(e, run)
    decreases |run|
  {
    run == [] || (!Claims(e, run[0]) && ClaimsNothing(Step(e, run[0]), run[1..]))
  }

  predicate Claims(e: Engine, a: Act) {
    a.Accept? || (a.DrainStep? && e.drainer.Injecting? && e.drainer.next < |e.shards|)
  }

  /** The entries of a shard's queue that its dispatcher has not committed itself to: about to
      dequeue, it is sure to take a published front. */
  function Uncommitted(s: Shard): seq<Entry<Msg>> {
    if s.dispatcher.Popping? && CanTake(s.mpmc) then s.mpmc[1..] else s.mpmc
  }

  ghost predicate AllCommitted(e: Engine) {
    forall i | 0 <= i < |e.shards| :: Uncommitted(e.shards[i]) == []
  }

  lemma StepKeepsCommitted(e: Engine, a: Act)
    requires Enabled(e, a) && !Claims(e, a) && AllCommitted(e)
    ensures AllCommitted(Step(e, a))
  {
    ShardCountFixed(e, a);
    forall i | 0 <= i < |e.shards| ensures Uncommitted(Step(e, a).shards[i]) == [] {
      ShardStaysCommitted(e, a, i);
    }
    hide Step, Uncommitted, Claims, Enabled;
  }

  lemma ShardStaysCommitted(e: Engine, a: Act, i: nat)
    requires Enabled(e, a) && !Claims(e, a) && i < |e.shards| && Uncommitted(e.shards[i]) == []
    ensures |Step(e, a).shards| == |e.shards| && Uncommitted(Step(e, a).shards[i]) == []
  {
    ShardCountFixed(e, a);
    if a.Dispatch? && a.i == i {
      assert |e.shards[i].mpmc| <= 1;
    } else if a.PublishEntry? && a.i == i {
      assert |e.shards[i].mpmc| <= 1;
    } else {
      OthersLeaveQueue(e, a, i);
      hide Step;
    }
  }

  lemma OthersLeaveQueue(e: Engine, a: Act, i: nat)
    requires Enabled(e, a) && !Claims(e, a) && i < |e.shards| && ((a.Dispatch? || a.PublishEntry?) ==> a.i != i)
    ensures |Step(e, a).shards| == |e.shards|
    ensures Step(e, a).shards[i].mpmc == e.shards[i].mpmc && Step(e, a).shards[i].dispatcher == e.shards[i].dispatcher
  {
    hide Process, ShardOf, IsBenchmark, BarrierUnderWay, Publish, Claim, CanTake;
  }

  lemma {:induction false} RunKeepsCommitted(e: Engine, run: seq<Act>)
    requires ValidRun(e, run) && ClaimsNothing(e, run) && AllCommitted(e)
    ensures AllCommitted(Exec(e, run))
    decreases |run|
  {
    hide Step, AllCommitted, Claims;
    if run != [] {
      StepKeepsCommitted(e, run[0]);
      RunKeepsCommitted(Step(e, run[0]), run[1..]);
    }
  }

  /** A stop loses nothing if every queued entry is one its dispatcher has committed itself to, as
      when the queues are empty, and no client or drain claims an entry afterwards. */
  lemma StopAfterQuietLosesNothing(
      n: nat, inventory: map<int, int>, flags: map<int, bool>, before: seq<Act>, after: seq<Act>)
    requires 0 < n && ValidRun(Init(n, inventory, flags), before)
    requires AllCommitted(Exec(Init(n, inventory, flags), before))
    requires ValidRun(Exec(Init(n, inventory, flags), before), after)
    requires ClaimsNothing(Exec(Init(n, inventory, flags), before), after)
    ensures
      var e := Exec(Exec(Init(n, inventory, flags), before), after);
      e.stopper.Down? ==> forall i | 0 <= i < |e.shards| :: e.shards[i].processed == e.shards[i].accepted
  {
    hide Exec, ValidRun, ClaimsNothing;
    var e0 := Init(n, inventory, flags);
    RunKeepsCommitted(Exec(e0, before), after);
    RunsCompose(e0, before, after);
    StoppedShardsAreSettled(n, inventory, flags, before + after);
    var e := Exec(Exec(e0, before), after);
    if e.stopper.Down? {
      forall i | 0 <= i < n ensures e.shards[i].mpmc == [] {
        assert Uncommitted(e.shards[i]) == [];
      }
    }
  }

  lemma {:induction false} RunsCompose(e: Engine, before: seq<Act>, after: seq<Act>)
    requires ValidRun(e, before) && ValidRun(Exec(e, before), after)
    ensures ValidRun(e, before + after) && Exec(e, before + after) == Exec(Exec(e, before), after)
    decreases |before|
  {
    hide Step;
    if before == [] {
      assert before + after == after;
    } else {
      RunsCompose(Step(e, before[0]), before[1..], after);
      assert (before + after)[1..] == before[1..] + after;
    }
  }
}
