/** What a running engine can always still do: process everything it has accepted, and complete a
    drain. Without this the promises about what never happens would also hold of an engine that
    stands still. */
module Progress {
  import opened Pipeline
  import opened Worker
  import opened TicketQueue
  import opened Stop
  import opened Schedules
  import FalseDrain
  import Drain

  // ---- Everything accepted can be processed ----

  lemma PublishMoves(e: Engine, i: nat) returns (e': Engine)
    requires i < |e.shards| && e.shards[i].mpmc != [] && !e.shards[i].thread.ThreadExited?
    ensures Leads(e, e') && ShardMoved(e, e', i) && e'.shared == e.shared
    ensures e'.shards[i] == e.shards[i].(mpmc := Publish(e.shards[i].mpmc, 0))
  {
    LeadsByStep(e, PublishEntry(i, 0));
    hide Leads;
    e' := Step(e, PublishEntry(i, 0));
  }

  /** While the engine runs a dispatcher can get to its next dequeue. */
  lemma DispatcherComesBack(e: Engine, i: nat) returns (e': Engine)
    requires FlowInv(e) && StopInv(e) && e.running && i < |e.shards|
    requires !e.shards[i].thread.ThreadExited? && !e.shards[i].dispatcher.DispatcherExited?
    ensures Leads(e, e') && ShardMoved(e, e', i)
    ensures e'.shards[i].dispatcher.Popping? && e'.shards[i].mpmc == e.shards[i].mpmc
  {
    hide FlowInv, StopInv, Leads;
    e' := e;
    LeadsNowhere(e);
    if e.shards[i].dispatcher.Holding? {
      e' := DispatcherHandsOver(e, i);
    }
    if e'.shards[i].dispatcher.Checking? {
      var e1 := DispatchMoves(e', i);
      LeadsOn(e, e', e1);
      ShardMovedOn(e, e', e1, i);
      e' := e1;
    }
  }

  lemma DispatcherTakes(e: Engine, i: nat) returns (e': Engine)
    requires FlowInv(e) && StopInv(e) && e.running && i < |e.shards| && e.shards[i].mpmc != []
    requires !e.shards[i].thread.ThreadExited? && !e.shards[i].dispatcher.DispatcherExited?
    ensures Leads(e, e') && ShardMoved(e, e', i)
    ensures e'.shards[i].dispatcher == Holding(e.shards[i].mpmc[0].value) && e'.shards[i].mpmc == e.shards[i].mpmc[1..]
  {
    hide FlowInv, StopInv, Leads;
    var e1 := DispatcherComesBack(e, i);
    var e2 := PublishMoves(e1, i);
    LeadsOn(e, e1, e2);
    ShardMovedOn(e, e1, e2, i);
    e' := DispatchMoves(e2, i);
    LeadsOn(e, e2, e');
    ShardMovedOn(e, e2, e', i);
    assert Publish(e1.shards[i].mpmc, 0)[1..] == e1.shards[i].mpmc[1..];
  }

  lemma {:induction false} QueueEmpties(e: Engine, i: nat) returns (e': Engine)
    requires FlowInv(e) && StopInv(e) && e.running && i < |e.shards|
    requires !e.shards[i].thread.ThreadExited? && !e.shards[i].dispatcher.DispatcherExited?
    ensures Leads(e, e') && ShardMoved(e, e', i) && e'.shards[i].mpmc == []
    decreases |e.shards[i].mpmc|
  {
    hide FlowInv, StopInv, Leads;
    if e.shards[i].mpmc == [] {
      e' := e;
      LeadsNowhere(e);
    } else {
      var e1 := DispatcherTakes(e, i);
      LeadsKeeps(e, e1);
      e' := QueueEmpties(e1, i);
      LeadsOn(e, e1, e');
      ShardMovedOn(e, e1, e', i);
    }
  }

  /** Everything accepted on shard `s` has been processed by `s'`. */
  ghost predicate CaughtUp(s: Shard, s': Shard) {
    s'.accepted == s.accepted && s'.processed == s.accepted && s'.mpmc == []
  }

  lemma ShardCatchesUp(e: Engine, i: nat) returns (e': Engine)
    requires FlowInv(e) && StopInv(e) && e.running && i < |e.shards|
    requires !e.shards[i].thread.ThreadExited? && !e.shards[i].dispatcher.DispatcherExited?
    ensures Leads(e, e') && |e'.shards| == |e.shards| && e' == e.(shards := e'.shards, shared := e'.shared)
    ensures e'.shards == e.shards[i := e'.shards[i]] && CaughtUp(e.shards[i], e'.shards[i])
  {
    hide FlowInv, StopInv, Leads;
    var e1 := QueueEmpties(e, i);
    LeadsKeeps(e, e1);
    e' := ShardRunsDry(e1, i);
    LeadsOn(e, e1, e');
    EmptyQueueAccepted(e1, i);
    assert e'.shards == e.shards[i := e'.shards[i]];
  }

  lemma EmptyQueueAccepted(e: Engine, i: nat)
    requires FlowInv(e) && i < |e.shards| && e.shards[i].mpmc == []
    ensures e.shards[i].processed + PastQueue(e.shards[i]) == e.shards[i].accepted
  {
    assert Conserved(e.shards[i]);
    FalseDrain.TakenAndQueue(e.shards[i]);
    assert Values(e.shards[i].mpmc) == [];
  }

  lemma {:induction false} ShardsCatchUp(e: Engine, k: nat) returns (e': Engine)
    requires FlowInv(e) && StopInv(e) && e.running && k <= |e.shards|
    ensures Leads(e, e') && FlowInv(e') && StopInv(e') && |e'.shards| == |e.shards|
    ensures e' == e.(shards := e'.shards, shared := e'.shared)
    ensures forall i | 0 <= i < k :: CaughtUp(e.shards[i], e'.shards[i])
    ensures forall i | k <= i < |e.shards| :: e'.shards[i] == e.shards[i]
    decreases k
  {
    hide FlowInv, StopInv, Leads, CaughtUp;
    if k == 0 {
      e' := e;
      LeadsNowhere(e);
    } else {
      var e1 := ShardsCatchUp(e, k - 1);
      ThreadsUp(e1, k - 1);
      e' := ShardCatchesUp(e1, k - 1);
      LeadsOn(e, e1, e');
      LeadsKeeps(e1, e');
    }
  }

  lemma ThreadsUp(e: Engine, i: nat)
    requires StopInv(e) && e.running && i < |e.shards|
    ensures !e.shards[i].thread.ThreadExited? && !e.shards[i].dispatcher.DispatcherExited?
  {
    assert ShardStop(e, i);
  }

  /** While the engine runs, from every reachable state everything accepted can still be
      processed, with nothing more accepted. */
  lemma EngineCatchesUp(n: nat, inventory: map<int, int>, flags: map<int, bool>, run: seq<Act>) returns (e': Engine)
    requires 0 < n && ValidRun(Init(n, inventory, flags), run) && Exec(Init(n, inventory, flags), run).running
    ensures
      var e := Exec(Init(n, inventory, flags), run);
      && Leads(e, e') && |e.shards| == |e'.shards| == n
      && forall i | 0 <= i < n :: CaughtUp(e.shards[i], e'.shards[i])
  {
    hide Exec, ValidRun, FlowInv, StopInv, Leads;
    InitStops(n, inventory, flags);
    RunKeepsStop(Init(n, inventory, flags), run);
    e' := ShardsCatchUp(Exec(Init(n, inventory, flags), run), n);
  }

  // ---- How much fits ----

  /** What a shard never exceeds. */
  predicate WithinBounds(s: Shard) {
    && |s.mpmc| <= 4096 && |s.ring| <= 16384
    && (s.thread.Batch? ==> |s.thread.rest| <= s.thread.count <= 64)
  }

  lemma StepKeepsBounds(e: Engine, a: Act, i: nat)
    requires Enabled(e, a) && i < |e.shards| && WithinBounds(e.shards[i])
    ensures |Step(e, a).shards| == |e.shards| && WithinBounds(Step(e, a).shards[i])
  {
    ShardCountFixed(e, a);
    FalseDrain.QueueBounded(e, a, i);
    if a.Work? || a.TakeBatch? {
      if a.i == i { WorkerKeepsBounds(e, a); } else { WorkerLeavesOthers(e, a, i); hide Step; }
    } else {
      OthersLeaveThread(e, a, i);
      OthersKeepRing(e, a, i);
      hide Step;
    }
  }

  lemma WorkerKeepsBounds(e: Engine, a: Act)
    requires Enabled(e, a) && (a.Work? || a.TakeBatch?) && WithinBounds(e.shards[a.i])
    ensures |Step(e, a).shards| == |e.shards| && WithinBounds(Step(e, a).shards[a.i])
  {
    hide Process, ShardOf;
  }

  lemma OthersKeepRing(e: Engine, a: Act, i: nat)
    requires Enabled(e, a) && i < |e.shards| && !a.Work? && !a.TakeBatch? && |e.shards[i].ring| <= 16384
    ensures |Step(e, a).shards| == |e.shards| && |Step(e, a).shards[i].ring| <= 16384
  {
    hide Process, ShardOf, Claim, Publish, IsBenchmark, BarrierUnderWay;
  }

  lemma {:induction false} RunKeepsBounds(e: Engine, run: seq<Act>)
    requires ValidRun(e, run) && forall i | 0 <= i < |e.shards| :: WithinBounds(e.shards[i])
    ensures forall i | 0 <= i < |Exec(e, run).shards| :: WithinBounds(Exec(e, run).shards[i])
    decreases |run|
  {
    hide Step, WithinBounds;
    if run != [] {
      ShardCountFixed(e, run[0]);
      forall i | 0 <= i < |e.shards| ensures WithinBounds(Step(e, run[0]).shards[i]) {
        StepKeepsBounds(e, run[0], i);
      }
      RunKeepsBounds(Step(e, run[0]), run[1..]);
    }
  }

  /** In every reachable state no queue, ring or batch is longer than the source makes it, and a
      request can be claimed while its owner's queue is not full. */
  lemma CapacitiesHold(n: nat, inventory: map<int, int>, flags: map<int, bool>, run: seq<Act>, req: Request)
    requires 0 < n && ValidRun(Init(n, inventory, flags), run)
    ensures
      var e := Exec(Init(n, inventory, flags), run);
      && |e.shards| == n && (forall i | 0 <= i < n :: WithinBounds(e.shards[i]))
      && (ClientOk(req) ==> (Enabled(e, Accept(req)) <==> |e.shards[ShardOf(req.sku, n)].mpmc| < 4096))
  {
    RunKeepsBounds(Init(n, inventory, flags), run);
    RunKeepsFlow0(n, inventory, flags, run);
    hide Exec, ValidRun, WithinBounds, ShardOf;
  }

  lemma RunKeepsFlow0(n: nat, inventory: map<int, int>, flags: map<int, bool>, run: seq<Act>)
    requires 0 < n && ValidRun(Init(n, inventory, flags), run)
    ensures |Exec(Init(n, inventory, flags), run).shards| == n
  {
    InitStops(n, inventory, flags);
    RunKeepsStop(Init(n, inventory, flags), run);
  }

  // ---- A drain can complete ----

  /** A drain whose count is short goes on waiting while the engine runs, and gives up when it does
      not; one whose count is reached is over. */
  lemma DrainLoop(e: Engine)
    requires e.drainer.LoadCount? && 0 < |e.shards|
    ensures Enabled(e, DrainStep)
    ensures e.shared.acks >= |e.shards| ==> Step(e, DrainStep) == e.(drainer := NotDraining)
    ensures e.shared.acks < |e.shards| ==>
              var e1 := Step(e, DrainStep);
              && Enabled(e1, DrainStep)
              && Step(e1, DrainStep) == if e.running then e else e.(drainer := NotDraining)
  {}

  /** Every shard that has processed its barrier has been counted. */
  lemma AllCounted(e: Engine)
    requires Drain.Inv(e) && !e.stale && e.drainer.LoadCount?
    requires forall i | 0 <= i < |e.shards| :: e.shards[i].processed == e.shards[i].accepted
    ensures e.shared.acks == |e.shards|
  {
    forall i | 0 <= i < |e.shards| ensures Barrier(e.drains) in e.shards[i].processed {
      var s := e.shards[i];
      assert Drain.ShardBarriers(s, e.drains, true);
      assert Conserved(s);
      assert |s.processed + Pending(s)| == |s.accepted|;
      assert Pending(s) == [] && s.processed + [] == s.processed;
    }
    Drain.AcksBounded(e.shards, e.drains, |e.shards|);
  }

  lemma CaughtUpMeans(s: Shard, s': Shard)
    requires CaughtUp(s, s')
    ensures s'.accepted == s.accepted && s'.processed == s.accepted && s'.mpmc == []
  {}

  /** A drain can be called, have its barriers sent, and all of them processed. */
  lemma DrainWaits(e: Engine) returns (run: seq<Act>, e': Engine)
    requires FlowInv(e) && StopInv(e) && e.running && e.drainer.NotDraining? && 0 < |e.shards|
    ensures ValidRun(e, run) && Exec(e, run) == e' && |e'.shards| == |e.shards|
    ensures e'.running && e'.drainer.LoadCount? && e'.drains == e.drains + 1
    ensures forall i | 0 <= i < |e.shards| ::
              e'.shards[i].processed == e'.shards[i].accepted == e.shards[i].accepted + [Barrier(e'.drains)]
  {
    var n := |e.shards|;
    run := [];
    assert ValidRun(e, run) && Exec(e, run) == e;
    hide Exec, ValidRun, FlowInv, StopInv, Leads, CaughtUp;
    var e1 := ShardsCatchUp(e, n);
    run := FalseDrain.FollowLead(e, run, e, e1);
    FalseDrain.Then(e, run, e1, DrainCall);
    var e2 := Step(e1, DrainCall);
    forall i | 0 <= i < n ensures e2.shards[i].mpmc == [] && e2.shards[i].accepted == e.shards[i].accepted {
      CaughtUpMeans(e.shards[i], e1.shards[i]);
    }
    var e3;
    run, e3 := FalseDrain.SendAll(e, run + [DrainCall], e2);
    RunKeepsStop(e, run);
    e' := ShardsCatchUp(e3, n);
    run := FalseDrain.FollowLead(e, run, e3, e');
    forall i | 0 <= i < n
      ensures e'.shards[i].processed == e'.shards[i].accepted == e.shards[i].accepted + [Barrier(e'.drains)]
    {
      CaughtUpMeans(e3.shards[i], e'.shards[i]);
    }
  }

  /** While the engine runs, from every reachable state in which no drain is under way, a drain can be
      called and return, having sent each shard one barrier and seen everything processed. */
  lemma DrainCanComplete(n: nat, inventory: map<int, int>, flags: map<int, bool>, before: seq<Act>) returns (run: seq<Act>)
    requires 0 < n && ValidRun(Init(n, inventory, flags), before)
    requires Exec(Init(n, inventory, flags), before).running && Exec(Init(n, inventory, flags), before).drainer.NotDraining?
    ensures ValidRun(Exec(Init(n, inventory, flags), before), run)
    ensures
      var e := Exec(Init(n, inventory, flags), before);
      var e' := Exec(e, run);
      && |e.shards| == |e'.shards| == n && e'.running && e'.drainer.NotDraining? && e'.drains == e.drains + 1
      && forall i | 0 <= i < n ::
           e'.shards[i].processed == e'.shards[i].accepted == e.shards[i].accepted + [Barrier(e'.drains)]
  {
    hide Exec, ValidRun, FlowInv, StopInv, FalseDrain.Known, Drain.BarrierInv;
    var e := Exec(Init(n, inventory, flags), before);
    FalseDrain.RunReaches(n, inventory, flags, before);
    var e1;
    run, e1 := DrainWaits(e);
    RunsCompose(Init(n, inventory, flags), before, run);
    FalseDrain.RunReaches(n, inventory, flags, before + run);
    AllCounted(e1);
    DrainLoop(e1);
    FalseDrain.Then(e, run, e1, DrainStep);
    run := run + [DrainStep];
  }
}
