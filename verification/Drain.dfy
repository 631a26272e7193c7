/** The barrier drain: what a drain that leaves its loop because the count was reached
    may conclude, over any number of successive drains. */
module Drain {
  import opened Pipeline
  import opened Worker
  import opened TicketQueue

  /** No message occurs twice. */
  ghost predicate AtMostOnce(s: seq<Msg>, m: Msg) {
    forall a, b | 0 <= a < |s| && 0 <= b < |s| && s[a] == m && s[b] == m :: a == b
  }

  /** The number of the first `k` shards that have processed this drain's barrier. */
  ghost function Acks(shards: seq<Shard>, drain: nat, k: nat): nat
    requires k <= |shards|
  {
    if k == 0 then 0
    else Acks(shards, drain, k - 1) + (if Barrier(drain) in shards[k - 1].processed then 1 else 0)
  }

  /** How many shards have been sent the current drain's barrier. */
  function Injected(e: Engine): nat {
    if e.drains == 0 then 0
    else if e.drainer.Injecting? then e.drainer.next
    else |e.shards|
  }

  /** The barriers on one shard. */
  ghost predicate ShardBarriers(s: Shard, drain: nat, sent: bool) {
    var all := s.processed + Pending(s);
    && (forall m | m in all && m.Barrier? :: m.drain <= drain)
    && (forall m | m in Pending(s) && m.Barrier? :: m.drain == drain && 0 < drain)
    && AtMostOnce(all, Barrier(drain))
    && (0 < drain ==> (sent <==> Barrier(drain) in all))
  }

  /** While every drain so far found no older barrier under way at its reset: there is still
      none, and the count is the number of this drain's barriers processed. A drain that is over
      while the engine runs saw them all. */
  ghost predicate BarrierInv(e: Engine) {
    !e.stale ==>
      && Injected(e) <= |e.shards|
      && (forall i | 0 <= i < |e.shards| :: ShardBarriers(e.shards[i], e.drains, i < Injected(e)))
      && e.shared.acks == Acks(e.shards, e.drains, |e.shards|)
      && ((e.drainer.NotDraining? || e.drainer.Entered?) && e.running && 0 < e.drains ==>
            forall i | 0 <= i < |e.shards| :: Barrier(e.drains) in e.shards[i].processed)
  }

  // ---- Counting ----

  lemma {:induction false} AcksBounded(shards: seq<Shard>, drain: nat, k: nat)
    requires k <= |shards|
    ensures Acks(shards, drain, k) <= k
    ensures Acks(shards, drain, k) == k <==> forall i | 0 <= i < k :: Barrier(drain) in shards[i].processed
    decreases k
  {
    if k != 0 { AcksBounded(shards, drain, k - 1); }
  }

  lemma {:induction false} AcksNone(shards: seq<Shard>, drain: nat, k: nat)
    requires k <= |shards| && forall i | 0 <= i < k :: Barrier(drain) !in shards[i].processed
    ensures Acks(shards, drain, k) == 0
    decreases k
  {
    if k != 0 { AcksNone(shards, drain, k - 1); }
  }

  /** Shard `i` is the only one whose processed barriers may have changed. */
  lemma {:induction false} AcksOneShard(before: seq<Shard>, after: seq<Shard>, drain: nat, k: nat, i: nat)
    requires k <= |before| == |after| && i < |before|
    requires forall j | 0 <= j < |before| && j != i ::
               (Barrier(drain) in before[j].processed <==> Barrier(drain) in after[j].processed)
    ensures Acks(after, drain, k) - Acks(before, drain, k)
            == if i < k then (if Barrier(drain) in after[i].processed then 1 else 0)
                             - (if Barrier(drain) in before[i].processed then 1 else 0)
               else 0
    decreases k
  {
    if k != 0 { AcksOneShard(before, after, drain, k - 1, i); }
  }

  // ---- The invariant is kept ----

  /** Sending this drain's barrier, or a client's request, to a shard. */
  lemma AddedKeepsShard(s: Shard, s': Shard, m: Msg, drain: nat, sent: bool)
    requires ShardBarriers(s, drain, sent)
    requires s'.processed == s.processed && Pending(s') == Pending(s) + [m]
    requires m.Client? || (m == Barrier(drain) && 0 < drain && !sent)
    ensures ShardBarriers(s', drain, sent || m.Barrier?)
  {
    var all := s.processed + Pending(s);
    assert s'.processed + Pending(s') == all + [m];
    if m.Barrier? { assert m !in all; }
  }

  /** Finishing the message at the front. */
  lemma FinishedKeepsShard(s: Shard, s': Shard, m: Msg, drain: nat, sent: bool)
    requires ShardBarriers(s, drain, sent)
    requires s'.processed == s.processed + [m] && Pending(s) == [m] + Pending(s')
    ensures ShardBarriers(s', drain, sent)
    ensures m.Barrier? ==> m == Barrier(drain) && m !in s.processed
  {
    var all := s.processed + Pending(s);
    assert s'.processed + Pending(s') == all;
    assert all[|s.processed|] == m;
    assert m in Pending(s);
    forall x | x in Pending(s') ensures x in Pending(s) {}
    forall a | 0 <= a < |s.processed| && m == Barrier(drain) ensures s.processed[a] != m {
      assert all[a] == s.processed[a];
    }
  }

  lemma AcceptKeepsBarriers(e: Engine, req: Request)
    requires BarrierInv(e) && Enabled(e, Accept(req))
    ensures BarrierInv(Step(e, Accept(req)))
  {
    hide Process, Pending, ShardOf, ShardBarriers;
    var e', i := Step(e, Accept(req)), ShardOf(req.sku, |e.shards|);
    if !e.stale {
      StepMovesMessages(e, Accept(req), i);
      AddedKeepsShard(e.shards[i], e'.shards[i], Client(req), e.drains, i < Injected(e));
      AcksOneShard(e.shards, e'.shards, e.drains, |e.shards|, i);
    }
  }

  predicate Quiet(e: Engine, a: Act)
    requires Enabled(e, a)
  {
    a.PublishEntry? || a.Dispatch? || a.TakeBatch? || a.DrainCall? || a.StopCall? || a.StopStep?
    || (a.Work? && !(e.shards[a.i].thread.Batch? && e.shards[a.i].thread.rest != []))
  }

  lemma QuietFrame(e: Engine, a: Act)
    requires Enabled(e, a) && Quiet(e, a)
    ensures
      var e' := Step(e, a);
      && e'.shared == e.shared && e'.drains == e.drains && e'.stale == e.stale
      && (e'.running ==> e.running) && (e'.drainer == e.drainer || (e.drainer.NotDraining? && e'.drainer.Entered?))
      && forall i | 0 <= i < |e.shards| :: Added(e, a, i) == [] && Finished(e, a, i) == []
  {
    hide Process, Pending, ShardOf;
  }

  /** Steps that neither add nor finish a message and leave the count and the drain alone. */
  lemma QuietKeepsBarriers(e: Engine, a: Act)
    requires BarrierInv(e) && Enabled(e, a) && Quiet(e, a) && 0 < |e.shards|
    ensures BarrierInv(Step(e, a))
  {
    hide Process, Pending, ShardOf, Step;
    var e' := Step(e, a);
    QuietFrame(e, a);
    if !e.stale {
      forall i | 0 <= i < |e.shards|
        ensures |e'.shards| == |e.shards|
        ensures ShardBarriers(e'.shards[i], e.drains, i < Injected(e))
        ensures e'.shards[i].processed == e.shards[i].processed
      {
        QuietStep(e, a, i);
      }
      assert |e'.shards| == |e.shards| by { QuietStep(e, a, 0); }
      AcksOneShard(e.shards, e'.shards, e.drains, |e.shards|, 0);
    }
  }

  lemma FinishKeepsBarriers(e: Engine, i: nat)
    requires FlowInv(e) && BarrierInv(e)
    requires Enabled(e, Work(i)) && e.shards[i].thread.Batch? && e.shards[i].thread.rest != []
    ensures BarrierInv(Step(e, Work(i)))
  {
    hide Process, Pending, ShardOf, ShardBarriers;
    var e', m := Step(e, Work(i)), e.shards[i].thread.rest[0];
    if !e.stale {
      StepMovesMessages(e, Work(i), i);
      FinishedKeepsShard(e.shards[i], e'.shards[i], m, e.drains, i < Injected(e));
      AcksOneShard(e.shards, e'.shards, e.drains, |e.shards|, i);
      FinishCounts(e, i);
      assert m in e'.shards[i].processed by { assert e'.shards[i].processed[|e.shards[i].processed|] == m; }
    }
  }

  /** The count goes up by one for a barrier and stays for anything else. */
  lemma FinishCounts(e: Engine, i: nat)
    requires FlowInv(e) && Enabled(e, Work(i)) && e.shards[i].thread.Batch? && e.shards[i].thread.rest != []
    ensures Step(e, Work(i)).shared.acks
            == e.shared.acks + (if e.shards[i].thread.rest[0].Barrier? then 1 else 0)
  {
    var m := e.shards[i].thread.rest[0];
    assert m in Pending(e.shards[i]) by { PendingProcess(e.shards[i], e.shared); }
    PendingWasAccepted(e, i, m);
  }

  lemma ResetKeepsBarriers(e: Engine)
    requires BarrierInv(e) && Enabled(e, DrainStep) && e.drainer.Entered?
    ensures BarrierInv(Step(e, DrainStep))
  {
    hide Process, Pending, ShardOf, HoldsBarrier;
    var e' := Step(e, DrainStep);
    if !e'.stale {
      forall i | 0 <= i < |e.shards|
        ensures ShardBarriers(e'.shards[i], e'.drains, false)
        ensures Barrier(e'.drains) !in e'.shards[i].processed
      {
        ResetShard(e.shards[i], e.drains, i < Injected(e));
      }
      AcksNone(e'.shards, e'.drains, |e'.shards|);
    }
  }

  /** A shard with no barrier under way is ready for the next drain. */
  lemma ResetShard(s: Shard, drain: nat, sent: bool)
    requires ShardBarriers(s, drain, sent) && !HoldsBarrier(Pending(s))
    ensures ShardBarriers(s, drain + 1, false) && Barrier(drain + 1) !in s.processed
  {
    hide Pending;
    var all := s.processed + Pending(s);
    assert Barrier(drain + 1) !in all;
    forall m | m in Pending(s) ensures !m.Barrier? {
      var k :| 0 <= k < |Pending(s)| && Pending(s)[k] == m;
    }
  }

  lemma InjectKeepsBarriers(e: Engine)
    requires BarrierInv(e) && DrainerInv(e) && Enabled(e, DrainStep) && e.drainer.Injecting?
    ensures BarrierInv(Step(e, DrainStep))
  {
    hide Process, Pending, ShardOf, ShardBarriers;
    var e', i := Step(e, DrainStep), e.drainer.next;
    if !e.stale && i < |e.shards| {
      StepMovesMessages(e, DrainStep, i);
      AddedKeepsShard(e.shards[i], e'.shards[i], Barrier(e.drains), e.drains, false);
      AcksOneShard(e.shards, e'.shards, e.drains, |e.shards|, i);
    }
  }

  lemma StepKeepsBarriers(e: Engine, a: Act)
    requires FlowInv(e) && BarrierInv(e) && Enabled(e, a) && DrainerInv(e)
    ensures BarrierInv(Step(e, a))
  {
    hide Process, Pending, ShardOf, ShardBarriers, Step;
    if a.Accept? {
      AcceptKeepsBarriers(e, a.req);
    } else if a.Work? && e.shards[a.i].thread.Batch? && e.shards[a.i].thread.rest != [] {
      FinishKeepsBarriers(e, a.i);
    } else if a.DrainStep? && e.drainer.Entered? {
      ResetKeepsBarriers(e);
    } else if a.DrainStep? && e.drainer.Injecting? {
      InjectKeepsBarriers(e);
    } else if a.DrainStep? {
      LoadKeepsBarriers(e);
    } else {
      QuietKeepsBarriers(e, a);
    }
  }

  /** A drain that is past its reset has a number. */
  ghost predicate DrainerInv(e: Engine) {
    !e.drainer.NotDraining? && !e.drainer.Entered? ==> 0 < e.drains
  }

  lemma LoadKeepsBarriers(e: Engine)
    requires BarrierInv(e) && DrainerInv(e) && Enabled(e, DrainStep) && (e.drainer.LoadCount? || e.drainer.LoadRunning?)
    ensures BarrierInv(Step(e, DrainStep))
  {
    AcksBounded(e.shards, e.drains, |e.shards|);
  }

  ghost predicate Inv(e: Engine) {
    0 < |e.shards| && FlowInv(e) && BarrierInv(e) && DrainerInv(e)
  }

  lemma InvInit(n: nat, inventory: map<int, int>, flags: map<int, bool>)
    requires 0 < n
    ensures Inv(Init(n, inventory, flags))
  {
    var e := Init(n, inventory, flags);
    forall i | 0 <= i < n ensures Conserved(e.shards[i]) && ShardBarriers(e.shards[i], 0, false) {
      assert Pending(e.shards[i]) == [];
    }
    AcksNone(e.shards, 0, n);
  }

  lemma StepKeepsInv(e: Engine, a: Act)
    requires Inv(e) && Enabled(e, a)
    ensures Inv(Step(e, a)) && |Step(e, a).shards| == |e.shards|
  {
    hide BarrierInv, FlowInv, Process, ShardOf;
    StepKeepsFlow(e, a);
    StepKeepsBarriers(e, a);
  }

  lemma {:induction false} RunKeepsInv(e: Engine, run: seq<Act>)
    requires Inv(e) && ValidRun(e, run)
    ensures Inv(Exec(e, run)) && |Exec(e, run).shards| == |e.shards|
    decreases |run|
  {
    hide Step, BarrierInv, FlowInv;
    if run != [] {
      StepKeepsInv(e, run[0]);
      RunKeepsInv(Step(e, run[0]), run[1..]);
    }
  }

  /** On shard `s` everything accepted before the given barrier has been processed. */
  ghost predicate DrainedUpTo(s: Shard, drain: nat) {
    && s.processed <= s.accepted
    && exists t | 0 <= t < |s.processed| ::
         s.accepted[t] == Barrier(drain) && forall u | 0 <= u < |s.accepted| && s.accepted[u] == Barrier(drain) :: u == t
  }

  /** Main result: if no drain so far found an older barrier under way at its reset, then whenever
      the current one sees the count reach the number of workers, every shard has processed all
      that it accepted before this drain's one barrier. */
  lemma DrainIsSound(n: nat, inventory: map<int, int>, flags: map<int, bool>, run: seq<Act>)
    requires 0 < n && ValidRun(Init(n, inventory, flags), run)
    ensures
      var e := Exec(Init(n, inventory, flags), run);
      e.drainer.LoadCount? && e.shared.acks >= |e.shards| && !e.stale ==>
        forall i | 0 <= i < |e.shards| :: DrainedUpTo(e.shards[i], e.drains)
  {
    InvInit(n, inventory, flags);
    RunKeepsInv(Init(n, inventory, flags), run);
    var e := Exec(Init(n, inventory, flags), run);
    if e.drainer.LoadCount? && e.shared.acks >= |e.shards| && !e.stale {
      FullCountIsSound(e);
    }
  }

  lemma FullCountIsSound(e: Engine)
    requires Inv(e) && e.drainer.LoadCount? && e.shared.acks >= |e.shards| && !e.stale
    ensures forall i | 0 <= i < |e.shards| :: DrainedUpTo(e.shards[i], e.drains)
  {
    AcksBounded(e.shards, e.drains, |e.shards|);
    forall i | 0 <= i < |e.shards| ensures DrainedUpTo(e.shards[i], e.drains) {
      assert Conserved(e.shards[i]);
      ProcessedBarrier(e.shards[i], e.drains);
    }
  }

  lemma ProcessedBarrier(s: Shard, drain: nat)
    requires Conserved(s) && ShardBarriers(s, drain, true) && Barrier(drain) in s.processed
    ensures DrainedUpTo(s, drain)
  {
    var t :| 0 <= t < |s.processed| && s.processed[t] == Barrier(drain);
    assert s.accepted == s.processed + Pending(s);
    assert s.accepted[t] == Barrier(drain);
  }

  // ---- Drains started while the engine runs ----

  /** Every drain of the run resets the count while the engine still runs. */
  predicate ResetsWhileRunning(e: Engine, run: seq<Act>)
    requires ValidRun(e, run)
    decreases |run|
  {
    run == []
    || ((run[0].DrainStep? && e.drainer.Entered? ==> e.running) && ResetsWhileRunning(Step(e, run[0]), run[1..]))
  }

  /** With this drain's barrier processed there is none left on the shard. */
  lemma ProcessedMeansClean(s: Shard, drain: nat)
    requires ShardBarriers(s, drain, 0 < drain) && (0 < drain ==> Barrier(drain) in s.processed)
    ensures !HoldsBarrier(Pending(s))
  {
    var all := s.processed + Pending(s);
    forall b | 0 <= b < |Pending(s)| ensures !Pending(s)[b].Barrier? {
      var m := Pending(s)[b];
      assert m in Pending(s) && all[|s.processed| + b] == m;
      if 0 < drain {
        var a :| 0 <= a < |s.processed| && s.processed[a] == Barrier(drain);
        assert all[a] == Barrier(drain);
      }
    }
  }

  /** While the engine runs, a drain about to begin finds no barrier under way: the drain before
      saw them all. */
  lemma RunningStartIsClean(e: Engine)
    requires Inv(e) && !e.stale && e.running && e.drainer.Entered?
    ensures !BarrierUnderWay(e.shards)
  {
    hide Process, ShardOf, Pending, ShardBarriers, HoldsBarrier;
    forall i | 0 <= i < |e.shards| ensures !HoldsBarrier(Pending(e.shards[i])) {
      ProcessedMeansClean(e.shards[i], e.drains);
    }
  }

  lemma RunningResetIsClean(e: Engine, a: Act)
    requires Inv(e) && Enabled(e, a) && !e.stale && (a.DrainStep? && e.drainer.Entered? ==> e.running)
    ensures !Step(e, a).stale
  {
    hide Process, ShardOf, Pending, HoldsBarrier, BarrierUnderWay;
    if a.DrainStep? && e.drainer.Entered? {
      RunningStartIsClean(e);
    }
  }

  lemma {:induction false} EarlyDrainsStayClean(e: Engine, run: seq<Act>)
    requires Inv(e) && !e.stale && ValidRun(e, run) && ResetsWhileRunning(e, run)
    ensures !Exec(e, run).stale
    decreases |run|
  {
    hide Step, Inv;
    if run != [] {
      RunningResetIsClean(e, run[0]);
      StepKeepsInv(e, run[0]);
      EarlyDrainsStayClean(Step(e, run[0]), run[1..]);
    }
  }

  /** Any number of drains started while the engine runs are sound, also those that a stop
      overtakes. */
  lemma EarlyDrainIsSound(n: nat, inventory: map<int, int>, flags: map<int, bool>, run: seq<Act>)
    requires 0 < n && ValidRun(Init(n, inventory, flags), run) && ResetsWhileRunning(Init(n, inventory, flags), run)
    ensures
      var e := Exec(Init(n, inventory, flags), run);
      e.drainer.LoadCount? && e.shared.acks >= |e.shards| ==>
        forall i | 0 <= i < |e.shards| :: DrainedUpTo(e.shards[i], e.drains)
  {
    InvInit(n, inventory, flags);
    EarlyDrainsStayClean(Init(n, inventory, flags), run);
    DrainIsSound(n, inventory, flags, run);
  }

  // ---- What a caller can check ----

  /** An engine that runs has always run, so none of its drains found an older barrier. */
  ghost predicate RunningIsClean(e: Engine) {
    e.running ==> !e.stale
  }

  lemma StepKeepsClean(e: Engine, a: Act)
    requires Inv(e) && RunningIsClean(e) && Enabled(e, a)
    ensures RunningIsClean(Step(e, a))
  {
    NeverStartsAgain(e, a);
    hide Step, Inv;
    if e.running { RunningResetIsClean(e, a); }
  }

  lemma NeverStartsAgain(e: Engine, a: Act)
    requires Enabled(e, a)
    ensures Step(e, a).running ==> e.running
  {
    hide Process, ShardOf, BarrierUnderWay;
  }

  lemma {:induction false} RunKeepsClean(e: Engine, run: seq<Act>)
    requires Inv(e) && RunningIsClean(e) && ValidRun(e, run)
    ensures Inv(Exec(e, run)) && RunningIsClean(Exec(e, run)) && |Exec(e, run).shards| == |e.shards|
    decreases |run|
  {
    hide Step, Inv;
    if run != [] {
      StepKeepsInv(e, run[0]);
      StepKeepsClean(e, run[0]);
      RunKeepsClean(Step(e, run[0]), run[1..]);
    }
  }

  /** The form a caller can test: a drain that has returned while the engine still runs was sound;
      every shard has processed all that it accepted before the drain's one barrier. */
  lemma ReturnWhileRunningIsSound(n: nat, inventory: map<int, int>, flags: map<int, bool>, run: seq<Act>)
    requires 0 < n && ValidRun(Init(n, inventory, flags), run)
    ensures
      var e := Exec(Init(n, inventory, flags), run);
      e.running && e.drainer.NotDraining? && 0 < e.drains ==>
        forall i | 0 <= i < |e.shards| :: DrainedUpTo(e.shards[i], e.drains)
  {
    InvInit(n, inventory, flags);
    RunKeepsClean(Init(n, inventory, flags), run);
    var e := Exec(Init(n, inventory, flags), run);
    if e.running && e.drainer.NotDraining? && 0 < e.drains {
      forall i | 0 <= i < |e.shards| ensures DrainedUpTo(e.shards[i], e.drains) {
        assert Conserved(e.shards[i]);
        ProcessedBarrier(e.shards[i], e.drains);
      }
    }
  }
}
