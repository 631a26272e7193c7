/** Where the drain's promise ends: exactly when a drain can see its count reached although a
    request accepted before its barriers is unprocessed. */
module FalseDrain {
  import opened Pipeline
  import opened Worker
  import opened TicketQueue
  import opened Stop
  import opened Schedules
  import Drain

  /** What a dispatcher about to dequeue takes once drain `d` has sent its barriers: the front entry,
      or the barrier where the queue is empty, unless it is to be left there. */
  function NextEntry(s: Shard, d: nat, without: bool): seq<Msg> {
    if !s.dispatcher.Popping? then []
    else if s.mpmc != [] then [s.mpmc[0].value]
    else if without then [] else [Barrier(d)]
  }

  /** All that the worker of a stopped engine's shard can still get in drain `d`. */
  function Gets(s: Shard, d: nat, without: bool): seq<Msg> {
    PastQueue(s) + NextEntry(s, d, without)
  }

  /** The barriers among what the first `k` workers can get; shard `skip` leaves its own queued. */
  function Reach(shards: seq<Shard>, d: nat, skip: nat, k: nat): nat
    requires k <= |shards|
  {
    if k == 0 then 0 else Reach(shards, d, skip, k - 1) + Barriers(Gets(shards[k - 1], d, k - 1 == skip))
  }

  /** Some barrier the worker can get is an older one. */
  predicate HasOlder(s: Shard, d: nat) {
    var ms := Gets(s, d, false);
    exists k | 0 <= k < |ms| :: ms[k].Barrier? && ms[k] != Barrier(d)
  }

  /** The drain can get its barrier into the queue. */
  predicate HasRoom(s: Shard) {
    |s.mpmc| < MPMC_CAPACITY || s.dispatcher.Popping?
  }

  /** Seen when a drain is about to begin: the workers can get as many barriers as there are
      workers, an older one among them, and every queue takes the drain's barrier. */
  predicate CanLie(e: Engine) {
    var n, d := |e.shards|, e.drains + 1;
    && Reach(e.shards, d, n, n) >= n
    && (exists i | 0 <= i < n :: HasOlder(e.shards[i], d))
    && forall i | 0 <= i < n :: HasRoom(e.shards[i])
  }

  /** In `e'` the drain that was about to begin in `e` sees its count reached, and some shard has not
      processed all it accepted before the drain's barrier. */
  ghost predicate FalseReport(e: Engine, e': Engine) {
    && e'.drains == e.drains + 1 && e'.drainer.LoadCount? && e'.shared.acks >= |e'.shards|
    && exists i | 0 <= i < |e'.shards| :: !Drain.DrainedUpTo(e'.shards[i], e'.drains)
  }

  // ---- What holds of every reachable state ----

  /** Queues keep to their capacity, and no barrier is from a drain that has not begun. */
  ghost predicate Known(e: Engine) {
    forall i | 0 <= i < |e.shards| ::
      && |e.shards[i].mpmc| <= MPMC_CAPACITY
      && forall m | m in e.shards[i].accepted && m.Barrier? :: m.drain <= e.drains
  }

  lemma StepKeepsKnown(e: Engine, a: Act)
    requires Enabled(e, a) && Known(e)
    ensures Known(Step(e, a))
  {
    hide Process, ShardOf, BarrierUnderWay, Pending, Step, Known;
    ShardCountFixed(e, a);
    DrainsGrow(e, a);
    forall i | 0 <= i < |e.shards|
      ensures |Step(e, a).shards[i].mpmc| <= MPMC_CAPACITY
      ensures forall m | m in Step(e, a).shards[i].accepted && m.Barrier? :: m.drain <= Step(e, a).drains
    {
      KnownShard(e, i);
      QueueBounded(e, a, i);
      StepMovesMessages(e, a, i);
    }
    KnownAgain(Step(e, a));
  }

  lemma KnownShard(e: Engine, i: nat)
    requires Known(e) && i < |e.shards|
    ensures |e.shards[i].mpmc| <= MPMC_CAPACITY
    ensures forall m | m in e.shards[i].accepted && m.Barrier? :: m.drain <= e.drains
  {}

  lemma KnownAgain(e: Engine)
    requires forall i | 0 <= i < |e.shards| ::
               && |e.shards[i].mpmc| <= MPMC_CAPACITY
               && forall m | m in e.shards[i].accepted && m.Barrier? :: m.drain <= e.drains
    ensures Known(e)
  {}

  lemma QueueBounded(e: Engine, a: Act, i: nat)
    requires Enabled(e, a) && i < |e.shards| && |e.shards[i].mpmc| <= MPMC_CAPACITY
    ensures |Step(e, a).shards| == |e.shards| && |Step(e, a).shards[i].mpmc| <= MPMC_CAPACITY
  {
    hide Process, ShardOf, BarrierUnderWay, IsBenchmark;
  }

  lemma DrainsGrow(e: Engine, a: Act)
    requires Enabled(e, a)
    ensures Step(e, a).drains == if a.DrainStep? && e.drainer.Entered? then e.drains + 1 else e.drains
  {
    hide Process, ShardOf, BarrierUnderWay, IsBenchmark;
  }

  lemma {:induction false} RunKeepsKnown(e: Engine, run: seq<Act>)
    requires ValidRun(e, run) && Known(e)
    ensures Known(Exec(e, run)) && Exec(e, run).drains >= e.drains
    decreases |run|
  {
    hide Step, Known;
    if run != [] {
      StepKeepsKnown(e, run[0]);
      DrainsGrow(e, run[0]);
      RunKeepsKnown(Step(e, run[0]), run[1..]);
    }
  }

  // ---- A false report can be reached ----

  lemma Then(e0: Engine, run: seq<Act>, e: Engine, a: Act)
    requires ValidRun(e0, run) && Exec(e0, run) == e && Enabled(e, a)
    ensures ValidRun(e0, run + [a]) && Exec(e0, run + [a]) == Step(e, a)
  {
    hide Step;
    assert [a][1..] == [];
    RunsCompose(e0, run, [a]);
  }

  /** A drain sends its barriers to the first `k` shards. */
  lemma {:induction false} SendBarriers(e0: Engine, run: seq<Act>, e: Engine, k: nat) returns (run': seq<Act>, e': Engine)
    requires ValidRun(e0, run) && Exec(e0, run) == e && e.drainer == Injecting(0) && k <= |e.shards|
    requires forall i | 0 <= i < |e.shards| :: |e.shards[i].mpmc| < MPMC_CAPACITY
    ensures ValidRun(e0, run') && Exec(e0, run') == e' && |e'.shards| == |e.shards|
    ensures e' == e.(shards := e'.shards, drainer := Injecting(k))
    ensures forall i | 0 <= i < k :: e'.shards[i] == ClaimEntry(e.shards[i], Barrier(e.drains))
    ensures forall i | k <= i < |e.shards| :: e'.shards[i] == e.shards[i]
    decreases k
  {
    hide ValidRun, Exec, ClaimEntry;
    if k == 0 {
      run', e' := run, e;
    } else {
      var e1;
      run', e1 := SendBarriers(e0, run, e, k - 1);
      Then(e0, run', e1, DrainStep);
      run', e' := run' + [DrainStep], Step(e1, DrainStep);
    }
  }

  /** What becomes of a shard whose dispatcher takes the front entry it is about to dequeue. */
  function GrabIf(s: Shard, without: bool): Shard {
    if !without && s.dispatcher.Popping? && s.mpmc != []
    then s.(mpmc := s.mpmc[1..], dispatcher := Holding(s.mpmc[0].value)) else s
  }

  lemma Grab(e: Engine, i: nat) returns (e': Engine)
    requires i < |e.shards| && e.shards[i].dispatcher.Popping? && e.shards[i].mpmc != []
    ensures Leads(e, e') && e' == PutShard(e, i, GrabIf(e.shards[i], false))
  {
    hide Leads, Process, ShardOf;
    LeadsByStep(e, PublishEntry(i, 0));
    var e1 := Step(e, PublishEntry(i, 0));
    LeadsOnByStep(e, e1, Dispatch(i));
    e' := Step(e1, Dispatch(i));
    assert e1.shards[i].mpmc[1..] == e.shards[i].mpmc[1..];
    assert e'.shards == e.shards[i := GrabIf(e.shards[i], false)];
  }

  lemma {:induction false} GrabAll(e: Engine, k: nat, skip: nat) returns (e': Engine)
    requires k <= |e.shards|
    ensures Leads(e, e') && |e'.shards| == |e.shards| && e' == e.(shards := e'.shards)
    ensures forall i | 0 <= i < k :: e'.shards[i] == GrabIf(e.shards[i], i == skip)
    ensures forall i | k <= i < |e.shards| :: e'.shards[i] == e.shards[i]
    decreases k
  {
    hide Leads;
    if k == 0 {
      e' := e;
      LeadsNowhere(e);
    } else {
      var e1 := GrabAll(e, k - 1, skip);
      e' := e1;
      if k - 1 != skip && e1.shards[k - 1].dispatcher.Popping? && e1.shards[k - 1].mpmc != [] {
        e' := Grab(e1, k - 1);
        LeadsOn(e, e1, e');
      }
    }
  }

  lemma FollowLead(e0: Engine, run: seq<Act>, e: Engine, e': Engine) returns (run': seq<Act>)
    requires ValidRun(e0, run) && Exec(e0, run) == e && Leads(e, e')
    ensures ValidRun(e0, run') && Exec(e0, run') == e'
  {
    hide ValidRun, Exec;
    var after :| ValidRun(e, after) && ClaimsNothing(e, after) && Exec(e, after) == e';
    RunsCompose(e0, run, after);
    run' := run + after;
  }

  /** A shard before its worker runs dry: its dispatcher has taken its front entry, the barrier has
      been sent, and a dispatcher with nothing before may have taken the barrier. */
  function Primed(s: Shard, d: nat, without: bool): Shard {
    GrabIf(ClaimEntry(GrabIf(s, false), Barrier(d)), without)
  }

  lemma PrimedPast(s: Shard, d: nat, without: bool)
    ensures var p := Primed(s, d, without);
            PastQueue(p) == Gets(s, d, without) && p.processed == s.processed && p.accepted == s.accepted + [Barrier(d)]
  {
    assert Claim([], Barrier(d)) == [Entry(Barrier(d), false)];
  }

  lemma {:induction false} PrimedReach(before: seq<Shard>, primed: seq<Shard>, d: nat, skip: nat, k: nat)
    requires k <= |before| == |primed| && forall i | 0 <= i < k :: primed[i] == Primed(before[i], d, i == skip)
    ensures BarriersPast(primed, k) == Reach(before, d, skip, k)
    decreases k
  {
    hide PastQueue, Gets, Barriers, Primed;
    if k != 0 {
      PrimedReach(before, primed, d, skip, k - 1);
      PrimedPast(before[k - 1], d, k - 1 == skip);
    }
  }

  /** A drain about to begin sends its barriers and starts to wait. */
  lemma SendAll(e0: Engine, run: seq<Act>, e: Engine) returns (run': seq<Act>, e': Engine)
    requires ValidRun(e0, run) && Exec(e0, run) == e && 0 < |e.shards| && e.drainer.Entered?
    requires forall i | 0 <= i < |e.shards| :: |e.shards[i].mpmc| < MPMC_CAPACITY
    ensures ValidRun(e0, run') && Exec(e0, run') == e' && |e'.shards| == |e.shards|
    ensures e'.drainer.LoadCount? && e'.drains == e.drains + 1 && e'.shared.acks == 0 && e'.running == e.running
    ensures forall i | 0 <= i < |e.shards| :: e'.shards[i] == ClaimEntry(e.shards[i], Barrier(e'.drains))
  {
    hide ValidRun, Exec, BarrierUnderWay, ClaimEntry;
    Then(e0, run, e, DrainStep);
    var e1 := Step(e, DrainStep);
    var e2;
    run', e2 := SendBarriers(e0, run + [DrainStep], e1, |e.shards|);
    Then(e0, run', e2, DrainStep);
    run', e' := run' + [DrainStep], Step(e2, DrainStep);
  }

  lemma GrabMakesRoom(s: Shard)
    requires HasRoom(s) && |s.mpmc| <= MPMC_CAPACITY
    ensures |GrabIf(s, false).mpmc| < MPMC_CAPACITY
  {}

  /** The drain is under way and every shard is primed. */
  lemma PrimeAll(e: Engine, skip: nat) returns (run: seq<Act>, e': Engine)
    requires Known(e) && 0 < |e.shards| && e.drainer.Entered?
    requires forall i | 0 <= i < |e.shards| :: HasRoom(e.shards[i])
    ensures ValidRun(e, run) && Exec(e, run) == e' && |e'.shards| == |e.shards|
    ensures e'.drainer.LoadCount? && e'.drains == e.drains + 1 && e'.shared.acks == 0
    ensures forall i | 0 <= i < |e.shards| :: e'.shards[i] == Primed(e.shards[i], e'.drains, i == skip)
  {
    var n := |e.shards|;
    run := [];
    assert ValidRun(e, run) && Exec(e, run) == e;
    hide ValidRun, Exec, Leads, HasRoom, GrabIf, ClaimEntry;
    var e1 := GrabAll(e, n, n);
    run := FollowLead(e, run, e, e1);
    forall i | 0 <= i < n ensures |e1.shards[i].mpmc| < MPMC_CAPACITY {
      KnownShard(e, i);
      GrabMakesRoom(e.shards[i]);
    }
    var e2;
    run, e2 := SendAll(e, run, e1);
    e' := GrabAll(e2, n, skip);
    run := FollowLead(e, run, e2, e');
  }

  /** The drain sends its barriers, and the workers process all they can get. */
  lemma DrainSchedule(e: Engine, skip: nat) returns (run: seq<Act>)
    requires FlowInv(e) && StopInv(e) && Known(e) && 0 < |e.shards| && e.drainer.Entered?
    requires forall i | 0 <= i < |e.shards| :: HasRoom(e.shards[i])
    ensures ValidRun(e, run)
    ensures
      var e' := Exec(e, run);
      && |e'.shards| == |e.shards| && e'.drainer.LoadCount? && e'.drains == e.drains + 1
      && e'.shared.acks == Reach(e.shards, e.drains + 1, skip, |e.shards|)
      && forall i | 0 <= i < |e.shards| ::
           && e'.shards[i].accepted == e.shards[i].accepted + [Barrier(e'.drains)]
           && e'.shards[i].processed == e.shards[i].processed + Gets(e.shards[i], e'.drains, i == skip)
  {
    hide ValidRun, Exec, StopInv, FlowInv, Known, HasRoom, Leads, Reach, BarriersPast, Gets, Primed, PastQueue;
    var e1;
    run, e1 := PrimeAll(e, skip);
    RunKeepsStop(e, run);
    PrimedReach(e.shards, e1.shards, e1.drains, skip, |e.shards|);
    var e2 := ShardsRunDry(e1, |e.shards|);
    run := FollowLead(e, run, e1, e2);
    forall i | 0 <= i < |e.shards|
      ensures e2.shards[i].accepted == e.shards[i].accepted + [Barrier(e2.drains)]
      ensures e2.shards[i].processed == e.shards[i].processed + Gets(e.shards[i], e2.drains, i == skip)
    {
      PrimedPast(e.shards[i], e2.drains, i == skip);
    }
  }

  /** Unless the worker gets this drain's barrier, the shard is not drained. */
  lemma NotDrained(s: Shard, s': Shard, d: nat, without: bool)
    requires Conserved(s) && forall m | m in s.accepted && m.Barrier? :: m.drain < d
    requires s'.processed == s.processed + Gets(s, d, without)
    requires without || !s.dispatcher.Popping? || s.mpmc != []
    ensures !Drain.DrainedUpTo(s', d)
  {
    TakenAndQueue(s);
    forall m | m in s'.processed ensures m in s.accepted {
      if m in s.processed || m in PastQueue(s) {
        assert m in Taken(s);
      } else {
        assert m == Values(s.mpmc)[0];
      }
    }
  }

  /** What has left the queue, in order: a prefix of what was accepted. */
  function Taken(s: Shard): seq<Msg> {
    s.processed + PastQueue(s)
  }

  lemma TakenAndQueue(s: Shard)
    requires Conserved(s)
    ensures Taken(s) + Values(s.mpmc) == s.accepted
  {
    hide Values;
    assert s.processed + Pending(s) == Taken(s) + Values(s.mpmc);
  }

  lemma BarriersHas(ms: seq<Msg>, k: nat)
    requires k < |ms| && ms[k].Barrier?
    ensures Barriers(ms) >= 1
    decreases k
  {
    if k != 0 { BarriersHas(ms[1..], k - 1); }
  }

  lemma {:induction false} ReachAtLeast(shards: seq<Shard>, d: nat, skip: nat, k: nat)
    requires k <= |shards| && forall i | 0 <= i < k :: Barriers(Gets(shards[i], d, i == skip)) >= 1
    ensures Reach(shards, d, skip, k) >= k
    decreases k
  {
    hide Gets, Barriers;
    if k != 0 { ReachAtLeast(shards, d, skip, k - 1); }
  }

  /** Where every dispatcher waits on an empty queue, leaving one shard's barrier queued still
      reaches the count if that shard has an older one. */
  lemma ReachWithout(shards: seq<Shard>, d: nat, j: nat)
    requires j < |shards| && HasOlder(shards[j], d)
    requires forall i | 0 <= i < |shards| :: shards[i].dispatcher.Popping? && shards[i].mpmc == []
    ensures Reach(shards, d, j, |shards|) >= |shards|
  {
    forall i | 0 <= i < |shards| ensures Barriers(Gets(shards[i], d, i == j)) >= 1 {
      if i == j {
        var k :| 0 <= k < |Gets(shards[j], d, false)| && Gets(shards[j], d, false)[k].Barrier? && Gets(shards[j], d, false)[k] != Barrier(d);
        assert k < |PastQueue(shards[j])|;
        BarriersHas(Gets(shards[j], d, true), k);
      } else {
        BarriersHas(Gets(shards[i], d, false), |PastQueue(shards[i])|);
      }
    }
    ReachAtLeast(shards, d, j, |shards|);
  }

  /** The shard that is not drained, and whether its barrier has to be left in the queue. */
  lemma ChooseShard(e: Engine) returns (left: nat, skip: nat)
    requires CanLie(e)
    ensures left < |e.shards| && (skip == left || !e.shards[left].dispatcher.Popping? || e.shards[left].mpmc != [])
    ensures Reach(e.shards, e.drains + 1, skip, |e.shards|) >= |e.shards|
  {
    hide Reach, HasOlder;
    var n, d := |e.shards|, e.drains + 1;
    if forall i | 0 <= i < n :: e.shards[i].dispatcher.Popping? && e.shards[i].mpmc == [] {
      left :| left < n && HasOlder(e.shards[left], d);
      skip := left;
      ReachWithout(e.shards, d, left);
    } else {
      left :| left < n && !(e.shards[left].dispatcher.Popping? && e.shards[left].mpmc == []);
      skip := n;
    }
  }

  lemma LieIsReached(e: Engine) returns (run: seq<Act>)
    requires FlowInv(e) && StopInv(e) && Known(e) && 0 < |e.shards| && e.drainer.Entered? && CanLie(e)
    ensures ValidRun(e, run) && FalseReport(e, Exec(e, run))
  {
    assert forall i | 0 <= i < |e.shards| :: HasRoom(e.shards[i]);
    var left, skip := ChooseShard(e);
    hide ValidRun, Exec, Gets, StopInv, HasRoom, Reach, CanLie, Drain.DrainedUpTo;
    run := DrainSchedule(e, skip);
    assert Conserved(e.shards[left]);
    hide FlowInv, Conserved;
    KnownShard(e, left);
    hide Known;
    NotDrained(e.shards[left], Exec(e, run).shards[left], e.drains + 1, left == skip);
  }

  // ---- After the stop nothing else can be reached ----

  /** Shard `s` is what has become of `s0`, of a stopped engine, since a drain was about to begin:
      of that drain's barriers it was sent at most one, and at most the entry its dispatcher was
      about to dequeue has left the queue. */
  ghost predicate ShardSince(s0: Shard, s: Shard, d: nat, sent: bool) {
    && s0.accepted <= s.accepted && s0.processed <= s.processed
    && (forall t | |s0.accepted| <= t < |s.accepted| && s.accepted[t].Barrier? :: s.accepted[t] == Barrier(d) && sent)
    && (forall t, u | |s0.accepted| <= t < u < |s.accepted| :: !(s.accepted[t].Barrier? && s.accepted[u].Barrier?))
    && TakenSince(s0, s)
    && (sent ==> HasRoom(s0))
  }

  ghost predicate TakenSince(s0: Shard, s: Shard) {
    && Taken(s0) <= Taken(s) && |Taken(s)| <= |Taken(s0)| + (if s0.dispatcher.Popping? then 1 else 0)
    && (s.dispatcher.Popping? ==> s0.dispatcher.Popping? && Taken(s) == Taken(s0))
  }

  /** The drain's barrier has been sent to shard `i`. */
  predicate Sent(e0: Engine, e: Engine, i: nat) {
    e.drains == e0.drains + 1 && (e.drainer.Injecting? ==> i < e.drainer.next)
  }

  function ProcessedBarriers(shards: seq<Shard>, k: nat): nat
    requires k <= |shards|
  {
    if k == 0 then 0 else ProcessedBarriers(shards, k - 1) + Barriers(shards[k - 1].processed)
  }

  /** The drain has not begun, or its count is at most the barriers processed since. */
  ghost predicate CountSince(e0: Engine, e: Engine) {
    && |e.shards| == |e0.shards|
    && ((e.drains == e0.drains && e.drainer.Entered?)
        || (e.drains == e0.drains + 1
            && e.shared.acks + ProcessedBarriers(e0.shards, |e0.shards|) <= ProcessedBarriers(e.shards, |e.shards|)))
  }

  ghost predicate Since(e0: Engine, e: Engine) {
    && CountSince(e0, e) && !e.running && FlowInv(e) && FlowInv(e0)
    && forall i | 0 <= i < |e0.shards| :: ShardSince(e0.shards[i], e.shards[i], e0.drains + 1, Sent(e0, e, i))
  }

  lemma SinceStart(e: Engine)
    requires FlowInv(e) && e.drainer.Entered? && !e.running
    ensures Since(e, e)
  {
    hide FlowInv, Taken;
  }

  // ---- What leaves a queue ----

  /** A step of a stopped engine: only a dispatcher about to dequeue takes an entry from its queue,
      and it does so once. */
  lemma TakenStep(e: Engine, a: Act, i: nat)
    requires Enabled(e, a) && !e.running && i < |e.shards|
    ensures |Step(e, a).shards| == |e.shards|
    ensures
      var s, s' := e.shards[i], Step(e, a).shards[i];
      if a == Dispatch(i) && s.dispatcher.Popping? && CanTake(s.mpmc)
      then Taken(s') == Taken(s) + [s.mpmc[0].value] && !s'.dispatcher.Popping?
      else Taken(s') == Taken(s) && (s'.dispatcher.Popping? ==> s.dispatcher.Popping?)
  {
    ShardCountFixed(e, a);
    if a.Work? || a.TakeBatch? {
      if a.i == i { TakenByWorker(e, a); } else { WorkerLeavesOthers(e, a, i); hide Step; }
    } else if a.Dispatch? {
      if a.i == i { TakenByDispatcher(e, i); } else { DispatcherLeavesOthers(e, a.i, i); hide Step; }
    } else {
      OthersLeaveTaken(e, a, i);
    }
  }

  lemma TakenByWorker(e: Engine, a: Act)
    requires Enabled(e, a) && (a.Work? || a.TakeBatch?)
    ensures |Step(e, a).shards| == |e.shards|
    ensures Taken(Step(e, a).shards[a.i]) == Taken(e.shards[a.i])
    ensures Step(e, a).shards[a.i].dispatcher == e.shards[a.i].dispatcher
  {
    var s := e.shards[a.i];
    if a.TakeBatch? {
      BatchLeavesTaken(s, a.k);
      hide Taken;
    } else if s.thread.Batch? && s.thread.rest != [] {
      ProcessingLeavesTaken(s, e.shared);
      hide Taken, ProcessNext;
    } else {
      hide Process;
      assert InWorker(Step(e, a).shards[a.i]) == InWorker(s);
    }
  }

  lemma BatchLeavesTaken(s: Shard, k: nat)
    requires k <= |s.ring| && !s.thread.Batch?
    ensures Taken(TakeStep(s, k)) == Taken(s)
  {
    assert s.ring == s.ring[..k] + s.ring[k..];
    assert InWorker(TakeStep(s, k)) == InWorker(s);
  }

  lemma ProcessingLeavesTaken(s: Shard, shared: Shared)
    requires s.thread.Batch? && s.thread.rest != [] && !IsBenchmark(Wire(s.thread.rest[0]))
    ensures var s' := ProcessNext(s, shared).0;
            Taken(s') == Taken(s) && s'.dispatcher == s.dispatcher
  {
    hide Process;
    var s' := ProcessNext(s, shared).0;
    assert InWorker(s) == [s.thread.rest[0]] + InWorker(s');
  }

  lemma TakenByDispatcher(e: Engine, i: nat)
    requires Enabled(e, Dispatch(i)) && !e.running
    ensures |Step(e, Dispatch(i)).shards| == |e.shards|
    ensures
      var s, s' := e.shards[i], Step(e, Dispatch(i)).shards[i];
      if s.dispatcher.Popping? && CanTake(s.mpmc)
      then Taken(s') == Taken(s) + [s.mpmc[0].value] && !s'.dispatcher.Popping?
      else Taken(s') == Taken(s) && !s'.dispatcher.Popping?
  {
    var s, s' := e.shards[i], Step(e, Dispatch(i)).shards[i];
    assert s' == DispatchStep(s, false);
    assert s.dispatcher.Holding? ==> InWorker(s') == InWorker(s) + [s.dispatcher.m];
    assert !s.dispatcher.Holding? ==> InWorker(s') == InWorker(s);
  }

  lemma DispatcherLeavesOthers(e: Engine, j: nat, i: nat)
    requires Enabled(e, Dispatch(j)) && i < |e.shards| && i != j
    ensures |Step(e, Dispatch(j)).shards| == |e.shards| && Step(e, Dispatch(j)).shards[i] == e.shards[i]
  {}

  lemma OthersLeaveTaken(e: Engine, a: Act, i: nat)
    requires Enabled(e, a) && i < |e.shards| && !a.Work? && !a.TakeBatch? && !a.Dispatch?
    ensures |Step(e, a).shards| == |e.shards|
    ensures
      var s, s' := e.shards[i], Step(e, a).shards[i];
      Taken(s') == Taken(s) && s'.dispatcher == s.dispatcher
  {
    hide Process, ShardOf, Claim, Publish, BarrierUnderWay, IsBenchmark;
  }

  // ---- Each step ----

  /** The new entries of a step, and the barrier that has been sent with it. */
  lemma ShardSinceStep(e0: Engine, e: Engine, a: Act, i: nat)
    requires Since(e0, e) && Enabled(e, a) && i < |e.shards| && Step(e, a).drains <= e0.drains + 1
    ensures |Step(e, a).shards| == |e.shards|
    ensures ShardSince(e0.shards[i], Step(e, a).shards[i], e0.drains + 1, Sent(e0, Step(e, a), i))
  {
    StepMovesMessages(e, a, i);
    TakenStep(e, a, i);
    SentStep(e0, e, a, i);
    var s0, s, s', d := e0.shards[i], e.shards[i], Step(e, a).shards[i], e0.drains + 1;
    var added := Added(e, a, i);
    assert Conserved(s0) && Conserved(s);
    if added != [] && added[0].Barrier? { RoomBefore(s0, s); }
    TakenSinceStep(s0, s, s');
    hide Step, FlowInv, Enabled, Added, Taken, Conserved, TakenSince, HasRoom;
    AcceptedSinceStep(s0, s, s', d, Sent(e0, e, i), added);
  }

  /** If a step sends the barrier to shard `i`, it had not been sent, and there is room. */
  lemma SentStep(e0: Engine, e: Engine, a: Act, i: nat)
    requires CountSince(e0, e) && Enabled(e, a) && i < |e.shards| && Step(e, a).drains <= e0.drains + 1
    ensures
      var added, e' := Added(e, a, i), Step(e, a);
      if added != [] && added[0].Barrier?
      then added[0] == Barrier(e0.drains + 1) && !Sent(e0, e, i) && Sent(e0, e', i) && |e.shards[i].mpmc| < MPMC_CAPACITY
      else Sent(e0, e', i) ==> Sent(e0, e, i)
    ensures Sent(e0, e, i) ==> Sent(e0, Step(e, a), i)
  {
    DrainsGrow(e, a);
    hide Process, ShardOf, BarrierUnderWay, IsBenchmark, ProcessedBarriers;
  }

  lemma RoomBefore(s0: Shard, s: Shard)
    requires Conserved(s0) && Conserved(s) && s0.accepted <= s.accepted && TakenSince(s0, s)
    requires |s.mpmc| < MPMC_CAPACITY
    ensures HasRoom(s0)
  {
    TakenAndQueue(s0);
    TakenAndQueue(s);
    hide Conserved, Taken;
  }

  lemma TakenSinceStep(s0: Shard, s: Shard, s': Shard)
    requires TakenSince(s0, s)
    requires (Taken(s') == Taken(s) && (s'.dispatcher.Popping? ==> s.dispatcher.Popping?))
             || (s.dispatcher.Popping? && s.mpmc != [] && Taken(s') == Taken(s) + [s.mpmc[0].value] && !s'.dispatcher.Popping?)
    ensures TakenSince(s0, s')
  {
    hide Taken;
  }

  lemma AcceptedSinceStep(s0: Shard, s: Shard, s': Shard, d: nat, sent: bool, added: seq<Msg>)
    requires ShardSince(s0, s, d, sent) && TakenSince(s0, s')
    requires |added| <= 1 && s'.accepted == s.accepted + added && s.processed <= s'.processed
    requires added != [] && added[0].Barrier? ==> added[0] == Barrier(d) && !sent && HasRoom(s0)
    ensures ShardSince(s0, s', d, sent || (added != [] && added[0].Barrier?))
  {
    hide TakenSince, HasRoom;
  }

  // ---- The count ----

  lemma {:induction false} ProcessedOneShard(before: seq<Shard>, after: seq<Shard>, k: nat, i: nat)
    requires k <= |before| == |after| && i < |before|
    requires forall j | 0 <= j < |before| && j != i :: after[j].processed == before[j].processed
    ensures ProcessedBarriers(after, k) - ProcessedBarriers(before, k)
            == if i < k then Barriers(after[i].processed) - Barriers(before[i].processed) else 0
    decreases k
  {
    if k != 0 { ProcessedOneShard(before, after, k - 1, i); }
  }

  lemma {:induction false} ProcessedGrows(before: seq<Shard>, after: seq<Shard>, k: nat)
    requires k <= |before| == |after| && forall i | 0 <= i < k :: before[i].processed <= after[i].processed
    ensures ProcessedBarriers(before, k) <= ProcessedBarriers(after, k)
    decreases k
  {
    hide Barriers;
    if k != 0 {
      ProcessedGrows(before, after, k - 1);
      BarriersPrefix(before[k - 1].processed, after[k - 1].processed);
    }
  }

  lemma BarriersPrefix(a: seq<Msg>, b: seq<Msg>)
    requires a <= b
    ensures Barriers(a) <= Barriers(b)
  {
    BarriersAppend(a, b[|a|..]);
    assert a + b[|a|..] == b;
  }

  predicate Processes(e: Engine, a: Act)
    requires Enabled(e, a)
  {
    a.Work? && e.shards[a.i].thread.Batch? && e.shards[a.i].thread.rest != []
  }

  lemma CountStep(e0: Engine, e: Engine, a: Act)
    requires Since(e0, e) && Enabled(e, a) && Step(e, a).drains <= e0.drains + 1
    ensures CountSince(e0, Step(e, a))
  {
    ShardCountFixed(e, a);
    DrainsGrow(e, a);
    var e' := Step(e, a);
    if Processes(e, a) {
      ProcessingCounts(e, a.i);
      hide Step, ProcessedBarriers, FlowInv, ShardSince;
    } else {
      OthersCount(e, a);
      if a.DrainStep? && e.drainer.Entered? {
        ProcessedGrows(e0.shards, e'.shards, |e0.shards|);
      } else if e.drains == e0.drains {
        StaysEntered(e, a);
      }
      if 0 < |e.shards| { ProcessedOneShard(e.shards, e'.shards, |e.shards|, 0); }
      hide Step, ProcessedBarriers, FlowInv, ShardSince;
    }
  }

  lemma StaysEntered(e: Engine, a: Act)
    requires Enabled(e, a) && e.drainer.Entered? && !a.DrainStep?
    ensures Step(e, a).drainer.Entered?
  {
    hide Process, ShardOf, BarrierUnderWay, IsBenchmark;
  }

  lemma ProcessingCounts(e: Engine, i: nat)
    requires FlowInv(e) && Enabled(e, Work(i)) && Processes(e, Work(i))
    ensures
      var e' := Step(e, Work(i));
      && |e'.shards| == |e.shards| && e'.drains == e.drains && e'.drainer == e.drainer
      && e'.shared.acks - e.shared.acks == ProcessedBarriers(e'.shards, |e.shards|) - ProcessedBarriers(e.shards, |e.shards|)
  {
    AcksOfOne(e, i);
    hide FlowInv, Process;
    var e', m := Step(e, Work(i)), e.shards[i].thread.rest[0];
    assert [m][1..] == [];
    assert Barriers([m]) == if m.Barrier? then 1 else 0;
    BarriersAppend(e.shards[i].processed, [m]);
    ProcessedOneShard(e.shards, e'.shards, |e.shards|, i);
  }

  lemma OthersCount(e: Engine, a: Act)
    requires Enabled(e, a) && !Processes(e, a)
    ensures |Step(e, a).shards| == |e.shards|
    ensures Step(e, a).shared.acks == if a.DrainStep? && e.drainer.Entered? then 0 else e.shared.acks
    ensures forall i | 0 <= i < |e.shards| :: Step(e, a).shards[i].processed == e.shards[i].processed
  {
    ShardCountFixed(e, a);
    forall i | 0 <= i < |e.shards| ensures Step(e, a).shards[i].processed == e.shards[i].processed {
      StepMovesMessages(e, a, i);
      assert Finished(e, a, i) == [];
    }
    hide Process, ShardOf, BarrierUnderWay, IsBenchmark, Claim, Publish, CanTake;
  }

  lemma StepKeepsSince(e0: Engine, e: Engine, a: Act)
    requires Since(e0, e) && Enabled(e, a) && Step(e, a).drains <= e0.drains + 1
    ensures Since(e0, Step(e, a))
  {
    hide Step, FlowInv, ShardSince, Sent;
    CountStep(e0, e, a);
    StepKeepsFlow(e, a);
    Drain.NeverStartsAgain(e, a);
    hide Enabled;
    forall i | 0 <= i < |e0.shards|
      ensures ShardSince(e0.shards[i], Step(e, a).shards[i], e0.drains + 1, Sent(e0, Step(e, a), i))
    {
      ShardSinceStep(e0, e, a, i);
    }
  }

  lemma {:induction false} RunKeepsSince(e0: Engine, e: Engine, run: seq<Act>)
    requires Since(e0, e) && ValidRun(e, run) && Exec(e, run).drains <= e0.drains + 1
    ensures Since(e0, Exec(e, run))
    decreases |run|
  {
    hide Step, Since;
    if run != [] {
      DrainsOnlyGrow(Step(e, run[0]), run[1..]);
      StepKeepsSince(e0, e, run[0]);
      RunKeepsSince(e0, Step(e, run[0]), run[1..]);
    }
  }

  lemma {:induction false} DrainsOnlyGrow(e: Engine, run: seq<Act>)
    requires ValidRun(e, run)
    ensures e.drains <= Exec(e, run).drains
    decreases |run|
  {
    hide Step;
    if run != [] {
      DrainsGrow(e, run[0]);
      DrainsOnlyGrow(Step(e, run[0]), run[1..]);
    }
  }

  // ---- What the count can say ----

  /** A shard's worker has processed no barriers but those it could get. */
  lemma GotAtMost(s0: Shard, s: Shard, d: nat)
    requires Conserved(s0) && Conserved(s) && ShardSince(s0, s, d, true)
    ensures Barriers(s.processed) <= Barriers(s0.processed) + Barriers(Gets(s0, d, false))
  {
    TakenAndQueue(s0);
    TakenAndQueue(s);
    var next := NextEntry(s0, d, false);
    BarriersPrefix(s.processed, Taken(s));
    BarriersAppend(s0.processed, PastQueue(s0));
    BarriersAppend(PastQueue(s0), next);
    if Taken(s) != Taken(s0) {
      var x := LastTaken(s0, s, d);
      BarriersAppend(Taken(s0), [x]);
      assert [x][1..] == [] && next[1..] == [];
      assert Barriers([x]) <= Barriers(next);
    }
  }

  /** The entry that has left the queue since: the front, or what was sent to an empty queue. */
  lemma LastTaken(s0: Shard, s: Shard, d: nat) returns (x: Msg)
    requires Conserved(s0) && Conserved(s) && ShardSince(s0, s, d, true) && Taken(s) != Taken(s0)
    ensures s0.dispatcher.Popping? && Taken(s) == Taken(s0) + [x]
    ensures if s0.mpmc != [] then x == s0.mpmc[0].value && x in s0.accepted else x.Barrier? ==> x == Barrier(d)
  {
    TakenAndQueue(s0);
    TakenAndQueue(s);
    hide Conserved;
    var t := |Taken(s0)|;
    x := Taken(s)[t];
    assert x == s.accepted[t];
    if s0.mpmc != [] { assert s0.accepted[t] == Values(s0.mpmc)[0]; }
  }

  /** With no older barrier to get, the worker has processed at most the drain's own. */
  lemma NoOlderToGet(s0: Shard, s: Shard, d: nat)
    requires Conserved(s0) && Conserved(s) && ShardSince(s0, s, d, true) && !HasOlder(s0, d)
    requires forall m | m in s0.accepted && m.Barrier? :: m.drain < d
    ensures Barriers(s.processed) <= Barriers(s0.processed) + (if Barrier(d) in s.processed then 1 else 0)
  {
    TakenAndQueue(s0);
    TakenAndQueue(s);
    assert s.processed <= Taken(s);
    NothingOlderPast(s0, d);
    BarriersAppend(s0.processed, PastQueue(s0));
    if |s.processed| <= |Taken(s0)| {
      assert s.processed <= Taken(s0);
      BarriersPrefix(s.processed, Taken(s0));
    } else {
      var x := LastTaken(s0, s, d);
      assert s.processed == Taken(s0) + [x] && x in s.processed;
      assert x.Barrier? ==> x == Barrier(d) by { NextIsOwn(s0, d, x); }
      hide Conserved, ShardSince, HasOlder, Taken, PastQueue;
      BarriersAppend(Taken(s0), [x]);
      assert [x][1..] == [];
    }
  }

  lemma NextIsOwn(s0: Shard, d: nat, x: Msg)
    requires s0.dispatcher.Popping? && !HasOlder(s0, d)
    requires if s0.mpmc != [] then x == s0.mpmc[0].value else x.Barrier? ==> x == Barrier(d)
    ensures x.Barrier? ==> x == Barrier(d)
  {
    hide PastQueue;
    if s0.mpmc != [] { assert Gets(s0, d, false)[|PastQueue(s0)|] == x; }
  }

  lemma NothingOlderPast(s0: Shard, d: nat)
    requires !HasOlder(s0, d) && Taken(s0) <= s0.accepted && forall m | m in s0.accepted && m.Barrier? :: m.drain < d
    ensures Barriers(PastQueue(s0)) == 0
  {
    forall k | 0 <= k < |PastQueue(s0)| ensures !PastQueue(s0)[k].Barrier? {
      assert Gets(s0, d, false)[k] == PastQueue(s0)[k];
      assert Taken(s0)[|s0.processed| + k] == PastQueue(s0)[k] == s0.accepted[|s0.processed| + k];
    }
    NoBarriers(PastQueue(s0));
  }

  lemma {:induction false} NoBarriers(ms: seq<Msg>)
    requires forall k | 0 <= k < |ms| :: !ms[k].Barrier?
    ensures Barriers(ms) == 0
  {
    if ms != [] { NoBarriers(ms[1..]); }
  }

  lemma {:induction false} CountWithinReach(before: seq<Shard>, after: seq<Shard>, d: nat, skip: nat, k: nat)
    requires k <= |before| == |after| <= skip
    requires forall i | 0 <= i < k ::
               Barriers(after[i].processed) <= Barriers(before[i].processed) + Barriers(Gets(before[i], d, false))
    ensures ProcessedBarriers(after, k) <= ProcessedBarriers(before, k) + Reach(before, d, skip, k)
    decreases k
  {
    hide Gets, Barriers;
    if k != 0 { CountWithinReach(before, after, d, skip, k - 1); }
  }

  lemma {:induction false} FullCountIsEverywhere(before: seq<Shard>, after: seq<Shard>, d: nat, k: nat)
    requires k <= |before| == |after|
    requires forall i | 0 <= i < k ::
               Barriers(after[i].processed) <= Barriers(before[i].processed) + (if Barrier(d) in after[i].processed then 1 else 0)
    ensures ProcessedBarriers(after, k) <= ProcessedBarriers(before, k) + k
    ensures ProcessedBarriers(after, k) == ProcessedBarriers(before, k) + k
            ==> forall i | 0 <= i < k :: Barrier(d) in after[i].processed
    decreases k
  {
    hide Barriers;
    if k != 0 { FullCountIsEverywhere(before, after, d, k - 1); }
  }

  /** The drain's barrier processed means drained: it was sent once. */
  lemma OwnBarrierMeansDrained(s0: Shard, s: Shard, d: nat)
    requires Conserved(s) && ShardSince(s0, s, d, true) && Barrier(d) in s.processed
    requires forall m | m in s0.accepted && m.Barrier? :: m.drain < d
    ensures Drain.DrainedUpTo(s, d)
  {
    hide Taken, Pending;
    var t :| 0 <= t < |s.processed| && s.processed[t] == Barrier(d);
    assert s.accepted[t] == Barrier(d);
    assert forall u | 0 <= u < |s0.accepted| :: s.accepted[u] == s0.accepted[u] && s0.accepted[u] in s0.accepted;
  }

  /** The count of a stopped engine's drain reached: the workers could get that many barriers and there was
      room, and with no older barrier to get every shard is drained. */
  lemma ReachedCountMeans(e0: Engine, e: Engine)
    requires Since(e0, e) && Known(e0)
    requires e.drains == e0.drains + 1 && e.drainer.LoadCount? && e.shared.acks >= |e.shards|
    ensures Reach(e0.shards, e.drains, |e0.shards|, |e0.shards|) >= |e0.shards|
    ensures forall i | 0 <= i < |e0.shards| :: HasRoom(e0.shards[i])
    ensures (forall i | 0 <= i < |e0.shards| :: !HasOlder(e0.shards[i], e.drains)) ==>
              forall i | 0 <= i < |e.shards| :: Drain.DrainedUpTo(e.shards[i], e.drains)
  {
    hide ShardSince, HasOlder, HasRoom, Gets, Barriers, Reach, ProcessedBarriers, Drain.DrainedUpTo, Conserved;
    var n, d := |e0.shards|, e.drains;
    forall i | 0 <= i < n
      ensures HasRoom(e0.shards[i])
      ensures Barriers(e.shards[i].processed) <= Barriers(e0.shards[i].processed) + Barriers(Gets(e0.shards[i], d, false))
    {
      RoomWasThere(e0.shards[i], e.shards[i], d);
      assert Conserved(e0.shards[i]) && Conserved(e.shards[i]);
      GotAtMost(e0.shards[i], e.shards[i], d);
    }
    CountWithinReach(e0.shards, e.shards, d, n, n);
    if forall i | 0 <= i < n :: !HasOlder(e0.shards[i], d) {
      NoOlderMeansDrained(e0, e);
    }
  }

  lemma RoomWasThere(s0: Shard, s: Shard, d: nat)
    requires ShardSince(s0, s, d, true)
    ensures HasRoom(s0)
  {}

  lemma NoOlderMeansDrained(e0: Engine, e: Engine)
    requires Since(e0, e) && Known(e0)
    requires e.drains == e0.drains + 1 && e.drainer.LoadCount? && e.shared.acks >= |e.shards|
    requires forall i | 0 <= i < |e0.shards| :: !HasOlder(e0.shards[i], e.drains)
    ensures forall i | 0 <= i < |e.shards| :: Drain.DrainedUpTo(e.shards[i], e.drains)
  {
    hide ShardSince, HasOlder, Barriers, ProcessedBarriers, Drain.DrainedUpTo, Conserved;
    var n, d := |e0.shards|, e.drains;
    forall i | 0 <= i < n
      ensures Barriers(e.shards[i].processed)
              <= Barriers(e0.shards[i].processed) + (if Barrier(d) in e.shards[i].processed then 1 else 0)
    {
      assert Conserved(e0.shards[i]) && Conserved(e.shards[i]);
      KnownShard(e0, i);
      NoOlderToGet(e0.shards[i], e.shards[i], d);
    }
    FullCountIsEverywhere(e0.shards, e.shards, d, n);
    forall i | 0 <= i < n ensures Drain.DrainedUpTo(e.shards[i], d) {
      assert Conserved(e.shards[i]);
      KnownShard(e0, i);
      OwnBarrierMeansDrained(e0.shards[i], e.shards[i], d);
    }
  }

  // ---- While the engine runs ----

  /** The drain has not begun and no barrier is under way, or it has found none. */
  ghost predicate CleanSince(e0: Engine, e: Engine) {
    !e.stale && ((e.drains == e0.drains && e.drainer.Entered? && !BarrierUnderWay(e.shards)) || e.drains == e0.drains + 1)
  }

  lemma StepKeepsCleanSince(e0: Engine, e: Engine, a: Act)
    requires CleanSince(e0, e) && Enabled(e, a) && Step(e, a).drains <= e0.drains + 1
    ensures CleanSince(e0, Step(e, a))
  {
    hide BarrierUnderWay, Process, ShardOf, IsBenchmark;
    DrainsGrow(e, a);
    if e.drains == e0.drains && !a.DrainStep? {
      StaysEntered(e, a);
      NoNewBarrier(e, a);
    }
  }

  lemma NoNewBarrier(e: Engine, a: Act)
    requires Enabled(e, a) && e.drainer.Entered? && !a.DrainStep? && !BarrierUnderWay(e.shards)
    ensures !BarrierUnderWay(Step(e, a).shards)
  {
    ShardCountFixed(e, a);
    hide Step, Pending, Process, ShardOf;
    forall i | 0 <= i < |e.shards| ensures !HoldsBarrier(Pending(Step(e, a).shards[i])) {
      StepMovesMessages(e, a, i);
      NoBarrierAdded(Pending(e.shards[i]), Finished(e, a, i), Added(e, a, i), Pending(Step(e, a).shards[i]));
    }
  }

  lemma NoBarrierAdded(before: seq<Msg>, done: seq<Msg>, added: seq<Msg>, after: seq<Msg>)
    requires done + after == before + added && !HoldsBarrier(before) && !HoldsBarrier(added)
    ensures !HoldsBarrier(after)
  {
    forall k | 0 <= k < |after| ensures !after[k].Barrier? {
      assert (done + after)[|done| + k] == after[k];
    }
  }

  lemma {:induction false} RunKeepsCleanSince(e0: Engine, e: Engine, run: seq<Act>)
    requires CleanSince(e0, e) && ValidRun(e, run) && Exec(e, run).drains <= e0.drains + 1
    ensures CleanSince(e0, Exec(e, run))
    decreases |run|
  {
    hide Step, CleanSince;
    if run != [] {
      DrainsOnlyGrow(Step(e, run[0]), run[1..]);
      StepKeepsCleanSince(e0, e, run[0]);
      RunKeepsCleanSince(e0, Step(e, run[0]), run[1..]);
    }
  }

  /** What a worker can get of an older barrier is under way. */
  lemma OlderIsUnderWay(e: Engine, i: nat, d: nat)
    requires i < |e.shards| && HasOlder(e.shards[i], d)
    ensures BarrierUnderWay(e.shards)
  {
    var s := e.shards[i];
    var ms := Gets(s, d, false);
    var k :| 0 <= k < |ms| && ms[k].Barrier? && ms[k] != Barrier(d);
    assert Pending(s) == PastQueue(s) + Values(s.mpmc);
    assert Pending(s)[k] == ms[k];
  }

  // ---- The exact condition ----

  ghost predicate Reachable(e: Engine) {
    Drain.Inv(e) && Drain.RunningIsClean(e) && StopInv(e) && Known(e)
  }

  lemma RunReaches(n: nat, inventory: map<int, int>, flags: map<int, bool>, run: seq<Act>)
    requires 0 < n && ValidRun(Init(n, inventory, flags), run)
    ensures Reachable(Exec(Init(n, inventory, flags), run)) && |Exec(Init(n, inventory, flags), run).shards| == n
  {
    hide Exec, ValidRun, StopInv, FlowInv;
    var e := Init(n, inventory, flags);
    Drain.InvInit(n, inventory, flags);
    InitStops(n, inventory, flags);
    assert Known(e);
    hide Known, Drain.Inv;
    Drain.RunKeepsClean(e, run);
    RunKeepsStop(e, run);
    RunKeepsKnown(e, run);
  }

  lemma NoFalseReportRunning(e: Engine, run: seq<Act>)
    requires Reachable(e) && e.drainer.Entered? && e.running && ValidRun(e, run) && Exec(e, run).drains == e.drains + 1
    requires Exec(e, run).drainer.LoadCount? && Exec(e, run).shared.acks >= |Exec(e, run).shards|
    ensures !FalseReport(e, Exec(e, run))
  {
    hide ValidRun, Exec, StopInv, Drain.DrainedUpTo, Drain.BarrierInv, FlowInv, Known, BarrierUnderWay;
    Drain.RunningStartIsClean(e);
    RunKeepsCleanSince(e, e, run);
    Drain.RunKeepsInv(e, run);
    hide CleanSince;
    assert !Exec(e, run).stale by { CleanMeansNotStale(e, Exec(e, run)); }
    Drain.FullCountIsSound(Exec(e, run));
  }

  lemma CleanMeansNotStale(e0: Engine, e: Engine)
    requires CleanSince(e0, e)
    ensures !e.stale
  {}

  lemma FalseReportSaysCount(e: Engine, e': Engine)
    requires FalseReport(e, e')
    ensures e'.drains == e.drains + 1 && e'.drainer.LoadCount? && e'.shared.acks >= |e'.shards|
  {}

  lemma NoFalseReportStopped(e: Engine, run: seq<Act>)
    requires Reachable(e) && e.drainer.Entered? && !e.running && ValidRun(e, run) && FalseReport(e, Exec(e, run))
    ensures CanLie(e)
  {
    hide ValidRun, Exec, StopInv, Drain.DrainedUpTo, Drain.BarrierInv, FlowInv, Known;
    SinceStart(e);
    RunKeepsSince(e, e, run);
    assert |Exec(e, run).shards| == |e.shards| by { Drain.RunKeepsInv(e, run); }
    hide Since, Reach, HasOlder, HasRoom, Drain.Inv;
    ReachedCountMeans(e, Exec(e, run));
  }

  /** Main result: from any reachable state in which a drain is about to begin, with any number of
      workers, some continuation of this drain sees its count reached with a shard not drained if and
      only if the workers can get as many barriers as there are workers, an older one
      among them, and every queue takes the drain's barrier. */
  lemma DrainCanLieExactly(n: nat, inventory: map<int, int>, flags: map<int, bool>, before: seq<Act>)
    requires 0 < n && ValidRun(Init(n, inventory, flags), before)
    requires Exec(Init(n, inventory, flags), before).drainer.Entered?
    ensures
      var e := Exec(Init(n, inventory, flags), before);
      (exists run :: ValidRun(e, run) && FalseReport(e, Exec(e, run))) <==> CanLie(e)
  {
    hide ValidRun, Exec, StopInv, FlowInv, Known, Drain.BarrierInv, FalseReport, CanLie;
    var e := Exec(Init(n, inventory, flags), before);
    RunReaches(n, inventory, flags, before);
    if CanLie(e) {
      var run := LieIsReached(e);
    }
    forall run | ValidRun(e, run) && FalseReport(e, Exec(e, run)) ensures CanLie(e) {
      FalseReportSaysCount(e, Exec(e, run));
      if e.running { NoFalseReportRunning(e, run); } else { NoFalseReportStopped(e, run); }
    }
  }

  /** While the engine runs, no drain about to begin can lie. */
  lemma RunningDrainCannotLie(n: nat, inventory: map<int, int>, flags: map<int, bool>, before: seq<Act>)
    requires 0 < n && ValidRun(Init(n, inventory, flags), before)
    ensures
      var e := Exec(Init(n, inventory, flags), before);
      e.drainer.Entered? && e.running ==> !CanLie(e)
  {
    hide ValidRun, Exec, StopInv, FlowInv, Known, Drain.BarrierInv, HasOlder, BarrierUnderWay;
    var e := Exec(Init(n, inventory, flags), before);
    RunReaches(n, inventory, flags, before);
    if e.drainer.Entered? && e.running && CanLie(e) {
      Drain.RunningStartIsClean(e);
      var i :| 0 <= i < n && HasOlder(e.shards[i], e.drains + 1);
      OlderIsUnderWay(e, i, e.drains + 1);
      assert false;
    }
  }

  // ---- Such a state is reached ----

  /** A shard that has moved the first drain's barrier into its ring. */
  function Delivered(s: Shard): Shard {
    s.(mpmc := [], ring := [Barrier(1)], accepted := [Barrier(1)])
  }

  /** The barrier of shard `i` is published and its dispatcher moves it into the ring. */
  lemma Deliver(e0: Engine, run: seq<Act>, e: Engine, i: nat) returns (run': seq<Act>, e': Engine)
    requires ValidRun(e0, run) && Exec(e0, run) == e && e.running && i < |e.shards|
    requires e.shards[i].dispatcher.Checking? && e.shards[i].ring == []
    requires e.shards[i].mpmc == [Entry(Barrier(1), false)] && e.shards[i].accepted == [Barrier(1)]
    ensures ValidRun(e0, run') && Exec(e0, run') == e' && e' == PutShard(e, i, Delivered(e.shards[i]))
  {
    hide ShardOf, Process, Exec, ValidRun;
    Then(e0, run, e, PublishEntry(i, 0));
    run', e' := run + [PublishEntry(i, 0)], Step(e, PublishEntry(i, 0));
    Then(e0, run', e', Dispatch(i));
    run', e' := run' + [Dispatch(i)], Step(e', Dispatch(i));
    Then(e0, run', e', Dispatch(i));
    run', e' := run' + [Dispatch(i)], Step(e', Dispatch(i));
    Then(e0, run', e', Dispatch(i));
    run', e' := run' + [Dispatch(i)], Step(e', Dispatch(i));
    assert e'.shards[i] == Delivered(e.shards[i]);
  }

  lemma {:induction false} DeliverAll(e0: Engine, run: seq<Act>, e: Engine, k: nat) returns (run': seq<Act>, e': Engine)
    requires ValidRun(e0, run) && Exec(e0, run) == e && e.running && k <= |e.shards|
    requires forall i | 0 <= i < |e.shards| ::
               && e.shards[i].dispatcher.Checking? && e.shards[i].ring == []
               && e.shards[i].mpmc == [Entry(Barrier(1), false)] && e.shards[i].accepted == [Barrier(1)]
    ensures ValidRun(e0, run') && Exec(e0, run') == e' && |e'.shards| == |e.shards| && e' == e.(shards := e'.shards)
    ensures forall i | 0 <= i < k :: e'.shards[i] == Delivered(e.shards[i])
    ensures forall i | k <= i < |e.shards| :: e'.shards[i] == e.shards[i]
    decreases k
  {
    hide Exec, ValidRun;
    if k == 0 {
      run', e' := run, e;
    } else {
      var e1;
      run', e1 := DeliverAll(e0, run, e, k - 1);
      run', e' := Deliver(e0, run', e1, k - 1);
    }
  }

  /** A drain up to the point where it waits, with its barriers in the workers' rings. */
  lemma FirstDrain(n: nat, inventory: map<int, int>, flags: map<int, bool>) returns (run: seq<Act>, e: Engine)
    requires 0 < n
    ensures ValidRun(Init(n, inventory, flags), run) && Exec(Init(n, inventory, flags), run) == e && |e.shards| == n
    ensures e.running && e.stopper.Up? && e.drainer.LoadCount? && e.drains == 1 && e.shared.acks == 0
    ensures forall i | 0 <= i < n :: e.shards[i] == Delivered(Init(n, inventory, flags).shards[i])
  {
    var e0 := Init(n, inventory, flags);
    run, e := [], e0;
    assert ValidRun(e0, run) && Exec(e0, run) == e0;
    hide Exec, ValidRun, BarrierUnderWay;
    Then(e0, run, e, DrainCall);
    run, e := run + [DrainCall], Step(e, DrainCall);
    Then(e0, run, e, DrainStep);
    run, e := run + [DrainStep], Step(e, DrainStep);
    run, e := SendBarriers(e0, run, e, n);
    Then(e0, run, e, DrainStep);
    run, e := run + [DrainStep], Step(e, DrainStep);
    run, e := DeliverAll(e0, run, e, n);
  }

  /** The stop ends the waiting drain, and another drain is called. */
  lemma StopAndDrainAgain(e0: Engine, run: seq<Act>, e: Engine) returns (run': seq<Act>, e': Engine)
    requires ValidRun(e0, run) && Exec(e0, run) == e && 0 < |e.shards|
    requires e.running && e.stopper.Up? && e.drainer.LoadCount? && e.shared.acks == 0
    ensures ValidRun(e0, run') && Exec(e0, run') == e'
    ensures e' == e.(running := false, stopper := JoinDispatchers, drainer := Entered)
  {
    hide Exec, ValidRun;
    Then(e0, run, e, StopCall);
    run', e' := run + [StopCall], Step(e, StopCall);
    Then(e0, run', e', DrainStep);
    run', e' := run' + [DrainStep], Step(e', DrainStep);
    Then(e0, run', e', DrainStep);
    run', e' := run' + [DrainStep], Step(e', DrainStep);
    Then(e0, run', e', DrainCall);
    run', e' := run' + [DrainCall], Step(e', DrainCall);
  }

  /** With any number of workers the false report happens in a run from the start: a stop
      overtakes a drain, a request is accepted behind the drain's barrier, and another drain
      counts the old barriers while that request is unprocessed. */
  lemma LateDrainCanLie(n: nat, inventory: map<int, int>, flags: map<int, bool>, req: Request) returns (run: seq<Act>)
    requires 0 < n && ClientOk(req)
    ensures ValidRun(Init(n, inventory, flags), run)
    ensures
      var e, i := Exec(Init(n, inventory, flags), run), ShardOf(req.sku, n);
      && |e.shards| == n && e.drainer.LoadCount? && e.shared.acks >= n && e.drains == 2
      && e.shards[i].accepted == [Barrier(1), Client(req), Barrier(2)]
      && e.shards[i].processed == [Barrier(1)]
  {
    hide ShardOf, Process, Exec, ValidRun, StopInv, FlowInv, Reach, Known, Drain.BarrierInv;
    var e0, i := Init(n, inventory, flags), ShardOf(req.sku, n);
    var e;
    run, e := FirstDrain(n, inventory, flags);
    Then(e0, run, e, Accept(req));
    run, e := run + [Accept(req)], Step(e, Accept(req));
    run, e := StopAndDrainAgain(e0, run, e);
    forall j | 0 <= j < n ensures Gets(e.shards[j], 2, false) == [Barrier(1)] && HasRoom(e.shards[j]) {}
    forall j | 0 <= j < n ensures Barriers(Gets(e.shards[j], 2, j == n)) >= 1 {
      BarriersHas([Barrier(1)], 0);
    }
    ReachAtLeast(e.shards, 2, n, n);
    RunReaches(n, inventory, flags, run);
    var rest := DrainSchedule(e, n);
    RunsCompose(e0, run, rest);
    run := run + rest;
    assert e.shards[i].accepted == [Barrier(1)] + [Client(req)];
  }
}
