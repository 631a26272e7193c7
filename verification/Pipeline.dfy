/** The sharded engine: for each shard a multi-producer queue, a dispatcher thread, a
    single-producer ring and a worker thread; one drain call at a time; and the
    two-phase stop.

    Each thread runs on its own, step by step. The queues are what `MpmcSteps`
    and `SpscSteps` refine: entries that are claimed first and published later,
    and a bounded list from which the worker takes batches. */
module Pipeline {
  import opened TicketQueue
  import opened Worker
  import RingIndex

  const MPMC_CAPACITY: nat := 4096
  const SPSC_CAPACITY: nat := 16384
  const BATCH_SIZE: nat := 64

  /** What travels through a shard. The number of a barrier is bookkeeping: which drain sent it. */
  datatype Msg = Client(req: Request) | Barrier(drain: nat)

  /** The request as the worker reads it. */
  function Wire(m: Msg): Request {
    match m
    case Client(req) => req
    case Barrier(_) => Request(0, 0, 0, BARRIER_ID)
  }

  datatype Dispatcher =
    | Checking               // about to load running
    | Popping                // about to dequeue
    | Holding(m: Msg)        // spinning until the ring takes it
    | DispatcherExited

  datatype Thread =
    | First                                // about to dequeue a batch
    | Batch(rest: seq<Msg>, count: nat)    // processing, then adding to the processed count
    | Empty                                // got nothing, about to load running_
    | Second                               // saw the stop, about to dequeue once more
    | ThreadExited

  datatype Shard = Shard(
    mpmc: seq<Entry<Msg>>,
    dispatcher: Dispatcher,
    ring: seq<Msg>,
    thread: Thread,
    workerRunning: bool,
    worker: State,
    counted: nat,
    accepted: seq<Msg>,     // bookkeeping: every entry ever claimed, in ticket order
    processed: seq<Msg>)    // bookkeeping: every message the worker is done with

  datatype Drainer = NotDraining | Entered | Injecting(next: nat) | LoadCount | LoadRunning

  datatype Stopper = Up | JoinDispatchers | StopWorker(next: nat) | JoinWorker(current: nat) | Down

  datatype Engine = Engine(
    shards: seq<Shard>,
    running: bool,
    shared: Shared,         // `acks` is barrier_reached_count
    drainer: Drainer,
    drains: nat,            // bookkeeping: how many drains have reset the count
    stale: bool,            // bookkeeping: a drain found an older barrier under way at its reset
    stopper: Stopper)

  datatype Act =
    | Accept(req: Request)          // a client's claim of a ticket
    | PublishEntry(i: nat, k: nat)
    | Dispatch(i: nat)
    | TakeBatch(i: nat, k: nat)
    | Work(i: nat)
    | DrainCall
    | DrainStep
    | StopCall
    | StopStep

  function NewWorker(inventory: map<int, int>): State {
    State.State(inventory, {}, [], [])
  }

  function Init(n: nat, inventory: map<int, int>, flags: map<int, bool>): Engine {
    Engine(seq(n, _ => Shard([], Checking, [], First, true, NewWorker(inventory), 0, [], [])),
           true, Shared(0, flags, 0), NotDraining, 0, false, Up)
  }

  /** `std::abs(sku) % kWorkerCount` */
  function ShardOf(sku: int, n: nat): (i: nat)
    requires 0 < n
    ensures i < n
  {
    (if sku < 0 then -sku else sku) % n
  }

  /** The owner of a SKU is its remainder by the number of workers, and a SKU and its negative have
      the same owner. */
  lemma ShardOfIsRemainder(q: nat, r: nat, n: nat)
    requires r < n
    ensures ShardOf(q * n + r, n) == r && ShardOf(-(q * n + r), n) == r
  {
    RingIndex.DivModUnique(q * n + r, n, q, r);
  }

  predicate ClientOk(req: Request) {
    !IsBenchmark(req) && req.id != BARRIER_ID
  }

  predicate Enabled(e: Engine, a: Act) {
    var n := |e.shards|;
    0 < n &&
    match a
    case Accept(req) => ClientOk(req) && |e.shards[ShardOf(req.sku, n)].mpmc| < MPMC_CAPACITY
    case PublishEntry(i, k) => i < n && k < |e.shards[i].mpmc|
    case Dispatch(i) =>
      i < n && !e.shards[i].dispatcher.DispatcherExited?
      && (e.shards[i].dispatcher.Holding? ==> |e.shards[i].ring| < SPSC_CAPACITY)
    case TakeBatch(i, k) =>
      i < n && (e.shards[i].thread.First? || e.shards[i].thread.Second?)
      && 1 <= k <= BATCH_SIZE && k <= |e.shards[i].ring|
    case Work(i) =>
      i < n && !e.shards[i].thread.ThreadExited?
      && (e.shards[i].thread.First? || e.shards[i].thread.Second? ==> e.shards[i].ring == [])
      && (e.shards[i].thread.Batch? && e.shards[i].thread.rest != [] ==>
            !IsBenchmark(Wire(e.shards[i].thread.rest[0])))
    case DrainCall => e.drainer.NotDraining?
    case DrainStep =>
      !e.drainer.NotDraining?
      && (e.drainer.Injecting? && e.drainer.next < n ==> |e.shards[e.drainer.next].mpmc| < MPMC_CAPACITY)
    case StopCall => e.stopper.Up?
    case StopStep =>
      && !e.stopper.Up? && !e.stopper.Down?
      && (e.stopper.JoinDispatchers? ==> forall i | 0 <= i < n :: e.shards[i].dispatcher.DispatcherExited?)
      && (e.stopper.JoinWorker? ==> e.stopper.current < n && e.shards[e.stopper.current].thread.ThreadExited?)
  }

  function PutShard(e: Engine, i: nat, s: Shard): Engine
    requires i < |e.shards|
  {
    e.(shards := e.shards[i := s])
  }

  function ClaimEntry(s: Shard, m: Msg): Shard {
    s.(mpmc := Claim(s.mpmc, m), accepted := s.accepted + [m])
  }

  function DispatchStep(s: Shard, running: bool): Shard {
    match s.dispatcher
    case Checking => s.(dispatcher := if running then Popping else DispatcherExited)
    case Popping =>
      if CanTake(s.mpmc) then s.(mpmc := s.mpmc[1..], dispatcher := Holding(s.mpmc[0].value))
      else s.(dispatcher := Checking)
    case Holding(m) => s.(ring := s.ring + [m], dispatcher := Checking)
    case DispatcherExited => s
  }

  function TakeStep(s: Shard, k: nat): Shard
    requires k <= |s.ring|
  {
    s.(ring := s.ring[k..], thread := Batch(s.ring[..k], k))
  }

  /** Processing the next message of the batch. */
  function ProcessNext(s: Shard, shared: Shared): (Shard, Shared)
    requires s.thread.Batch? && s.thread.rest != [] && !IsBenchmark(Wire(s.thread.rest[0]))
  {
    var m := s.thread.rest[0];
    var (worker', shared') := Process(s.worker, shared, Wire(m));
    (s.(worker := worker', processed := s.processed + [m], thread := Batch(s.thread.rest[1..], s.thread.count)), shared')
  }

  function Step(e: Engine, a: Act): Engine
    requires Enabled(e, a)
  {
    var n := |e.shards|;
    match a
    case Accept(req) =>
      var i := ShardOf(req.sku, n);
      PutShard(e, i, ClaimEntry(e.shards[i], Client(req)))
    case PublishEntry(i, k) => PutShard(e, i, e.shards[i].(mpmc := Publish(e.shards[i].mpmc, k)))
    case Dispatch(i) => PutShard(e, i, DispatchStep(e.shards[i], e.running))
    case TakeBatch(i, k) => PutShard(e, i, TakeStep(e.shards[i], k))
    case Work(i) =>
      var s := e.shards[i];
      (match s.thread
       case First => PutShard(e, i, s.(thread := Empty))
       case Batch(rest, count) =>
         if rest != [] then
           var (s', shared') := ProcessNext(s, e.shared);
           PutShard(e, i, s').(shared := shared')
         else
           PutShard(e, i, s.(counted := s.counted + count, thread := First))
       case Empty => PutShard(e, i, s.(thread := if s.workerRunning then First else Second))
       case Second => PutShard(e, i, s.(thread := ThreadExited))
       case ThreadExited => e)
    case DrainCall => e.(drainer := Entered)
    case DrainStep =>
      (match e.drainer
       case Entered => e.(shared := e.shared.(acks := 0), drains := e.drains + 1,
                          stale := e.stale || BarrierUnderWay(e.shards), drainer := Injecting(0))
       case Injecting(i) =>
         if i < n then PutShard(e, i, ClaimEntry(e.shards[i], Barrier(e.drains))).(drainer := Injecting(i + 1))
         else e.(drainer := LoadCount)
       case LoadCount => e.(drainer := if e.shared.acks >= n then NotDraining else LoadRunning)
       case LoadRunning => e.(drainer := if !e.running then NotDraining else LoadCount)
       case NotDraining => e)
    case StopCall => e.(running := false, stopper := JoinDispatchers)
    case StopStep =>
      (match e.stopper
       case JoinDispatchers => e.(stopper := StopWorker(0))
       case StopWorker(i) =>
         if i < n then PutShard(e, i, e.shards[i].(workerRunning := false)).(stopper := JoinWorker(i))
         else e.(stopper := Down)
       case JoinWorker(i) => e.(stopper := StopWorker(i + 1))
       case _ => e)
  }

  predicate ValidRun(e: Engine, run: seq<Act>)
    decreases |run|
  {
    run == [] || (Enabled(e, run[0]) && ValidRun(Step(e, run[0]), run[1..]))
  }

  function Exec(e: Engine, run: seq<Act>): Engine
    requires ValidRun(e, run)
    decreases |run|
  {
    if run == [] then e else Exec(Step(e, run[0]), run[1..])
  }

  lemma ShardCountFixed(e: Engine, a: Act)
    requires Enabled(e, a)
    ensures |Step(e, a).shards| == |e.shards|
  {
    hide Process, ShardOf, BarrierUnderWay;
  }

  // ---- Conservation and order ----

  /** Everything accepted and not processed yet, in the order it will be processed. */
  function Pending(s: Shard): seq<Msg> {
    (if s.thread.Batch? then s.thread.rest else [])
    + s.ring
    + (if s.dispatcher.Holding? then [s.dispatcher.m] else [])
    + Values(s.mpmc)
  }

  predicate HoldsBarrier(ms: seq<Msg>) {
    exists k | 0 <= k < |ms| :: ms[k].Barrier?
  }

  /** Some shard has a barrier accepted and not processed. */
  predicate BarrierUnderWay(shards: seq<Shard>) {
    exists i | 0 <= i < |shards| :: HoldsBarrier(Pending(shards[i]))
  }

  ghost predicate Conserved(s: Shard) {
    s.processed + Pending(s) == s.accepted && CountOk(s)
  }

  /** The processed count lags by what the current batch has done. */
  ghost predicate CountOk(s: Shard) {
    && s.counted + (if s.thread.Batch? then s.thread.count - |s.thread.rest| else 0) == |s.processed|
    && (s.thread.Batch? ==> |s.thread.rest| <= s.thread.count)
  }

  lemma PendingClaim(s: Shard, m: Msg)
    ensures Pending(ClaimEntry(s, m)) == Pending(s) + [m]
  {
    ValuesClaim(s.mpmc, m);
  }

  lemma PendingDispatch(s: Shard, running: bool)
    ensures Pending(DispatchStep(s, running)) == Pending(s)
  {
    if s.dispatcher.Popping? && CanTake(s.mpmc) {
      ValuesTake(s.mpmc);
    }
  }

  lemma PendingTake(s: Shard, k: nat)
    requires k <= |s.ring| && !s.thread.Batch?
    ensures Pending(TakeStep(s, k)) == Pending(s)
  {
    assert s.ring[..k] + s.ring[k..] == s.ring;
  }

  lemma PendingProcess(s: Shard, shared: Shared)
    requires s.thread.Batch? && s.thread.rest != [] && !IsBenchmark(Wire(s.thread.rest[0]))
    ensures Pending(s) == [s.thread.rest[0]] + Pending(ProcessNext(s, shared).0)
  {
    assert s.thread.rest == [s.thread.rest[0]] + s.thread.rest[1..];
  }

  /** The message a step adds to shard `i`, if any. */
  function Added(e: Engine, a: Act, i: nat): seq<Msg>
    requires Enabled(e, a) && i < |e.shards|
  {
    if a.Accept? && i == ShardOf(a.req.sku, |e.shards|) then [Client(a.req)]
    else if a.DrainStep? && e.drainer == Injecting(i) then [Barrier(e.drains)]
    else []
  }

  /** The message a step finishes on shard `i`, if any. */
  function Finished(e: Engine, a: Act, i: nat): seq<Msg>
    requires Enabled(e, a) && i < |e.shards|
  {
    if a == Work(i) && e.shards[i].thread.Batch? && e.shards[i].thread.rest != []
    then [e.shards[i].thread.rest[0]] else []
  }

  /** What one step does to a shard, seen from outside: it accepts at the back, finishes at
      the front, or neither. */
  lemma StepMovesMessages(e: Engine, a: Act, i: nat)
    requires Enabled(e, a) && i < |e.shards|
    ensures |Step(e, a).shards| == |e.shards|
    ensures
      var s, s' := e.shards[i], Step(e, a).shards[i];
      && s'.accepted == s.accepted + Added(e, a, i)
      && s'.processed == s.processed + Finished(e, a, i)
      && Finished(e, a, i) + Pending(s') == Pending(s) + Added(e, a, i)
  {
    hide Process, Pending, ShardOf, Step;
    if a.Work? || a.TakeBatch? {
      WorkerMovesMessages(e, a, i);
    } else if a.Accept? || a.PublishEntry? || a.Dispatch? {
      QueueMovesMessages(e, a, i);
    } else {
      ControlMovesMessages(e, a, i);
    }
  }

  lemma QueueMovesMessages(e: Engine, a: Act, i: nat)
    requires Enabled(e, a) && i < |e.shards| && (a.Accept? || a.PublishEntry? || a.Dispatch?)
    ensures |Step(e, a).shards| == |e.shards|
    ensures
      var s, s' := e.shards[i], Step(e, a).shards[i];
      && s'.accepted == s.accepted + Added(e, a, i)
      && s'.processed == s.processed
      && Pending(s') == Pending(s) + Added(e, a, i)
  {
    hide Process, Values, ShardOf;
    var s := e.shards[i];
    match a
    case Accept(req) => if i == ShardOf(req.sku, |e.shards|) { PendingClaim(s, Client(req)); }
    case PublishEntry(j, k) => if i == j { ValuesPublish(s.mpmc, k); }
    case Dispatch(j) => if i == j { PendingDispatch(s, e.running); }
  }

  lemma ControlMovesMessages(e: Engine, a: Act, i: nat)
    requires Enabled(e, a) && i < |e.shards| && (a.DrainCall? || a.DrainStep? || a.StopCall? || a.StopStep?)
    ensures |Step(e, a).shards| == |e.shards|
    ensures
      var s, s' := e.shards[i], Step(e, a).shards[i];
      && s'.accepted == s.accepted + Added(e, a, i)
      && s'.processed == s.processed
      && Pending(s') == Pending(s) + Added(e, a, i)
  {
    hide Process, Values, ShardOf;
    if a.DrainStep? && e.drainer == Injecting(i) {
      PendingClaim(e.shards[i], Barrier(e.drains));
    }
  }

  lemma WorkerMovesMessages(e: Engine, a: Act, i: nat)
    requires Enabled(e, a) && i < |e.shards| && (a.Work? || a.TakeBatch?)
    ensures |Step(e, a).shards| == |e.shards|
    ensures
      var s, s' := e.shards[i], Step(e, a).shards[i];
      && s'.accepted == s.accepted
      && s'.processed == s.processed + Finished(e, a, i)
      && Finished(e, a, i) + Pending(s') == Pending(s)
  {
    ShardCountFixed(e, a);
    hide Process, Values, ShardOf;
    var s := e.shards[i];
    if a.i != i {
      WorkerLeavesOthers(e, a, i);
      hide Step, Enabled, Pending;
    } else if a.Work? && s.thread.Batch? && s.thread.rest != [] {
      PendingProcess(s, e.shared);
      hide Pending;
    } else if a.TakeBatch? {
      PendingTake(s, a.k);
      hide Pending;
    } else {
      assert Pending(Step(e, a).shards[i]) == Pending(s);
    }
  }

  lemma WorkerLeavesOthers(e: Engine, a: Act, i: nat)
    requires Enabled(e, a) && i < |e.shards| && (a.Work? || a.TakeBatch?) && a.i != i
    ensures |Step(e, a).shards| == |e.shards| && Step(e, a).shards[i] == e.shards[i]
  {
    hide Process, ShardOf;
  }

  /** Shard `i` was sent only proper client requests for its own SKUs, and barriers. */
  ghost predicate Routed(s: Shard, i: nat, n: nat)
    requires 0 < n
  {
    forall m | m in s.accepted && m.Client? :: ClientOk(m.req) && ShardOf(m.req.sku, n) == i
  }

  ghost predicate FlowInv(e: Engine) {
    forall i | 0 <= i < |e.shards| :: Conserved(e.shards[i]) && Routed(e.shards[i], i, |e.shards|)
  }

  lemma StepKeepsFlow(e: Engine, a: Act)
    requires FlowInv(e) && Enabled(e, a)
    ensures FlowInv(Step(e, a))
  {
    hide Process, Pending, ShardOf;
    assert |Step(e, a).shards| == |e.shards|;
    forall i | 0 <= i < |Step(e, a).shards|
      ensures Conserved(Step(e, a).shards[i]) && Routed(Step(e, a).shards[i], i, |e.shards|)
    {
      StepConserves(e, a, i);
      StepRoutes(e, a, i);
    }
  }

  lemma StepConserves(e: Engine, a: Act, i: nat)
    requires Enabled(e, a) && i < |e.shards| && Conserved(e.shards[i])
    ensures |Step(e, a).shards| == |e.shards| && Conserved(Step(e, a).shards[i])
  {
    hide Process, Pending, ShardOf, Step, CountOk, Enabled;
    StepMovesMessages(e, a, i);
    StepCounts(e, a, i);
    var s, s' := e.shards[i], Step(e, a).shards[i];
    Regroup(s.processed, Pending(s), Finished(e, a, i), Pending(s'), Added(e, a, i));
  }

  lemma StepCounts(e: Engine, a: Act, i: nat)
    requires Enabled(e, a) && i < |e.shards| && CountOk(e.shards[i])
    ensures |Step(e, a).shards| == |e.shards| && CountOk(Step(e, a).shards[i])
  {
    hide Process, ShardOf, Claim, Publish, CanTake, IsBenchmark, Step, Enabled;
    if a.Work? || a.TakeBatch? {
      WorkerCounts(e, a, i);
    } else {
      OthersLeaveThread(e, a, i);
    }
  }

  lemma WorkerCounts(e: Engine, a: Act, i: nat)
    requires Enabled(e, a) && i < |e.shards| && CountOk(e.shards[i]) && (a.Work? || a.TakeBatch?)
    ensures |Step(e, a).shards| == |e.shards| && CountOk(Step(e, a).shards[i])
  {
    hide Process, ShardOf, Claim, Publish, CanTake, IsBenchmark;
    assert a.i != i ==> Step(e, a).shards[i] == e.shards[i];
  }

  lemma OthersLeaveThread(e: Engine, a: Act, i: nat)
    requires Enabled(e, a) && i < |e.shards| && !a.Work? && !a.TakeBatch?
    ensures |Step(e, a).shards| == |e.shards|
    ensures
      var s, s' := e.shards[i], Step(e, a).shards[i];
      s'.thread == s.thread && s'.processed == s.processed && s'.counted == s.counted
  {
    hide Process, ShardOf, Claim, Publish, CanTake, IsBenchmark;
  }

  lemma StepRoutes(e: Engine, a: Act, i: nat)
    requires Enabled(e, a) && i < |e.shards| && Routed(e.shards[i], i, |e.shards|)
    ensures |Step(e, a).shards| == |e.shards| && Routed(Step(e, a).shards[i], i, |e.shards|)
  {
    hide Process, Pending, ShardOf, Step;
    StepMovesMessages(e, a, i);
  }

  lemma Regroup<T>(front: seq<T>, back: seq<T>, out: seq<T>, back': seq<T>, added: seq<T>)
    requires out + back' == back + added
    ensures (front + out) + back' == (front + back) + added
  {
    assert (front + out) + back' == front + (out + back');
    assert front + (back + added) == (front + back) + added;
  }

  lemma {:induction false} RunKeepsFlow(e: Engine, run: seq<Act>)
    requires FlowInv(e) && ValidRun(e, run)
    ensures FlowInv(Exec(e, run)) && |Exec(e, run).shards| == |e.shards|
    decreases |run|
  {
    if run != [] {
      StepKeepsFlow(e, run[0]);
      RunKeepsFlow(Step(e, run[0]), run[1..]);
    }
  }

  /** Main result: in every state of every run, on every shard, processed ++ rest of the batch
      ++ ring ++ dispatcher's hand ++ queue is exactly what was accepted, in order. */
  lemma NothingLostDuplicatedOrReordered(
      n: nat, inventory: map<int, int>, flags: map<int, bool>, run: seq<Act>, i: nat)
    requires ValidRun(Init(n, inventory, flags), run) && i < n
    ensures
      var e := Exec(Init(n, inventory, flags), run);
      |e.shards| == n && e.shards[i].processed + Pending(e.shards[i]) == e.shards[i].accepted
  {
    RunKeepsFlow(Init(n, inventory, flags), run);
    assert Conserved(Exec(Init(n, inventory, flags), run).shards[i]);
  }

  /** A message still pending was accepted. */
  lemma PendingWasAccepted(e: Engine, i: nat, m: Msg)
    requires FlowInv(e) && i < |e.shards| && m in Pending(e.shards[i])
    ensures m in e.shards[i].accepted
    ensures m.Client? ==> ClientOk(m.req) && ShardOf(m.req.sku, |e.shards|) == i
  {
    assert Conserved(e.shards[i]) && Routed(e.shards[i], i, |e.shards|);
    assert m in e.shards[i].processed + Pending(e.shards[i]);
  }

  /** A worker's step is never stuck on a message it may not process: no benchmark request gets
      into a shard. */
  lemma WorkerCanStep(e: Engine, i: nat)
    requires FlowInv(e) && i < |e.shards| && !e.shards[i].thread.ThreadExited?
    requires e.shards[i].thread.First? || e.shards[i].thread.Second? ==> e.shards[i].ring == []
    ensures Enabled(e, Work(i))
  {
    hide Pending, ShardOf;
    if e.shards[i].thread.Batch? && e.shards[i].thread.rest != [] {
      var m := e.shards[i].thread.rest[0];
      assert m in Pending(e.shards[i]) by { PendingProcess0(e.shards[i]); }
      PendingWasAccepted(e, i, m);
    }
  }

  lemma PendingProcess0(s: Shard)
    requires s.thread.Batch? && s.thread.rest != []
    ensures s.thread.rest[0] in Pending(s)
  {
    assert Pending(s)[0] == s.thread.rest[0];
  }

  /** A step that adds and finishes nothing leaves a shard's messages as they were. */
  lemma QuietStep(e: Engine, a: Act, i: nat)
    requires Enabled(e, a) && i < |e.shards| && Added(e, a, i) == [] && Finished(e, a, i) == []
    ensures |Step(e, a).shards| == |e.shards|
    ensures
      var s, s' := e.shards[i], Step(e, a).shards[i];
      s'.processed == s.processed && Pending(s') == Pending(s) && s'.accepted == s.accepted
  {
    hide Process, Pending, ShardOf, Step;
    StepMovesMessages(e, a, i);
    var s, s' := e.shards[i], Step(e, a).shards[i];
    assert [] + Pending(s') == Pending(s') && Pending(s) + [] == Pending(s);
    assert s.processed + [] == s.processed && s.accepted + [] == s.accepted;
  }
}
