/** How the engine can be driven on from any reachable state: a worker can finish what it was
    given, a dispatcher can leave, and a stop can be carried through. */
module Schedules {
  import opened Pipeline
  import opened Worker
  import opened TicketQueue
  import opened Stop

  /** Some run without claims leads from `e` to `e'`. */
  ghost predicate Leads(e: Engine, e': Engine) {
    exists run :: ValidRun(e, run) && ClaimsNothing(e, run) && Exec(e, run) == e'
  }

  lemma LeadsNowhere(e: Engine)
    ensures Leads(e, e)
  {
    assert ValidRun(e, []) && ClaimsNothing(e, []) && Exec(e, []) == e;
  }

  lemma LeadsByStep(e: Engine, a: Act)
    requires Enabled(e, a) && !Claims(e, a)
    ensures Leads(e, Step(e, a))
  {
    hide Step;
    var run, e' := [a], Step(e, a);
    assert run[1..] == [] && run[0] == a;
    assert ValidRun(e', []) && ClaimsNothing(e', []) && Exec(e', []) == e';
    assert ValidRun(e', run[1..]) && ClaimsNothing(e', run[1..]) && Exec(e', run[1..]) == e';
    hide Enabled, Claims;
    assert ValidRun(e, run);
    assert ClaimsNothing(e, run) && Exec(e, run) == e';
  }

  lemma {:induction false} QuietRunsCompose(e: Engine, before: seq<Act>, after: seq<Act>)
    requires ValidRun(e, before) && ValidRun(Exec(e, before), after)
    requires ClaimsNothing(e, before) && ClaimsNothing(Exec(e, before), after)
    ensures ValidRun(e, before + after) && ClaimsNothing(e, before + after)
    decreases |before|
  {
    hide Step, Claims;
    RunsCompose(e, before, after);
    if before == [] {
      assert before + after == after;
    } else {
      QuietRunsCompose(Step(e, before[0]), before[1..], after);
      assert (before + after)[1..] == before[1..] + after;
    }
  }

  lemma LeadsOn(e: Engine, e1: Engine, e2: Engine)
    requires Leads(e, e1) && Leads(e1, e2)
    ensures Leads(e, e2)
  {
    var before :| ValidRun(e, before) && ClaimsNothing(e, before) && Exec(e, before) == e1;
    var after :| ValidRun(e1, after) && ClaimsNothing(e1, after) && Exec(e1, after) == e2;
    hide ValidRun, Exec, ClaimsNothing;
    QuietRunsCompose(e, before, after);
    RunsCompose(e, before, after);
  }

  lemma LeadsOnByStep(e: Engine, e1: Engine, a: Act)
    requires Leads(e, e1) && Enabled(e1, a) && !Claims(e1, a)
    ensures Leads(e, Step(e1, a))
  {
    hide Step;
    LeadsByStep(e1, a);
    LeadsOn(e, e1, Step(e1, a));
  }

  /** What holds of reachable states holds on the way. */
  lemma LeadsKeeps(e: Engine, e': Engine)
    requires FlowInv(e) && StopInv(e) && Leads(e, e')
    ensures FlowInv(e') && StopInv(e') && |e'.shards| == |e.shards|
  {
    hide FlowInv, StopInv, ValidRun, Exec;
    var run :| ValidRun(e, run) && ClaimsNothing(e, run) && Exec(e, run) == e';
    RunKeepsStop(e, run);
  }

  // ---- A worker finishes what it has ----

  /** What the worker has been given and has not processed. */
  function InWorker(s: Shard): seq<Msg> {
    (if s.thread.Batch? then s.thread.rest else []) + s.ring
  }

  function Barriers(ms: seq<Msg>): nat {
    if ms == [] then 0 else (if ms[0].Barrier? then 1 else 0) + Barriers(ms[1..])
  }

  lemma {:induction false} BarriersAppend(a: seq<Msg>, b: seq<Msg>)
    ensures Barriers(a + b) == Barriers(a) + Barriers(b)
    decreases |a|
  {
    if a == [] {
      assert a + b == b;
    } else {
      BarriersAppend(a[1..], b);
      assert (a + b)[1..] == a[1..] + b;
    }
  }

  predicate Dry(s: Shard) {
    s.ring == [] && !s.thread.Batch?
  }

  function Rank(t: Thread): nat {
    match t
    case Batch(rest, _) => if rest == [] then 2 else 0
    case First => 1
    case Second => 1
    case Empty => 3
    case ThreadExited => 0
  }

  /** Only shard `i`'s worker has moved on, by processing `done`. */
  ghost predicate WorkerMoved(e: Engine, e': Engine, i: nat, done: seq<Msg>)
    requires i < |e.shards|
  {
    |e'.shards| == |e.shards| &&
    var s, s' := e.shards[i], e'.shards[i];
    && e'.shards == e.shards[i := s']
    && e' == e.(shards := e'.shards, shared := e'.shared)
    && s'.mpmc == s.mpmc && s'.dispatcher == s.dispatcher && s'.accepted == s.accepted
    && s'.workerRunning == s.workerRunning && !s'.thread.ThreadExited?
    && s'.processed == s.processed + done
    && e'.shared.acks == e.shared.acks + Barriers(done)
  }

  lemma WorkerMovedOn(e: Engine, e1: Engine, e2: Engine, i: nat, done: seq<Msg>, more: seq<Msg>)
    requires i < |e.shards| && WorkerMoved(e, e1, i, done) && WorkerMoved(e1, e2, i, more)
    ensures WorkerMoved(e, e2, i, done + more)
  {
    hide Barriers;
    BarriersAppend(done, more);
    assert e2.shards == e.shards[i := e2.shards[i]];
    assert e.shards[i].processed + done + more == e.shards[i].processed + (done + more);
  }

  /** The worker's next step while there is something left. */
  lemma WorkerStep(e: Engine, i: nat) returns (e': Engine, done: seq<Msg>)
    requires FlowInv(e) && i < |e.shards| && !e.shards[i].thread.ThreadExited? && !Dry(e.shards[i])
    ensures Leads(e, e') && WorkerMoved(e, e', i, done)
    ensures InWorker(e.shards[i]) == done + InWorker(e'.shards[i])
    ensures done == [] ==> Rank(e'.shards[i].thread) < Rank(e.shards[i].thread)
  {
    var s := e.shards[i];
    if (s.thread.First? || s.thread.Second?) && s.ring != [] {
      var k := if |s.ring| < BATCH_SIZE then |s.ring| else BATCH_SIZE;
      e', done := TakeStepOf(e, i, k);
    } else if s.thread.Batch? && s.thread.rest != [] {
      WorkerCanStep(e, i);
      e', done := ProcessStepOf(e, i);
    } else {
      e', done := IdleStepOf(e, i);
    }
  }

  lemma TakeStepOf(e: Engine, i: nat, k: nat) returns (e': Engine, done: seq<Msg>)
    requires i < |e.shards| && Enabled(e, TakeBatch(i, k))
    ensures Leads(e, e') && WorkerMoved(e, e', i, done) && done == []
    ensures InWorker(e.shards[i]) == done + InWorker(e'.shards[i])
    ensures Rank(e'.shards[i].thread) < Rank(e.shards[i].thread)
  {
    LeadsByStep(e, TakeBatch(i, k));
    hide Leads, FlowInv;
    e', done := Step(e, TakeBatch(i, k)), [];
    var s := e.shards[i];
    assert s.ring[..k] + s.ring[k..] == s.ring;
    assert s.processed + [] == s.processed;
  }

  lemma ProcessStepOf(e: Engine, i: nat) returns (e': Engine, done: seq<Msg>)
    requires FlowInv(e) && i < |e.shards| && Enabled(e, Work(i))
    requires e.shards[i].thread.Batch? && e.shards[i].thread.rest != []
    ensures Leads(e, e') && WorkerMoved(e, e', i, done) && |done| == 1
    ensures InWorker(e.shards[i]) == done + InWorker(e'.shards[i])
  {
    LeadsByStep(e, Work(i));
    hide Leads;
    var s := e.shards[i];
    var m := s.thread.rest[0];
    e', done := Step(e, Work(i)), [m];
    AcksOfOne(e, i);
    hide FlowInv, Process;
    assert done[1..] == [] && Barriers(done) == if m.Barrier? then 1 else 0;
    assert s.thread.rest == [m] + s.thread.rest[1..];
  }

  /** Processing a message counts it exactly if it is a barrier. */
  lemma AcksOfOne(e: Engine, i: nat)
    requires FlowInv(e) && i < |e.shards| && Enabled(e, Work(i))
    requires e.shards[i].thread.Batch? && e.shards[i].thread.rest != []
    ensures ProcessNext(e.shards[i], e.shared).1.acks
            == e.shared.acks + (if e.shards[i].thread.rest[0].Barrier? then 1 else 0)
  {
    var m := e.shards[i].thread.rest[0];
    assert m in Pending(e.shards[i]) by { PendingProcess0(e.shards[i]); }
    PendingWasAccepted(e, i, m);
    hide FlowInv, Pending, ShardOf;
  }

  lemma IdleStepOf(e: Engine, i: nat) returns (e': Engine, done: seq<Msg>)
    requires i < |e.shards| && !Dry(e.shards[i])
    requires e.shards[i].thread.Empty? || (e.shards[i].thread.Batch? && e.shards[i].thread.rest == [])
    ensures Leads(e, e') && WorkerMoved(e, e', i, done) && done == []
    ensures InWorker(e.shards[i]) == done + InWorker(e'.shards[i])
    ensures Rank(e'.shards[i].thread) < Rank(e.shards[i].thread)
  {
    LeadsByStep(e, Work(i));
    hide Leads, FlowInv, Process;
    e', done := Step(e, Work(i)), [];
    assert e.shards[i].processed + [] == e.shards[i].processed;
  }

  /** A worker can process everything it has been given. */
  lemma {:induction false} WorkerRunsDry(e: Engine, i: nat) returns (e': Engine)
    requires FlowInv(e) && StopInv(e) && i < |e.shards| && !e.shards[i].thread.ThreadExited?
    ensures Leads(e, e') && WorkerMoved(e, e', i, InWorker(e.shards[i])) && Dry(e'.shards[i])
    decreases |InWorker(e.shards[i])|, Rank(e.shards[i].thread)
  {
    if Dry(e.shards[i]) {
      e' := e;
      LeadsNowhere(e);
      assert InWorker(e.shards[i]) == [];
    } else {
      var e1, done := WorkerStep(e, i);
      LeadsKeeps(e, e1);
      assert done == [] ==> |InWorker(e1.shards[i])| == |InWorker(e.shards[i])|;
      e' := WorkerRunsDry(e1, i);
      hide FlowInv, StopInv, Leads, InWorker, WorkerMoved;
      LeadsOn(e, e1, e');
      WorkerMovedOn(e, e1, e', i, done, InWorker(e1.shards[i]));
    }
  }

  /** A dry worker that has been told to stop can leave its loop. */
  lemma WorkerExits(e: Engine, i: nat) returns (e': Engine)
    requires i < |e.shards| && Dry(e.shards[i]) && !e.shards[i].workerRunning
    ensures Leads(e, e')
    ensures e' == PutShard(e, i, e.shards[i].(thread := ThreadExited))
  {
    hide Leads, Process;
    e' := e;
    LeadsNowhere(e);
    if e'.shards[i].thread.First? {
      LeadsOnByStep(e, e', Work(i));
      e' := Step(e', Work(i));
    }
    if e'.shards[i].thread.Empty? {
      LeadsOnByStep(e, e', Work(i));
      e' := Step(e', Work(i));
    }
    if e'.shards[i].thread.Second? {
      LeadsOnByStep(e, e', Work(i));
      e' := Step(e', Work(i));
    }
    assert e'.shards == e.shards[i := e.shards[i].(thread := ThreadExited)];
  }

  // ---- A dispatcher leaves ----

  /** Only shard `i` has moved on, without its worker being stopped or joined. */
  ghost predicate ShardMoved(e: Engine, e': Engine, i: nat)
    requires i < |e.shards|
  {
    |e'.shards| == |e.shards| &&
    var s, s' := e.shards[i], e'.shards[i];
    && e'.shards == e.shards[i := s']
    && e' == e.(shards := e'.shards, shared := e'.shared)
    && s'.accepted == s.accepted && s'.workerRunning == s.workerRunning && !s'.thread.ThreadExited?
  }

  lemma ShardMovedOn(e: Engine, e1: Engine, e2: Engine, i: nat)
    requires i < |e.shards| && ShardMoved(e, e1, i) && ShardMoved(e1, e2, i)
    ensures ShardMoved(e, e2, i)
  {
    assert e2.shards == e.shards[i := e2.shards[i]];
  }

  lemma DispatchMoves(e: Engine, i: nat) returns (e': Engine)
    requires Enabled(e, Dispatch(i)) && !e.shards[i].thread.ThreadExited?
    ensures Leads(e, e') && ShardMoved(e, e', i) && e'.shared == e.shared
    ensures e'.shards[i] == DispatchStep(e.shards[i], e.running)
  {
    LeadsByStep(e, Dispatch(i));
    hide Leads;
    e' := Step(e, Dispatch(i));
  }

  /** A dispatcher that holds a message can hand it over once the worker has made room. */
  lemma DispatcherHandsOver(e: Engine, i: nat) returns (e': Engine)
    requires FlowInv(e) && StopInv(e) && i < |e.shards| && !e.shards[i].thread.ThreadExited?
    requires e.shards[i].dispatcher.Holding?
    ensures Leads(e, e') && ShardMoved(e, e', i)
    ensures e'.shards[i].dispatcher.Checking? && e'.shards[i].mpmc == e.shards[i].mpmc
  {
    hide FlowInv, StopInv, Leads;
    var e1 := WorkerRunsDry(e, i);
    e' := DispatchMoves(e1, i);
    LeadsOn(e, e1, e');
    ShardMovedOn(e, e1, e', i);
  }

  /** After the stop has been requested a dispatcher can leave, having taken no more than the
      entry it had committed itself to. */
  lemma DispatcherLeaves(e: Engine, i: nat) returns (e': Engine)
    requires FlowInv(e) && StopInv(e) && !e.running && i < |e.shards| && !e.shards[i].thread.ThreadExited?
    ensures Leads(e, e') && ShardMoved(e, e', i)
    ensures e'.shards[i].dispatcher.DispatcherExited? && e'.shards[i].mpmc == Uncommitted(e.shards[i])
  {
    hide FlowInv, StopInv, Leads;
    e' := e;
    LeadsNowhere(e);
    if e'.shards[i].dispatcher.Popping? {
      e' := DispatchMoves(e, i);
    }
    if e'.shards[i].dispatcher.Holding? {
      LeadsKeeps(e, e');
      var e1 := DispatcherHandsOver(e', i);
      LeadsOn(e, e', e1);
      ShardMovedOn(e, e', e1, i);
      e' := e1;
    }
    if e'.shards[i].dispatcher.Checking? {
      var e1 := DispatchMoves(e', i);
      LeadsOn(e, e', e1);
      ShardMovedOn(e, e', e1, i);
      e' := e1;
    }
  }

  /** Shard `s'` is shard `s` after its dispatcher has left. */
  ghost predicate Left(s: Shard, s': Shard) {
    && s'.dispatcher.DispatcherExited? && s'.mpmc == Uncommitted(s) && s'.accepted == s.accepted
    && !s'.thread.ThreadExited?
  }

  lemma {:induction false} DispatchersLeave(e: Engine, k: nat) returns (e': Engine)
    requires FlowInv(e) && StopInv(e) && !e.running && k <= |e.shards|
    requires forall i | 0 <= i < |e.shards| :: !e.shards[i].thread.ThreadExited?
    ensures Leads(e, e') && FlowInv(e') && StopInv(e') && |e'.shards| == |e.shards|
    ensures e' == e.(shards := e'.shards, shared := e'.shared)
    ensures forall i | 0 <= i < k :: Left(e.shards[i], e'.shards[i])
    ensures forall i | k <= i < |e.shards| :: e'.shards[i] == e.shards[i]
    decreases k
  {
    hide FlowInv, StopInv, Leads, Uncommitted;
    if k == 0 {
      e' := e;
      LeadsNowhere(e);
    } else {
      var e1 := DispatchersLeave(e, k - 1);
      e' := DispatcherLeaves(e1, k - 1);
      LeadsOn(e, e1, e');
      LeadsKeeps(e1, e');
    }
  }

  // ---- A stop is carried through ----

  /** Shard `s'` is shard `s` after its worker has been joined. */
  ghost predicate JoinedShard(s: Shard, s': Shard) {
    s'.dispatcher == s.dispatcher && s'.mpmc == s.mpmc && s'.accepted == s.accepted
  }

  lemma JoinOne(e: Engine, i: nat) returns (e': Engine)
    requires FlowInv(e) && StopInv(e) && i < |e.shards| && e.stopper == StopWorker(i) && !e.shards[i].thread.ThreadExited?
    ensures Leads(e, e') && FlowInv(e') && StopInv(e') && |e'.shards| == |e.shards|
    ensures e'.stopper == StopWorker(i + 1) && JoinedShard(e.shards[i], e'.shards[i])
    ensures forall j | 0 <= j < |e.shards| && j != i :: e'.shards[j] == e.shards[j]
  {
    hide FlowInv, StopInv, Leads;
    LeadsByStep(e, StopStep);
    var e1 := Step(e, StopStep);
    LeadsKeeps(e, e1);
    var e2 := WorkerRunsDry(e1, i);
    LeadsOn(e, e1, e2);
    var e3 := WorkerExits(e2, i);
    LeadsOn(e, e2, e3);
    LeadsOnByStep(e, e3, StopStep);
    e' := Step(e3, StopStep);
    LeadsKeeps(e, e');
  }

  lemma {:induction false} WorkersJoin(e: Engine, k: nat) returns (e': Engine)
    requires FlowInv(e) && StopInv(e) && k <= |e.shards| && e.stopper == StopWorker(0)
    requires forall i | 0 <= i < |e.shards| :: !e.shards[i].thread.ThreadExited?
    ensures Leads(e, e') && FlowInv(e') && StopInv(e') && |e'.shards| == |e.shards| && e'.stopper == StopWorker(k)
    ensures forall i | 0 <= i < k :: JoinedShard(e.shards[i], e'.shards[i])
    ensures forall i | k <= i < |e.shards| :: e'.shards[i] == e.shards[i]
    decreases k
  {
    hide FlowInv, StopInv, Leads;
    if k == 0 {
      e' := e;
      LeadsNowhere(e);
    } else {
      var e1 := WorkersJoin(e, k - 1);
      e' := JoinOne(e1, k - 1);
      LeadsOn(e, e1, e');
    }
  }

  /** From any reachable state in which no stop has begun, a stop can be carried through that
      takes none of the entries the dispatchers have not committed themselves to. */
  lemma StopCanComplete(e: Engine) returns (e': Engine)
    requires FlowInv(e) && StopInv(e) && 0 < |e.shards| && e.stopper.Up?
    ensures Leads(e, e') && |e'.shards| == |e.shards| && e'.stopper.Down?
    ensures forall i | 0 <= i < |e.shards| ::
              e'.shards[i].mpmc == Uncommitted(e.shards[i]) && e'.shards[i].accepted == e.shards[i].accepted
  {
    WorkersUp(e);
    hide FlowInv, StopInv, Leads, Uncommitted;
    LeadsByStep(e, StopCall);
    var e1 := Step(e, StopCall);
    LeadsKeeps(e, e1);
    assert forall i | 0 <= i < |e.shards| :: Uncommitted(e1.shards[i]) == Uncommitted(e.shards[i]);
    var e2 := DispatchersLeave(e1, |e.shards|);
    LeadsOn(e, e1, e2);
    LeadsOnByStep(e, e2, StopStep);
    var e3 := Step(e2, StopStep);
    LeadsKeeps(e, e3);
    var e4 := WorkersJoin(e3, |e.shards|);
    LeadsOn(e, e3, e4);
    LeadsOnByStep(e, e4, StopStep);
    e' := Step(e4, StopStep);
    forall i | 0 <= i < |e.shards|
      ensures e'.shards[i].mpmc == Uncommitted(e.shards[i]) && e'.shards[i].accepted == e.shards[i].accepted
    {
      assert Left(e1.shards[i], e2.shards[i]) && JoinedShard(e3.shards[i], e4.shards[i]);
    }
  }

  lemma WorkersUp(e: Engine)
    requires StopInv(e) && e.stopper.Up?
    ensures forall i | 0 <= i < |e.shards| :: !e.shards[i].thread.ThreadExited?
  {
    forall i | 0 <= i < |e.shards| ensures !e.shards[i].thread.ThreadExited? {
      assert ShardStop(e, i);
    }
  }

  // ---- Everything past the queues is processed ----

  /** What has left a shard's first queue and is not processed. */
  function PastQueue(s: Shard): seq<Msg> {
    InWorker(s) + (if s.dispatcher.Holding? then [s.dispatcher.m] else [])
  }

  /** Shard `s'` is shard `s` with everything past its queue processed. */
  ghost predicate ProcessedPast(s: Shard, s': Shard) {
    s'.mpmc == s.mpmc && s'.accepted == s.accepted && s'.processed == s.processed + PastQueue(s)
  }

  lemma ShardRunsDry(e: Engine, i: nat) returns (e': Engine)
    requires FlowInv(e) && StopInv(e) && i < |e.shards|
    ensures Leads(e, e') && |e'.shards| == |e.shards| && e'.shards == e.shards[i := e'.shards[i]]
    ensures e' == e.(shards := e'.shards, shared := e'.shared) && ProcessedPast(e.shards[i], e'.shards[i])
    ensures e'.shared.acks == e.shared.acks + Barriers(PastQueue(e.shards[i]))
  {
    var s := e.shards[i];
    if s.thread.ThreadExited? {
      assert ShardStop(e, i);
      assert PastQueue(s) == [];
      e' := e;
      LeadsNowhere(e);
    } else {
      hide FlowInv, StopInv, Leads;
      var e1 := WorkerRunsDry(e, i);
      if s.dispatcher.Holding? {
        LeadsKeeps(e, e1);
        var e2 := HandOverAndRunDry(e1, i);
        LeadsOn(e, e1, e2);
        WorkerMovedPast(e, e1, e2, i);
        e' := e2;
      } else {
        assert PastQueue(s) == InWorker(s);
        e' := e1;
      }
    }
  }

  lemma HandOverAndRunDry(e: Engine, i: nat) returns (e': Engine)
    requires i < |e.shards| && !e.shards[i].thread.ThreadExited?
    requires FlowInv(e) && StopInv(e)
    requires Dry(e.shards[i]) && e.shards[i].dispatcher.Holding?
    ensures Leads(e, e') && |e'.shards| == |e.shards| && e'.shards == e.shards[i := e'.shards[i]]
    ensures e' == e.(shards := e'.shards, shared := e'.shared)
    ensures e'.shards[i].mpmc == e.shards[i].mpmc && e'.shards[i].accepted == e.shards[i].accepted
    ensures e'.shards[i].processed == e.shards[i].processed + [e.shards[i].dispatcher.m]
    ensures e'.shared.acks == e.shared.acks + Barriers([e.shards[i].dispatcher.m])
  {
    hide FlowInv, StopInv, Leads, Barriers;
    var e1 := DispatchMoves(e, i);
    LeadsKeeps(e, e1);
    assert InWorker(e1.shards[i]) == [e.shards[i].dispatcher.m];
    e' := WorkerRunsDry(e1, i);
    LeadsOn(e, e1, e');
    assert e'.shards == e.shards[i := e'.shards[i]];
  }

  lemma WorkerMovedPast(e: Engine, e1: Engine, e2: Engine, i: nat)
    requires i < |e.shards| && e.shards[i].dispatcher.Holding? && WorkerMoved(e, e1, i, InWorker(e.shards[i]))
    requires |e2.shards| == |e1.shards| && e2.shards == e1.shards[i := e2.shards[i]]
    requires e2.shards[i].mpmc == e1.shards[i].mpmc && e2.shards[i].accepted == e1.shards[i].accepted
    requires e2.shards[i].processed == e1.shards[i].processed + [e1.shards[i].dispatcher.m]
    requires e2.shared.acks == e1.shared.acks + Barriers([e1.shards[i].dispatcher.m])
    ensures e2.shards == e.shards[i := e2.shards[i]] && ProcessedPast(e.shards[i], e2.shards[i])
    ensures e2.shared.acks == e.shared.acks + Barriers(PastQueue(e.shards[i]))
  {
    hide Barriers, InWorker;
    var s := e.shards[i];
    BarriersAppend(InWorker(s), [s.dispatcher.m]);
    assert s.processed + InWorker(s) + [s.dispatcher.m] == s.processed + (InWorker(s) + [s.dispatcher.m]);
    assert e2.shards == e.shards[i := e2.shards[i]];
  }

  /** The barriers past the queues of the first `k` shards. */
  function BarriersPast(shards: seq<Shard>, k: nat): nat
    requires k <= |shards|
  {
    if k == 0 then 0 else BarriersPast(shards, k - 1) + Barriers(PastQueue(shards[k - 1]))
  }

  lemma {:induction false} ShardsRunDry(e: Engine, k: nat) returns (e': Engine)
    requires FlowInv(e) && StopInv(e) && k <= |e.shards|
    ensures Leads(e, e') && FlowInv(e') && StopInv(e') && |e'.shards| == |e.shards|
    ensures e' == e.(shards := e'.shards, shared := e'.shared)
    ensures forall i | 0 <= i < k :: ProcessedPast(e.shards[i], e'.shards[i])
    ensures forall i | k <= i < |e.shards| :: e'.shards[i] == e.shards[i]
    ensures e'.shared.acks == e.shared.acks + BarriersPast(e.shards, k)
    decreases k
  {
    hide FlowInv, StopInv, Leads, ProcessedPast, PastQueue, Barriers;
    if k == 0 {
      e' := e;
      LeadsNowhere(e);
    } else {
      var e1 := ShardsRunDry(e, k - 1);
      e' := ShardRunsDry(e1, k - 1);
      LeadsOn(e, e1, e');
      LeadsKeeps(e1, e');
    }
  }
}
