/** The order worker can always finish: from every reachable state some run lets all producers join and
    all workers leave, and with room in the queue every item offered is written or dropped. */
module OrderDrainRuns {
  import opened TicketQueue
  import opened OrderDrain

  ghost predicate Leads(s: State, s': State) {
    exists run :: ValidRun(s, run) && Exec(s, run) == s'
  }

  lemma {:induction false} RunsCompose(s: State, before: seq<Act>, after: seq<Act>)
    requires ValidRun(s, before) && ValidRun(Exec(s, before), after)
    ensures ValidRun(s, before + after) && Exec(s, before + after) == Exec(Exec(s, before), after)
    decreases |before|
  {
    hide Step, Enabled;
    if before == [] {
      assert before + after == after;
    } else {
      RunsCompose(Step(s, before[0]), before[1..], after);
      assert (before + after)[1..] == before[1..] + after;
    }
  }

  lemma LeadsNowhere(s: State)
    ensures Leads(s, s)
  {
    assert ValidRun(s, []) && Exec(s, []) == s;
  }

  lemma LeadsByStep(s: State, a: Act)
    requires Enabled(s, a)
    ensures Leads(s, Step(s, a))
  {
    hide Step;
    var run, s' := [a], Step(s, a);
    assert run[1..] == [] && run[0] == a;
    assert ValidRun(s', []) && Exec(s', []) == s';
    assert ValidRun(s', run[1..]) && Exec(s', run[1..]) == s';
    hide Enabled;
    assert ValidRun(s, run) && Exec(s, run) == s';
  }

  lemma LeadsOn(s: State, s1: State, s2: State)
    requires Leads(s, s1) && Leads(s1, s2)
    ensures Leads(s, s2)
  {
    var before :| ValidRun(s, before) && Exec(s, before) == s1;
    var after :| ValidRun(s1, after) && Exec(s1, after) == s2;
    hide ValidRun, Exec;
    RunsCompose(s, before, after);
  }

  // ---- The producers finish ----

  /** How far a producer is from joining, and how many items it has still to offer. */
  function ToGo(p: Producer): int {
    match p
    case Looping(left) => 4 * left + 1
    case Offering(_, left) => 4 * left + 4
    case Publishing(_, left) => 4 * left + 3
    case Counting(_, left) => 4 * left + 2
    case Joined => 0
  }

  function ToOffer(p: Producer): int {
    match p
    case Looping(left) => left
    case Offering(_, left) => left + 1
    case Publishing(_, left) => left
    case Counting(_, left) => left
    case Joined => 0
  }

  lemma {:induction false} TallyNat<T>(s: seq<T>, weight: T -> int)
    requires forall i | 0 <= i < |s| :: weight(s[i]) >= 0
    ensures Tally(s, weight) >= 0
    decreases |s|
  {
    if s != [] { TallyNat(s[..|s| - 1], weight); }
  }

  /** The next step of a producer whose items are never refused. */
  function NextAct(s: State, p: nat, id: nat): Act
    requires p < |s.producers|
  {
    match s.producers[p]
    case Looping(left) => if left > 0 then Produce(p, id) else Produced(p)
    case Offering(_, _) => Offer(p, false)
    case _ => Produced(p)
  }

  lemma ProducerMoves(s: State, p: nat, id: nat)
    requires Inv(s) && p < |s.producers| && !s.producers[p].Joined?
    ensures Enabled(s, NextAct(s, p, id))
    ensures
      var s' := Step(s, NextAct(s, p, id));
      && s'.workers == s.workers && s'.done == s.done && |s'.producers| == |s.producers|
      && Tally(s'.producers, ToGo) < Tally(s.producers, ToGo)
      && |s'.claims| + Tally(s'.producers, ToOffer) == |s.claims| + Tally(s.producers, ToOffer)
  {
    CanMove(s, p, id);
    var s' := Step(s, NextAct(s, p, id));
    TallyUpdate(s.producers, p, s'.producers[p], ToGo);
    TallyUpdate(s.producers, p, s'.producers[p], ToOffer);
    hide Inv, Tally;
  }

  lemma CanMove(s: State, p: nat, id: nat)
    requires Inv(s) && p < |s.producers| && !s.producers[p].Joined?
    ensures Enabled(s, NextAct(s, p, id))
  {
    assert s.producers[p].Publishing? ==> HoldsTicket(s, s.producers[p].ticket);
  }

  lemma {:induction false} ProducersFinish(s: State) returns (s': State)
    requires Inv(s)
    ensures Leads(s, s') && Inv(s') && s'.workers == s.workers && s'.done == s.done
    ensures forall p | 0 <= p < |s'.producers| :: s'.producers[p].Joined?
    ensures |s'.claims| == |s.claims| + Tally(s.producers, ToOffer)
    decreases Measure(s.producers, ToGo)
  {
    hide Inv, Leads, Tally;
    if p :| 0 <= p < |s.producers| && !s.producers[p].Joined? {
      ProducerMoves(s, p, 0);
      var a := NextAct(s, p, 0);
      LeadsByStep(s, a);
      StepKeepsInv(s, a);
      TallyNat(s.producers, ToGo);
      TallyNat(Step(s, a).producers, ToGo);
      s' := ProducersFinish(Step(s, a));
      LeadsOn(s, Step(s, a), s');
    } else {
      s' := s;
      LeadsNowhere(s);
      TallyZero(s.producers, ToOffer);
    }
  }

  function Measure<T>(s: seq<T>, weight: T -> int): nat {
    if Tally(s, weight) >= 0 then Tally(s, weight) else 0
  }

  // ---- The workers leave ----

  function Steps(w: Worker): int {
    match w
    case Got(_) => 6
    case Marking(_) => 5
    case Writing(_) => 4
    case Popping => 3
    case CheckingDone => 2
    case PoppingAgain => 1
    case Exited => 0
  }

  /** One step of a worker: nearer to its exit, or one entry taken. */
  lemma WorkStepNearer(s: State, w: nat)
    requires w < |s.workers| && !s.workers[w].Exited? && s.done && (s.queue != [] ==> CanTake(s.queue))
    ensures
      var s' := WorkStep(s, w);
      && s'.done && s'.claims == s.claims && |s'.workers| == |s.workers| && s'.workers == s.workers[w := s'.workers[w]]
      && 10 * |s'.queue| + Steps(s'.workers[w]) < 10 * |s.queue| + Steps(s.workers[w])
  {}

  lemma WorkerMoves(s: State, w: nat)
    requires Inv(s) && s.done && w < |s.workers| && !s.workers[w].Exited?
    ensures
      var s' := Step(s, Work(w));
      && s'.done && s'.claims == s.claims && |s'.workers| == |s.workers|
      && 10 * |s'.queue| + Tally(s'.workers, Steps) < 10 * |s.queue| + Tally(s.workers, Steps)
  {
    FailedPopIsExactOnceDone(s);
    hide Inv, Tally, WorkStep, CanTake;
    WorkStepNearer(s, w);
    TallyUpdate(s.workers, w, WorkStep(s, w).workers[w], Steps);
    hide Steps;
  }

  lemma {:induction false} WorkersLeave(s: State) returns (s': State)
    requires Inv(s) && s.done
    ensures Leads(s, s') && Inv(s') && s'.done && s'.claims == s.claims && |s'.workers| == |s.workers|
    ensures forall w | 0 <= w < |s'.workers| :: s'.workers[w].Exited?
    decreases 10 * |s.queue| + Measure(s.workers, Steps)
  {
    hide Inv, Leads, Tally;
    if w :| 0 <= w < |s.workers| && !s.workers[w].Exited? {
      WorkerMoves(s, w);
      LeadsByStep(s, Work(w));
      StepKeepsInv(s, Work(w));
      TallyNat(s.workers, Steps);
      TallyNat(Step(s, Work(w)).workers, Steps);
      s' := WorkersLeave(Step(s, Work(w)));
      LeadsOn(s, Step(s, Work(w)), s');
    } else {
      s' := s;
      LeadsNowhere(s);
    }
  }

  /** From every reachable state the program can finish; and if no item is refused on the way, every item
      still to be offered is claimed. */
  lemma CanFinish(s: State) returns (s': State)
    requires Inv(s)
    ensures Leads(s, s') && Inv(s') && s'.done && forall w | 0 <= w < |s'.workers| :: s'.workers[w].Exited?
    ensures |s'.claims| == |s.claims| + Tally(s.producers, ToOffer) && |s'.workers| == |s.workers|
  {
    hide Inv, Leads, Tally;
    var s1 := ProducersFinish(s);
    LeadsByStep(s1, SetDone);
    StepKeepsInv(s1, SetDone);
    var s2 := Step(s1, SetDone);
    LeadsOn(s, s1, s2);
    s' := WorkersLeave(s2);
    LeadsOn(s, s2, s');
  }

  /** From the start: a run in which every item the producers have is accepted, consumed, and either
      written or dropped as a duplicate. */
  lemma EverythingCanBeWorkedOff(producers: seq<Producer>, workerCount: nat) returns (run: seq<Act>)
    requires 0 < workerCount && forall p | 0 <= p < |producers| :: producers[p].Looping?
    ensures ValidRun(Init(producers, workerCount), run)
    ensures
      var s := Exec(Init(producers, workerCount), run);
      && s.done && (forall w | 0 <= w < |s.workers| :: s.workers[w].Exited?)
      && s.consumed == s.accepted == s.orders + s.dups == Tally(producers, ToOffer)
  {
    InvInit(producers, workerCount);
    hide Inv, Tally, ValidRun, Exec;
    var s0 := Init(producers, workerCount);
    var s := CanFinish(s0);
    run :| ValidRun(s0, run) && Exec(s0, run) == s;
    FinalAssertionsHold(producers, workerCount, run);
  }
}
