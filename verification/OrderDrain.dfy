/** The order worker: producers that offer and count, workers that drain the queue once
    the producers are done, and the assertions checked at the end. Any number of
    producers and workers, interleaved step by step; the queue is the ticket queue. */
module OrderDrain {
  import opened TicketQueue

  datatype Producer =
    | Looping(left: nat)
    | Offering(id: nat, left: nat)          // counted as produced, about to enqueue
    | Publishing(ticket: nat, left: nat)    // claimed
    | Counting(ok: bool, left: nat)
    | Joined

  datatype Worker =
    | Popping
    | CheckingDone
    | PoppingAgain
    | Got(id: nat)           // about to count
    | Marking(id: nat)       // about to call try_mark
    | Writing(id: nat)       // new id, order being written
    | Exited

  datatype State = State(
    queue: seq<Entry<nat>>, taken: nat, claims: seq<nat>,   // `claims`: every claimed id, in ticket order
    producers: seq<Producer>, workers: seq<Worker>, done: bool, seen: set<nat>,
    produced: nat, accepted: nat, rejected: nat, consumed: nat, dups: nat, orders: nat)

  datatype Act =
    | Produce(p: nat, id: nat)
    | Offer(p: nat, full: bool)
    | Produced(p: nat)          // the producer's other steps
    | SetDone
    | Work(w: nat)

  function Init(producers: seq<Producer>, workerCount: nat): State {
    State([], 0, [], producers, seq(workerCount, _ => Popping), false, {}, 0, 0, 0, 0, 0, 0)
  }

  predicate Enabled(s: State, a: Act) {
    match a
    case Produce(p, _) => p < |s.producers| && s.producers[p].Looping? && s.producers[p].left > 0
    case Offer(p, _) => p < |s.producers| && s.producers[p].Offering?
    case Produced(p) =>
      p < |s.producers|
      && (match s.producers[p]
          case Looping(left) => left == 0
          case Publishing(ticket, _) => s.taken <= ticket < s.taken + |s.queue|
          case Counting(_, _) => true
          case _ => false)
    case SetDone => forall p | 0 <= p < |s.producers| :: s.producers[p].Joined?
    case Work(w) => w < |s.workers| && !s.workers[w].Exited?
  }

  function SetProducer(s: State, p: nat, x: Producer): State
    requires p < |s.producers|
  {
    s.(producers := s.producers[p := x])
  }

  function SetWorker(s: State, w: nat, x: Worker): State
    requires w < |s.workers|
  {
    s.(workers := s.workers[w := x])
  }

  function Take(s: State): State
    requires s.queue != []
  {
    s.(queue := s.queue[1..], taken := s.taken + 1)
  }

  function WorkStep(s: State, w: nat): State
    requires w < |s.workers|
  {
    match s.workers[w]
    case Popping =>
      if CanTake(s.queue) then SetWorker(Take(s), w, Got(s.queue[0].value)) else SetWorker(s, w, CheckingDone)
    case CheckingDone => SetWorker(s, w, if s.done then PoppingAgain else Popping)
    case PoppingAgain =>
      if CanTake(s.queue) then SetWorker(Take(s), w, Got(s.queue[0].value)) else SetWorker(s, w, Exited)
    case Got(id) => SetWorker(s, w, Marking(id)).(consumed := s.consumed + 1)
    case Marking(id) =>
      if id in s.seen then SetWorker(s, w, Popping).(dups := s.dups + 1)
      else SetWorker(s, w, Writing(id)).(seen := s.seen + {id})
    case Writing(_) => SetWorker(s, w, Popping).(orders := s.orders + 1)
    case Exited => s
  }

  function Step(s: State, a: Act): State
    requires Enabled(s, a)
  {
    match a
    case Produce(p, id) => SetProducer(s, p, Offering(id, s.producers[p].left - 1)).(produced := s.produced + 1)
    case Offer(p, full) =>
      var Offering(id, left) := s.producers[p];
      if full then SetProducer(s, p, Counting(false, left))
      else SetProducer(s, p, Publishing(|s.claims|, left)).(queue := Claim(s.queue, id), claims := s.claims + [id])
    case Produced(p) =>
      (match s.producers[p]
       case Publishing(ticket, left) =>
         SetProducer(s, p, Counting(true, left)).(queue := Publish(s.queue, ticket - s.taken))
       case Counting(ok, left) =>
         var s1 := SetProducer(s, p, Looping(left));
         if ok then s1.(accepted := s.accepted + 1) else s1.(rejected := s.rejected + 1)
       case _ => SetProducer(s, p, Joined))
    case SetDone => s.(done := true)
    case Work(w) => WorkStep(s, w)
  }

  // ---- Counting threads ----

  function Tally<T>(s: seq<T>, weight: T -> int): int {
    if s == [] then 0 else Tally(s[..|s| - 1], weight) + weight(s[|s| - 1])
  }

  lemma {:induction false} TallyUpdate<T>(s: seq<T>, i: nat, x: T, weight: T -> int)
    requires i < |s|
    ensures Tally(s[i := x], weight) == Tally(s, weight) - weight(s[i]) + weight(x)
    decreases |s|
  {
    var s' := s[i := x];
    if i == |s| - 1 {
      assert s'[..|s| - 1] == s[..|s| - 1];
    } else {
      TallyUpdate(s[..|s| - 1], i, x, weight);
      assert s'[..|s| - 1] == s[..|s| - 1][i := x];
    }
  }

  lemma {:induction false} TallyZero<T>(s: seq<T>, weight: T -> int)
    requires forall i | 0 <= i < |s| :: weight(s[i]) == 0
    ensures Tally(s, weight) == 0
    decreases |s|
  {
    if s != [] { TallyZero(s[..|s| - 1], weight); }
  }

  /** A produced item not yet counted as accepted or rejected. */
  function Uncounted(p: Producer): int { if p.Offering? || p.Publishing? || p.Counting? then 1 else 0 }

  /** A claimed item not yet counted as accepted. */
  function Claimed(p: Producer): int { if p.Publishing? || (p.Counting? && p.ok) then 1 else 0 }

  function Uncounting(w: Worker): int { if w.Got? then 1 else 0 }

  function Unmarked(w: Worker): int { if w.Marking? then 1 else 0 }

  function Unwritten(w: Worker): int { if w.Writing? then 1 else 0 }

  // ---- The invariant ----

  ghost predicate QueueOk(s: State) {
    |s.claims| == s.taken + |s.queue| && Values(s.queue) == s.claims[s.taken..]
  }

  ghost predicate OffersCounted(s: State) {
    && s.produced == s.accepted + s.rejected + Tally(s.producers, Uncounted)
    && |s.claims| == s.accepted + Tally(s.producers, Claimed)
  }

  /** Some producer is about to publish ticket `t`. */
  predicate Pending(producers: seq<Producer>, t: nat) {
    exists p | 0 <= p < |producers| :: producers[p].Publishing? && producers[p].ticket == t
  }

  ghost predicate ClaimsHeld(s: State) {
    && (s.done ==> forall p | 0 <= p < |s.producers| :: s.producers[p].Joined?)
    && forall k | 0 <= k < |s.queue| && !s.queue[k].published :: Pending(s.producers, s.taken + k)
  }

  /** Every producer about to publish holds a claimed, unpublished ticket of its own. */
  ghost predicate TicketsHeld(s: State) {
    && (forall p | 0 <= p < |s.producers| && s.producers[p].Publishing? :: HoldsTicket(s, s.producers[p].ticket))
    && (forall p, q | 0 <= p < q < |s.producers| && s.producers[p].Publishing? && s.producers[q].Publishing? ::
          s.producers[p].ticket != s.producers[q].ticket)
  }

  predicate HoldsTicket(s: State, t: nat) {
    s.taken <= t < s.taken + |s.queue| && !s.queue[t - s.taken].published
  }

  ghost predicate TakenCounted(s: State) {
    s.taken == s.consumed + Tally(s.workers, Uncounting)
  }

  ghost predicate MarkedCounted(s: State) {
    s.consumed == |s.seen| + s.dups + Tally(s.workers, Unmarked)
  }

  ghost predicate WrittenCounted(s: State) {
    |s.seen| == s.orders + Tally(s.workers, Unwritten)
  }

  ghost predicate WorkCounted(s: State) {
    TakenCounted(s) && MarkedCounted(s) && WrittenCounted(s)
  }

  /** Some worker holds `id` and has not marked it yet. */
  predicate InHand(workers: seq<Worker>, id: nat) {
    exists w | 0 <= w < |workers| :: workers[w] == Got(id) || workers[w] == Marking(id)
  }

  ghost predicate SeenIsTaken(s: State) {
    && s.taken <= |s.claims|
    && (forall id | id in s.seen :: id in s.claims[..s.taken])
    && (forall id | id in s.claims[..s.taken] :: id in s.seen || InHand(s.workers, id))
    && (forall w | 0 <= w < |s.workers| && (s.workers[w].Got? || s.workers[w].Marking?) ::
          s.workers[w].id in s.claims[..s.taken])
  }

  ghost predicate ExitsOk(s: State) {
    forall w | 0 <= w < |s.workers| ::
      && (s.workers[w].PoppingAgain? ==> s.done)
      && (s.workers[w].Exited? ==> s.done && s.queue == [])
  }

  ghost predicate Inv(s: State) {
    QueueOk(s) && OffersCounted(s) && ClaimsHeld(s) && TicketsHeld(s) && WorkCounted(s) && SeenIsTaken(s) && ExitsOk(s)
  }

  // ---- Each part of the invariant is kept ----

  lemma QueueKept(s: State, a: Act)
    requires Enabled(s, a) && QueueOk(s)
    ensures QueueOk(Step(s, a))
  {
    hide Tally, Values, WorkStep;
    match a
    case Offer(p, full) => ValuesClaim(s.queue, s.producers[p].id);
    case Produced(p) =>
      if s.producers[p].Publishing? { ValuesPublish(s.queue, s.producers[p].ticket - s.taken); }
    case Work(w) => QueueKeptByWork(s, w);
    case _ =>
  }

  lemma QueueKeptByWork(s: State, w: nat)
    requires w < |s.workers| && QueueOk(s)
    ensures QueueOk(WorkStep(s, w))
  {
    hide Tally, Values;
    if CanTake(s.queue) { ValuesTake(s.queue); }
  }

  lemma OffersKept(s: State, a: Act)
    requires Enabled(s, a) && OffersCounted(s)
    ensures OffersCounted(Step(s, a))
  {
    hide Tally, Values;
    if a.Produce? || a.Offer? || a.Produced? {
      var x := Step(s, a).producers[a.p];
      TallyUpdate(s.producers, a.p, x, Uncounted);
      TallyUpdate(s.producers, a.p, x, Claimed);
    }
  }

  lemma ClaimsKept(s: State, a: Act)
    requires Enabled(s, a) && QueueOk(s) && ClaimsHeld(s)
    ensures ClaimsHeld(Step(s, a))
  {
    hide Values, Tally;
    var s' := Step(s, a);
    forall k | 0 <= k < |s'.queue| && !s'.queue[k].published
      ensures Pending(s'.producers, s'.taken + k)
    {
      var t := s'.taken + k;
      if t < s.taken + |s.queue| {
        assert !s.queue[t - s.taken].published;
        PendingKept(s, a, t);
      } else {
        assert s'.producers[a.p].Publishing?;
      }
    }
  }

  lemma PendingKept(s: State, a: Act, t: nat)
    requires Enabled(s, a) && Pending(s.producers, t)
    requires a.Produced? ==> s.producers[a.p].Publishing? ==> s.producers[a.p].ticket != t
    ensures Pending(Step(s, a).producers, t)
  {
    hide Tally, Values;
    var p :| 0 <= p < |s.producers| && s.producers[p].Publishing? && s.producers[p].ticket == t;
    assert Step(s, a).producers[p] == s.producers[p];
  }

  lemma TicketsKept(s: State, a: Act)
    requires Enabled(s, a) && QueueOk(s) && TicketsHeld(s)
    ensures TicketsHeld(Step(s, a))
  {
    hide Values, Tally, WorkStep;
    match a
    case Work(w) => TicketsKeptByWork(s, w);
    case SetDone =>
    case Produce(p, _) => TicketsKeptByProducer(s, a, p);
    case Offer(p, _) => TicketsKeptByProducer(s, a, p);
    case Produced(p) => TicketsKeptByProducer(s, a, p);
  }

  lemma TicketsKeptByProducer(s: State, a: Act, p: nat)
    requires Enabled(s, a) && QueueOk(s) && TicketsHeld(s)
    requires !a.Work? && !a.SetDone? && a.p == p
    ensures TicketsHeld(Step(s, a))
  {
    hide Values, Tally, WorkStep;
    var s' := Step(s, a);
    forall q | 0 <= q < |s.producers| && s'.producers[q].Publishing?
      ensures HoldsTicket(s', s'.producers[q].ticket)
      ensures q != p && s'.producers[p].Publishing? ==> s'.producers[q].ticket != s'.producers[p].ticket
    {
      if q != p {
        assert s'.producers[q] == s.producers[q] && HoldsTicket(s, s.producers[q].ticket);
      }
    }
  }

  lemma TicketsKeptByWork(s: State, w: nat)
    requires w < |s.workers| && TicketsHeld(s)
    ensures TicketsHeld(WorkStep(s, w))
  {
    hide Values, Tally;
    var s' := WorkStep(s, w);
    assert s'.producers == s.producers;
    forall q | 0 <= q < |s.producers| && s.producers[q].Publishing?
      ensures HoldsTicket(s', s.producers[q].ticket)
    {
      assert HoldsTicket(s, s.producers[q].ticket);
    }
  }

  lemma WorkCountKept(s: State, a: Act)
    requires Enabled(s, a) && WorkCounted(s)
    ensures WorkCounted(Step(s, a))
  {
    hide Tally, Values, Claim, Publish, CanTake, WorkStep;
    if a.Work? {
      hide WorkCounted;
      WorkStepCounts(s, a.w);
    } else {
      assert Step(s, a).workers == s.workers;
    }
  }

  lemma WorkStepCounts(s: State, w: nat)
    requires w < |s.workers| && WorkCounted(s)
    ensures WorkCounted(WorkStep(s, w))
  {
    TakenKept(s, w);
    MarkedKept(s, w);
    WrittenKept(s, w);
    hide TakenCounted, MarkedCounted, WrittenCounted, WorkStep;
  }

  lemma TakenKept(s: State, w: nat)
    requires w < |s.workers| && TakenCounted(s)
    ensures TakenCounted(WorkStep(s, w))
  {
    hide Tally, CanTake;
    TallyUpdate(s.workers, w, WorkStep(s, w).workers[w], Uncounting);
  }

  lemma MarkedKept(s: State, w: nat)
    requires w < |s.workers| && MarkedCounted(s)
    ensures MarkedCounted(WorkStep(s, w))
  {
    hide Tally, CanTake;
    var x := WorkStep(s, w).workers[w];
    TallyUpdate(s.workers, w, x, Unmarked);
    assert WorkStep(s, w).workers == s.workers[w := x];
    if s.workers[w].Marking? && x.Writing? {
      assert |WorkStep(s, w).seen| == |s.seen| + 1;
    } else {
      assert WorkStep(s, w).seen == s.seen;
    }
  }

  lemma WrittenKept(s: State, w: nat)
    requires w < |s.workers| && WrittenCounted(s)
    ensures WrittenCounted(WorkStep(s, w))
  {
    hide Tally, CanTake;
    var x := WorkStep(s, w).workers[w];
    TallyUpdate(s.workers, w, x, Unwritten);
    assert WorkStep(s, w).workers == s.workers[w := x];
    if s.workers[w].Marking? && x.Writing? {
      assert |WorkStep(s, w).seen| == |s.seen| + 1;
    } else {
      assert WorkStep(s, w).seen == s.seen;
    }
  }

  /** An id that was in a worker's hand stays there or gets marked. */
  lemma InHandKept(s: State, a: Act, x: nat)
    requires Enabled(s, a) && InHand(s.workers, x)
    ensures x in Step(s, a).seen || InHand(Step(s, a).workers, x)
  {
    hide Tally, Values, Claim, Publish, CanTake;
    var w :| 0 <= w < |s.workers| && (s.workers[w] == Got(x) || s.workers[w] == Marking(x));
    var w' := Step(s, a).workers[w];
    assert a != Work(w) ==> w' == s.workers[w];
    assert x in Step(s, a).seen || w' == Got(x) || w' == Marking(x);
  }

  lemma SeenKeptByTake(s: State, w: nat)
    requires Enabled(s, Work(w)) && QueueOk(s) && SeenIsTaken(s)
    requires (s.workers[w].Popping? || s.workers[w].PoppingAgain?) && CanTake(s.queue)
    ensures SeenIsTaken(Step(s, Work(w)))
  {
    hide Tally;
    var s' := Step(s, Work(w));
    var id := s.queue[0].value;
    assert id == Values(s.queue)[0] == s.claims[s.taken];
    assert s'.claims[..s'.taken] == s.claims[..s.taken] + [id];
    hide Values, QueueOk;
    assert s'.workers[w] == Got(id);
    forall x | x in s'.claims[..s'.taken] && x !in s'.seen
      ensures InHand(s'.workers, x)
    {
      if x in s.claims[..s.taken] { InHandKept(s, Work(w), x); }
    }
  }

  lemma SeenKept(s: State, a: Act)
    requires Enabled(s, a) && SeenIsTaken(s)
    requires a.Work? ==> !((s.workers[a.w].Popping? || s.workers[a.w].PoppingAgain?) && CanTake(s.queue))
    ensures SeenIsTaken(Step(s, a))
  {
    hide Tally, Values, CanTake, InHand, Claim, Publish, WorkStep;
    if a.Work? {
      SeenKeptByWork(s, a.w);
    } else {
      var s' := Step(s, a);
      assert s'.claims[..s.taken] == s.claims[..s.taken];
      assert s'.workers == s.workers && s'.taken == s.taken && s'.seen == s.seen;
    }
  }

  lemma SeenKeptByWork(s: State, w: nat)
    requires Enabled(s, Work(w)) && SeenIsTaken(s)
    requires !((s.workers[w].Popping? || s.workers[w].PoppingAgain?) && CanTake(s.queue))
    ensures SeenIsTaken(WorkStep(s, w))
  {
    hide Tally, Values, CanTake, InHand;
    var s' := WorkStep(s, w);
    assert s'.claims == s.claims && s'.taken == s.taken;
    forall x | x in s'.claims[..s'.taken] && x !in s'.seen
      ensures InHand(s'.workers, x)
    {
      InHandKept(s, Work(w), x);
    }
  }

  /** Once the producers are done every claimed entry is published, so a failed dequeue means
      that the queue is empty. */
  lemma FailedPopIsExactOnceDone(s: State)
    requires ClaimsHeld(s) && s.done
    ensures CanTake(s.queue) <==> s.queue != []
  {
    hide Tally, Values;
    assert s.queue != [] && !s.queue[0].published ==> Pending(s.producers, s.taken + 0);
  }

  lemma ExitsKept(s: State, a: Act)
    requires Enabled(s, a) && ClaimsHeld(s) && ExitsOk(s)
    ensures ExitsOk(Step(s, a))
  {
    hide Tally, Values;
    if s.done { FailedPopIsExactOnceDone(s); }
    hide ClaimsHeld;
    assert s.done ==> a.Work? || a.SetDone?;
    hide Claim, Publish, CanTake;
    var s' := Step(s, a);
    forall w | 0 <= w < |s'.workers|
      ensures s'.workers[w].PoppingAgain? ==> s'.done
      ensures s'.workers[w].Exited? ==> s'.done && s'.queue == []
    {
    }
  }

  lemma StepKeepsInv(s: State, a: Act)
    requires Inv(s) && Enabled(s, a)
    ensures Inv(Step(s, a))
  {
    QueueKept(s, a);
    OffersKept(s, a);
    ClaimsKept(s, a);
    TicketsKept(s, a);
    WorkCountKept(s, a);
    if a.Work? && (s.workers[a.w].Popping? || s.workers[a.w].PoppingAgain?) && CanTake(s.queue) {
      SeenKeptByTake(s, a.w);
    } else {
      SeenKept(s, a);
    }
    ExitsKept(s, a);
    hide QueueOk, OffersCounted, ClaimsHeld, TicketsHeld, WorkCounted, SeenIsTaken, ExitsOk;
  }

  /** No thread is ever stuck: an unfinished producer or worker can take its next step, and the
      main thread can once the producers have joined. */
  lemma EveryThreadCanStep(s: State)
    requires Inv(s)
    ensures forall p: nat, id: nat, full: bool | p < |s.producers| && !s.producers[p].Joined? ::
              Enabled(s, Produce(p, id)) || Enabled(s, Offer(p, full)) || Enabled(s, Produced(p))
    ensures forall w: nat | w < |s.workers| && !s.workers[w].Exited? :: Enabled(s, Work(w))
    ensures (forall p | 0 <= p < |s.producers| :: s.producers[p].Joined?) ==> Enabled(s, SetDone)
  {
    hide QueueOk, OffersCounted, ClaimsHeld, WorkCounted, SeenIsTaken, ExitsOk;
    forall p: nat, id: nat, full: bool | p < |s.producers| && !s.producers[p].Joined?
      ensures Enabled(s, Produce(p, id)) || Enabled(s, Offer(p, full)) || Enabled(s, Produced(p))
    {
      assert s.producers[p].Publishing? ==> HoldsTicket(s, s.producers[p].ticket);
    }
  }

  predicate ValidRun(s: State, run: seq<Act>)
    decreases |run|
  {
    run == [] || (Enabled(s, run[0]) && ValidRun(Step(s, run[0]), run[1..]))
  }

  function Exec(s: State, run: seq<Act>): State
    requires ValidRun(s, run)
    decreases |run|
  {
    if run == [] then s else Exec(Step(s, run[0]), run[1..])
  }

  lemma {:induction false} RunKeepsInv(s: State, run: seq<Act>)
    requires Inv(s) && ValidRun(s, run)
    ensures Inv(Exec(s, run)) && |Exec(s, run).workers| == |s.workers|
    decreases |run|
  {
    hide Inv;
    if run != [] {
      StepKeepsInv(s, run[0]);
      RunKeepsInv(Step(s, run[0]), run[1..]);
    }
  }

  lemma InvInit(producers: seq<Producer>, workerCount: nat)
    requires forall p | 0 <= p < |producers| :: producers[p].Looping?
    ensures Inv(Init(producers, workerCount))
  {
    var s := Init(producers, workerCount);
    TallyZero(s.producers, Uncounted);
    TallyZero(s.producers, Claimed);
    TallyZero(s.workers, Uncounting);
    TallyZero(s.workers, Unmarked);
    TallyZero(s.workers, Unwritten);
  }

  /** Main result: when the producers have joined and at least one worker was there and all have
      exited, produced is accepted plus rejected, consumed is accepted, each accepted request was
      either written once or dropped as a duplicate, and the orders written are as many as there
      are distinct ids among the accepted requests. */
  lemma FinalAssertionsHold(producers: seq<Producer>, workerCount: nat, run: seq<Act>)
    requires 0 < workerCount && forall p | 0 <= p < |producers| :: producers[p].Looping?
    requires ValidRun(Init(producers, workerCount), run)
    ensures
      var s := Exec(Init(producers, workerCount), run);
      s.done && (forall w | 0 <= w < |s.workers| :: s.workers[w].Exited?) ==>
        && s.queue == []
        && s.produced == s.accepted + s.rejected
        && s.consumed == s.accepted == |s.claims|
        && s.orders + s.dups == s.consumed
        && s.orders == |set id | id in s.claims|
  {
    var s0 := Init(producers, workerCount);
    InvInit(producers, workerCount);
    RunKeepsInv(s0, run);
    var s := Exec(s0, run);
    if s.done && forall w | 0 <= w < |s.workers| :: s.workers[w].Exited? {
      TallyZero(s.producers, Uncounted);
      TallyZero(s.producers, Claimed);
      TallyZero(s.workers, Uncounting);
      TallyZero(s.workers, Unmarked);
      TallyZero(s.workers, Unwritten);
      assert s.workers[0].Exited?;
      assert s.claims[..s.taken] == s.claims;
      assert s.seen == set id | id in s.claims;
    }
  }
}
