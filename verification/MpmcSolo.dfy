/** What a call on the multi-producer queue does when no other thread is inside one: one thread
    running alone, from any state the machine can be in. */
module MpmcSolo {
  import opened RingIndex
  import opened TicketQueue
  import opened MpmcSteps

  /** No thread is between claim and release. */
  ghost predicate Quiet<T>(s: State<T>) {
    forall j: nat, t: nat :: !Owns(s, j, t)
  }

  /** A run of thread `i` alone leads from `s` to `s'`. */
  ghost predicate Alone<T(!new)>(s: State<T>, i: nat, s': State<T>) {
    exists run: seq<Event<T>> :: ValidRun(s, run) && Exec(s, run) == s' && forall k | 0 <= k < |run| :: run[k].thread == i
  }

  lemma {:induction false} RunsCompose<T>(s: State<T>, before: seq<Event<T>>, after: seq<Event<T>>)
    requires ValidRun(s, before) && ValidRun(Exec(s, before), after)
    ensures ValidRun(s, before + after) && Exec(s, before + after) == Exec(Exec(s, before), after)
    decreases |before|
  {
    hide Step, Enabled;
    if before == [] {
      assert before + after == after;
    } else {
      RunsCompose(Step(s, before[0].thread, before[0].act), before[1..], after);
      assert (before + after)[1..] == before[1..] + after;
    }
  }

  lemma AloneStart<T(!new)>(s: State<T>, i: nat)
    ensures Alone(s, i, s)
  {
    var run: seq<Event<T>> := [];
    assert ValidRun(s, run) && Exec(s, run) == s;
  }

  /** The thread goes on by one step. */
  lemma AloneOn<T(!new)>(s0: State<T>, i: nat, s: State<T>, a: Act<T>)
    requires Alone(s0, i, s) && Inv(s) && Enabled(s, i, a)
    ensures Alone(s0, i, Step(s, i, a)) && Inv(Step(s, i, a))
  {
    StepKeepsInv(s, i, a);
    hide Step, Inv, Enabled;
    var run: seq<Event<T>> :| ValidRun(s0, run) && Exec(s0, run) == s && forall k | 0 <= k < |run| :: run[k].thread == i;
    var more := [Event(i, a)];
    assert more[1..] == [] && more[0] == Event(i, a);
    assert ValidRun(Step(s, i, a), []) && Exec(Step(s, i, a), []) == Step(s, i, a);
    assert ValidRun(s, more) && Exec(s, more) == Step(s, i, a);
    RunsCompose(s0, run, more);
    assert ValidRun(s0, run + more) && Exec(s0, run + more) == Step(s, i, a);
  }

  lemma QuietElsewhere<T>(s: State<T>, i: nat, pc: Pc<T>)
    requires Quiet(s) && i < |s.threads|
    requires !pc.EnqWrite? && !pc.EnqPublish? && !pc.DeqRead? && !pc.DeqRelease?
    ensures Quiet(Goto(s, i, pc))
  {
    forall j: nat, t: nat ensures !Owns(Goto(s, i, pc), j, t) {
      assert !Owns(s, j, t);
    }
  }

  // ---- Enqueue ----

  /** Up to the sequence load, and past it if there is room. */
  lemma EnqueueLooks<T(!new)>(s: State<T>, i: nat, v: T)
    requires Inv(s) && Quiet(s) && i < |s.threads| && s.threads[i].Idle?
    ensures var next := if s.enq - s.deq < |s.cells| then EnqTry(v, s.enq) else Idle(Full);
            Alone(s, i, Goto(s, i, next)) && Inv(Goto(s, i, next))
  {
    hide Alone, Inv, Quiet;
    AloneStart(s, i);
    EveryThreadCanStep(s, i, CallEnqueue(v));
    AloneOn(s, i, s, CallEnqueue(v));
    var s1 := Goto(s, i, EnqStart(v));
    assert Step(s, i, CallEnqueue(v)) == s1;
    EveryThreadCanStep(s1, i, Run(false));
    AloneOn(s, i, s1, Run(false));
    var s2 := Goto(s, i, EnqLook(v, s.enq));
    assert Step(s1, i, Run(false)) == s2;
    EveryThreadCanStep(s2, i, Run(false));
    AloneOn(s, i, s2, Run(false));
    LookDecides(s, i, v);
  }

  lemma LookDecides<T>(s: State<T>, i: nat, v: T)
    requires Inv(s) && Quiet(s) && i < |s.threads| && Inv(Goto(s, i, EnqLook(v, s.enq)))
    requires Enabled(Goto(s, i, EnqLook(v, s.enq)), i, Run(false))
    ensures Step(Goto(s, i, EnqLook(v, s.enq)), i, Run(false))
            == Goto(s, i, if s.enq - s.deq < |s.cells| then EnqTry(v, s.enq) else Idle(Full))
  {
    var s2 := Goto(s, i, EnqLook(v, s.enq));
    QuietElsewhere(s, i, EnqLook(v, s.enq));
    RefusalExactWhenQuiet(s2, i, false);
    SequenceSeen(s2, s.enq);
    assert s.enq - s.deq <= |s.cells|;
    hide Inv, Quiet;
  }

  /** A swap that fails for no reason costs the thread one more look and nothing else: it is then in
      the very state it was in. */
  lemma SpuriousFailureCostsALook<T>(s: State<T>, i: nat)
    requires Inv(s) && i < |s.threads|
    requires (s.threads[i].EnqTry? && s.threads[i].pos == s.enq) || (s.threads[i].DeqTry? && s.threads[i].pos == s.deq)
    ensures Enabled(s, i, Run(true)) && Enabled(Step(s, i, Run(true)), i, Run(false))
    ensures Step(Step(s, i, Run(true)), i, Run(false)) == s
  {
    EveryThreadCanStep(s, i, Run(true));
    var s1 := Step(s, i, Run(true));
    StepKeepsInv(s, i, Run(true));
    EveryThreadCanStep(s1, i, Run(false));
    assert ThreadOk(s, i);
    if s.threads[i].EnqTry? {
      SequenceSeen(s, s.enq);
      hide Inv;
      assert s1 == Goto(s, i, EnqLook(s.threads[i].v, s.enq));
      assert Goto(s1, i, s.threads[i]) == s;
    } else {
      SequenceSeen(s, s.deq);
      hide Inv;
      assert s1 == Goto(s, i, DeqLook(s.deq));
      assert Goto(s1, i, s.threads[i]) == s;
    }
  }

  /** A call returns at its sequence load, at its store of the sequence, or from the second load of
      the size; and it returns from nowhere else. */
  lemma ReturnsOnlyThere<T>(s: State<T>, i: nat, spurious: bool)
    requires Enabled(s, i, Run(spurious)) && Step(s, i, Run(spurious)).threads[i].Idle?
    ensures
      var pc, last := s.threads[i], Step(s, i, Run(spurious)).threads[i].last;
      || (pc.EnqLook? && last == Full) || (pc.EnqPublish? && last == Enqueued)
      || (pc.DeqLook? && last == Empty) || (pc.DeqRelease? && last == Dequeued(pc.v))
      || (pc.SizeTail? && last.Size?)
  {}

  /** From the swap on: the claim, the store of the data and the store of the sequence. */
  lemma EnqueueFinishes<T(!new)>(s0: State<T>, s: State<T>, i: nat, v: T) returns (s': State<T>)
    requires Alone(s0, i, s) && Inv(s) && i < |s.threads| && s.threads[i] == EnqTry(v, s.enq)
    ensures Alone(s0, i, s') && Inv(s') && s'.threads == s.threads[i := Idle(Enqueued)]
    ensures |s'.cells| == |s.cells| && Visible(s') == Visible(s) + [Entry(v, true)] && s'.deq == s.deq
  {
    hide Alone, Inv;
    EveryThreadCanStep(s, i, Run(false));
    assert ThreadOk(s, i) && Bounds(s) by { InvParts(s, i); }
    VisibleClaim(s, i, v);
    AloneOn(s0, i, s, Run(false));
    var s1 := ClaimBy(s, i, v);
    EveryThreadCanStep(s1, i, Run(false));
    AloneOn(s0, i, s1, Run(false));
    var s2 := WriteBy(s1, i, v, s.enq);
    assert Visible(s2) == Visible(s1);
    EveryThreadCanStep(s2, i, Run(false));
    VisiblePublish(s2, i, s.enq);
    AloneOn(s0, i, s2, Run(false));
    s' := PublishBy(s2, i, s.enq);
    assert Publish(Claim(Visible(s), v), |Visible(s)|) == Visible(s) + [Entry(v, true)];
    assert s'.threads == s.threads[i := Idle(Enqueued)];
  }

  lemma InvParts<T>(s: State<T>, i: nat)
    requires Inv(s) && i < |s.threads|
    ensures Bounds(s) && ThreadOk(s, i)
  {}

  /** An enqueue that nobody disturbs appends its value, published, if there is room; otherwise it
      gives up and leaves everything as it was. */
  lemma UndisturbedEnqueue<T(!new)>(s: State<T>, i: nat, v: T) returns (s': State<T>)
    requires Inv(s) && Quiet(s) && i < |s.threads| && s.threads[i].Idle?
    ensures Alone(s, i, s') && Inv(s')
    ensures if s.enq - s.deq < |s.cells|
            then s'.threads == s.threads[i := Idle(Enqueued)] && Visible(s') == Visible(s) + [Entry(v, true)]
            else s' == s.(threads := s.threads[i := Idle(Full)])
  {
    EnqueueLooks(s, i, v);
    hide Alone;
    if s.enq - s.deq < |s.cells| {
      var s1 := Goto(s, i, EnqTry(v, s.enq));
      assert Visible(s1) == Visible(s);
      hide Inv;
      s' := EnqueueFinishes(s, s1, i, v);
    } else {
      s' := Goto(s, i, Idle(Full));
    }
  }

  // ---- Dequeue ----

  lemma DequeueLooks<T(!new)>(s: State<T>, i: nat)
    requires Inv(s) && Quiet(s) && i < |s.threads| && s.threads[i].Idle?
    ensures var next := if s.deq < s.enq then DeqTry(s.deq) else Idle(Empty);
            Alone(s, i, Goto(s, i, next)) && Inv(Goto(s, i, next))
  {
    hide Alone, Inv, Quiet;
    AloneStart(s, i);
    EveryThreadCanStep(s, i, CallDequeue);
    AloneOn(s, i, s, CallDequeue);
    var s1 := Goto(s, i, DeqStart);
    assert Step(s, i, CallDequeue) == s1;
    EveryThreadCanStep(s1, i, Run(false));
    AloneOn(s, i, s1, Run(false));
    var s2 := Goto(s, i, DeqLook(s.deq));
    assert Step(s1, i, Run(false)) == s2;
    EveryThreadCanStep(s2, i, Run(false));
    AloneOn(s, i, s2, Run(false));
    DequeueLookDecides(s, i);
  }

  lemma DequeueLookDecides<T>(s: State<T>, i: nat)
    requires Inv(s) && Quiet(s) && i < |s.threads| && Inv(Goto(s, i, DeqLook(s.deq)))
    requires Enabled(Goto(s, i, DeqLook(s.deq)), i, Run(false))
    ensures Step(Goto(s, i, DeqLook(s.deq)), i, Run(false))
            == Goto(s, i, if s.deq < s.enq then DeqTry(s.deq) else Idle(Empty))
  {
    var s2 := Goto(s, i, DeqLook(s.deq));
    QuietElsewhere(s, i, DeqLook(s.deq));
    RefusalExactWhenQuiet(s2, i, false);
    SequenceSeen(s2, s.deq);
    if s.deq < s.enq {
      assert CellMatches(CellAt(s2, s.deq), s.deq, s.tickets[s.deq], |s.cells|);
      assert s.tickets[s.deq].phase.Claimed? || s.tickets[s.deq].phase.Published?;
    }
    hide Inv, Quiet;
  }

  lemma DequeueFinishes<T(!new)>(s0: State<T>, s: State<T>, i: nat) returns (s': State<T>)
    requires Alone(s0, i, s) && Inv(s) && i < |s.threads| && s.threads[i] == DeqTry(s.deq) && s.deq < s.enq
    ensures |s.tickets| == s.enq && Alone(s0, i, s') && Inv(s')
    ensures s'.threads == s.threads[i := Idle(Dequeued(s.tickets[s.deq].value))]
    ensures |s'.tickets| == s'.enq && s'.deq <= s'.enq && Visible(s') == Visible(s)[1..]
  {
    hide Alone, Inv;
    EveryThreadCanStep(s, i, Run(false));
    assert ThreadOk(s, i) && Bounds(s) by { InvParts(s, i); }
    VisibleTake(s, i);
    AloneOn(s0, i, s, Run(false));
    var s1 := TakeBy(s, i);
    EveryThreadCanStep(s1, i, Run(false));
    AloneOn(s0, i, s1, Run(false));
    var v := CellAt(s1, s.deq).data;
    var s2 := Goto(s1, i, DeqRelease(s.deq, v));
    assert v == s.tickets[s.deq].value by { InvParts(s2, i); }
    EveryThreadCanStep(s2, i, Run(false));
    assert Visible(s2) == Visible(s1);
    VisibleRelease(s2, i, s.deq, v);
    AloneOn(s0, i, s2, Run(false));
    s' := ReleaseBy(s2, i, s.deq, v);
    assert s'.threads == s.threads[i := Idle(Dequeued(v))];
  }

  lemma VisibleFront<T>(s: State<T>)
    requires Bounds(s)
    ensures |Visible(s)| == s.enq - s.deq && (s.deq < s.enq ==> Visible(s)[0].value == s.tickets[s.deq].value)
  {}

  /** A dequeue that nobody disturbs returns the front value and removes it; of an empty queue it
      returns nothing and leaves everything as it was. */
  lemma UndisturbedDequeue<T(!new)>(s: State<T>, i: nat) returns (s': State<T>)
    requires Inv(s) && Quiet(s) && i < |s.threads| && s.threads[i].Idle?
    ensures Alone(s, i, s') && Inv(s')
    ensures if Visible(s) != []
            then s'.threads == s.threads[i := Idle(Dequeued(Visible(s)[0].value))] && Visible(s') == Visible(s)[1..]
            else s' == s.(threads := s.threads[i := Idle(Empty)])
  {
    DequeueLooks(s, i);
    hide Alone, Inv, Quiet, Visible;
    assert Bounds(s) by { InvParts(s, i); }
    VisibleFront(s);
    if s.deq < s.enq {
      var s1 := Goto(s, i, DeqTry(s.deq));
      SameVisible(s, s1);
      s' := DequeueFinishes(s, s1, i);
    } else {
      s' := Goto(s, i, Idle(Empty));
    }
  }

  lemma SameVisible<T>(s: State<T>, s': State<T>)
    requires Bounds(s) && s'.tickets == s.tickets && s'.enq == s.enq && s'.deq == s.deq
    ensures Visible(s') == Visible(s)
  {}

  // ---- Calls already under way ----

  /** The call thread `i` is inside, before its claim. */
  predicate Seeking<T>(pc: Pc<T>) {
    pc.EnqStart? || pc.EnqLook? || pc.EnqTry? || pc.DeqStart? || pc.DeqLook? || pc.DeqTry?
  }

  /** However stale its position, a thread that runs alone comes back to its sequence load with the
      current one. */
  lemma StaleThreadComesBack<T(!new)>(s: State<T>, i: nat) returns (s': State<T>)
    requires Inv(s) && i < |s.threads| && Seeking(s.threads[i])
    ensures Alone(s, i, s') && Inv(s')
    ensures var pc := s.threads[i];
            s' == Goto(s, i, if pc.EnqStart? || pc.EnqLook? || pc.EnqTry? then EnqLook(pc.v, s.enq) else DeqLook(s.deq))
  {
    AloneStart(s, i);
    s' := s;
    if s.threads[i].EnqLook? || s.threads[i].DeqLook? {
      if s.threads[i].pos == (if s.threads[i].EnqLook? then s.enq else s.deq) {
        assert s == Goto(s, i, s.threads[i]);
        return;
      }
      StaleLook(s, i);
      EveryThreadCanStep(s, i, Run(false));
      AloneOn(s, i, s, Run(false));
      s' := Step(s, i, Run(false));
    }
    hide Alone;
    InvParts(s', i);
    EveryThreadCanStep(s', i, Run(true));
    AloneOn(s, i, s', Run(true));
    s' := Step(s', i, Run(true));
    hide Inv;
    assert s'.threads == s.threads[i := s'.threads[i]];
  }

  /** At a position that is no longer current the load never ends the call. */
  lemma StaleLook<T>(s: State<T>, i: nat)
    requires Inv(s) && Enabled(s, i, Run(false))
    requires (s.threads[i].EnqLook? && s.threads[i].pos != s.enq) || (s.threads[i].DeqLook? && s.threads[i].pos != s.deq)
    ensures
      var pc, next := s.threads[i], Step(s, i, Run(false)).threads[i];
      && Step(s, i, Run(false)) == Goto(s, i, next)
      && if pc.EnqLook? then next == EnqTry(pc.v, pc.pos) || next == EnqStart(pc.v)
         else next == DeqTry(pc.pos) || next == DeqStart
  {
    assert ThreadOk(s, i);
    if s.threads[i].EnqLook? {
      FullMeansPreviousLapUnreleased(s, i, s.threads[i].v, s.threads[i].pos, false);
    } else {
      EmptyMeansUnpublished(s, i, s.threads[i].pos, false);
    }
    hide Inv;
  }

  /** A thread that has claimed its ticket finishes alone, whatever the others are doing. */
  lemma {:induction false} OwnerFinishes<T(!new)>(s0: State<T>, s: State<T>, i: nat) returns (s': State<T>)
    requires Alone(s0, i, s) && Inv(s) && i < |s.threads|
    requires s.threads[i].EnqWrite? || s.threads[i].EnqPublish? || s.threads[i].DeqRead? || s.threads[i].DeqRelease?
    ensures Alone(s0, i, s') && Inv(s') && i < |s'.threads| && s'.threads[i].Idle?
    ensures if s.threads[i].EnqWrite? || s.threads[i].EnqPublish? then s'.threads[i].last.Enqueued? else s'.threads[i].last.Dequeued?
    decreases if s.threads[i].EnqWrite? || s.threads[i].DeqRead? then 1 else 0
  {
    hide Alone;
    EveryThreadCanStep(s, i, Run(false));
    AloneOn(s0, i, s, Run(false));
    s' := Step(s, i, Run(false));
    hide Inv;
    if s.threads[i].EnqWrite? || s.threads[i].DeqRead? {
      s' := OwnerFinishes(s0, s', i);
    }
  }

  // ---- Size ----

  /** A size that nobody disturbs is the number of entries. */
  lemma UndisturbedSize<T(!new)>(s: State<T>, i: nat)
    requires Inv(s) && i < |s.threads| && s.threads[i].Idle?
    ensures Alone(s, i, Goto(s, i, Idle(Size(|Visible(s)|))))
  {
    hide Alone, Inv;
    assert Bounds(s) by { InvParts(s, i); }
    AloneStart(s, i);
    EveryThreadCanStep(s, i, CallSize);
    AloneOn(s, i, s, CallSize);
    var s1 := Goto(s, i, SizeTail(s.deq));
    EveryThreadCanStep(s1, i, Run(false));
    AloneOn(s, i, s1, Run(false));
    assert Step(s1, i, Run(false)) == Goto(s, i, Idle(Size(|Visible(s)|)));
  }
}
