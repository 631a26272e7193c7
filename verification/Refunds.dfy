/** What the reservation protocol gives back and what it never loses sight of: a refused request's
    stock returns, and with no crash and no lost message every reservation still leads somewhere. */
module Refunds {
  import opened RedisStore
  import opened Reservation

  // ---- A refusal gives the reservation back ----

  /** A request that the engine does not take, or answers with a failure, begins a rollback of up to
      three calls; one that is answered gives back the units, the claim and the pending entry. */
  lemma RefusalGivesBack(s: State, a: Act)
    requires Enabled(s, a) && ((a.HandOff? && !a.accepted) || (a.Verdict? && a.status != 1))
    requires Matches(s, s.tasks[a.t].m) && s.tasks[a.t].m.sku in s.stock
    ensures
      var m, s1 := s.tasks[a.t].m, Step(s, a);
      && s1 == s.(tasks := s.tasks[a.t := Undoing(m, 3)])
      && Enabled(s1, Undo(a.t, CallFate.Answered))
      && var s2 := Step(s1, Undo(a.t, CallFate.Answered));
         && s2.stock == s.stock[m.sku := s.stock[m.sku] + m.qty] && KeyOf(m) !in s2.live
         && s2.live == s.live - {KeyOf(m)} && s2.pending == s.pending - {m}
         && s2.tasks == s.tasks - {a.t} && s2.orders == s.orders
  {
    var m := s.tasks[a.t].m;
    assert s.tasks[a.t := Undoing(m, 3)] - {a.t} == s.tasks - {a.t};
  }

  /** A rollback none of whose calls is answered ends after the last, and a call is answered or not
      whether or not the script has run. */
  lemma RollbackGivesUp(s: State, t: nat, call: CallFate)
    requires Enabled(s, Undo(t, call)) && !call.ArrivesLater?
    ensures
      var s', u := Step(s, Undo(t, call)), s.tasks[t];
      && (t in s'.tasks <==> !call.Answered? && u.tries > 1)
      && (t in s'.tasks ==> s'.tasks[t] == Undoing(u.m, u.tries - 1))
      && (call.NeverArrives? ==> s'.stock == s.stock && s'.live == s.live && s'.pending == s.pending)
      && (!call.NeverArrives? ==> KeyOf(u.m) !in s'.live)
  {}

  /** A dropped duplicate and a crash lose tasks and nothing else: the reservation stays. */
  lemma LostTasksLeaveTheRest(s: State, a: Act)
    requires Enabled(s, a) && (a.DropDuplicate? || a.Crash?)
    ensures
      var s' := Step(s, a);
      && s' == s.(tasks := s'.tasks)
      && forall t | t in s.tasks ::
           if (a.DropDuplicate? && t == a.t) || (a.Crash? && t in a.lost) then t !in s'.tasks
           else t in s'.tasks && s'.tasks[t] == s.tasks[t]
  {}

  /** What such a loss leaves behind the sweeper brings back: a pending member without an order is
      listed, looked up and rolled back, and its units, claim and entry are given back. */
  lemma SweeperRecovers(s: State, m: Member, t: nat)
    requires m in s.pending && Matches(s, m) && m.reqId !in s.orders && m.sku in s.stock && t !in s.tasks
    ensures
      && Enabled(s, List(t, m))
      && var s1 := Step(s, List(t, m));
         && Enabled(s1, Lookup(t))
         && var s2 := Step(s1, Lookup(t));
            && Enabled(s2, Undo(t, CallFate.Answered))
            && var s3 := Step(s2, Undo(t, CallFate.Answered));
               && s3.stock == s.stock[m.sku := s.stock[m.sku] + m.qty] && s3.live == s.live - {KeyOf(m)}
               && s3.pending == s.pending - {m} && s3.tasks == s.tasks && s3.orders == s.orders
  {
    assert s.tasks[t := Listed(m)][t := Undoing(m, MAX_RETRIES)] - {t} == s.tasks;
  }

  // ---- Who may change what ----

  /** Stock and claims change only by a granted reservation and by a rollback that runs; orders only by
      the writer, who adds the one row and never replaces one; pending entries go only with
      a rollback that runs, a cleanup, or a lookup that finds the order. */
  lemma OnlyTheseChange(s: State, a: Act)
    requires Enabled(s, a)
    ensures
      var s', runs := Step(s, a), a.Undo? && (a.call.Answered? || a.call.AnswerLost?);
      && (!(a.Reserve? && Grants(s, a.m)) && !runs ==> s'.stock == s.stock && s'.live == s.live)
      && (a.Reserve? && Grants(s, a.m) ==>
            s'.stock == s.stock[a.m.sku := s.stock[a.m.sku] - a.m.qty] && s'.pending == s.pending + {a.m})
      && (a.Reserve? && !Grants(s, a.m) ==> s' == s)
      && (a.Reserve? ==> (a.t in s'.tasks <==> Grants(s, a.m) && !a.replyLost))
      && (a.Reserve? && a.t in s'.tasks ==> s'.tasks[a.t] == Reserved(a.m))
      && (!a.Flush? ==> s'.orders == s.orders)
      && (a.Flush? ==>
            var m := s.tasks[a.t].m;
            && m.reqId in s'.orders && (m.reqId in s.orders ==> s'.orders == s.orders)
            && (m.reqId !in s.orders ==> s'.orders == s.orders[m.reqId := Order(m.sku, m.user, m.qty)]))
      && (!runs && !a.Clean? && !(a.Lookup? && s.tasks[a.t].m.reqId in s.orders) ==> s.pending <= s'.pending)
      && (a.Clean? || (a.Lookup? && s.tasks[a.t].m.reqId in s.orders) ==> s'.pending == s.pending - {s.tasks[a.t].m})
  {}

  /** No task is ever stuck, and a pending member can always be listed. */
  lemma EveryTaskCanGoOn(s: State, init: map<int, int>, t: nat, spare: nat)
    requires Inv(s, init) && t in s.tasks && spare !in s.tasks
    ensures
      || Enabled(s, HandOff(t, true)) || Enabled(s, Verdict(t, spare, 1)) || Enabled(s, Flush(t))
      || Enabled(s, Clean(t)) || Enabled(s, Undo(t, CallFate.Answered)) || Enabled(s, Lookup(t))
    ensures forall m | m in s.pending :: Enabled(s, List(spare, m))
    ensures forall m: Member | m.qty >= 1 :: Enabled(s, Reserve(spare, m, false))
  {
    assert TaskOk(s, s.tasks[t]);
  }

  // ---- With nothing lost, nothing leaks ----

  /** The step loses no task, no reply and no last call. */
  ghost predicate Lossless(s: State, a: Act) {
    match a
    case Reserve(_, m, replyLost) => Grants(s, m) ==> !replyLost
    case DropDuplicate(_) => false
    case Undo(t, call) => t in s.tasks && s.tasks[t].Undoing? ==> !(s.tasks[t].tries == 1 && call.NeverArrives?)
    case Crash(lost) => forall t | t in lost :: t !in s.tasks
    case _ => true
  }

  ghost predicate LosslessRun(s: State, run: seq<Act>)
    requires ValidRun(s, run)
    decreases |run|
  {
    run == [] || (Lossless(s, run[0]) && LosslessRun(Step(s, run[0]), run[1..]))
  }

  /** What the live claim says, as the member that made it. */
  function MemberOf(k: Key, c: Claim): Member {
    Member(k.0, k.1, c.qty, c.reqId)
  }

  /** Some task of `m` will yet write its order or take its reservation back. */
  predicate LeadsSomewhere(s: State, m: Member) {
    exists t | t in s.tasks :: s.tasks[t].m == m && (InFlight(s.tasks[t]) || s.tasks[t].Undoing?)
  }

  /** Some task of `m` will yet remove its pending entry. */
  predicate WillBeTidied(s: State, m: Member) {
    exists t | t in s.tasks :: s.tasks[t].m == m && Tidies(s.tasks[t])
  }

  predicate Tidies(task: Task) {
    task.Reserved? || task.Queued? || task.Undoing? || task.Cleaning?
  }

  ghost predicate ClaimsBacked(s: State) {
    forall k | k in s.live :: s.live[k].reqId in s.orders || LeadsSomewhere(s, MemberOf(k, s.live[k]))
  }

  ghost predicate PendingBacked(s: State) {
    forall m | m in s.pending :: WillBeTidied(s, m)
  }

  /** Rollbacks and listed members name the claim they find. */
  ghost predicate Strict(s: State) {
    && (forall t | t in s.tasks && KeyOf(s.tasks[t].m) in s.live ::
          (s.tasks[t].Undoing? || (s.tasks[t].Listed? && s.tasks[t].m.reqId !in s.orders)) ==> Matches(s, s.tasks[t].m))
    && (forall m | m in s.pending :: Matches(s, m))
  }

  lemma StepKeepsStrict(s: State, a: Act, init: map<int, int>)
    requires Inv(s, init) && Strict(s) && Enabled(s, a) && Fair(s, a) && Lossless(s, a)
    ensures Strict(Step(s, a))
  {
    if a.Reserve? {
      ReserveKeepsStrict(s, a, init);
    } else if a.Undo? {
      UndoKeepsStrict(s, a.t, a.call);
    } else if a.HandOff? || a.Verdict? {
      assert TaskOk(s, s.tasks[a.t]);
      RefusalKeepsStrict(s, a);
    } else {
      OthersKeepStrict(s, a);
    }
    hide Step, Inv, Strict, Fair, Lossless, Enabled;
  }

  lemma RefusalKeepsStrict(s: State, a: Act)
    requires Strict(s) && Enabled(s, a) && (a.HandOff? || a.Verdict?) && Matches(s, s.tasks[a.t].m)
    ensures Strict(Step(s, a))
  {
    var s' := Step(s, a);
    assert s'.live == s.live && s'.orders == s.orders && s'.pending == s.pending;
    assert forall t | t in s'.tasks :: (t in s.tasks && s'.tasks[t] == s.tasks[t]) || s'.tasks[t].m == s.tasks[a.t].m;
    hide Step, Enabled;
  }

  /** Each task after such a step was there before, was a listed member, or names a pending one. */
  lemma OthersMoveTasks(s: State, a: Act)
    requires Enabled(s, a) && !a.Reserve? && !a.Undo? && !a.HandOff? && !a.Verdict?
    ensures
      var s' := Step(s, a);
      && s'.live == s.live && s.orders.Keys <= s'.orders.Keys && s'.pending <= s.pending
      && forall t | t in s'.tasks ::
           || (t in s.tasks && s'.tasks[t] == s.tasks[t])
           || (t in s.tasks && s.tasks[t].Listed? && s.tasks[t].m.reqId !in s.orders && s'.tasks[t].m == s.tasks[t].m)
           || s'.tasks[t].m in s.pending
  {}

  lemma OthersKeepStrict(s: State, a: Act)
    requires Strict(s) && Enabled(s, a) && !a.Reserve? && !a.Undo? && !a.HandOff? && !a.Verdict?
    ensures Strict(Step(s, a))
  {
    OthersMoveTasks(s, a);
    hide Step, Enabled;
  }

  lemma ReserveKeepsStrict(s: State, a: Act, init: map<int, int>)
    requires Inv(s, init) && Strict(s) && Enabled(s, a) && Fair(s, a) && Lossless(s, a) && a.Reserve?
    ensures Strict(Step(s, a))
  {
    hide Inv;
    var s', m := Step(s, a), a.m;
    if Grants(s, m) {
      forall t | t in s'.tasks && KeyOf(s'.tasks[t].m) in s'.live
        ensures (s'.tasks[t].Undoing? || (s'.tasks[t].Listed? && s'.tasks[t].m.reqId !in s'.orders)) ==> Matches(s', s'.tasks[t].m)
      {
        if t != a.t { assert KeyOf(s.tasks[t].m) == KeyOf(m) ==> Harmless(s, s.tasks[t], m, false); }
      }
    }
  }

  lemma UndoKeepsStrict(s: State, t: nat, call: CallFate)
    requires Strict(s) && Enabled(s, Undo(t, call))
    ensures Strict(Step(s, Undo(t, call)))
  {
    var s', u := Step(s, Undo(t, call)), s.tasks[t].m;
    forall m | m in s'.pending ensures Matches(s', m) {
      assert m in s.pending && Matches(s, m);
    }
  }

  /** A task that moves on to another that serves as well. */
  lemma MovedOn(s: State, s': State, t: nat, m: Member)
    requires LeadsSomewhere(s, m)
    requires forall u | u in s.tasks && u != t :: u in s'.tasks && s'.tasks[u] == s.tasks[u]
    requires t in s.tasks && s.tasks[t].m == m && (InFlight(s.tasks[t]) || s.tasks[t].Undoing?) ==> LeadsSomewhere(s', m)
    ensures LeadsSomewhere(s', m)
  {
    var u :| u in s.tasks && s.tasks[u].m == m && (InFlight(s.tasks[u]) || s.tasks[u].Undoing?);
    if u != t { assert s'.tasks[u] == s.tasks[u]; }
  }

  lemma TidyMovedOn(s: State, s': State, t: nat, m: Member)
    requires WillBeTidied(s, m)
    requires forall u | u in s.tasks && u != t :: u in s'.tasks && s'.tasks[u] == s.tasks[u]
    requires t in s.tasks && s.tasks[t].m == m && Tidies(s.tasks[t]) ==> WillBeTidied(s', m)
    ensures WillBeTidied(s', m)
  {
    var u :| u in s.tasks && s.tasks[u].m == m && Tidies(s.tasks[u]);
    if u != t { assert s'.tasks[u] == s.tasks[u]; }
  }

  /** The task a step moves. */
  function Moved(a: Act): nat {
    match a
    case Reserve(t, _, _) => t
    case HandOff(t, _) => t
    case Verdict(t, _, _) => t
    case DropDuplicate(t) => t
    case Flush(t) => t
    case Clean(t) => t
    case Undo(t, _) => t
    case Crash(_) => 0
    case List(t, _) => t
    case Lookup(t) => t
  }

  lemma OtherTasksStay(s: State, a: Act)
    requires Enabled(s, a) && Lossless(s, a)
    ensures forall u | u in s.tasks && u != Moved(a) :: u in Step(s, a).tasks && Step(s, a).tasks[u] == s.tasks[u]
  {}

  lemma ClaimStaysBacked(s: State, a: Act, k: Key)
    requires Strict(s) && ClaimsBacked(s) && Enabled(s, a) && Lossless(s, a) && k in Step(s, a).live
    ensures var s' := Step(s, a); s'.live[k].reqId in s'.orders || LeadsSomewhere(s', MemberOf(k, s'.live[k]))
  {
    var s', t := Step(s, a), Moved(a);
    var m := MemberOf(k, s'.live[k]);
    if k !in s.live {
      assert a.Reserve? && k == KeyOf(a.m) && s'.tasks[t] == Reserved(a.m);
    } else if s.live[k].reqId !in s.orders {
      OtherTasksStay(s, a);
      ClaimSame(s, a, k);
      if t in s.tasks && s.tasks[t].m == m && (InFlight(s.tasks[t]) || s.tasks[t].Undoing?) && m.reqId !in s'.orders {
        ServesOn(s, a, m);
      }
      hide Step, Enabled, Lossless;
      if m.reqId !in s'.orders { MovedOn(s, s', t, m); }
    }
  }

  lemma ClaimSame(s: State, a: Act, k: Key)
    requires Enabled(s, a) && k in s.live && k in Step(s, a).live
    ensures Step(s, a).live[k] == s.live[k] && s.orders.Keys <= Step(s, a).orders.Keys
  {}

  /** The task a step moves still leads somewhere, if its claim is left. */
  lemma ServesOn(s: State, a: Act, m: Member)
    requires Strict(s) && Enabled(s, a) && Lossless(s, a) && Moved(a) in s.tasks && s.tasks[Moved(a)].m == m
    requires InFlight(s.tasks[Moved(a)]) || s.tasks[Moved(a)].Undoing?
    requires KeyOf(m) in Step(s, a).live && m.reqId !in Step(s, a).orders
    ensures LeadsSomewhere(Step(s, a), m)
  {
    var s', t := Step(s, a), Moved(a);
    if a.Undo? && a.call.ArrivesLater? {
      assert s'.tasks[a.call.t] == Undoing(m, 1);
    } else {
      assert a.Crash? ==> t !in a.lost;
      assert t in s'.tasks && s'.tasks[t].m == m;
    }
  }

  lemma PendingStaysBacked(s: State, a: Act, m: Member)
    requires Strict(s) && PendingBacked(s) && Enabled(s, a) && Lossless(s, a) && m in Step(s, a).pending
    ensures WillBeTidied(Step(s, a), m)
  {
    var s', t := Step(s, a), Moved(a);
    if m !in s.pending {
      assert a.Reserve? && m == a.m && s'.tasks[t] == Reserved(a.m);
    } else {
      OtherTasksStay(s, a);
      if t in s.tasks && s.tasks[t].m == m && Tidies(s.tasks[t]) { TidiesOn(s, a, m); }
      hide Step, Enabled, Lossless;
      TidyMovedOn(s, s', t, m);
    }
  }

  lemma TidiesOn(s: State, a: Act, m: Member)
    requires Strict(s) && Enabled(s, a) && Lossless(s, a) && Moved(a) in s.tasks && s.tasks[Moved(a)].m == m
    requires Tidies(s.tasks[Moved(a)]) && m in s.pending && m in Step(s, a).pending
    ensures WillBeTidied(Step(s, a), m)
  {
    var s', t := Step(s, a), Moved(a);
    if a.Undo? && a.call.ArrivesLater? {
      assert s'.tasks[a.call.t] == Undoing(m, 1);
    } else if a.Verdict? && a.status == 1 {
      assert s'.tasks[a.t2] == Cleaning(m);
    } else {
      assert a.Crash? ==> t !in a.lost;
      assert t in s'.tasks && s'.tasks[t].m == m;
    }
  }

  ghost predicate Tracked(s: State, init: map<int, int>) {
    Inv(s, init) && Strict(s) && ClaimsBacked(s) && PendingBacked(s)
  }

  lemma StepKeepsTracked(s: State, a: Act, init: map<int, int>)
    requires Tracked(s, init) && Enabled(s, a) && Fair(s, a) && Lossless(s, a)
    ensures Tracked(Step(s, a), init)
  {
    StepKeepsInv(s, a, init);
    StepKeepsStrict(s, a, init);
    hide Step, Inv, Strict, Enabled, Fair, Lossless, LeadsSomewhere, WillBeTidied;
    forall k | k in Step(s, a).live
      ensures Step(s, a).live[k].reqId in Step(s, a).orders || LeadsSomewhere(Step(s, a), MemberOf(k, Step(s, a).live[k]))
    {
      ClaimStaysBacked(s, a, k);
    }
    forall m | m in Step(s, a).pending ensures WillBeTidied(Step(s, a), m) {
      PendingStaysBacked(s, a, m);
    }
  }

  lemma {:induction false} RunKeepsTracked(s: State, run: seq<Act>, init: map<int, int>)
    requires Tracked(s, init) && ValidRun(s, run) && FairRun(s, run) && LosslessRun(s, run)
    ensures Tracked(Exec(s, run), init)
    decreases |run|
  {
    hide Tracked, Step, Fair, Lossless;
    if run != [] {
      StepKeepsTracked(s, run[0], init);
      RunKeepsTracked(Step(s, run[0]), run[1..], init);
    }
  }

  /** Main result: in every run within the premises that loses nothing, each live reservation's request
      has an order, or a task that will write it or take the reservation back; and each pending
      entry has a task that will remove it. */
  lemma NothingLeaks(init: map<int, int>, run: seq<Act>)
    requires forall sku | sku in init :: init[sku] >= 0
    requires ValidRun(Start(init), run) && FairRun(Start(init), run) && LosslessRun(Start(init), run)
    ensures
      var s := Exec(Start(init), run);
      && (forall k | k in s.live :: s.live[k].reqId in s.orders || LeadsSomewhere(s, MemberOf(k, s.live[k])))
      && (forall m | m in s.pending :: WillBeTidied(s, m))
  {
    StartInv(init);
    RunKeepsTracked(Start(init), run, init);
  }
}
