/** The reservation protocol's premises are exact: a step is against them exactly when some way on
    from it, all of it within them, ends in a state that breaks the protocol's promise. */
module ReservationLimits {
  import opened Sums
  import opened RedisStore
  import opened Reservation

  /** The promise of `NoOrderWithoutReservation`. */
  ghost predicate Safe(s: State, init: map<int, int>) {
    OrdersReserved(s) && StockOk(s, init)
  }

  /** Some run within the premises leads from `s` to `s'`. */
  ghost predicate Leads(s: State, s': State) {
    exists run :: ValidRun(s, run) && FairRun(s, run) && Exec(s, run) == s'
  }

  /** Some run within the premises breaks the promise. */
  ghost predicate Doomed(s: State, init: map<int, int>) {
    exists run :: ValidRun(s, run) && FairRun(s, run) && !Safe(Exec(s, run), init)
  }

  // ---- Building runs ----

  lemma {:induction false} RunsCompose(s: State, before: seq<Act>, after: seq<Act>)
    requires ValidRun(s, before) && ValidRun(Exec(s, before), after)
    requires FairRun(s, before) && FairRun(Exec(s, before), after)
    ensures ValidRun(s, before + after) && FairRun(s, before + after)
    ensures Exec(s, before + after) == Exec(Exec(s, before), after)
    decreases |before|
  {
    hide Step, Fair;
    if before == [] {
      assert before + after == after;
    } else {
      RunsCompose(Step(s, before[0]), before[1..], after);
      assert (before + after)[1..] == before[1..] + after;
    }
  }

  lemma LeadsNowhere(s: State)
    ensures Leads(s, s)
  {
    assert ValidRun(s, []) && FairRun(s, []) && Exec(s, []) == s;
  }

  lemma LeadsByStep(s: State, a: Act)
    requires Enabled(s, a) && Fair(s, a)
    ensures Leads(s, Step(s, a))
  {
    hide Step;
    var run, s' := [a], Step(s, a);
    assert run[1..] == [] && run[0] == a;
    assert ValidRun(s', []) && FairRun(s', []) && Exec(s', []) == s';
    assert ValidRun(s', run[1..]) && FairRun(s', run[1..]) && Exec(s', run[1..]) == s';
    hide Enabled, Fair;
    assert ValidRun(s, run);
    assert FairRun(s, run) && Exec(s, run) == s';
  }

  lemma LeadsOn(s: State, s1: State, s2: State)
    requires Leads(s, s1) && Leads(s1, s2)
    ensures Leads(s, s2)
  {
    var before :| ValidRun(s, before) && FairRun(s, before) && Exec(s, before) == s1;
    var after :| ValidRun(s1, after) && FairRun(s1, after) && Exec(s1, after) == s2;
    hide ValidRun, Exec, FairRun;
    RunsCompose(s, before, after);
  }

  lemma LeadsOnByStep(s: State, s1: State, a: Act)
    requires Leads(s, s1) && Enabled(s1, a) && Fair(s1, a)
    ensures Leads(s, Step(s1, a))
  {
    hide Step, Leads;
    LeadsByStep(s1, a);
    LeadsOn(s, s1, Step(s1, a));
  }

  lemma LeadsToDoom(s: State, s': State, init: map<int, int>)
    requires Leads(s, s') && (Doomed(s', init) || !Safe(s', init))
    ensures Doomed(s, init)
  {
    hide Safe;
    if Doomed(s', init) {
      var after :| ValidRun(s', after) && FairRun(s', after) && !Safe(Exec(s', after), init);
      LeadsOn(s, s', Exec(s', after));
    }
  }

  /** A number not in a finite set. */
  lemma Fresh(used: set<nat>) returns (x: nat)
    ensures x !in used && forall y | y in used :: y < x
  {
    x := 0;
    var rest := used;
    while rest != {}
      invariant rest <= used && forall y | y in used :: y in rest || y < x
      decreases rest
    {
      var y :| y in rest;
      if x <= y { x := y + 1; }
      rest := rest - {y};
    }
  }

  // ---- Ways on ----

  /** A crash loses every task but those in `keep`. */
  lemma CrashAllBut(s: State, keep: set<nat>) returns (s': State)
    ensures Leads(s, s') && s' == s.(tasks := s'.tasks)
    ensures s'.tasks.Keys == s.tasks.Keys * keep && forall t | t in s'.tasks :: s'.tasks[t] == s.tasks[t]
  {
    hide Leads;
    LeadsByStep(s, Crash(s.tasks.Keys - keep));
    s' := Step(s, Crash(s.tasks.Keys - keep));
  }

  /** A request in flight that has no order yet can go on to its order. */
  lemma InFlightReachesOrder(s: State, t: nat) returns (s': State)
    requires t in s.tasks && InFlight(s.tasks[t]) && s.tasks[t].m.reqId !in s.orders
    ensures Leads(s, s')
    ensures
      var m := s.tasks[t].m;
      && s'.live == s.live && s'.stock == s.stock && s'.pending == s.pending
      && s'.orders == s.orders[m.reqId := Order(m.sku, m.user, m.qty)]
    ensures forall u | u in s.tasks && u != t :: u in s'.tasks && s'.tasks[u] == s.tasks[u]
    ensures forall u | u in s'.tasks && (InFlight(s'.tasks[u]) || s'.tasks[u].Listed?) :: u != t && u in s.tasks
  {
    hide Leads;
    s' := s;
    LeadsNowhere(s);
    if s'.tasks[t].Reserved? {
      LeadsOnByStep(s, s', HandOff(t, true));
      s' := Step(s', HandOff(t, true));
    }
    if s'.tasks[t].Queued? {
      var spare := Fresh(s'.tasks.Keys);
      LeadsOnByStep(s, s', Verdict(t, spare, 1));
      s' := Step(s', Verdict(t, spare, 1));
    }
    LeadsOnByStep(s, s', Flush(t));
    s' := Step(s', Flush(t));
  }

  /** A rollback under way can run and be answered. */
  lemma RollsBack(s: State, t: nat) returns (s': State)
    requires t in s.tasks && s.tasks[t].Undoing? && s.tasks[t].tries > 0
    ensures Leads(s, s') && s' == WithoutTask(RolledBack(s, s.tasks[t].m), t)
  {
    hide Leads, RolledBack;
    LeadsByStep(s, Undo(t, CallFate.Answered));
    s' := Step(s, Undo(t, CallFate.Answered));
  }

  /** A user without a reservation, and with no task that matters, can reserve one unit under a new
      request id and get an order. */
  lemma AnotherOrder(s: State, sku: int, user: nat) returns (s': State, id: nat)
    requires (sku, user) !in s.live && sku in s.stock && s.stock[sku] >= 1
    requires forall t | t in s.tasks :: !s.tasks[t].Undoing? && !s.tasks[t].Listed?
    ensures Leads(s, s') && id !in s.orders && s'.orders == s.orders[id := Order(sku, user, 1)]
    ensures forall m | m in s.pending :: m in s'.pending && m.reqId != id
    ensures forall u | u in s.tasks :: u in s'.tasks && s'.tasks[u] == s.tasks[u] && s'.tasks[u].m.reqId != id
    ensures forall u | u in s'.tasks && InFlight(s'.tasks[u]) :: u in s.tasks
  {
    hide Leads;
    id := Fresh(s.orders.Keys + (set m | m in s.pending :: m.reqId) + (set t | t in s.tasks :: s.tasks[t].m.reqId));
    var t := Fresh(s.tasks.Keys);
    var a := Reserve(t, Member(sku, user, 1, id), false);
    LeadsByStep(s, a);
    var s1 := Step(s, a);
    s' := InFlightReachesOrder(s1, t);
    LeadsOn(s, s1, s');
  }

  // ---- Unfair steps ----

  /** An order whose reservation is gone. */
  lemma OrderAlone(s: State, id: nat, init: map<int, int>)
    requires id in s.orders && OrderKey(s.orders[id]) !in s.live
    ensures !Safe(s, init)
  {}

  /** A request in flight whose reservation was taken back, and nothing else under way. */
  lemma StrandedRequest(s: State, t: nat, init: map<int, int>)
    requires t in s.tasks && s.tasks[t].Reserved? && s.tasks.Keys == {t} && KeyOf(s.tasks[t].m) !in s.live
    requires s.tasks[t].m.sku in s.stock && s.stock[s.tasks[t].m.sku] >= 1
    ensures Doomed(s, init)
  {
    hide Leads, Doomed;
    var m := s.tasks[t].m;
    if m.reqId !in s.orders {
      var s1 := InFlightReachesOrder(s, t);
      OrderAlone(s1, m.reqId, init);
      LeadsToDoom(s, s1, init);
    } else {
      var s1, id := AnotherOrder(s, m.sku, m.user);
      LeadsOnByStep(s, s1, HandOff(t, false));
      var s2 := Step(s1, HandOff(t, false));
      var s3 := RollsBack(s2, t);
      LeadsOn(s, s2, s3);
      OrderAlone(s3, id, init);
      LeadsToDoom(s, s3, init);
    }
  }

  /** A pending entry of a reservation that was taken back under another name, and nothing under
      way: the sweeper will come for it. */
  lemma StrandedEntry(s: State, m: Member, init: map<int, int>)
    requires m in s.pending && m.reqId !in s.orders && s.tasks.Keys == {} && KeyOf(m) !in s.live
    requires m.sku in s.stock && s.stock[m.sku] >= 1
    ensures Doomed(s, init)
  {
    hide Leads, Doomed;
    var s1, id := AnotherOrder(s, m.sku, m.user);
    var t := Fresh(s1.tasks.Keys);
    LeadsOnByStep(s, s1, List(t, m));
    var s2 := Step(s1, List(t, m));
    LeadsOnByStep(s, s2, Lookup(t));
    var s3 := Step(s2, Lookup(t));
    var s4 := RollsBack(s3, t);
    LeadsOn(s, s3, s4);
    OrderAlone(s4, id, init);
    LeadsToDoom(s, s4, init);
  }

  /** The sweeper looks up its listed member, if that is what the task is, and a rollback begins. */
  lemma BecomesRollback(s: State, t: nat) returns (s': State)
    requires t in s.tasks && (s.tasks[t].Listed? || (s.tasks[t].Undoing? && s.tasks[t].tries > 0))
    requires s.tasks[t].Listed? ==> s.tasks[t].m.reqId !in s.orders
    requires forall u | u in s.tasks && InFlight(s.tasks[u]) :: s.tasks[u].m != s.tasks[t].m || s.tasks[t].Undoing?
    ensures Leads(s, s') && t in s'.tasks && s' == s.(tasks := s.tasks[t := s'.tasks[t]])
    ensures s'.tasks[t].Undoing? && s'.tasks[t].tries > 0 && s'.tasks[t].m == s.tasks[t].m
  {
    hide Leads;
    s' := s;
    LeadsNowhere(s);
    if s.tasks[t].Listed? {
      LeadsByStep(s, Lookup(t));
      s' := Step(s, Lookup(t));
    } else {
      assert s == s.(tasks := s.tasks[t := s.tasks[t]]);
    }
  }

  /** The task that makes a reservation unfair. */
  lemma UnfairTask(s: State, a: Act) returns (t0: nat)
    requires a.Reserve? && !Fair(s, a)
    ensures Grants(s, a.m) && t0 in s.tasks && KeyOf(s.tasks[t0].m) == KeyOf(a.m)
    ensures !Harmless(s, s.tasks[t0], a.m, a.replyLost)
  {
    t0 :| t0 in s.tasks && KeyOf(s.tasks[t0].m) == KeyOf(a.m) && !Harmless(s, s.tasks[t0], a.m, a.replyLost);
  }

  lemma UnfairReserve(s: State, a: Act, init: map<int, int>)
    requires Inv(s, init) && Enabled(s, a) && a.Reserve? && !a.replyLost && !Fair(s, a)
    ensures Doomed(Step(s, a), init)
  {
    hide Leads, Doomed;
    var t0 := UnfairTask(s, a);
    assert TaskOk(s, s.tasks[t0]);
    hide Inv;
    var m, u, s1 := a.m, s.tasks[t0].m, Step(s, a);
    var s2 := CrashAllBut(s1, {a.t, t0});
    var s3 := BecomesRollback(s2, t0);
    LeadsOn(s1, s2, s3);
    var s4 := RollsBack(s3, t0);
    LeadsOn(s1, s3, s4);
    StrandedRequest(s4, a.t, init);
    LeadsToDoom(s1, s4, init);
  }

  /** A rollback of another size than the claim it takes back breaks the stock. */
  lemma WrongRefund(s: State, m: Member, init: map<int, int>)
    requires StockOk(s, init) && KeyOf(m) in s.live && s.live[KeyOf(m)].qty != m.qty
    ensures !StockOk(RolledBack(s, m), init)
  {
    var s' := RolledBack(s, m);
    LiveQtyRemove(s.live, m, m.sku);
    assert m.sku in init by { assert KeyOf(m).0 in s.stock; }
    assert s'.stock[m.sku] == s.stock[m.sku] + m.qty;
    assert s'.live == s.live - {KeyOf(m)};
  }

  /** A rollback of something else than the claim it takes back, and nothing else under way. */
  lemma WrongRollback(s: State, t: nat, m: Member, init: map<int, int>)
    requires StockOk(s, init) && s.tasks.Keys == {t} && s.tasks[t].Undoing? && s.tasks[t].tries > 0
    requires s.tasks[t].m.qty >= 1 && KeyOf(s.tasks[t].m) == KeyOf(m) && Matches(s, m) && m in s.pending
    requires s.tasks[t].m.qty != m.qty || (s.tasks[t].m != m && m.reqId !in s.orders)
    ensures Doomed(s, init)
  {
    var u := s.tasks[t].m;
    var s' := RollsBack(s, t);
    if u.qty != m.qty {
      WrongRefund(s, u, init);
      if StockOk(s', init) { StockDepends(s', RolledBack(s, u), init); }
    } else {
      assert KeyOf(m) in s.live && s.live[KeyOf(m)].qty >= 1 && m.sku in s.stock && s.stock[m.sku] >= 0;
      hide StockOk, Leads, Doomed;
      StrandedEntry(s', m, init);
    }
    hide StockOk, Leads, Doomed, RolledBack;
    LeadsToDoom(s, s', init);
  }

  lemma UnfairLostReserve(s: State, a: Act, init: map<int, int>)
    requires Inv(s, init) && Enabled(s, a) && a.Reserve? && a.replyLost && !Fair(s, a)
    ensures Doomed(Step(s, a), init)
  {
    hide Leads, Doomed, Fair;
    var t0 := UnfairTask(s, a);
    assert TaskOk(s, s.tasks[t0]);
    var m, s1 := a.m, Step(s, a);
    GrantKeepsStock(s, m, init);
    hide Inv, StockOk;
    var s2 := CrashAllBut(s1, {t0});
    var s3 := BecomesRollback(s2, t0);
    LeadsOn(s1, s2, s3);
    StockDepends(s1, s3, init);
    WrongRollback(s3, t0, m, init);
    LeadsToDoom(s1, s3, init);
  }

  lemma UnfairLookup(s: State, t0: nat, init: map<int, int>)
    requires Inv(s, init) && Enabled(s, Lookup(t0)) && !Fair(s, Lookup(t0))
    ensures Doomed(Step(s, Lookup(t0)), init)
  {
    hide Leads, Doomed, StockOk;
    var m := s.tasks[t0].m;
    var t :| t in s.tasks && InFlight(s.tasks[t]) && s.tasks[t].m == m;
    assert TaskOk(s, s.tasks[t]);
    var s1 := Step(s, Lookup(t0));
    var s2 := RollsBack(s1, t0);
    var s3 := InFlightReachesOrder(s2, t);
    LeadsOn(s1, s2, s3);
    OrderAlone(s3, m.reqId, init);
    LeadsToDoom(s1, s3, init);
  }

  // ---- The premises are exact ----

  lemma FairMeansSafe(s: State, a: Act, init: map<int, int>)
    requires Inv(s, init) && Enabled(s, a) && Fair(s, a)
    ensures !Doomed(Step(s, a), init)
  {
    hide Step, Fair, Inv, ValidRun, Exec, FairRun;
    StepKeepsInv(s, a, init);
    forall run | ValidRun(Step(s, a), run) && FairRun(Step(s, a), run) ensures Safe(Exec(Step(s, a), run), init) {
      RunKeepsInv(Step(s, a), run, init);
      InvIsSafe(Exec(Step(s, a), run), init);
    }
  }

  lemma InvIsSafe(s: State, init: map<int, int>)
    requires Inv(s, init)
    ensures Safe(s, init)
  {}

  /** Main result: in every state that runs within the premises can reach, a step keeps to the
      premises if and only if no run that keeps to them from there on ends in an order
      without its reservation or in stock that does not add up. */
  lemma FairExactly(init: map<int, int>, before: seq<Act>, a: Act)
    requires forall sku | sku in init :: init[sku] >= 0
    requires ValidRun(Start(init), before) && FairRun(Start(init), before)
    requires Enabled(Exec(Start(init), before), a)
    ensures var s := Exec(Start(init), before);
            Fair(s, a) <==> !Doomed(Step(s, a), init)
  {
    StartInv(init);
    RunKeepsInv(Start(init), before, init);
    var s := Exec(Start(init), before);
    hide Step, Doomed, Inv, Enabled, ValidRun, FairRun, Exec;
    if Fair(s, a) {
      FairMeansSafe(s, a, init);
    } else if a.Lookup? {
      UnfairLookup(s, a.t, init);
    } else if a.replyLost {
      UnfairLostReserve(s, a, init);
    } else {
      UnfairReserve(s, a, init);
    }
  }
}
