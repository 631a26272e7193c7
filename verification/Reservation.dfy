/** The reservation protocol around Redis: what the handlers, the engine's verdict, the
    database writer, the cleanup and the sweeper do to a reservation, with crashes
    and lost replies, any number of each interleaved.

    Redis and the database survive a crash; tasks are what the processes hold in
    memory and lose. */
module Reservation {
  import opened Sums
  import opened RedisStore

  type Key = (int, nat)    // SKU and user: what the bought sets record

  /** `live` is the bought sets, each entry with what its reservation took. */
  datatype Claim = Claim(qty: int, reqId: nat)

  datatype Order = Order(sku: int, user: nat, qty: int)

  datatype Task =
    | Reserved(m: Member)             // a handler whose deduction succeeded
    | Queued(m: Member)               // accepted by the engine
    | Ordering(m: Member)             // on the order channel or in the writer's batch
    | Cleaning(m: Member)             // a cleanup task of a sale
    | Undoing(m: Member, tries: nat)  // calls of the rollback script that may still be made or land
    | Listed(m: Member)               // on the sweeper's list, not yet looked up

  datatype State = State(
    stock: map<int, int>,
    live: map<Key, Claim>,
    pending: set<Member>,
    tasks: map<nat, Task>,
    orders: map<nat, Order>)          // primary key: the request id

  /** What becomes of one call: the script may run at once, never, or at some later time, when the
      caller has long given up; `t` then stands for the call still on its way. */
  datatype CallFate = Answered | AnswerLost | NeverArrives | ArrivesLater(t: nat)

  datatype Act =
    | Reserve(t: nat, m: Member, replyLost: bool)
    | HandOff(t: nat, accepted: bool)                 // EnqueueRequest
    | Verdict(t: nat, t2: nat, status: int)           // 1 sold, other: failed
    | DropDuplicate(t: nat)                           // the engine swallows a repeated id
    | Flush(t: nat)                                   // insert, on conflict do nothing
    | Clean(t: nat)
    | Undo(t: nat, call: CallFate)                        // one call of the rollback script
    | Crash(lost: set<nat>)
    | List(t: nat, m: Member)                         // the sweeper's range query returns the member
    | Lookup(t: nat)                                  // the sweeper asks the database; a failed query is a lost task

  function KeyOf(m: Member): Key { (m.sku, m.user) }

  function ClaimOf(m: Member): Claim { Claim(m.qty, m.reqId) }

  function OrderKey(o: Order): Key { (o.sku, o.user) }

  predicate Matches(s: State, m: Member) {
    KeyOf(m) in s.live && s.live[KeyOf(m)] == ClaimOf(m)
  }

  /** A task that can still lead to an order for its request. */
  predicate InFlight(task: Task) {
    task.Reserved? || task.Queued? || task.Ordering?
  }

  predicate Enabled(s: State, a: Act) {
    match a
    case Reserve(t, m, _) => t !in s.tasks && m.qty >= 1
    case HandOff(t, _) => t in s.tasks && s.tasks[t].Reserved?
    case Verdict(t, t2, _) => t in s.tasks && s.tasks[t].Queued? && t2 !in s.tasks
    case DropDuplicate(t) => t in s.tasks && s.tasks[t].Queued?
    case Flush(t) => t in s.tasks && s.tasks[t].Ordering?
    case Clean(t) => t in s.tasks && s.tasks[t].Cleaning?
    case Undo(t, call) =>
      t in s.tasks && s.tasks[t].Undoing? && s.tasks[t].tries > 0 && (call.ArrivesLater? ==> call.t !in s.tasks)
    case Crash(_) => true
    case List(t, m) => t !in s.tasks && m in s.pending
    case Lookup(t) => t in s.tasks && s.tasks[t].Listed?
  }

  /** The deduct script on the keys of `m`'s SKU. */
  predicate Grants(s: State, m: Member) {
    KeyOf(m) !in s.live && m.sku in s.stock && s.stock[m.sku] >= m.qty
  }

  function Granted(s: State, m: Member): State
    requires Grants(s, m)
  {
    s.(stock := s.stock[m.sku := s.stock[m.sku] - m.qty], live := s.live[KeyOf(m) := ClaimOf(m)],
       pending := s.pending + {m})
  }

  /** The rollback script on the keys of `m`'s SKU. */
  function RolledBack(s: State, m: Member): State {
    if KeyOf(m) in s.live then
      s.(stock := s.stock[m.sku := (if m.sku in s.stock then s.stock[m.sku] else 0) + m.qty],
         live := s.live - {KeyOf(m)}, pending := s.pending - {m})
    else s
  }

  /** One row of an INSERT that does nothing on conflict. */
  function InsertIgnore(orders: map<nat, Order>, id: nat, o: Order): map<nat, Order> {
    if id in orders then orders else orders[id := o]
  }

  function WithTask(s: State, t: nat, task: Task): State {
    s.(tasks := s.tasks[t := task])
  }

  function WithoutTask(s: State, t: nat): State {
    s.(tasks := s.tasks - {t})
  }

  function CallEffect(s: State, m: Member, call: CallFate): State {
    match call
    case Answered => RolledBack(s, m)
    case AnswerLost => RolledBack(s, m)
    case NeverArrives => s
    case ArrivesLater(t2) => WithTask(s, t2, Undoing(m, 1))
  }

  function Step(s: State, a: Act): State
    requires Enabled(s, a)
  {
    match a
    case Reserve(t, m, replyLost) =>
      if !Grants(s, m) then s
      else if replyLost then Granted(s, m) else WithTask(Granted(s, m), t, Reserved(m))
    case HandOff(t, accepted) =>
      WithTask(s, t, if accepted then Queued(s.tasks[t].m) else Undoing(s.tasks[t].m, MAX_RETRIES))
    case Verdict(t, t2, status) =>
      var m := s.tasks[t].m;
      if status == 1 then WithTask(WithTask(s, t, Ordering(m)), t2, Cleaning(m))
      else WithTask(s, t, Undoing(m, MAX_RETRIES))
    case DropDuplicate(t) => WithoutTask(s, t)
    case Flush(t) =>
      var m := s.tasks[t].m;
      var s1 := WithoutTask(s, t);
      s1.(orders := InsertIgnore(s.orders, m.reqId, Order(m.sku, m.user, m.qty)))
    case Clean(t) => WithoutTask(s, t).(pending := s.pending - {s.tasks[t].m})
    case Undo(t, call) =>
      var Undoing(m, tries) := s.tasks[t];
      var s1 := CallEffect(s, m, call);
      if call.Answered? || tries == 1 then WithoutTask(s1, t) else WithTask(s1, t, Undoing(m, tries - 1))
    case Crash(lost) => s.(tasks := s.tasks - lost)
    case List(t, m) => WithTask(s, t, Listed(m))
    case Lookup(t) =>
      var m := s.tasks[t].m;
      if m.reqId in s.orders then WithoutTask(s, t).(pending := s.pending - {m})
      else WithTask(s, t, Undoing(m, MAX_RETRIES))
  }

  /** What an unfinished rollback or a listed member does to a new reservation `m` of the same user:
      nothing if it names the same claim and no order can follow from it any more, or if its
      order exists and the sweeper will only tidy up; and nothing that lasts to a reservation
      whose reply was lost, if the request can get no order because its id has one already. */
  predicate Harmless(s: State, task: Task, m: Member, replyLost: bool) {
    match task
    case Undoing(u, _) => replyLost && u.qty == m.qty && (u == m || m.reqId in s.orders)
    case Listed(l) => l.reqId in s.orders || l == m || (replyLost && l.qty == m.qty && m.reqId in s.orders)
    case _ => true
  }

  /** The three premises: a user's new reservation is not granted while one of their rollbacks is
      unfinished, nor while the sweeper still holds a listed member of theirs, the harmless cases
      aside; and a member without an order is no longer in flight when the sweeper looks it up. */
  ghost predicate Fair(s: State, a: Act) {
    match a
    case Reserve(_, m, replyLost) =>
      Grants(s, m) ==> forall t | t in s.tasks && KeyOf(s.tasks[t].m) == KeyOf(m) :: Harmless(s, s.tasks[t], m, replyLost)
    case Lookup(t) =>
      t in s.tasks && s.tasks[t].m.reqId !in s.orders ==>
        forall u | u in s.tasks && InFlight(s.tasks[u]) :: s.tasks[u].m != s.tasks[t].m
    case _ => true
  }

  // ---- The scripts ----

  /** The three Redis keys of one SKU. */
  function KeysOf(s: State, sku: int): Keys {
    Keys(if sku in s.stock then Units(s.stock[sku]) else Missing,
         set k | k in s.live && k.0 == sku :: k.1,
         set m | m in s.pending && m.sku == sku)
  }

  lemma BoughtIsLive(s: State, sku: int, user: nat)
    ensures user in KeysOf(s, sku).bought <==> (sku, user) in s.live
  {
    if (sku, user) in s.live {
      var k := (sku, user);
      assert k in s.live && k.0 == sku;
    }
  }

  /** A reservation is the deduct script on the SKU's keys, and leaves other SKUs alone. */
  lemma GrantIsDeductScript(s: State, m: Member)
    ensures DeductScript(KeysOf(s, m.sku), m).1 == 1 <==> Grants(s, m)
    ensures Grants(s, m) ==> KeysOf(Granted(s, m), m.sku) == DeductScript(KeysOf(s, m.sku), m).0
    ensures Grants(s, m) ==> forall sku | sku != m.sku :: KeysOf(Granted(s, m), sku) == KeysOf(s, sku)
  {
    BoughtIsLive(s, m.sku, m.user);
    if Grants(s, m) {
      forall sku
        ensures KeysOf(Granted(s, m), sku).bought == KeysOf(s, sku).bought + (if sku == m.sku then {m.user} else {})
      {
        forall user ensures user in KeysOf(Granted(s, m), sku).bought
                            <==> user in KeysOf(s, sku).bought || (sku == m.sku && user == m.user) {
          BoughtIsLive(s, sku, user);
          BoughtIsLive(Granted(s, m), sku, user);
        }
      }
    }
  }

  /** A rollback is the rollback script on the SKU's keys. */
  lemma RolledBackIsRollbackScript(s: State, m: Member)
    ensures KeysOf(RolledBack(s, m), m.sku) == RollbackScript(KeysOf(s, m.sku), m).0
    ensures forall sku | sku != m.sku :: KeysOf(RolledBack(s, m), sku) == KeysOf(s, sku)
  {
    BoughtIsLive(s, m.sku, m.user);
    forall sku
      ensures KeysOf(RolledBack(s, m), sku).bought == KeysOf(s, sku).bought - (if sku == m.sku then {m.user} else {})
    {
      forall user ensures user in KeysOf(RolledBack(s, m), sku).bought
                          <==> user in KeysOf(s, sku).bought && !(sku == m.sku && user == m.user) {
        BoughtIsLive(s, sku, user);
        BoughtIsLive(RolledBack(s, m), sku, user);
      }
    }
  }

  // ---- Safety ----

  /** The property: every order in the database has its user's reservation still live. */
  ghost predicate OrdersReserved(s: State) {
    forall id | id in s.orders ::
      OrderKey(s.orders[id]) in s.live && s.live[OrderKey(s.orders[id])] == Claim(s.orders[id].qty, id)
  }

  ghost predicate NoOrderFor(s: State, key: Key) {
    forall id | id in s.orders :: OrderKey(s.orders[id]) != key
  }

  /** A rollback of `m` would take back what is live: `m`'s own claim, or one of the same size
      whose request can get no order. */
  ghost predicate Refundable(s: State, m: Member) {
    KeyOf(m) in s.live ==>
      && NoOrderFor(s, KeyOf(m)) && s.live[KeyOf(m)].qty == m.qty
      && (s.live[KeyOf(m)].reqId == m.reqId || s.live[KeyOf(m)].reqId in s.orders)
  }

  ghost predicate TaskOk(s: State, task: Task) {
    task.m.qty >= 1 &&
    match task
    case Reserved(m) => Matches(s, m) && NoOrderFor(s, KeyOf(m))
    case Queued(m) => Matches(s, m) && NoOrderFor(s, KeyOf(m))
    case Ordering(m) => Matches(s, m)
    case Cleaning(_) => true
    case Undoing(m, tries) => Refundable(s, m) && tries > 0
    case Listed(m) => m.reqId in s.orders || Refundable(s, m)
  }

  /** Two tasks of one user and SKU do not both matter, except repeated rollbacks, and a listed
      member that is in flight itself or has its order. */
  predicate Compatible(s: State, a: Task, b: Task) {
    (InFlight(a) ==> Spares(s, b, a.m)) && (InFlight(b) ==> Spares(s, a, b.m))
  }

  /** The task is not in the way of the request `m` in flight. */
  predicate Spares(s: State, task: Task, m: Member) {
    KeyOf(task.m) == KeyOf(m) ==>
      !InFlight(task) && !task.Undoing? && (task.Listed? ==> task.m == m || task.m.reqId in s.orders)
  }

  ghost predicate TasksOk(s: State) {
    && (forall t | t in s.tasks :: TaskOk(s, s.tasks[t]))
    && (forall t, u | t in s.tasks && u in s.tasks && t != u :: Compatible(s, s.tasks[t], s.tasks[u]))
  }

  ghost predicate PendingOk(s: State) {
    forall m | m in s.pending :: m.qty >= 1 && (Matches(s, m) || m.reqId in s.orders)
  }

  /** The quantities of the live reservations of one SKU. */
  function LiveQty(live: map<Key, Claim>, sku: int): map<Key, int> {
    map k | k in live && k.0 == sku :: live[k].qty
  }

  /** Stock plus live reservations is the initial stock, SKU by SKU. */
  ghost predicate StockOk(s: State, init: map<int, int>) {
    && s.stock.Keys == init.Keys
    && (forall k | k in s.live :: k.0 in s.stock && s.live[k].qty >= 1)
    && (forall sku | sku in init :: s.stock[sku] >= 0 && s.stock[sku] + Sum(LiveQty(s.live, sku)) == init[sku])
  }

  ghost predicate Inv(s: State, init: map<int, int>) {
    OrdersReserved(s) && TasksOk(s) && PendingOk(s) && StockOk(s, init)
  }

  lemma GrantKeepsStock(s: State, m: Member, init: map<int, int>)
    requires StockOk(s, init) && Grants(s, m) && m.qty >= 1
    ensures StockOk(Granted(s, m), init)
  {
    var s' := Granted(s, m);
    forall sku | sku in init
      ensures s'.stock[sku] >= 0 && s'.stock[sku] + Sum(LiveQty(s'.live, sku)) == init[sku]
    {
      LiveQtyInsert(s.live, m, sku);
      if sku == m.sku {
        SumInsert(LiveQty(s.live, sku), KeyOf(m), m.qty);
      }
    }
  }

  lemma LiveQtyInsert(live: map<Key, Claim>, m: Member, sku: int)
    requires KeyOf(m) !in live
    ensures LiveQty(live[KeyOf(m) := ClaimOf(m)], sku)
            == if sku == m.sku then LiveQty(live, sku)[KeyOf(m) := m.qty] else LiveQty(live, sku)
  {}

  lemma RollbackKeepsStock(s: State, m: Member, init: map<int, int>)
    requires StockOk(s, init) && (KeyOf(m) in s.live ==> s.live[KeyOf(m)].qty == m.qty)
    ensures StockOk(RolledBack(s, m), init)
  {
    var s' := RolledBack(s, m);
    if KeyOf(m) in s.live {
      forall sku | sku in init
        ensures s'.stock[sku] >= 0 && s'.stock[sku] + Sum(LiveQty(s'.live, sku)) == init[sku]
      {
        LiveQtyRemove(s.live, m, sku);
      }
    }
  }

  lemma LiveQtyRemove(live: map<Key, Claim>, m: Member, sku: int)
    requires KeyOf(m) in live
    ensures Sum(LiveQty(live, sku))
            == Sum(LiveQty(live - {KeyOf(m)}, sku)) + (if sku == m.sku then live[KeyOf(m)].qty else 0)
  {
    if sku == m.sku {
      assert LiveQty(live - {KeyOf(m)}, sku) == LiveQty(live, sku) - {KeyOf(m)};
      SumTakeOut(LiveQty(live, sku), KeyOf(m));
    } else {
      assert LiveQty(live - {KeyOf(m)}, sku) == LiveQty(live, sku);
    }
  }

  // ---- Each step keeps the invariant ----

  /** Tasks matter through the claims and orders only. */
  lemma TaskDepends(s: State, s': State, task: Task)
    requires TaskOk(s, task) && s'.live == s.live && s'.orders == s.orders
    ensures TaskOk(s', task)
  {}

  lemma CompatibleDepends(s: State, s': State, a: Task, b: Task)
    requires Compatible(s, a, b) && s.orders.Keys <= s'.orders.Keys
    ensures Compatible(s', a, b)
  {}

  lemma StockDepends(s: State, s': State, init: map<int, int>)
    requires StockOk(s, init) && s'.stock == s.stock && s'.live == s.live
    ensures StockOk(s', init)
  {}

  /** A task appears, or takes the place of the one it continues. */
  lemma PutTask(s: State, t: nat, task: Task, init: map<int, int>)
    requires Inv(s, init) && TaskOk(s, task)
    requires forall u | u in s.tasks && u != t :: Compatible(s, s.tasks[u], task)
    ensures Inv(WithTask(s, t, task), init)
  {
    hide StockOk, TaskOk, Compatible;
    var s' := WithTask(s, t, task);
    StockDepends(s, s', init);
    forall u | u in s'.tasks ensures TaskOk(s', s'.tasks[u]) {
      TaskDepends(s, s', s'.tasks[u]);
    }
    forall u, v | u in s'.tasks && v in s'.tasks && u != v ensures Compatible(s', s'.tasks[u], s'.tasks[v]) {
      assert Compatible(s, s'.tasks[u], s'.tasks[v]) by { CompatibleEitherWay(s, s'.tasks[u], s'.tasks[v]); }
      CompatibleDepends(s, s', s'.tasks[u], s'.tasks[v]);
    }
  }

  lemma CompatibleEitherWay(s: State, a: Task, b: Task)
    ensures Compatible(s, a, b) <==> Compatible(s, b, a)
  {}

  lemma DropTasks(s: State, lost: set<nat>, init: map<int, int>)
    requires Inv(s, init)
    ensures Inv(s.(tasks := s.tasks - lost), init)
  {
    hide StockOk, TaskOk, Compatible;
    var s' := s.(tasks := s.tasks - lost);
    StockDepends(s, s', init);
    forall u | u in s'.tasks ensures TaskOk(s', s'.tasks[u]) {
      TaskDepends(s, s', s.tasks[u]);
    }
    forall u, v | u in s'.tasks && v in s'.tasks && u != v ensures Compatible(s', s'.tasks[u], s'.tasks[v]) {
      CompatibleDepends(s, s', s.tasks[u], s.tasks[v]);
    }
  }

  /** Fewer pending members are no trouble. */
  lemma DropPending(s: State, m: Member, init: map<int, int>)
    requires Inv(s, init)
    ensures Inv(s.(pending := s.pending - {m}), init)
  {
    hide StockOk, TaskOk, Compatible;
    var s' := s.(pending := s.pending - {m});
    StockDepends(s, s', init);
    forall u | u in s'.tasks ensures TaskOk(s', s'.tasks[u]) {
      TaskDepends(s, s', s.tasks[u]);
    }
    forall u, v | u in s'.tasks && v in s'.tasks && u != v ensures Compatible(s', s'.tasks[u], s'.tasks[v]) {
      CompatibleDepends(s, s', s.tasks[u], s.tasks[v]);
    }
  }

  lemma GrantKeepsTask(s: State, m: Member, task: Task, replyLost: bool)
    requires OrdersReserved(s) && Grants(s, m) && TaskOk(s, task)
    requires KeyOf(task.m) == KeyOf(m) ==> Harmless(s, task, m, replyLost)
    ensures TaskOk(Granted(s, m), task)
    ensures !replyLost ==> Compatible(s, task, Reserved(m))
  {
    var s' := Granted(s, m);
    assert NoOrderFor(s', KeyOf(m));
  }

  lemma GrantKeepsRecords(s: State, m: Member)
    requires OrdersReserved(s) && PendingOk(s) && Grants(s, m) && m.qty >= 1
    ensures OrdersReserved(Granted(s, m)) && PendingOk(Granted(s, m)) && Granted(s, m).tasks == s.tasks
    ensures Granted(s, m).orders == s.orders
    ensures TaskOk(Granted(s, m), Reserved(m))
  {}

  lemma GrantKeepsInv(s: State, m: Member, replyLost: bool, init: map<int, int>)
    requires Inv(s, init) && Grants(s, m) && m.qty >= 1
    requires forall t | t in s.tasks && KeyOf(s.tasks[t].m) == KeyOf(m) :: Harmless(s, s.tasks[t], m, replyLost)
    ensures Inv(Granted(s, m), init) && TaskOk(Granted(s, m), Reserved(m))
    ensures !replyLost ==> forall t | t in s.tasks :: Compatible(Granted(s, m), s.tasks[t], Reserved(m))
  {
    hide StockOk, Compatible, TaskOk, OrdersReserved, PendingOk, Granted, Harmless;
    var s' := Granted(s, m);
    GrantKeepsStock(s, m, init);
    GrantKeepsRecords(s, m);
    forall t | t in s'.tasks
      ensures TaskOk(s', s'.tasks[t])
      ensures !replyLost ==> Compatible(s', s.tasks[t], Reserved(m))
    {
      GrantKeepsTask(s, m, s.tasks[t], replyLost);
      if !replyLost { CompatibleDepends(s, s', s.tasks[t], Reserved(m)); }
    }
    forall t, u | t in s'.tasks && u in s'.tasks && t != u ensures Compatible(s', s'.tasks[t], s'.tasks[u]) {
      CompatibleDepends(s, s', s.tasks[t], s.tasks[u]);
    }
  }

  lemma ReserveKeepsInv(s: State, a: Act, init: map<int, int>)
    requires Inv(s, init) && Enabled(s, a) && Fair(s, a) && a.Reserve?
    ensures Inv(Step(s, a), init)
  {
    hide Inv, TaskOk, Compatible, Harmless, Granted, Grants;
    if Grants(s, a.m) {
      GrantKeepsInv(s, a.m, a.replyLost, init);
      if !a.replyLost {
        assert Granted(s, a.m).tasks == s.tasks by { GrantLeavesTasks(s, a.m); }
        PutTask(Granted(s, a.m), a.t, Reserved(a.m), init);
      }
    }
  }

  lemma GrantLeavesTasks(s: State, m: Member)
    requires Grants(s, m)
    ensures Granted(s, m).tasks == s.tasks && Granted(s, m).orders == s.orders
  {}

  /** Moving a task on, or dropping it, without touching Redis or the database. */
  lemma TaskMovesKeepInv(s: State, a: Act, init: map<int, int>)
    requires Inv(s, init) && Enabled(s, a) && (a.HandOff? || a.Verdict? || a.DropDuplicate? || a.Crash?)
    ensures Inv(Step(s, a), init)
  {
    hide StockOk;
    match a
    case HandOff(t, accepted) =>
      assert TaskOk(s, s.tasks[t]);
      PutTask(s, t, if accepted then Queued(s.tasks[t].m) else Undoing(s.tasks[t].m, MAX_RETRIES), init);
    case Verdict(t, t2, status) =>
      assert TaskOk(s, s.tasks[t]);
      var m := s.tasks[t].m;
      if status == 1 {
        PutTask(s, t, Ordering(m), init);
        PutTask(WithTask(s, t, Ordering(m)), t2, Cleaning(m), init);
      } else {
        PutTask(s, t, Undoing(m, MAX_RETRIES), init);
      }
    case DropDuplicate(t) => DropTasks(s, {t}, init);
    case Crash(lost) => DropTasks(s, lost, init);
  }

  lemma CleanKeepsInv(s: State, t: nat, init: map<int, int>)
    requires Inv(s, init) && Enabled(s, Clean(t))
    ensures Inv(Step(s, Clean(t)), init)
  {
    hide Inv;
    DropTasks(s, {t}, init);
    DropPending(WithoutTask(s, t), s.tasks[t].m, init);
  }

  lemma FlushKeepsTask(s: State, t0: nat, t: nat)
    requires OrdersReserved(s) && TasksOk(s) && Enabled(s, Flush(t0)) && t in s.tasks && t != t0
    ensures TaskOk(Step(s, Flush(t0)), s.tasks[t])
  {
    assert TaskOk(s, s.tasks[t]) && TaskOk(s, s.tasks[t0]) && Compatible(s, s.tasks[t], s.tasks[t0]);
  }

  lemma FlushKeepsInv(s: State, t0: nat, init: map<int, int>)
    requires Inv(s, init) && Enabled(s, Flush(t0))
    ensures Inv(Step(s, Flush(t0)), init)
  {
    var s' := Step(s, Flush(t0));
    assert TaskOk(s, s.tasks[t0]);
    assert OrdersReserved(s') && PendingOk(s');
    hide TaskOk, Compatible, StockOk, OrdersReserved, PendingOk;
    StockDepends(s, s', init);
    forall t | t in s'.tasks ensures TaskOk(s', s'.tasks[t]) {
      FlushKeepsTask(s, t0, t);
    }
    forall t, u | t in s'.tasks && u in s'.tasks && t != u ensures Compatible(s', s'.tasks[t], s'.tasks[u]) {
      CompatibleDepends(s, s', s.tasks[t], s.tasks[u]);
    }
  }

  lemma RollbackKeepsTask(s: State, t0: nat, t: nat)
    requires OrdersReserved(s) && TasksOk(s) && t0 in s.tasks && s.tasks[t0].Undoing? && t in s.tasks
    ensures TaskOk(RolledBack(s, s.tasks[t0].m), s.tasks[t])
  {
    assert TaskOk(s, s.tasks[t]) && (t != t0 ==> Compatible(s, s.tasks[t], s.tasks[t0]));
  }

  lemma RollbackKeepsRecords(s: State, m: Member)
    requires OrdersReserved(s) && PendingOk(s) && Refundable(s, m)
    ensures OrdersReserved(RolledBack(s, m)) && PendingOk(RolledBack(s, m))
    ensures RolledBack(s, m).tasks == s.tasks && RolledBack(s, m).orders == s.orders
  {}

  /** One effective run of the rollback script by a task that may make it. */
  lemma RollbackKeepsInv(s: State, t0: nat, init: map<int, int>)
    requires Inv(s, init) && t0 in s.tasks && s.tasks[t0].Undoing?
    ensures Inv(RolledBack(s, s.tasks[t0].m), init)
    ensures RolledBack(s, s.tasks[t0].m).tasks == s.tasks
  {
    var m := s.tasks[t0].m;
    var s' := RolledBack(s, m);
    assert TaskOk(s, s.tasks[t0]);
    RollbackKeepsStock(s, m, init);
    RollbackKeepsRecords(s, m);
    hide TaskOk, Compatible, StockOk, OrdersReserved, PendingOk, RolledBack;
    forall t | t in s'.tasks ensures TaskOk(s', s'.tasks[t]) {
      RollbackKeepsTask(s, t0, t);
    }
    forall t, u | t in s'.tasks && u in s'.tasks && t != u ensures Compatible(s', s'.tasks[t], s'.tasks[u]) {
      CompatibleDepends(s, s', s.tasks[t], s.tasks[u]);
    }
  }

  lemma CallKeepsInv(s: State, t: nat, call: CallFate, init: map<int, int>)
    requires Inv(s, init) && Enabled(s, Undo(t, call))
    ensures Inv(CallEffect(s, s.tasks[t].m, call), init)
    ensures var s1 := CallEffect(s, s.tasks[t].m, call); t in s1.tasks && s1.tasks[t] == s.tasks[t]
  {
    var m := s.tasks[t].m;
    if call.Answered? || call.AnswerLost? {
      RollbackKeepsInv(s, t, init);
    } else if call.ArrivesLater? {
      assert TaskOk(s, s.tasks[t]);
      forall u | u in s.tasks && u != call.t ensures Compatible(s, s.tasks[u], Undoing(m, 1)) {
        assert u != t ==> Compatible(s, s.tasks[u], s.tasks[t]);
      }
      PutTask(s, call.t, Undoing(m, 1), init);
    }
  }

  lemma UndoKeepsInv(s: State, a: Act, init: map<int, int>)
    requires Inv(s, init) && Enabled(s, a) && a.Undo?
    ensures Inv(Step(s, a), init)
  {
    var m := s.tasks[a.t].m;
    var s1 := CallEffect(s, m, a.call);
    CallKeepsInv(s, a.t, a.call, init);
    if a.call.Answered? || s.tasks[a.t].tries == 1 {
      hide Inv, CallEffect;
      DropTasks(s1, {a.t}, init);
    } else {
      var next := Undoing(m, s.tasks[a.t].tries - 1);
      assert TaskOk(s1, s1.tasks[a.t]);
      hide CallEffect, StockOk;
      forall u | u in s1.tasks && u != a.t ensures Compatible(s1, s1.tasks[u], next) {
        assert Compatible(s1, s1.tasks[u], s1.tasks[a.t]);
      }
      PutTask(s1, a.t, next, init);
    }
  }

  lemma ListKeepsInv(s: State, a: Act, init: map<int, int>)
    requires Inv(s, init) && Enabled(s, a) && a.List?
    ensures Inv(Step(s, a), init)
  {
    hide StockOk;
    forall t | t in s.tasks ensures Compatible(s, s.tasks[t], Listed(a.m)) {
      assert TaskOk(s, s.tasks[t]);
    }
    PutTask(s, a.t, Listed(a.m), init);
  }

  lemma LookupKeepsInv(s: State, t0: nat, init: map<int, int>)
    requires Inv(s, init) && Enabled(s, Lookup(t0)) && Fair(s, Lookup(t0))
    ensures Inv(Step(s, Lookup(t0)), init)
  {
    hide StockOk;
    var m := s.tasks[t0].m;
    if m.reqId !in s.orders {
      assert TaskOk(s, s.tasks[t0]);
      forall t | t in s.tasks && t != t0 ensures Compatible(s, s.tasks[t], Undoing(m, MAX_RETRIES)) {
        assert Compatible(s, s.tasks[t], s.tasks[t0]);
      }
      PutTask(s, t0, Undoing(m, MAX_RETRIES), init);
    } else {
      hide Inv;
      DropTasks(s, {t0}, init);
      DropPending(WithoutTask(s, t0), m, init);
    }
  }

  lemma StepKeepsInv(s: State, a: Act, init: map<int, int>)
    requires Inv(s, init) && Enabled(s, a) && Fair(s, a)
    ensures Inv(Step(s, a), init)
  {
    hide Step, Inv, Fair;
    if a.Reserve? {
      ReserveKeepsInv(s, a, init);
    } else if a.Flush? {
      FlushKeepsInv(s, a.t, init);
    } else if a.Undo? {
      UndoKeepsInv(s, a, init);
    } else if a.List? {
      ListKeepsInv(s, a, init);
    } else if a.Lookup? {
      LookupKeepsInv(s, a.t, init);
    } else if a.Clean? {
      CleanKeepsInv(s, a.t, init);
    } else {
      TaskMovesKeepInv(s, a, init);
    }
  }

  predicate ValidRun(s: State, run: seq<Act>)
    decreases |run|
  {
    run == [] || (Enabled(s, run[0]) && ValidRun(Step(s, run[0]), run[1..]))
  }

  function Exec(s: State, run: seq<Act>): State
    requires ValidRun(s, run)
    decreases |run|
  {
    if run == [] then s else Exec(Step(s, run[0]), run[1..])
  }

  ghost predicate FairRun(s: State, run: seq<Act>)
    requires ValidRun(s, run)
    decreases |run|
  {
    run == [] || (Fair(s, run[0]) && FairRun(Step(s, run[0]), run[1..]))
  }

  function Start(init: map<int, int>): State {
    State(init, map[], {}, map[], map[])
  }

  lemma StartInv(init: map<int, int>)
    requires forall sku | sku in init :: init[sku] >= 0
    ensures Inv(Start(init), init)
  {
    forall sku | sku in init ensures Sum(LiveQty(Start(init).live, sku)) == 0 {
      assert LiveQty(map[], sku) == map[];
    }
  }

  lemma {:induction false} RunKeepsInv(s: State, run: seq<Act>, init: map<int, int>)
    requires Inv(s, init) && ValidRun(s, run) && FairRun(s, run)
    ensures Inv(Exec(s, run), init)
    decreases |run|
  {
    hide Inv, Step, Fair;
    if run != [] {
      StepKeepsInv(s, run[0], init);
      RunKeepsInv(Step(s, run[0]), run[1..], init);
    }
  }

  /** The quantities of one SKU's orders. */
  function OrderQty(orders: map<nat, Order>, sku: int): map<nat, int> {
    map id | id in orders && orders[id].sku == sku :: orders[id].qty
  }

  /** Orders whose reservations are live fit into the live quantity. */
  lemma {:induction false} OrdersFitReservations(orders: map<nat, Order>, live: map<Key, Claim>, sku: int)
    requires forall k | k in live :: live[k].qty >= 1
    requires forall id | id in orders ::
               OrderKey(orders[id]) in live && live[OrderKey(orders[id])] == Claim(orders[id].qty, id)
    ensures Sum(OrderQty(orders, sku)) <= Sum(LiveQty(live, sku))
    decreases |orders|
  {
    if id :| id in orders && orders[id].sku == sku {
      var key, q := OrderKey(orders[id]), OrderQty(orders, sku);
      OrdersFitReservations(orders - {id}, live - {key}, sku);
      assert OrderQty(orders - {id}, sku) == q - {id};
      assert LiveQty(live - {key}, sku) == LiveQty(live, sku) - {key};
      SumTakeOut(q, id);
      SumTakeOut(LiveQty(live, sku), key);
    } else {
      assert OrderQty(orders, sku) == map[];
      var none: map<Key, int> := map[];
      SumMonotone(none, LiveQty(live, sku));
    }
  }

  /** Main result: in every run of any number of handlers, verdicts, flushes, cleanups, sweepers and
      crashes that keeps to the three premises, every order has its reservation still live, stock is
      never negative and makes the initial stock with the live reservations, and so the ordered
      quantity of every SKU is at most what left the stock. */
  lemma NoOrderWithoutReservation(init: map<int, int>, run: seq<Act>)
    requires forall sku | sku in init :: init[sku] >= 0
    requires ValidRun(Start(init), run) && FairRun(Start(init), run)
    ensures
      var s := Exec(Start(init), run);
      && OrdersReserved(s)
      && s.stock.Keys == init.Keys
      && forall sku | sku in init ::
           && 0 <= s.stock[sku] && s.stock[sku] + Sum(LiveQty(s.live, sku)) == init[sku]
           && Sum(OrderQty(s.orders, sku)) <= init[sku] - s.stock[sku]
  {
    StartInv(init);
    RunKeepsInv(Start(init), run, init);
    var s := Exec(Start(init), run);
    forall sku | sku in init ensures Sum(OrderQty(s.orders, sku)) <= init[sku] - s.stock[sku] {
      OrdersFitReservations(s.orders, s.live, sku);
    }
  }
}
