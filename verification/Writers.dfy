/** The two batching goroutines: the database writer and the cleanup worker. */
module Writers {
  import opened RedisStore
  import opened Reservation

  // ---- The database writer ----

  datatype Row = Row(id: nat, order: Order)

  function InsertAll(orders: map<nat, Order>, rows: seq<Row>): map<nat, Order> {
    if rows == [] then orders
    else
      var last := rows[|rows| - 1];
      InsertIgnore(InsertAll(orders, rows[..|rows| - 1]), last.id, last.order)
  }

  /** The first row with an id wins, and rows already in the table stay. */
  lemma {:induction false} FirstInsertWins(orders: map<nat, Order>, rows: seq<Row>, id: nat)
    ensures
      var after := InsertAll(orders, rows);
      && (id in after <==> id in orders || exists i | 0 <= i < |rows| :: rows[i].id == id)
      && (id in orders ==> after[id] == orders[id])
      && forall i | 0 <= i < |rows| && rows[i].id == id && id !in orders
                    && (forall j | 0 <= j < i :: rows[j].id != id) :: after[id] == rows[i].order
    decreases |rows|
  {
    if rows != [] {
      var front := rows[..|rows| - 1];
      FirstInsertWins(orders, front, id);
      if i :| 0 <= i < |rows| && rows[i].id == id {
        if i < |front| { assert front[i].id == id; }
      }
      forall i | 0 <= i < |rows| && rows[i].id == id && id !in orders && (forall j | 0 <= j < i :: rows[j].id != id)
        ensures InsertAll(orders, rows)[id] == rows[i].order
      {
        if i < |front| {
          assert front[i].id == id;
        } else {
          assert forall j | 0 <= j < |front| :: front[j].id != id;
        }
      }
    }
  }

  lemma {:induction false} InsertAllConcat(orders: map<nat, Order>, a: seq<Row>, b: seq<Row>)
    ensures InsertAll(orders, a + b) == InsertAll(InsertAll(orders, a), b)
    decreases |b|
  {
    if b == [] {
      assert a + b == a;
    } else {
      var front := b[..|b| - 1];
      assert (a + b)[..|a + b| - 1] == a + front;
      InsertAllConcat(orders, a, front);
    }
  }

  class DbWorker {
    const BATCH_SIZE: nat := 1000
    var batch: seq<Row>
    var orders: map<nat, Order>    // the table
    ghost var received: seq<Row>
    ghost var initial: map<nat, Order>

    /** Nothing received is lost: inserting the rest of the batch gives what inserting every
        received row one by one gives. */
    ghost predicate Valid()
      reads this
    {
      |batch| < BATCH_SIZE && InsertAll(orders, batch) == InsertAll(initial, received)
    }

    constructor (table: map<nat, Order>)
      ensures Valid() && orders == initial == table && batch == received == []
    {
      batch, orders, received, initial := [], table, [], table;
    }

    method Flush()
      modifies this`batch, this`orders
      ensures orders == InsertAll(old(orders), old(batch)) && batch == []
    {
      if |batch| > 0 {
        var i := 0;
        while i < |batch|
          invariant 0 <= i <= |batch| && batch == old(batch)
          invariant orders == InsertAll(old(orders), batch[..i])
        {
          if batch[i].id !in orders {
            orders := orders[batch[i].id := batch[i].order];
          }
          assert batch[..i + 1][..i] == batch[..i];
          i := i + 1;
        }
        assert batch[..i] == batch;
        batch := [];
      }
    }

    method Receive(row: Row)
      requires Valid()
      modifies this`batch, this`orders, this`received
      ensures Valid() && received == old(received) + [row]
      ensures batch == if |old(batch)| + 1 >= 1000 then [] else old(batch) + [row]
    {
      InsertAllConcat(orders, batch, [row]);
      InsertAllConcat(initial, received, [row]);
      assert forall table :: InsertAll(table, []) == table;
      hide InsertAll;
      batch := batch + [row];
      received := received + [row];
      if |batch| >= BATCH_SIZE {
        Flush();
      }
    }

    /** The ticker, and the closing of the channel. */
    method Tick()
      requires Valid()
      modifies this`batch, this`orders
      ensures Valid() && batch == [] && orders == InsertAll(initial, received)
    {
      Flush();
    }
  }

  // ---- The cleanup worker ----

  datatype CleanupTask = CleanupTask(m: Member, status: int)

  /** Removing each sale's member, one command at a time. */
  function RemoveEach(pending: set<Member>, tasks: seq<CleanupTask>): set<Member> {
    if tasks == [] then pending
    else
      var last := tasks[|tasks| - 1];
      var before := RemoveEach(pending, tasks[..|tasks| - 1]);
      if last.status == 1 then before - {last.m} else before
  }

  /** The rollbacks to start, in order. */
  function Failures(tasks: seq<CleanupTask>): seq<Member> {
    if tasks == [] then []
    else
      var last := tasks[|tasks| - 1];
      Failures(tasks[..|tasks| - 1]) + (if last.status == 1 then [] else [last.m])
  }

  /** `ms` are the members of the tasks that are not sales, one for each, in task order: `at` says
      which task each comes from. */
  predicate StartedAt(ms: seq<Member>, tasks: seq<CleanupTask>, at: seq<nat>) {
    && |at| == |ms|
    && (forall k, l | 0 <= k < l < |at| :: at[k] < at[l])
    && (forall k | 0 <= k < |at| :: at[k] < |tasks| && tasks[at[k]].status != 1 && tasks[at[k]].m == ms[k])
    && (forall i | 0 <= i < |tasks| && tasks[i].status != 1 :: i in at)
  }

  ghost predicate OneForEachFailure(ms: seq<Member>, tasks: seq<CleanupTask>) {
    exists at :: StartedAt(ms, tasks, at)
  }

  lemma {:induction false} FailuresAt(tasks: seq<CleanupTask>) returns (at: seq<nat>)
    ensures StartedAt(Failures(tasks), tasks, at)
    decreases |tasks|
  {
    hide StartedAt;
    if tasks == [] {
      at := [];
      NothingStarted();
    } else {
      var front, last := tasks[..|tasks| - 1], tasks[|tasks| - 1];
      at := FailuresAt(front);
      assert tasks == front + [last];
      OneMoreTask(Failures(front), front, at, last);
      if last.status == 1 {
        assert Failures(tasks) == Failures(front) + [] == Failures(front);
      } else {
        at := at + [|front|];
        assert Failures(tasks) == Failures(front) + [last.m];
      }
    }
  }

  lemma NothingStarted()
    ensures StartedAt([], [], [])
  {}

  lemma OneMoreTask(ms: seq<Member>, tasks: seq<CleanupTask>, at: seq<nat>, last: CleanupTask)
    requires StartedAt(ms, tasks, at)
    ensures if last.status == 1 then StartedAt(ms, tasks + [last], at)
            else StartedAt(ms + [last.m], tasks + [last], at + [|tasks|])
  {
    var tasks', at' := tasks + [last], at + [|tasks|];
    forall i | 0 <= i < |tasks'| && tasks'[i].status != 1 ensures i in at' {
      if i < |tasks| {
        assert tasks[i].status != 1 && i in at;
      } else {
        assert at'[|at|] == i;
      }
    }
  }

  /** `groups` holds exactly the members of the sales among `tasks`, each under its SKU. */
  ghost predicate Grouped(groups: map<int, set<Member>>, tasks: seq<CleanupTask>) {
    && (forall sku, m | sku in groups && m in groups[sku] :: m.sku == sku)
    && forall m: Member :: (m.sku in groups && m in groups[m.sku]) <==> CleanupTask(m, 1) in tasks
  }

  lemma {:induction false} RemoveEachRemovesSales(pending: set<Member>, tasks: seq<CleanupTask>, m: Member)
    ensures m in RemoveEach(pending, tasks) <==> m in pending && CleanupTask(m, 1) !in tasks
    decreases |tasks|
  {
    if tasks != [] {
      var front, last := tasks[..|tasks| - 1], tasks[|tasks| - 1];
      RemoveEachRemovesSales(pending, front, m);
      assert tasks == front + [last];
    }
  }

  /** One flush: one ZREM for each SKU instead of one for each task, and one rollback started
      for every task that is not a sale. The SKUs are visited in the order of their first sale;
      the map's own order is arbitrary, and any order gives this result. */
  method FlushCleanup(tasks: seq<CleanupTask>, pending: set<Member>)
    returns (rest: set<Member>, rollbacks: seq<Member>)
    ensures forall m: Member :: m in rest <==> m in pending && CleanupTask(m, 1) !in tasks
    ensures rest == RemoveEach(pending, tasks)
    ensures rollbacks == Failures(tasks) && OneForEachFailure(rollbacks, tasks)
  {
    var groups: map<int, set<Member>> := map[];
    var skus: seq<int> := [];
    rollbacks := [];
    var i := 0;
    while i < |tasks|
      invariant 0 <= i <= |tasks|
      invariant rollbacks == Failures(tasks[..i])
      invariant Grouped(groups, tasks[..i])
      invariant forall sku | sku in groups :: sku in skus
      invariant forall k | 0 <= k < |skus| :: skus[k] in groups
    {
      var task := tasks[i];
      assert tasks[..i + 1] == tasks[..i] + [task] && tasks[..i + 1][..i] == tasks[..i];
      if task.status == 1 {
        var sku := task.m.sku;
        if sku !in groups {
          skus := skus + [sku];
        }
        groups := groups[sku := (if sku in groups then groups[sku] else {}) + {task.m}];
      } else {
        rollbacks := rollbacks + [task.m];
      }
      i := i + 1;
    }
    assert tasks[..i] == tasks;
    ghost var at := FailuresAt(tasks);
    assert StartedAt(rollbacks, tasks, at);
    rest := pending;
    i := 0;
    while i < |skus|
      invariant 0 <= i <= |skus|
      invariant forall m :: m in rest <==> m in pending && forall k | 0 <= k < i :: m !in groups[skus[k]]
    {
      rest := rest - groups[skus[i]];
      i := i + 1;
    }
    forall m: Member
      ensures m in rest <==> m in RemoveEach(pending, tasks)
      ensures m in rest <==> m in pending && CleanupTask(m, 1) !in tasks
    {
      RemoveEachRemovesSales(pending, tasks, m);
      if m.sku in groups && m in groups[m.sku] {
        var k :| 0 <= k < |skus| && skus[k] == m.sku;
      }
      if k :| 0 <= k < |skus| && m in groups[skus[k]] {
        assert m.sku == skus[k];
      }
    }
  }
}
