/** The books of the whole engine: every worker holds a copy of the inventory, and only
    the copy of the shard that owns a SKU ever changes. */
module EngineLedger {
  import opened Sums
  import opened Pipeline
  import opened Worker
  import opened TicketQueue
  import Drain

  function Wires(ms: seq<Msg>): (reqs: seq<Request>)
    ensures |reqs| == |ms|
  {
    seq(|ms|, k requires 0 <= k < |ms| => Wire(ms[k]))
  }

  ghost predicate AllPlain(ms: seq<Msg>) {
    forall k | 0 <= k < |ms| :: !IsBenchmark(Wire(ms[k]))
  }

  /** Every request accepted so far gives nothing back to the stock. */
  ghost predicate Orderly(e: Engine) {
    forall i, m | 0 <= i < |e.shards| && m in e.shards[i].accepted :: GivesNothing(Wire(m))
  }

  /** The worker is where processing its messages in order leads, and its books are right. */
  ghost predicate WorkerOk(s: Shard, i: nat, n: nat, init: map<int, int>, flags: map<int, bool>)
    requires 0 < n
  {
    && AllPlain(s.processed)
    && s.worker == RunAll(NewWorker(init), Shared(0, flags, 0), Wires(s.processed)).0
    && Settled(init, s.worker) && Balanced(init, s.worker)
    && forall sku | sku in init && ShardOf(sku, n) != i :: s.worker.inventory[sku] == init[sku]
  }

  ghost predicate FlagsOk(e: Engine)
    requires 0 < |e.shards|
  {
    forall sku :: FlagExact(e.shards[ShardOf(sku, |e.shards|)].worker, e.shared, sku)
  }

  /** Units sold by the first `k` workers. */
  ghost function SoldBy(shards: seq<Shard>, k: nat): int
    requires k <= |shards|
  {
    if k == 0 then 0 else SoldBy(shards, k - 1) + TotalSold(shards[k - 1].worker.results)
  }

  ghost predicate LedgerInv(e: Engine, init: map<int, int>, flags: map<int, bool>) {
    && 0 < |e.shards|
    && (forall i | 0 <= i < |e.shards| :: WorkerOk(e.shards[i], i, |e.shards|, init, flags))
    && e.shared.sold == SoldBy(e.shards, |e.shards|)
    && (FlagsFresh(init, flags) && Orderly(e) ==> FlagsOk(e))
  }

  lemma {:induction false} SoldByOneShard(before: seq<Shard>, after: seq<Shard>, k: nat, i: nat)
    requires k <= |before| == |after| && i < |before|
    requires forall j | 0 <= j < |before| && j != i :: after[j].worker.results == before[j].worker.results
    ensures SoldBy(after, k) - SoldBy(before, k)
            == if i < k then TotalSold(after[i].worker.results) - TotalSold(before[i].worker.results) else 0
    decreases k
  {
    if k != 0 { SoldByOneShard(before, after, k - 1, i); }
  }

  predicate Processes(e: Engine, a: Act)
    requires Enabled(e, a)
  {
    a.Work? && e.shards[a.i].thread.Batch? && e.shards[a.i].thread.rest != []
  }

  /** Only processing a message touches a worker, the counter or a flag. */
  lemma OthersKeepWorkers(e: Engine, a: Act)
    requires Enabled(e, a) && !Processes(e, a)
    ensures |Step(e, a).shards| == |e.shards|
    ensures Step(e, a).shared.sold == e.shared.sold && Step(e, a).shared.flags == e.shared.flags
    ensures forall i | 0 <= i < |e.shards| ::
              && Step(e, a).shards[i].worker == e.shards[i].worker
              && Step(e, a).shards[i].processed == e.shards[i].processed
  {
    ShardCountFixed(e, a);
    hide Process, ShardOf, Claim, Publish, CanTake, ClaimEntry, DispatchStep, TakeStep, ProcessNext, IsBenchmark, Wire;
    forall i | 0 <= i < |e.shards|
      ensures Step(e, a).shards[i].worker == e.shards[i].worker
      ensures Step(e, a).shards[i].processed == e.shards[i].processed
    {
      OthersKeepWorker(e, a, i);
    }
  }

  lemma OthersKeepWorker(e: Engine, a: Act, i: nat)
    requires Enabled(e, a) && !Processes(e, a) && i < |e.shards|
    ensures |Step(e, a).shards| == |e.shards|
    ensures Step(e, a).shards[i].worker == e.shards[i].worker
    ensures Step(e, a).shards[i].processed == e.shards[i].processed
  {
    hide Process, ShardOf, Claim, Publish, CanTake, ProcessNext, IsBenchmark, Wire;
  }

  /** Processing changes a flag of the request's own SKU at most. */
  lemma OwnFlagOnly(w: State, g: Shared, req: Request, sku: int)
    requires !IsBenchmark(req) && sku != req.sku
    ensures var flags := Process(w, g, req).1.flags;
            (sku in flags <==> sku in g.flags) && (sku in flags ==> flags[sku] == g.flags[sku])
  {}

  lemma BarrierTouchesNoFlag(w: State, g: Shared, drain: nat)
    ensures Process(w, g, Wire(Barrier(drain))) == (w, g.(acks := g.acks + 1))
  {}

  /** Processing changes stock of the request's own SKU at most. */
  lemma OwnStockOnly(w: State, g: Shared, req: Request, sku: int)
    requires !IsBenchmark(req) && (sku != req.sku || req.id == BARRIER_ID) && sku in w.inventory
    ensures sku in Process(w, g, req).0.inventory && Process(w, g, req).0.inventory[sku] == w.inventory[sku]
  {}

  lemma RunAllExtends(init: map<int, int>, g: Shared, done: seq<Msg>, m: Msg)
    requires AllPlain(done) && !IsBenchmark(Wire(m))
    ensures AllPlain(done + [m])
    ensures RunAll(NewWorker(init), g, Wires(done + [m])).0
            == Process(RunAll(NewWorker(init), g, Wires(done)).0, RunAll(NewWorker(init), g, Wires(done)).1, Wire(m)).0
  {
    hide Process;
    var ms := done + [m];
    assert Wires(ms)[..|ms| - 1] == Wires(done) && Wires(ms)[|ms| - 1] == Wire(m);
  }

  lemma ProcessKeepsWorker(e: Engine, i: nat, init: map<int, int>, flags: map<int, bool>)
    requires FlowInv(e) && LedgerInv(e, init, flags) && Enabled(e, Work(i)) && Processes(e, Work(i))
    ensures WorkerOk(ProcessNext(e.shards[i], e.shared).0, i, |e.shards|, init, flags)
  {
    hide Process, Pending, ShardOf, RunAll;
    var s, m := e.shards[i], e.shards[i].thread.rest[0];
    var s' := ProcessNext(s, e.shared).0;
    MessageIsOwn(e, i);
    RunAllExtends(init, Shared(0, flags, 0), s.processed, m);
    WorkerIgnoresShared(s.worker, e.shared, RunAll(NewWorker(init), Shared(0, flags, 0), Wires(s.processed)).1, Wire(m));
    ProcessKeepsBooks(init, s.worker, e.shared, Wire(m));
    forall sku | sku in init && ShardOf(sku, |e.shards|) != i
      ensures sku in s'.worker.inventory && s'.worker.inventory[sku] == init[sku]
    {
      OwnStockOnly(s.worker, e.shared, Wire(m), sku);
    }
  }

  /** The message a worker is about to process is a barrier or a proper request for its own SKU. */
  lemma MessageIsOwn(e: Engine, i: nat)
    requires FlowInv(e) && Enabled(e, Work(i)) && Processes(e, Work(i))
    ensures var m := e.shards[i].thread.rest[0];
            && !IsBenchmark(Wire(m)) && (Orderly(e) ==> GivesNothing(Wire(m)))
            && (m.Client? ==> m.req.id != BARRIER_ID && ShardOf(m.req.sku, |e.shards|) == i)
  {
    hide Process, ShardOf;
    var m := e.shards[i].thread.rest[0];
    assert m in Pending(e.shards[i]) by { PendingProcess(e.shards[i], e.shared); }
    PendingWasAccepted(e, i, m);
  }

  lemma ProcessKeepsFlags(e: Engine, i: nat)
    requires FlowInv(e) && 0 < |e.shards| && FlagsOk(e) && Orderly(e) && Enabled(e, Work(i)) && Processes(e, Work(i))
    ensures |Step(e, Work(i)).shards| == |e.shards| && FlagsOk(Step(e, Work(i)))
  {
    hide Process, ShardOf, FlagExact;
    MessageIsOwn(e, i);
    var e', m, n := Step(e, Work(i)), e.shards[i].thread.rest[0], |e.shards|;
    forall sku ensures FlagExact(e'.shards[ShardOf(sku, n)].worker, e'.shared, sku) {
      assert FlagExact(e.shards[ShardOf(sku, n)].worker, e.shared, sku);
      FlagKept(e.shards[ShardOf(sku, n)].worker, e.shards[i].worker, e.shared, m, sku, ShardOf(sku, n) == i);
    }
  }

  lemma FlagKept(owner: State, w: State, g: Shared, m: Msg, sku: int, own: bool)
    requires FlagExact(owner, g, sku) && !IsBenchmark(Wire(m)) && GivesNothing(Wire(m)) && (own ==> owner == w)
    requires m.Client? && !own ==> sku != m.req.sku
    ensures FlagExact(if own then Process(w, g, Wire(m)).0 else owner, Process(w, g, Wire(m)).1, sku)
  {
    hide Process;
    if own {
      FlagStaysExact(w, g, Wire(m), sku);
    } else if m.Client? {
      OwnFlagOnly(w, g, m.req, sku);
    } else {
      BarrierTouchesNoFlag(w, g, m.drain);
    }
  }

  lemma OrderlyBefore(e: Engine, a: Act)
    requires Enabled(e, a) && Orderly(Step(e, a))
    ensures Orderly(e)
  {
    ShardCountFixed(e, a);
    hide Step, Process, ShardOf, GivesNothing;
    forall i, m | 0 <= i < |e.shards| && m in e.shards[i].accepted ensures GivesNothing(Wire(m)) {
      StepMovesMessages(e, a, i);
    }
  }

  lemma StepKeepsLedger(e: Engine, a: Act, init: map<int, int>, flags: map<int, bool>)
    requires FlowInv(e) && LedgerInv(e, init, flags) && Enabled(e, a)
    ensures LedgerInv(Step(e, a), init, flags)
  {
    if Processes(e, a) {
      LedgerProcesses(e, a.i, init, flags);
    } else {
      LedgerQuiet(e, a, init, flags);
    }
  }

  lemma LedgerProcesses(e: Engine, i: nat, init: map<int, int>, flags: map<int, bool>)
    requires FlowInv(e) && LedgerInv(e, init, flags) && Enabled(e, Work(i)) && Processes(e, Work(i))
    ensures LedgerInv(Step(e, Work(i)), init, flags)
  {
    hide Process, Pending, ShardOf, RunAll, FlowInv, FlagsOk, Orderly, FlagsFresh;
    var e' := Step(e, Work(i));
    if FlagsFresh(init, flags) && Orderly(e') {
      OrderlyBefore(e, Work(i));
      ProcessKeepsFlags(e, i);
    }
    ProcessKeepsWorker(e, i, init, flags);
    SoldByOneShard(e.shards, e'.shards, |e.shards|, i);
    MessageIsOwn(e, i);
    ProcessKeepsBooks(init, e.shards[i].worker, e.shared, Wire(e.shards[i].thread.rest[0]));
  }

  lemma SameFlags(w: State, g: Shared, g2: Shared, sku: int)
    requires FlagExact(w, g, sku) && g2.flags == g.flags
    ensures FlagExact(w, g2, sku)
  {}

  lemma LedgerQuiet(e: Engine, a: Act, init: map<int, int>, flags: map<int, bool>)
    requires LedgerInv(e, init, flags) && Enabled(e, a) && !Processes(e, a)
    ensures LedgerInv(Step(e, a), init, flags)
  {
    hide Process, Pending, ShardOf, RunAll, Step, FlagExact, Settled, Balanced, Enabled, Processes, Orderly, FlagsFresh;
    var e' := Step(e, a);
    OthersKeepWorkers(e, a);
    SoldByOneShard(e.shards, e'.shards, |e.shards|, 0);
    forall i | 0 <= i < |e'.shards| ensures WorkerOk(e'.shards[i], i, |e'.shards|, init, flags) {
      assert WorkerOk(e.shards[i], i, |e.shards|, init, flags);
    }
    if FlagsFresh(init, flags) && Orderly(e') {
      OrderlyBefore(e, a);
      forall sku ensures FlagExact(e'.shards[ShardOf(sku, |e'.shards|)].worker, e'.shared, sku) {
        SameFlags(e.shards[ShardOf(sku, |e.shards|)].worker, e.shared, e'.shared, sku);
      }
    }
  }

  ghost predicate Inv(e: Engine, init: map<int, int>, flags: map<int, bool>) {
    FlowInv(e) && LedgerInv(e, init, flags)
  }

  predicate InStock(init: map<int, int>) {
    forall sku | sku in init :: 0 <= init[sku]
  }

  /** Flagged SKUs start with stock and with the flag down. */
  predicate FlagsFresh(init: map<int, int>, flags: map<int, bool>) {
    forall sku | sku in flags && sku in init :: !flags[sku] && 0 < init[sku]
  }

  lemma InvInit(n: nat, init: map<int, int>, flags: map<int, bool>)
    requires 0 < n && InStock(init)
    ensures Inv(Init(n, init, flags), init, flags)
  {
    hide ShardOf, Pending;
    var e := Init(n, init, flags);
    assert FlowInv(e) by { Drain.InvInit(n, init, flags); }
    forall i | 0 <= i < n ensures WorkerOk(e.shards[i], i, n, init, flags) {}
    NothingSoldYet(e.shards, n);
  }

  lemma {:induction false} NothingSoldYet(shards: seq<Shard>, k: nat)
    requires k <= |shards| && forall i | 0 <= i < k :: shards[i].worker.results == []
    ensures SoldBy(shards, k) == 0
    decreases k
  {
    if k != 0 { NothingSoldYet(shards, k - 1); }
  }

  lemma {:induction false} RunKeepsInv(e: Engine, run: seq<Act>, init: map<int, int>, flags: map<int, bool>)
    requires Inv(e, init, flags) && ValidRun(e, run)
    ensures Inv(Exec(e, run), init, flags) && |Exec(e, run).shards| == |e.shards|
    decreases |run|
  {
    hide Step, LedgerInv, FlowInv;
    if run != [] {
      StepKeepsLedger(e, run[0], init, flags);
      StepKeepsFlow(e, run[0]);
      ShardCountFixed(e, run[0]);
      RunKeepsInv(Step(e, run[0]), run[1..], init, flags);
    }
  }

  // ---- The engine's total ----

  /** The stock each SKU's owner holds, for the SKUs owned by the first `k` shards; the initial
      stock for the others. */
  function OwnersStock(e: Engine, init: map<int, int>, k: nat): map<int, int>
    requires 0 < |e.shards| && k <= |e.shards|
    requires forall i | 0 <= i < |e.shards| :: e.shards[i].worker.inventory.Keys == init.Keys
  {
    map sku | sku in init ::
      if ShardOf(sku, |e.shards|) < k then e.shards[ShardOf(sku, |e.shards|)].worker.inventory[sku] else init[sku]
  }

  lemma {:induction false} SoldIsStockGone(e: Engine, init: map<int, int>, flags: map<int, bool>, k: nat)
    requires LedgerInv(e, init, flags) && k <= |e.shards|
    ensures SoldBy(e.shards, k) == Sum(init) - Sum(OwnersStock(e, init, k))
    decreases k
  {
    hide ShardOf, RunAll, FlagsOk, Settled;
    if k == 0 {
      assert OwnersStock(e, init, 0) == init;
    } else {
      SoldIsStockGone(e, init, flags, k - 1);
      assert WorkerOk(e.shards[k - 1], k - 1, |e.shards|, init, flags);
      OneMoreOwner(e, init, k);
    }
  }

  lemma OneMoreOwner(e: Engine, init: map<int, int>, k: nat)
    requires 0 < k <= |e.shards|
    requires forall i | 0 <= i < |e.shards| :: e.shards[i].worker.inventory.Keys == init.Keys
    requires forall sku | sku in init && ShardOf(sku, |e.shards|) != k - 1 ::
               e.shards[k - 1].worker.inventory[sku] == init[sku]
    ensures Sum(OwnersStock(e, init, k - 1)) - Sum(OwnersStock(e, init, k))
            == Sum(init) - Sum(e.shards[k - 1].worker.inventory)
  {
    hide ShardOf, Sum;
    var a, b, inventory := OwnersStock(e, init, k - 1), OwnersStock(e, init, k), e.shards[k - 1].worker.inventory;
    assert a.Keys == init.Keys && b.Keys == init.Keys;
    forall sku | sku in init ensures a[sku] - b[sku] == init[sku] - inventory[sku] {
      if ShardOf(sku, |e.shards|) == k - 1 {
        assert a[sku] == init[sku] && b[sku] == inventory[sku];
      }
    }
    SumSameDifference(a, b, init, inventory);
  }

  /** Main result: in every state of every run, for every SKU the owning worker's stock is not
      negative and with the units sold makes the initial stock, no other worker's copy ever
      changed, the shared counter is the sum over all SKUs of what left the owners' stock, and
      no worker ever reported more than the initial stock as sold. */
  lemma EngineNeverOversells(n: nat, init: map<int, int>, flags: map<int, bool>, run: seq<Act>, sku: int)
    requires 0 < n && InStock(init) && ValidRun(Init(n, init, flags), run) && sku in init
    ensures
      var e, owner := Exec(Init(n, init, flags), run), ShardOf(sku, n);
      && |e.shards| == n
      && (forall i | 0 <= i < n :: e.shards[i].worker.inventory.Keys == init.Keys)
      && 0 <= e.shards[owner].worker.inventory[sku]
      && e.shards[owner].worker.inventory[sku] + SoldQty(e.shards[owner].worker.results, sku) == init[sku]
      && (forall i | 0 <= i < n && i != owner ::
            e.shards[i].worker.inventory[sku] == init[sku] && SoldQty(e.shards[i].worker.results, sku) == 0)
      && e.shared.sold == Sum(init) - Sum(OwnersStock(e, init, n))
  {
    hide ShardOf, RunAll, Exec, ValidRun, Sum, SoldBy, SoldQty, Settled, FlagsOk, FlowInv, AllPlain;
    InvInit(n, init, flags);
    RunKeepsInv(Init(n, init, flags), run, init, flags);
    var e := Exec(Init(n, init, flags), run);
    forall i | 0 <= i < n ensures WorkerOk(e.shards[i], i, n, init, flags) {}
    SoldIsStockGone(e, init, flags, n);
  }

  lemma StepRaisesOnly(e: Engine, a: Act, sku: int)
    requires Enabled(e, a) && sku in e.shared.flags
    ensures sku in Step(e, a).shared.flags
    ensures e.shared.flags[sku] ==> Step(e, a).shared.flags[sku]
  {
    hide Process, ShardOf;
    if Processes(e, a) {
      FlagNeverLowered(e.shards[a.i].worker, e.shared, Wire(e.shards[a.i].thread.rest[0]), sku);
    } else {
      OthersKeepWorkers(e, a);
      hide Step;
    }
  }

  lemma {:induction false} RunRaisesOnly(e: Engine, run: seq<Act>, sku: int)
    requires ValidRun(e, run) && sku in e.shared.flags
    ensures sku in Exec(e, run).shared.flags
    ensures e.shared.flags[sku] ==> Exec(e, run).shared.flags[sku]
    decreases |run|
  {
    hide Step;
    if run != [] {
      StepRaisesOnly(e, run[0], sku);
      RunRaisesOnly(Step(e, run[0]), run[1..], sku);
    }
  }

  /** In every state reached by requests that give nothing back, a flagged SKU's flag is up if and
      only if its owner has nothing left, and once it is up it stays up whatever happens after. */
  lemma FlagsExactInEveryRun(n: nat, init: map<int, int>, flags: map<int, bool>, run: seq<Act>, after: seq<Act>, sku: int)
    requires 0 < n && InStock(init) && FlagsFresh(init, flags) && sku in flags && sku in init
    requires ValidRun(Init(n, init, flags), run) && Orderly(Exec(Init(n, init, flags), run)) && ValidRun(Exec(Init(n, init, flags), run), after)
    ensures
      var e := Exec(Init(n, init, flags), run);
      var owner := ShardOf(sku, n);
      && |e.shards| == n && sku in e.shards[owner].worker.inventory && sku in e.shared.flags
      && (e.shared.flags[sku] <==> e.shards[owner].worker.inventory[sku] == 0)
      && sku in Exec(e, after).shared.flags && (e.shared.flags[sku] ==> Exec(e, after).shared.flags[sku])
  {
    hide ShardOf, RunAll, Process, Exec, ValidRun;
    InvInit(n, init, flags);
    RunKeepsInv(Init(n, init, flags), run, init, flags);
    RunRaisesOnly(Init(n, init, flags), run, sku);
    var e := Exec(Init(n, init, flags), run);
    RunRaisesOnly(e, after, sku);
    assert WorkerOk(e.shards[ShardOf(sku, n)], ShardOf(sku, n), n, init, flags);
    assert FlagExact(e.shards[ShardOf(sku, n)].worker, e.shared, sku);
  }

  /** In every reachable state a raised flag means that the owner has nothing left, and nothing
      that is turned away because of it could have been sold later. */
  lemma FastPathIsSafe(n: nat, init: map<int, int>, flags: map<int, bool>, run: seq<Act>,
                       between: seq<Request>, req: Request)
    requires 0 < n && InStock(init) && FlagsFresh(init, flags) && ValidRun(Init(n, init, flags), run)
    requires Orderly(Exec(Init(n, init, flags), run)) && NoBenchmarks(between) && AllGiveNothing(between)
    requires req.sku in init && ClientOk(req) && req.qty >= 1 && req.id != WARM_UP_ID
    ensures
      var e := Exec(Init(n, init, flags), run);
      && |e.shards| == n
      && (req.sku in e.shared.flags && e.shared.flags[req.sku] ==>
            var owner := e.shards[ShardOf(req.sku, n)].worker;
            var (w1, g1) := RunAll(owner, e.shared, between);
            var w2 := Process(w1, g1, req).0;
            if req.id in w1.seen then w2 == w1 else w2.results == w1.results + [Result(req, 2)])
  {
    hide ShardOf, RunAll, Process;
    InvInit(n, init, flags);
    RunKeepsInv(Init(n, init, flags), run, init, flags);
    var e := Exec(Init(n, init, flags), run);
    var owner := ShardOf(req.sku, n);
    assert WorkerOk(e.shards[owner], owner, n, init, flags);
    if req.sku in e.shared.flags && e.shared.flags[req.sku] {
      FastPathTurnsAwayNoSale(e.shards[owner].worker, e.shared, between, req);
    }
  }

  /** What a completed drain leaves: each worker is exactly where its processed messages lead,
      so the results of everything accepted before the barrier have been reported. */
  lemma DrainReportsResults(n: nat, init: map<int, int>, flags: map<int, bool>, run: seq<Act>, i: nat)
    requires 0 < n && InStock(init) && ValidRun(Init(n, init, flags), run) && i < n
    ensures
      var e := Exec(Init(n, init, flags), run);
      && |e.shards| == n
      && AllPlain(e.shards[i].processed)
      && e.shards[i].worker == RunAll(NewWorker(init), Shared(0, flags, 0), Wires(e.shards[i].processed)).0
      && (e.drainer.LoadCount? && e.shared.acks >= n && !e.stale ==> Drain.DrainedUpTo(e.shards[i], e.drains))
  {
    hide ShardOf, RunAll, Process;
    InvInit(n, init, flags);
    RunKeepsInv(Init(n, init, flags), run, init, flags);
    Drain.DrainIsSound(n, init, flags, run);
    assert WorkerOk(Exec(Init(n, init, flags), run).shards[i], i, n, init, flags);
  }
}
