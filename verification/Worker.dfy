/** One shard worker: inventory, sold-out flags, duplicate filter, log and results.

    The functions give the state machine on values; `WorkerProgram` is the program that
    updates fields in place and is proved equal to it. */
module Worker {
  import opened Sums
  import opened Dedup

  datatype Request = Request(sku: int, qty: int, guest: nat, id: nat)

  const WARM_UP_ID: nat := 0
  const BARRIER_ID: nat := 0xFFFF_FFFF_FFFF_FFFF
  const BENCHMARK_ABOVE: nat := 18_000_000_000_000_000_000

  /** Status 1: sold; 2: not enough stock; 0: unknown SKU. */
  datatype Result = Result(req: Request, status: int)

  datatype State = State(inventory: map<int, int>, seen: set<nat>, logged: seq<Request>, results: seq<Result>)

  /** What all workers share: the atomics behind pointers. */
  datatype Shared = Shared(sold: int, flags: map<int, bool>, acks: nat)

  /** Requests that only measure the queues skip the worker's logic; they are not modelled. */
  predicate IsBenchmark(req: Request) {
    BENCHMARK_ABOVE < req.id && req.id != BARRIER_ID
  }

  /** The request gives nothing back to the stock: what the sold-out flags rely on. The books do not,
      and nothing in the source checks a quantity. */
  predicate GivesNothing(req: Request) {
    req.qty >= 0 || req.id == WARM_UP_ID || req.id == BARRIER_ID
  }

  /** None of the requests only measures the queues. */
  predicate NoBenchmarks(reqs: seq<Request>) {
    forall i | 0 <= i < |reqs| :: !IsBenchmark(reqs[i])
  }

  // ---- The stages of Process ----

  function Deduct(w: State, req: Request): State
    requires req.sku in w.inventory
  {
    w.(inventory := w.inventory[req.sku := w.inventory[req.sku] - req.qty])
  }

  function Raise(g: Shared, sku: int): Shared {
    if sku in g.flags then g.(flags := g.flags[sku := true]) else g
  }

  function RaiseIfEmpty(w: State, g: Shared, sku: int): Shared
    requires sku in w.inventory
  {
    if w.inventory[sku] == 0 then Raise(g, sku) else g
  }

  function Log(w: State, req: Request): State {
    w.(logged := w.logged + [req])
  }

  function Notify(w: State, req: Request, status: int): State {
    w.(results := w.results + [Result(req, status)])
  }

  /** Process after the duplicate check has let the request through. */
  function Handle(w: State, g: Shared, req: Request): (State, Shared) {
    if req.sku !in w.inventory then
      (Notify(w, req, 0), g)
    else if w.inventory[req.sku] >= req.qty then
      var w1 := Deduct(w, req);
      var g1 := RaiseIfEmpty(w1, g.(sold := g.sold + req.qty), req.sku);
      (Notify(Log(w1, req), req, 1), g1)
    else
      (Notify(w, req, 2), RaiseIfEmpty(w, g, req.sku))
  }

  function Process(w: State, g: Shared, req: Request): (State, Shared)
    requires !IsBenchmark(req)
  {
    if req.id == WARM_UP_ID then (w, g)
    else if req.id == BARRIER_ID then (w, g.(acks := g.acks + 1))
    else if req.id in w.seen then (w, g)
    else Handle(w.(seen := Mark(w.seen, req.id)), g, req)
  }

  function RunAll(w: State, g: Shared, reqs: seq<Request>): (State, Shared)
    requires NoBenchmarks(reqs)
  {
    if reqs == [] then (w, g)
    else
      var (w1, g1) := RunAll(w, g, reqs[..|reqs| - 1]);
      Process(w1, g1, reqs[|reqs| - 1])
  }

  // ---- The books ----

  /** Units of `sku` that results with status 1 promise. */
  function SoldQty(results: seq<Result>, sku: int): int {
    if results == [] then 0
    else
      var last := results[|results| - 1];
      SoldQty(results[..|results| - 1], sku) + (if last.status == 1 && last.req.sku == sku then last.req.qty else 0)
  }

  function TotalSold(results: seq<Result>): int {
    if results == [] then 0
    else
      var last := results[|results| - 1];
      TotalSold(results[..|results| - 1]) + (if last.status == 1 then last.req.qty else 0)
  }

  /** The requests of the results with status 1, in order. */
  function Successes(results: seq<Result>): seq<Request> {
    if results == [] then []
    else
      var last := results[|results| - 1];
      Successes(results[..|results| - 1]) + (if last.status == 1 then [last.req] else [])
  }

  /** Folding recovered requests over an inventory. */
  function Replay(inventory: map<int, int>, log: seq<Request>): map<int, int> {
    if log == [] then inventory
    else
      var last := log[|log| - 1];
      var before := Replay(inventory, log[..|log| - 1]);
      if last.sku in before then before[last.sku := before[last.sku] - last.qty] else before
  }

  /** Between two calls of Process the log, the results and the inventory tell the same story. */
  ghost predicate Settled(init: map<int, int>, w: State) {
    Successes(w.results) == w.logged && Replay(init, w.logged) == w.inventory
  }

  /** No SKU is oversold and nothing is sold that was not taken from stock. */
  ghost predicate Balanced(init: map<int, int>, w: State) {
    && w.inventory.Keys == init.Keys
    && (forall sku | sku in init :: 0 <= w.inventory[sku] && w.inventory[sku] + SoldQty(w.results, sku) == init[sku])
    && TotalSold(w.results) == Sum(init) - Sum(w.inventory)
  }

  lemma NotifyAdds(w: State, req: Request, status: int, sku: int)
    ensures
      var rs := Notify(w, req, status).results;
      && SoldQty(rs, sku) == SoldQty(w.results, sku) + (if status == 1 && req.sku == sku then req.qty else 0)
      && TotalSold(rs) == TotalSold(w.results) + (if status == 1 then req.qty else 0)
      && Successes(rs) == Successes(w.results) + (if status == 1 then [req] else [])
  {
    assert Notify(w, req, status).results[..|w.results|] == w.results;
  }

  lemma LogReplays(init: map<int, int>, w: State, req: Request)
    requires Replay(init, w.logged) == w.inventory && req.sku in w.inventory
    ensures Replay(init, w.logged + [req]) == Deduct(w, req).inventory
  {
    assert (w.logged + [req])[..|w.logged|] == w.logged;
  }

  lemma SaleKeepsBooks(init: map<int, int>, w: State, g: Shared, req: Request)
    requires Settled(init, w) && Balanced(init, w) && req.sku in w.inventory && w.inventory[req.sku] >= req.qty
    ensures
      var (w', g') := Handle(w, g, req);
      && Settled(init, w') && Balanced(init, w')
      && g'.sold - g.sold == TotalSold(w'.results) - TotalSold(w.results)
  {
    var (w', g') := Handle(w, g, req);
    var w1 := Log(Deduct(w, req), req);
    LogReplays(init, w, req);
    SumUpdate(w.inventory, req.sku, w.inventory[req.sku] - req.qty);
    NotifyAdds(w1, req, 1, req.sku);
    forall sku
      ensures SoldQty(w'.results, sku) == SoldQty(w.results, sku) + (if req.sku == sku then req.qty else 0)
    {
      NotifyAdds(w1, req, 1, sku);
    }
    hide SoldQty, TotalSold, Successes, Replay, Sum, RaiseIfEmpty;
  }

  lemma RefusalKeepsBooks(init: map<int, int>, w: State, req: Request, status: int)
    requires Settled(init, w) && Balanced(init, w) && status != 1
    ensures
      var w' := Notify(w, req, status);
      Settled(init, w') && Balanced(init, w') && TotalSold(w'.results) == TotalSold(w.results)
  {
    var w' := Notify(w, req, status);
    forall sku ensures SoldQty(w'.results, sku) == SoldQty(w.results, sku) {
      NotifyAdds(w, req, status, sku);
    }
    NotifyAdds(w, req, status, req.sku);
  }

  lemma ProcessKeepsBooks(init: map<int, int>, w: State, g: Shared, req: Request)
    requires Settled(init, w) && Balanced(init, w) && !IsBenchmark(req)
    ensures
      var (w', g') := Process(w, g, req);
      && Settled(init, w') && Balanced(init, w')
      && g'.sold - g.sold == TotalSold(w'.results) - TotalSold(w.results)
  {
    if req.id != WARM_UP_ID && req.id != BARRIER_ID && req.id !in w.seen {
      var w0 := w.(seen := Mark(w.seen, req.id));
      assert Settled(init, w0) && Balanced(init, w0);
      hide Settled, Balanced, TotalSold;
      if req.sku !in w.inventory {
        RefusalKeepsBooks(init, w0, req, 0);
      } else if w.inventory[req.sku] >= req.qty {
        SaleKeepsBooks(init, w0, g, req);
      } else {
        RefusalKeepsBooks(init, w0, req, 2);
      }
    }
  }

  /** Main result for one worker: after any sequence of requests of any quantities, for every SKU stock plus
      units sold is the initial stock and stock is never negative, the shared counter moved by
      the total, and replaying the log over the initial stock gives the current stock. */
  lemma {:induction false} NoOverselling(init: map<int, int>, g: Shared, reqs: seq<Request>)
    requires NoBenchmarks(reqs) && forall sku | sku in init :: 0 <= init[sku]
    ensures
      var (w, g') := RunAll(State(init, {}, [], []), g, reqs);
      && Settled(init, w) && Balanced(init, w)
      && g'.sold - g.sold == TotalSold(w.results)
    decreases |reqs|
  {
    if reqs != [] {
      var front := reqs[..|reqs| - 1];
      NoOverselling(init, g, front);
      var (w1, g1) := RunAll(State(init, {}, [], []), g, front);
      ProcessKeepsBooks(init, w1, g1, reqs[|reqs| - 1]);
    }
  }

  /** The ids that are not requests: 0 only warms up, the largest 64-bit number acknowledges a drain,
      and between it and 18e18 lie the benchmark's. */
  lemma ControlIds(w: State, g: Shared, req: Request)
    ensures req.id == 0 ==> !IsBenchmark(req) && Process(w, g, req) == (w, g)
    ensures req.id == 18_446_744_073_709_551_615 ==>
              !IsBenchmark(req) && Process(w, g, req) == (w, g.(acks := g.acks + 1))
    ensures req.id < 18_446_744_073_709_551_615 ==> (IsBenchmark(req) <==> req.id > 18_000_000_000_000_000_000)
  {}

  /** What a request that is no duplicate is told, from the initial stock and the sales so far: 0 for
      an unknown SKU, 1 if what is left covers it, 2 otherwise; and only a sale is logged. A
      duplicate is told nothing. */
  lemma VerdictMeans(init: map<int, int>, w: State, g: Shared, req: Request)
    requires Balanced(init, w) && !IsBenchmark(req) && req.id != WARM_UP_ID && req.id != BARRIER_ID
    ensures
      var w' := Process(w, g, req).0;
      if req.id in w.seen then w' == w
      else
        var status := if req.sku !in init then 0
                      else if init[req.sku] - SoldQty(w.results, req.sku) >= req.qty then 1 else 2;
        && w'.results == w.results + [Result(req, status)]
        && w'.logged == w.logged + (if status == 1 then [req] else [])
        && w'.seen == Mark(w.seen, req.id)
  {
    if req.sku in init {
      assert w.inventory[req.sku] + SoldQty(w.results, req.sku) == init[req.sku];
    }
  }

  /** The shared atomics do not influence what the worker itself does. */
  lemma WorkerIgnoresShared(w: State, g: Shared, g2: Shared, req: Request)
    requires !IsBenchmark(req)
    ensures Process(w, g, req).0 == Process(w, g2, req).0
  {}

  // ---- Inside Process, step by step ----

  datatype Moment = Moment(w: State, g: Shared)

  /** The worker and the shared atomics after each effect of Process, in program order. */
  function Moments(w: State, g: Shared, req: Request): (ms: seq<Moment>)
    requires !IsBenchmark(req)
    ensures ms != []
  {
    if req.id == WARM_UP_ID then [Moment(w, g)]
    else if req.id == BARRIER_ID then [Moment(w, g), Moment(w, g.(acks := g.acks + 1))]
    else if req.id in w.seen then [Moment(w, g)]
    else
      var w0 := w.(seen := Mark(w.seen, req.id));
      if req.sku !in w.inventory then
        [Moment(w, g), Moment(w0, g), Moment(Notify(w0, req, 0), g)]
      else if w.inventory[req.sku] >= req.qty then
        var w1 := Deduct(w0, req);
        var g1 := g.(sold := g.sold + req.qty);
        var g2 := RaiseIfEmpty(w1, g1, req.sku);
        [Moment(w, g), Moment(w0, g), Moment(w1, g), Moment(w1, g1), Moment(w1, g2),
         Moment(Log(w1, req), g2), Moment(Notify(Log(w1, req), req, 1), g2)]
      else
        var g2 := RaiseIfEmpty(w0, g, req.sku);
        [Moment(w, g), Moment(w0, g), Moment(w0, g2), Moment(Notify(w0, req, 2), g2)]
  }

  /** At most one effect lies between two moments: a mark in the duplicate filter, a change of stock, of
      the sold counter, of a flag, of the log, of the results, or an acknowledgement. */
  predicate OneEffectApart(a: Moment, b: Moment) {
    var seen := if a.w.seen == b.w.seen then 0 else 1;
    var stock := if a.w.inventory == b.w.inventory then 0 else 1;
    var log := if a.w.logged == b.w.logged then 0 else 1;
    var results := if a.w.results == b.w.results then 0 else 1;
    var sold := if a.g.sold == b.g.sold then 0 else 1;
    var flags := if a.g.flags == b.g.flags then 0 else 1;
    var acks := if a.g.acks == b.g.acks then 0 else 1;
    seen + stock + log + results + sold + flags + acks <= 1
  }

  /** No moment is left out: the call begins with the first and goes effect by effect to the last. */
  lemma MomentsLeaveNothingOut(w: State, g: Shared, req: Request)
    requires !IsBenchmark(req)
    ensures var ms := Moments(w, g, req);
            && ms[0] == Moment(w, g)
            && forall k | 0 <= k < |ms| - 1 :: OneEffectApart(ms[k], ms[k + 1])
  {
    hide Mark;
  }

  /** The log runs ahead of the results and behind the deductions, each by at most the
      request at hand. */
  ghost predicate LoggedBeforeReported(init: map<int, int>, w: State, req: Request) {
    && (w.logged == Successes(w.results) || w.logged == Successes(w.results) + [req])
    && (w.inventory == Replay(init, w.logged) || w.inventory == Replay(init, w.logged + [req]))
  }

  /** At every moment of Process the log discipline holds, so that at whatever moment the
      process dies every reported sale is in the log; and the last moment is Process's result. */
  lemma LogBeforeResultAtEveryMoment(init: map<int, int>, w: State, g: Shared, req: Request)
    requires Settled(init, w) && !IsBenchmark(req)
    ensures
      var ms := Moments(w, g, req);
      && (forall m | m in ms :: LoggedBeforeReported(init, m.w, req))
      && (ms[|ms| - 1].w, ms[|ms| - 1].g) == Process(w, g, req)
  {
    if req.id != WARM_UP_ID && req.id != BARRIER_ID && req.id !in w.seen {
      var w0 := w.(seen := Mark(w.seen, req.id));
      if req.sku !in w.inventory {
        NotifyAdds(w0, req, 0, req.sku);
      } else if w.inventory[req.sku] >= req.qty {
        SaleMoments(init, w, g, req);
      } else {
        NotifyAdds(w0, req, 2, req.sku);
      }
    }
  }

  lemma SaleMoments(init: map<int, int>, w: State, g: Shared, req: Request)
    requires Settled(init, w) && !IsBenchmark(req)
    requires req.id != WARM_UP_ID && req.id != BARRIER_ID && req.id !in w.seen
    requires req.sku in w.inventory && w.inventory[req.sku] >= req.qty
    ensures forall m | m in Moments(w, g, req) :: LoggedBeforeReported(init, m.w, req)
  {
    var w0 := w.(seen := Mark(w.seen, req.id));
    var w1 := Deduct(w0, req);
    LogReplays(init, w0, req);
    NotifyAdds(Log(w1, req), req, 1, req.sku);
    assert LoggedBeforeReported(init, w, req) && LoggedBeforeReported(init, w0, req);
    assert LoggedBeforeReported(init, w1, req) && LoggedBeforeReported(init, Log(w1, req), req);
    assert LoggedBeforeReported(init, Notify(Log(w1, req), req, 1), req);
    forall m | m in Moments(w, g, req) ensures LoggedBeforeReported(init, m.w, req) {
      assert m.w in [w, w0, w1, Log(w1, req), Notify(Log(w1, req), req, 1)];
    }
  }

  /** The stock of some SKU is lower than the log accounts for. */
  ghost predicate StockBehindLog(init: map<int, int>, w: State) {
    exists sku | sku in w.inventory && sku in Replay(init, w.logged) :: w.inventory[sku] < Replay(init, w.logged)[sku]
  }

  /** The guard of the selling branch. */
  predicate Sold(w: State, req: Request) {
    && req.id != WARM_UP_ID && req.id != BARRIER_ID && req.id !in w.seen
    && req.sku in w.inventory && w.inventory[req.sku] >= req.qty
  }

  /** The documentation promises the log entry before the update of memory. The code deducts
      first: exactly when it sells at least one unit is there a moment when the stock is lower
      than the log accounts for. */
  lemma DeductionPrecedesLog(init: map<int, int>, w: State, g: Shared, req: Request)
    requires Settled(init, w) && !IsBenchmark(req)
    ensures (exists m | m in Moments(w, g, req) :: StockBehindLog(init, m.w)) <==> Sold(w, req) && req.qty >= 1
  {
    var ms := Moments(w, g, req);
    if !Sold(w, req) {
      forall m | m in ms ensures !StockBehindLog(init, m.w) {
        assert m.w.inventory == w.inventory && m.w.logged == w.logged;
      }
    } else if req.qty >= 1 {
      var w1 := ms[2].w;
      assert ms[2] in ms && w1.inventory[req.sku] < Replay(init, w1.logged)[req.sku];
    } else {
      ReturnNeverBehind(init, w, g, req);
    }
  }

  /** A "sale" of no unit, or that returns some, never puts the stock behind the log. */
  lemma ReturnNeverBehind(init: map<int, int>, w: State, g: Shared, req: Request)
    requires Settled(init, w) && !IsBenchmark(req) && Sold(w, req) && req.qty < 1
    ensures forall m | m in Moments(w, g, req) :: !StockBehindLog(init, m.w)
  {
    LogReplays(init, w, req);
    var inventory := Deduct(w, req).inventory;
    forall m | m in Moments(w, g, req) ensures !StockBehindLog(init, m.w) {
      assert (m.w.logged == w.logged && (m.w.inventory == w.inventory || m.w.inventory == inventory))
             || (m.w.logged == w.logged + [req] && m.w.inventory == inventory);
      hide Moments, Replay;
    }
  }

  // ---- The sold-out flag ----

  predicate AllGiveNothing(reqs: seq<Request>) {
    forall i | 0 <= i < |reqs| :: GivesNothing(reqs[i])
  }

  predicate FlagExact(w: State, g: Shared, sku: int) {
    sku in g.flags && sku in w.inventory ==> (g.flags[sku] <==> w.inventory[sku] == 0)
  }

  /** For requests that give nothing back the flag stays exact: an oversized request on
      positive stock does not set it. */
  lemma FlagStaysExact(w: State, g: Shared, req: Request, sku: int)
    requires FlagExact(w, g, sku) && !IsBenchmark(req) && GivesNothing(req)
    ensures FlagExact(Process(w, g, req).0, Process(w, g, req).1, sku)
  {}

  /** Exactly which accepted requests break it: a negative quantity on empty stock. */
  lemma FlagExactUnless(w: State, g: Shared, req: Request)
    requires !IsBenchmark(req) && req.id != WARM_UP_ID && req.id != BARRIER_ID && req.id !in w.seen
    requires req.sku in g.flags && req.sku in w.inventory && FlagExact(w, g, req.sku)
    ensures FlagExact(Process(w, g, req).0, Process(w, g, req).1, req.sku)
            <==> !(w.inventory[req.sku] == 0 && req.qty < 0)
  {}

  /** A flag never goes away, and a raised one is never lowered, whatever the request. */
  lemma FlagNeverLowered(w: State, g: Shared, req: Request, sku: int)
    requires !IsBenchmark(req) && sku in g.flags
    ensures sku in Process(w, g, req).1.flags
    ensures g.flags[sku] ==> Process(w, g, req).1.flags[sku]
  {}

  lemma {:induction false} EmptyStaysEmpty(w: State, g: Shared, reqs: seq<Request>, sku: int)
    requires NoBenchmarks(reqs) && AllGiveNothing(reqs) && sku in w.inventory && w.inventory[sku] == 0
    ensures sku in RunAll(w, g, reqs).0.inventory && RunAll(w, g, reqs).0.inventory[sku] == 0
    decreases |reqs|
  {
    if reqs != [] {
      EmptyStaysEmpty(w, g, reqs[..|reqs| - 1], sku);
    }
  }

  /** What the fast path turns away because the flag is up would not have been sold: however
      many requests are processed in between, it would be a duplicate or get status 2. */
  lemma FastPathTurnsAwayNoSale(w: State, g: Shared, between: seq<Request>, req: Request)
    requires FlagExact(w, g, req.sku) && req.sku in w.inventory && req.sku in g.flags && g.flags[req.sku]
    requires NoBenchmarks(between) && AllGiveNothing(between)
    requires !IsBenchmark(req) && req.qty >= 1 && req.id != WARM_UP_ID && req.id != BARRIER_ID
    ensures
      var (w1, g1) := RunAll(w, g, between);
      var w2 := Process(w1, g1, req).0;
      if req.id in w1.seen then w2 == w1 else w2.results == w1.results + [Result(req, 2)]
  {
    EmptyStaysEmpty(w, g, between, req.sku);
  }

  // ---- One result per accepted request ----

  /** The ids that reach the duplicate filter. */
  function FilteredIds(reqs: seq<Request>): seq<nat> {
    if reqs == [] then []
    else
      var id := reqs[|reqs| - 1].id;
      FilteredIds(reqs[..|reqs| - 1]) + (if id == WARM_UP_ID || id == BARRIER_ID then [] else [id])
  }

  function ResultIds(results: seq<Result>): (ids: seq<nat>)
    ensures |ids| == |results|
  {
    seq(|results|, i requires 0 <= i < |results| => results[i].req.id)
  }

  lemma ProcessFollowsFilter(w: State, g: Shared, req: Request, f: Filter)
    requires !IsBenchmark(req) && req.id != WARM_UP_ID && req.id != BARRIER_ID
    requires w.seen == f.seen && ResultIds(w.results) == f.accepted
    ensures
      var w' := Process(w, g, req).0;
      w'.seen == Offer(f, req.id).seen && ResultIds(w'.results) == Offer(f, req.id).accepted
  {
    if req.id !in w.seen {
      assert |Process(w, g, req).0.results| == |w.results| + 1;
    }
  }

  /** The worker reports exactly one result for each request the filter lets through, in
      order; so the bound on repeated acceptance is a bound on repeated results. */
  lemma {:induction false} OneResultPerAcceptedRequest(init: map<int, int>, g: Shared, reqs: seq<Request>)
    requires NoBenchmarks(reqs)
    ensures
      var w := RunAll(State(init, {}, [], []), g, reqs).0;
      var f := OfferAll(FilteredIds(reqs));
      w.seen == f.seen && ResultIds(w.results) == f.accepted
    decreases |reqs|
  {
    if reqs != [] {
      var front, req := reqs[..|reqs| - 1], reqs[|reqs| - 1];
      OneResultPerAcceptedRequest(init, g, front);
      var (w1, g1) := RunAll(State(init, {}, [], []), g, front);
      if req.id != WARM_UP_ID && req.id != BARRIER_ID {
        assert FilteredIds(reqs)[..|FilteredIds(front)|] == FilteredIds(front);
        ProcessFollowsFilter(w1, g1, req, OfferAll(FilteredIds(front)));
      } else {
        assert FilteredIds(reqs) == FilteredIds(front);
      }
    }
  }
}
