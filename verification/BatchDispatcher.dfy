/** The single dispatcher in front of one queue per worker: it watches ids, routes each request
    to its worker and sends a barrier to all of them. */
module BatchDispatcher {
  import opened SequenceMonitor
  import Pipeline

  datatype Request = Request(sku: int, guest: nat, id: nat)

  const BARRIER_ID: nat := 0xFFFF_FFFF_FFFF_FFFF

  predicate IsBarrier(r: Request) { r.id == BARRIER_ID }

  /** Whether worker `w` of `n` gets the request. */
  predicate GoesTo(r: Request, w: nat, n: nat)
    requires 0 < n
  {
    IsBarrier(r) || Pipeline.ShardOf(r.sku, n) == w
  }

  function Route(rs: seq<Request>, w: nat, n: nat): seq<Request>
    requires 0 < n
  {
    if rs == [] then []
    else
      var r := rs[|rs| - 1];
      Route(rs[..|rs| - 1], w, n) + (if GoesTo(r, w, n) then [r] else [])
  }

  function Ids(rs: seq<Request>): seq<nat> {
    if rs == [] then []
    else
      var r := rs[|rs| - 1];
      Ids(rs[..|rs| - 1]) + (if IsBarrier(r) then [] else [r.id])
  }

  function LastTarget(rs: seq<Request>, target: nat): nat {
    if rs == [] then target
    else
      var r := rs[|rs| - 1];
      if IsBarrier(r) then r.guest else LastTarget(rs[..|rs| - 1], target)
  }

  lemma {:induction false} RouteAppend(a: seq<Request>, b: seq<Request>, w: nat, n: nat)
    requires 0 < n
    ensures Route(a + b, w, n) == Route(a, w, n) + Route(b, w, n)
    decreases |b|
  {
    if b == [] {
      assert a + b == a;
    } else {
      assert (a + b)[..|a + b| - 1] == a + b[..|b| - 1];
      RouteAppend(a, b[..|b| - 1], w, n);
    }
  }

  /** Every worker gets a barrier after all of its requests from before it and before all of its
      requests from after it, whichever worker they belong to. */
  lemma BarrierSplitsEveryQueue(before: seq<Request>, barrier: Request, after: seq<Request>, w: nat, n: nat)
    requires w < n && IsBarrier(barrier)
    ensures Route(before + [barrier] + after, w, n) == Route(before, w, n) + [barrier] + Route(after, w, n)
  {
    RouteAppend(before + [barrier], after, w, n);
    RouteAppend(before, [barrier], w, n);
    assert [barrier][..0] == [];
    assert Route([barrier], w, n) == [barrier];
  }

  /** A worker is given every barrier and every request for a SKU whose remainder is its number, and
      nothing else. */
  lemma {:induction false} RoutedByRemainder(rs: seq<Request>, w: nat, n: nat, r: Request)
    requires w < n
    ensures r in Route(rs, w, n) <==> r in rs && (r.id == 0xFFFF_FFFF_FFFF_FFFF || Pipeline.ShardOf(r.sku, n) == w)
    decreases |rs|
  {
    if rs != [] {
      RoutedByRemainder(rs[..|rs| - 1], w, n, r);
      assert rs == rs[..|rs| - 1] + [rs[|rs| - 1]];
    }
  }

  /** The target is the sequence of the last barrier; without one it stays. */
  lemma {:induction false} TargetIsLastBarrier(rs: seq<Request>, target: nat, i: nat)
    requires i < |rs| && rs[i].id == 0xFFFF_FFFF_FFFF_FFFF
    requires forall j | i < j < |rs| :: rs[j].id != 0xFFFF_FFFF_FFFF_FFFF
    ensures LastTarget(rs, target) == rs[i].guest
    decreases |rs|
  {
    if i < |rs| - 1 { TargetIsLastBarrier(rs[..|rs| - 1], target, i); }
  }

  lemma {:induction false} NoBarrierNoTarget(rs: seq<Request>, target: nat)
    requires forall j | 0 <= j < |rs| :: rs[j].id != 0xFFFF_FFFF_FFFF_FFFF
    ensures LastTarget(rs, target) == target
    ensures |Ids(rs)| == |rs| && forall j | 0 <= j < |rs| :: Ids(rs)[j] == rs[j].id
    decreases |rs|
  {
    if rs != [] { NoBarrierNoTarget(rs[..|rs| - 1], target); }
  }

  /** A barrier in between is not among the ids the monitor sees. */
  lemma {:induction false} IdsAppend(a: seq<Request>, b: seq<Request>)
    ensures Ids(a + b) == Ids(a) + Ids(b)
    ensures |b| == 1 ==> Ids(b) == if b[0].id == 0xFFFF_FFFF_FFFF_FFFF then [] else [b[0].id]
    decreases |b|
  {
    if b == [] {
      assert a + b == a;
    } else {
      assert (a + b)[..|a + b| - 1] == a + b[..|b| - 1];
      IdsAppend(a, b[..|b| - 1]);
    }
  }

  function TotalRouted(rs: seq<Request>, w: nat, n: nat): nat
    requires 0 < n
  {
    if w == 0 then 0 else TotalRouted(rs, w - 1, n) + |Route(rs, w - 1, n)|
  }

  lemma {:induction false} TotalRoutedStep(rs: seq<Request>, w: nat, n: nat)
    requires 0 < n && rs != [] && w <= n
    ensures
      var r := rs[|rs| - 1];
      TotalRouted(rs, w, n) == TotalRouted(rs[..|rs| - 1], w, n)
        + (if IsBarrier(r) then w else if Pipeline.ShardOf(r.sku, n) < w then 1 else 0)
    decreases w
  {
    if w > 0 { TotalRoutedStep(rs, w - 1, n); }
  }

  function Barriers(rs: seq<Request>): nat {
    if rs == [] then 0 else Barriers(rs[..|rs| - 1]) + (if IsBarrier(rs[|rs| - 1]) then 1 else 0)
  }

  /** Conservation: an ordinary request goes to one worker and a barrier to all `n`. */
  lemma {:induction false} RoutedOnce(rs: seq<Request>, n: nat)
    requires 0 < n
    ensures TotalRouted(rs, n, n) == |Ids(rs)| + n * Barriers(rs)
    ensures |rs| == |Ids(rs)| + Barriers(rs)
    decreases |rs|
  {
    hide TotalRouted;
    if rs == [] {
      NothingRouted(n, n);
    } else {
      var b := Barriers(rs[..|rs| - 1]);
      RoutedOnce(rs[..|rs| - 1], n);
      TotalRoutedStep(rs, n, n);
      assert n * (b + 1) == n * b + n;
    }
  }

  lemma {:induction false} NothingRouted(w: nat, n: nat)
    requires 0 < n
    ensures TotalRouted([], w, n) == 0
  {
    if w > 0 { NothingRouted(w - 1, n); }
  }

  class Dispatcher {
    const workerCount: nat
    var queues: seq<seq<Request>>
    var checking: bool
    var expectedSeq: nat
    var gapCount: nat
    var dupCount: nat
    var lastSeqSeen: nat
    var targetBarrierSeq: nat

    constructor (n: nat)
      requires 0 < n
      ensures workerCount == n && Valid() && !checking && Counts() == FRESH && targetBarrierSeq == 0
      ensures forall w | 0 <= w < n :: queues[w] == []
    {
      workerCount := n;
      queues := seq(n, _ => []);
      checking := false;
      expectedSeq, gapCount, dupCount, lastSeqSeen := 1, 0, 0, 0;
      targetBarrierSeq := 0;
    }

    predicate Valid()
      reads this
    {
      0 < workerCount == |queues|
    }

    function Counts(): Counters
      reads this
    {
      Counters(expectedSeq, gapCount, dupCount, lastSeqSeen)
    }

    /** Turning the check on starts the counters afresh; turning it off leaves them readable. */
    method EnableCorrectnessCheck(enabled: bool)
      requires Valid()
      modifies this
      ensures Valid() && checking == enabled
      ensures Counts() == if enabled then FRESH else old(Counts())
      ensures queues == old(queues) && targetBarrierSeq == old(targetBarrierSeq)
    {
      checking := enabled;
      if enabled {
        expectedSeq, gapCount, dupCount, lastSeqSeen := 1, 0, 0, 0;
      }
    }

    method Watch(id: nat)
      modifies this`expectedSeq, this`gapCount, this`dupCount, this`lastSeqSeen
      ensures Counts() == Observe(old(Counts()), id)
    {
      if id == expectedSeq {
        expectedSeq := expectedSeq + 1;
      } else if id < expectedSeq {
        dupCount := dupCount + 1;
      } else {
        gapCount := gapCount + (id - expectedSeq);
        expectedSeq := id + 1;
      }
      lastSeqSeen := id;
    }

    method Broadcast(r: Request)
      requires Valid()
      modifies this`queues
      ensures Valid()
      ensures forall w | 0 <= w < workerCount :: queues[w] == old(queues[w]) + [r]
    {
      for w := 0 to workerCount
        invariant Valid()
        invariant forall v | 0 <= v < workerCount ::
                    queues[v] == if v < w then old(queues[v]) + [r] else old(queues[v])
      {
        queues := queues[w := queues[w] + [r]];
      }
    }

    method DispatchOne(req: Request)
      requires Valid()
      modifies this
      ensures Valid() && checking == old(checking)
      ensures forall w | 0 <= w < workerCount ::
                queues[w] == old(queues[w]) + (if GoesTo(req, w, workerCount) then [req] else [])
      ensures Counts() == if checking && !IsBarrier(req) then Observe(old(Counts()), req.id) else old(Counts())
      ensures targetBarrierSeq == if IsBarrier(req) then req.guest else old(targetBarrierSeq)
    {
      if req.id == BARRIER_ID {
        targetBarrierSeq := req.guest;
        Broadcast(req);
      } else {
        if checking {
          Watch(req.id);
        }
        var w := Pipeline.ShardOf(req.sku, workerCount);
        queues := queues[w := queues[w] + [req]];
      }
    }

    /** One batch: each worker's queue grows by its part of the batch in order, the monitor has
        seen the ordinary ids in order, and the target is the last barrier's sequence. */
    method DispatchBatch(batch: seq<Request>)
      requires Valid()
      modifies this
      ensures Valid() && checking == old(checking)
      ensures forall w | 0 <= w < workerCount ::
                queues[w] == old(queues[w]) + Route(batch, w, workerCount)
      ensures Counts() == if checking then ObserveAll(old(Counts()), Ids(batch)) else old(Counts())
      ensures targetBarrierSeq == LastTarget(batch, old(targetBarrierSeq))
    {
      for i := 0 to |batch|
        invariant Valid() && checking == old(checking)
        invariant forall w | 0 <= w < workerCount ::
                    queues[w] == old(queues[w]) + Route(batch[..i], w, workerCount)
        invariant Counts() == if checking then ObserveAll(old(Counts()), Ids(batch[..i])) else old(Counts())
        invariant targetBarrierSeq == LastTarget(batch[..i], old(targetBarrierSeq))
      {
        var req := batch[i];
        assert batch[..i + 1][..i] == batch[..i] && batch[..i + 1][i] == req;
        ghost var ids, c := Ids(batch[..i]), old(Counts());
        assert ObserveAll(c, ids + [req.id]) == Observe(ObserveAll(c, ids), req.id) by {
          assert (ids + [req.id])[..|ids|] == ids;
        }
        assert Ids(batch[..i + 1]) == if IsBarrier(req) then ids else ids + [req.id];
        hide GoesTo, IsBarrier, ObserveAll, Observe;
        DispatchOne(req);
      }
      assert batch[..|batch|] == batch;
    }
  }
}
