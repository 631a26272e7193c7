/** The engine's entry points as one client runs them, over the real queues: one request,
    a batch, and the dispatcher's hand-over of one request. */
module Bridge {
  import opened RingIndex
  import opened Mpmc
  import opened Spsc
  import opened SpscRing
  import opened Worker
  import Pipeline

  const QUEUED: int := 1
  const SOLD_OUT: int := 2
  const REFUSED: int := 0

  /** The requests among `reqs` that belong to shard `i`, in order. */
  function Mine(reqs: seq<Request>, i: nat, n: nat): seq<Request>
    requires 0 < n
  {
    if reqs == [] then []
    else
      var last := reqs[|reqs| - 1];
      Mine(reqs[..|reqs| - 1], i, n) + (if Pipeline.ShardOf(last.sku, n) == i then [last] else [])
  }

  /** As much of the front of `more` as fits behind `queued`. */
  function Fitting(queued: nat, more: seq<Request>, capacity: nat): seq<Request>
    requires queued <= capacity
  {
    more[..if |more| < capacity - queued then |more| else capacity - queued]
  }

  /** Offering one more item to a queue that has taken what fits. */
  lemma FittingOneMore(queued: nat, more: seq<Request>, req: Request, capacity: nat)
    requires queued <= capacity
    ensures Fitting(queued, more + [req], capacity)
            == Fitting(queued, more, capacity)
               + (if queued + |Fitting(queued, more, capacity)| < capacity then [req] else [])
  {
    if |more| < capacity - queued {
      assert (more + [req])[..|more| + 1] == more + [req];
    }
  }

  /** The queues after a request has been offered to the queue of its shard. */
  function AfterOffer(lists: seq<seq<Request>>, capacities: seq<nat>, req: Request): (after: seq<seq<Request>>)
    requires 0 < |lists| == |capacities|
    ensures |after| == |lists|
  {
    var i := Pipeline.ShardOf(req.sku, |lists|);
    if |lists[i]| < capacities[i] then lists[i := lists[i] + [req]] else lists
  }

  /** The queues after every request of a batch has been offered to its own. */
  function AfterBatch(lists: seq<seq<Request>>, capacities: seq<nat>, reqs: seq<Request>): (after: seq<seq<Request>>)
    requires 0 < |lists| == |capacities|
    ensures |after| == |lists|
  {
    if reqs == [] then lists
    else AfterOffer(AfterBatch(lists, capacities, reqs[..|reqs| - 1]), capacities, reqs[|reqs| - 1])
  }

  lemma AfterOneMore(lists: seq<seq<Request>>, capacities: seq<nat>, reqs: seq<Request>, k: nat)
    requires 0 < |lists| == |capacities| && k < |reqs|
    ensures AfterBatch(lists, capacities, reqs[..k + 1]) == AfterOffer(AfterBatch(lists, capacities, reqs[..k]), capacities, reqs[k])
  {
    assert reqs[..k + 1][..k] == reqs[..k];
  }

  /** A batch goes on after a full queue, so each shard takes, in order, the longest front part
      of its own requests that fits. */
  lemma {:induction false} BatchTakesFittingFront(lists: seq<seq<Request>>, capacities: seq<nat>, reqs: seq<Request>, i: nat)
    requires i < |lists| == |capacities| && |lists[i]| <= capacities[i]
    ensures AfterBatch(lists, capacities, reqs)[i]
            == lists[i] + Fitting(|lists[i]|, Mine(reqs, i, |lists|), capacities[i])
    decreases |reqs|
  {
    if reqs != [] {
      var front, req := reqs[..|reqs| - 1], reqs[|reqs| - 1];
      BatchTakesFittingFront(lists, capacities, front, i);
      FittingOneMore(|lists[i]|, Mine(front, i, |lists|), req, capacities[i]);
    }
  }

  function Total(lists: seq<seq<Request>>): nat {
    if lists == [] then 0 else Total(lists[..|lists| - 1]) + |lists[|lists| - 1]|
  }

  lemma {:induction false} TotalUpdate(lists: seq<seq<Request>>, i: nat, list: seq<Request>)
    requires i < |lists|
    ensures Total(lists[i := list]) == Total(lists) - |lists[i]| + |list|
    decreases |lists|
  {
    var front := lists[..|lists| - 1];
    if i < |front| {
      TotalUpdate(front, i, list);
      assert lists[i := list][..|lists| - 1] == front[i := list];
    } else {
      assert lists[i := list][..|lists| - 1] == front;
    }
  }

  class Engine {
    const queues: seq<MpmcQueue<Request>>
    var running: bool
    var soldOut: map<int, bool>
    var enqueued: nat
    /** What each queue holds, and how much it can hold. */
    ghost var lists: seq<seq<Request>>
    ghost const capacities: seq<nat>

    ghost predicate Disjoint()
    {
      forall i, j | 0 <= i < j < |queues| ::
        queues[i] != queues[j] && queues[i].sequence != queues[j].sequence && queues[i].data != queues[j].data
    }

    ghost function SequenceArrays(): set<array<nat>> {
      set i | 0 <= i < |queues| :: queues[i].sequence
    }

    ghost function DataArrays(): set<array<Request>> {
      set i | 0 <= i < |queues| :: queues[i].data
    }

    ghost predicate Valid()
      reads this`lists, queues, SequenceArrays(), DataArrays()
    {
      && 0 < |queues| == |lists| == |capacities| && Disjoint()
      && forall i | 0 <= i < |queues| ::
           queues[i].Valid() && queues[i].Contents == lists[i] && queues[i].Capacity() == capacities[i]
    }

    constructor (queues: seq<MpmcQueue<Request>>, flags: set<int>)
      requires 0 < |queues| && forall i | 0 <= i < |queues| :: queues[i].Valid() && queues[i].Contents == []
      requires forall i, j | 0 <= i < j < |queues| ::
                 queues[i] != queues[j] && queues[i].sequence != queues[j].sequence && queues[i].data != queues[j].data
      ensures Valid() && this.queues == queues && running && enqueued == 0
      ensures soldOut == map sku | sku in flags :: false
      ensures forall i | 0 <= i < |queues| :: lists[i] == [] && capacities[i] == queues[i].Capacity()
    {
      this.queues := queues;
      running, enqueued := true, 0;
      soldOut := map sku | sku in flags :: false;
      lists := seq(|queues|, _ => []);
      capacities := seq(|queues|, i requires 0 <= i < |queues| => queues[i].Capacity());
    }

    /** Offers a request to the queue of its shard and counts it if taken; the other queues are
        as they were. */
    method Offer(req: Request, spurious: nat) returns (ok: bool)
      requires Valid()
      modifies this`enqueued, this`lists, queues, SequenceArrays(), DataArrays()
      ensures Valid()
      ensures lists == AfterOffer(old(lists), capacities, req)
      ensures Total(lists) == Total(old(lists)) + (if ok then 1 else 0)
      ensures enqueued == old(enqueued) + (if ok then 1 else 0)
      ensures var i := Pipeline.ShardOf(req.sku, |queues|);
              ok <==> |old(lists)[i]| < capacities[i]
    {
      hide Pipeline.ShardOf, Total, Layout, AcceptedCapacity, MpmcQueue.Valid;
      var i := Pipeline.ShardOf(req.sku, |queues|);
      ok := queues[i].TryEnqueue(req, spurious);
      if ok {
        TotalUpdate(lists, i, lists[i] + [req]);
        lists := lists[i := lists[i] + [req]];
        enqueued := enqueued + 1;
      }
    }

    /** A raised flag turns the request away before any queue is looked at; otherwise the queue
        of its SKU's shard decides, and only that queue changes. */
    method EnqueueRequest(req: Request, spurious: nat) returns (code: int)
      requires Valid()
      modifies this`enqueued, this`lists, queues, SequenceArrays(), DataArrays()
      ensures Valid()
      ensures var i := Pipeline.ShardOf(req.sku, |queues|);
              code == (if !running then 0
                       else if req.sku in soldOut && soldOut[req.sku] then 2
                       else if |old(lists)[i]| < capacities[i] then 1
                       else 0)
      ensures lists == if running && !(req.sku in soldOut && soldOut[req.sku])
                         then AfterOffer(old(lists), capacities, req) else old(lists)
      ensures enqueued == old(enqueued) + (if code == QUEUED then 1 else 0)
    {
      hide Pipeline.ShardOf, Total, Valid, AfterOffer;
      if !running {
        return REFUSED;
      }
      if req.sku in soldOut && soldOut[req.sku] {
        return SOLD_OUT;
      }
      var ok := Offer(req, spurious);
      return if ok then QUEUED else REFUSED;
    }

    /** A batch skips the flags; the result is how many requests were taken. */
    method EnqueueBatch(reqs: seq<Request>) returns (count: nat)
      requires Valid()
      modifies this`enqueued, this`lists, queues, SequenceArrays(), DataArrays()
      ensures Valid()
      ensures lists == if running then AfterBatch(old(lists), capacities, reqs) else old(lists)
      ensures count == Total(lists) - Total(old(lists))
      ensures enqueued == old(enqueued) + count
    {
      assert 0 < |lists| == |capacities|;
      assert reqs[..0] == [] && reqs[..|reqs|] == reqs;
      assert AfterBatch(lists, capacities, []) == lists;
      hide Pipeline.ShardOf, Total, Valid, AfterOffer, AfterBatch;
      count := 0;
      if !running {
        return;
      }
      ghost var before := lists;
      for k := 0 to |reqs|
        invariant Valid() && |lists| == |before|
        invariant lists == AfterBatch(before, capacities, reqs[..k])
        invariant Total(lists) == Total(before) + count
        invariant enqueued == old(enqueued) + count
      {
        AfterOneMore(before, capacities, reqs, k);
        var ok := Offer(reqs[k], 0);
        count := if ok then count + 1 else count;
      }
    }
  }

  /** One turn of a dispatcher: it dequeues a request and spins until its worker's ring takes it;
      `patience` is how often it looks again. What the ring holds, followed by the request
      still in hand and by what the queue holds, stays the same sequence; a request stays in
      hand only for a full ring. */
  method DispatchOne(queue: MpmcQueue<Request>, ring: SpscQueue<Request>, spurious: nat, patience: nat)
    returns (hand: seq<Request>)
    requires queue.Valid() && ring.Valid() && ring.buffer != queue.data
    modifies queue, queue.sequence, ring`tail, ring.buffer
    ensures queue.Valid() && ring.Valid()
    ensures ring.Contents() + hand + queue.Contents == old(ring.Contents() + queue.Contents)
    ensures hand != [] <==> old(queue.Contents) != [] && |old(ring.Contents())| == ring.Capacity()
    ensures |queue.Contents| == if old(queue.Contents) == [] then 0 else |old(queue.Contents)| - 1
  {
    ghost var held, queued := ring.Contents(), queue.Contents;
    var moved, req := queue.TryDequeue(spurious);
    if !moved {
      assert held + [] + queued == held + queued;
      return [];
    }
    var sent := ring.TryEnqueue(req, ring.head);
    var looks := 0;
    while !sent && looks < patience
      invariant ring.Valid() && queue.Valid() && queue.Contents == queued[1..]
      invariant sent <==> |held| < ring.Capacity()
      invariant ring.Contents() == if sent then held + [req] else held
      decreases patience - looks
    {
      sent := ring.TryEnqueue(req, ring.head);
      looks := looks + 1;
    }
    hand := if sent then [] else [req];
    assert held + [req] + queued[1..] == held + queued;
    assert held + [req] + [] + queued[1..] == held + [req] + queued[1..];
  }
}
