/** The bounded queue as one thread runs it with no other thread inside an operation:
    the retry loops over the real arrays, the index mask and a compare-and-swap
    that may fail for no reason. */
module Mpmc {
  import opened RingIndex

  datatype Created<T> = Created(queue: T) | InvalidCapacity

  /** How `contents` lie in the cells between the two positions. */
  ghost predicate Layout<T>(sequence: seq<nat>, data: seq<T>, deq: nat, enq: nat, contents: seq<T>) {
    && 2 <= |sequence| == |data| && deq <= enq <= deq + |data| && |contents| == enq - deq
    && (forall t: nat {:trigger Slot(t, |data|)} | deq <= t < enq ::
          sequence[Slot(t, |data|)] == t + 1 && data[Slot(t, |data|)] == contents[t - deq])
    && (forall t: nat {:trigger Slot(t, |data|)} | enq <= t < deq + |data| ::
          sequence[Slot(t, |data|)] == t)
  }

  /** The sequences found at the two ends. */
  lemma SequenceAtEnds<T>(sequence: seq<nat>, data: seq<T>, deq: nat, enq: nat, contents: seq<T>)
    requires Layout(sequence, data, deq, enq, contents)
    ensures sequence[Slot(enq, |data|)] == if |contents| < |data| then enq else deq + 1
    ensures sequence[Slot(deq, |data|)] == if |contents| > 0 then deq + 1 else deq
  {}

  lemma OtherSlots(deq: nat, t: nat, n: nat)
    requires 0 < n && deq <= t < deq + n
    ensures forall u: nat {:trigger Slot(u, n)} | u != t && deq <= u < deq + n :: Slot(u, n) != Slot(t, n)
  {
    forall u: nat | u != t && deq <= u < deq + n ensures Slot(u, n) != Slot(t, n) {
      if Slot(u, n) == Slot(t, n) {
        if u < t { SameSlotSameTicket(u, t, n); } else { SameSlotSameTicket(t, u, n); }
      }
    }
  }

  lemma LayoutEnqueue<T>(sequence: seq<nat>, data: seq<T>, deq: nat, enq: nat, contents: seq<T>, v: T)
    requires Layout(sequence, data, deq, enq, contents) && |contents| < |data|
    ensures Layout(sequence[Slot(enq, |data|) := enq + 1], data[Slot(enq, |data|) := v], deq, enq + 1, contents + [v])
  {
    OtherSlots(deq, enq, |data|);
  }

  lemma LayoutDequeue<T>(sequence: seq<nat>, data: seq<T>, deq: nat, enq: nat, contents: seq<T>)
    requires Layout(sequence, data, deq, enq, contents) && contents != []
    ensures data[Slot(deq, |data|)] == contents[0]
    ensures Layout(sequence[Slot(deq, |data|) := deq + |data|], data, deq + 1, enq, contents[1..])
  {
    OtherSlots(deq, deq, |data|);
  }

  class MpmcQueue<T(0)> {
    const sequence: array<nat>
    const data: array<T>
    const mask: nat
    var enqueuePos: nat
    var dequeuePos: nat
    /** The enqueued and not yet dequeued items, oldest first. */
    ghost var Contents: seq<T>

    ghost function Capacity(): nat {
      mask + 1
    }

    ghost predicate Valid()
      reads this, sequence, data
    {
      && AcceptedCapacity(Capacity())
      && sequence.Length == data.Length == Capacity()
      && (sequence as object) != data
      && dequeuePos <= enqueuePos <= dequeuePos + Capacity()
      && Layout(sequence[..], data[..], dequeuePos, enqueuePos, Contents)
    }

    /** The constructor's body, after the capacity check. */
    constructor (capacity: nat)
      requires AcceptedCapacity(capacity)
      ensures Valid() && fresh(sequence) && fresh(data)
      ensures Capacity() == capacity && Contents == []
    {
      sequence := new nat[capacity](i => i);
      data := new T[capacity];
      mask := capacity - 1;
      enqueuePos, dequeuePos, Contents := 0, 0, [];
    }

    /** Construction fails exactly for capacities that are not powers of two of at least two. */
    static method Create(capacity: nat) returns (r: Created<MpmcQueue<T>>)
      ensures r.Created? <==> capacity >= 2 && IsPow2(capacity)
      ensures r.Created? ==> fresh(r.queue) && fresh(r.queue.sequence) && fresh(r.queue.data)
                             && r.queue.Valid() && r.queue.Capacity() == capacity && r.queue.Contents == []
    {
      CapacityCheckIsPowerOfTwo(capacity);
      if capacity < 2 || BitAnd(capacity, capacity - 1) != 0 {
        return InvalidCapacity;
      }
      var q := new MpmcQueue<T>(capacity);
      return Created(q);
    }

    /** The retry loop of `try_enqueue`: claims the next position unless the queue is full.
        `spurious` is how often the weak compare-and-swap fails before it succeeds. */
    method ClaimEnqueue(spurious: nat) returns (ok: bool, cell: nat, pos: nat)
      requires Valid()
      modifies this`enqueuePos
      ensures ok <==> |Contents| < Capacity()
      ensures enqueuePos == old(enqueuePos) + (if ok then 1 else 0)
      ensures ok ==> pos == old(enqueuePos) && cell == Slot(pos, Capacity())
    {
      pos := enqueuePos;
      var failures := spurious;
      MaskSelectsSlot(pos, Capacity());
      SequenceAtEnds(sequence[..], data[..], dequeuePos, enqueuePos, Contents);
      while true
        invariant pos == enqueuePos == old(enqueuePos)
        decreases failures
      {
        cell := BitAnd(pos, mask);
        var seen := sequence[cell];
        if seen == pos {
          if failures == 0 {
            enqueuePos := pos + 1;
            return true, cell, pos;
          }
          pos, failures := enqueuePos, failures - 1;
        } else if seen < pos {
          return false, cell, pos;
        } else {
          assert false;
        }
      }
    }

    /** Succeeds exactly when the queue is not full, and then appends. */
    method TryEnqueue(v: T, spurious: nat) returns (ok: bool)
      requires Valid()
      modifies this, sequence, data
      ensures Valid()
      ensures ok <==> |old(Contents)| < Capacity()
      ensures Contents == if ok then old(Contents) + [v] else old(Contents)
      ensures dequeuePos == old(dequeuePos)
    {
      var cell, pos;
      ok, cell, pos := ClaimEnqueue(spurious);
      if ok {
        LayoutEnqueue(sequence[..], data[..], dequeuePos, pos, Contents, v);
        data[cell] := v;
        sequence[cell] := pos + 1;
        assert data[..] == old(data[..])[cell := v] && sequence[..] == old(sequence[..])[cell := pos + 1];
        Contents := Contents + [v];
      }
    }

    /** The retry loop of `try_dequeue`: takes the next position unless the queue is empty. */
    method ClaimDequeue(spurious: nat) returns (ok: bool, cell: nat, pos: nat)
      requires Valid()
      modifies this`dequeuePos
      ensures ok <==> Contents != []
      ensures dequeuePos == old(dequeuePos) + (if ok then 1 else 0)
      ensures ok ==> pos == old(dequeuePos) && cell == Slot(pos, Capacity())
    {
      pos := dequeuePos;
      var failures := spurious;
      MaskSelectsSlot(pos, Capacity());
      SequenceAtEnds(sequence[..], data[..], dequeuePos, enqueuePos, Contents);
      while true
        invariant pos == dequeuePos == old(dequeuePos)
        decreases failures
      {
        cell := BitAnd(pos, mask);
        var seen := sequence[cell];
        if seen == pos + 1 {
          if failures == 0 {
            dequeuePos := pos + 1;
            return true, cell, pos;
          }
          pos, failures := dequeuePos, failures - 1;
        } else if seen < pos + 1 {
          return false, cell, pos;
        } else {
          assert false;
        }
      }
    }

    /** Succeeds exactly when the queue is not empty, and then removes and returns the oldest item. */
    method TryDequeue(spurious: nat) returns (ok: bool, v: T)
      requires Valid()
      modifies this, sequence
      ensures Valid()
      ensures ok <==> old(Contents) != []
      ensures if ok then [v] + Contents == old(Contents) else Contents == old(Contents)
      ensures enqueuePos == old(enqueuePos)
    {
      ghost var before, items := sequence[..], Contents;
      var cell, pos;
      ok, cell, pos := ClaimDequeue(spurious);
      v := data[0];
      if ok {
        LayoutDequeue(before, data[..], pos, enqueuePos, items);
        v := data[cell];
        var nextLap: nat := pos + mask + 1;
        sequence[cell] := nextLap;
        Contents := items[1..];
        assert sequence[..] == before[cell := nextLap] && nextLap == pos + |data[..]|;
        assert items == [v] + Contents;
      }
    }

    /** Exact when no other thread is inside an operation. */
    method Size() returns (n: nat)
      requires Valid()
      ensures n == |Contents|
    {
      var head := dequeuePos;
      var tail := enqueuePos;
      n := 0;
      if !(tail < head) {
        n := tail - head;
      }
    }
  }
}
