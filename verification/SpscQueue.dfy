/** The single-producer single-consumer ring over a real array, with the chunked copy
    loops. Each call receives the other side's index as it loaded it, which may
    be older than the field: the other side can only have moved on since. */
module Spsc {
  import opened SpscRing

  class SpscQueue<T(0)> {
    const buffer: array<T>
    var head: nat
    var tail: nat

    ghost predicate Valid()
      reads this
    {
      head < buffer.Length && tail < buffer.Length
    }

    function Capacity(): int {
      buffer.Length - 1
    }

    /** The items in the ring, oldest first. */
    ghost function Contents(): seq<T>
      requires Valid()
      reads this, buffer
    {
      Ring(buffer[..], head, tail)
    }

    /** `seen` is `head` as it was some consumed items ago. */
    ghost predicate HeadOnceWas(seen: nat)
      requires Valid()
      reads this
    {
      seen < buffer.Length && Used(seen, tail, buffer.Length) >= Used(head, tail, buffer.Length)
    }

    /** `seen` is `tail` as it was some produced items ago. */
    ghost predicate TailOnceWas(seen: nat)
      requires Valid()
      reads this
    {
      seen < buffer.Length && Used(head, seen, buffer.Length) <= Used(head, tail, buffer.Length)
    }

    constructor (capacity: nat)
      ensures Valid() && fresh(buffer) && Capacity() == capacity && Contents() == []
    {
      buffer := new T[capacity + 1];
      head, tail := 0, 0;
    }

    /** One slot is written at the tail; nothing else changes. */
    method TryEnqueue(item: T, seenHead: nat) returns (ok: bool)
      requires Valid() && HeadOnceWas(seenHead)
      modifies this`tail, buffer
      ensures Valid() && head == old(head)
      ensures ok <==> 1 <= FreeSpace(seenHead, old(tail), buffer.Length)
      ensures seenHead == head ==> (ok <==> |old(Contents())| < Capacity())
      ensures Contents() == if ok then old(Contents()) + [item] else old(Contents())
    {
      hide Remainder;
      var currentTail := tail;
      var nextTail := Remainder(currentTail + 1, buffer.Length);
      SingleTestIsBatchTest(seenHead, currentTail, buffer.Length);
      if nextTail == seenHead {
        return false;
      }
      buffer[currentTail] := item;
      RingGrows(old(buffer[..]), buffer[..], head, currentTail, [item]);
      tail := nextTail;
      return true;
    }

    /** All or nothing: the first `count` items are appended, or the ring is unchanged. */
    method TryEnqueueBatch(items: array<T>, count: nat, seenHead: nat) returns (ok: bool)
      requires Valid() && HeadOnceWas(seenHead) && count <= items.Length && items != buffer
      modifies this`tail, buffer
      ensures Valid() && head == old(head)
      ensures ok <==> count <= FreeSpace(seenHead, old(tail), buffer.Length)
      ensures seenHead == head ==> (ok <==> |old(Contents())| + count <= Capacity())
      ensures Contents() == if ok then old(Contents()) + items[..count] else old(Contents())
    {
      hide Remainder;
      var currentTail := tail;
      var freeSpace :=
        if seenHead > currentTail then seenHead - currentTail - 1
        else buffer.Length - (currentTail - seenHead) - 1;
      if count > freeSpace {
        return false;
      }
      CopyIn(items, count, currentTail);
      RingGrows(old(buffer[..]), buffer[..], head, currentTail, items[..count]);
      tail := Remainder(currentTail + count, buffer.Length);
      return true;
    }

    /** The copy loops of the batch enqueue. */
    method CopyIn(items: array<T>, count: nat, start: nat)
      requires count <= items.Length && count < buffer.Length && start < buffer.Length && items != buffer
      modifies buffer
      ensures Copied(old(buffer[..]), buffer[..], start, items[..count])
    {
      var firstChunk := if count < buffer.Length - start then count else buffer.Length - start;
      var i := 0;
      while i < firstChunk
        invariant 0 <= i <= firstChunk
        invariant Copied(old(buffer[..]), buffer[..], start, items[..i])
      {
        CopyExtends(old(buffer[..]), buffer[..], start, items[..i], items[i]);
        buffer[start + i] := items[i];
        assert items[..i + 1] == items[..i] + [items[i]];
        i := i + 1;
      }
      if firstChunk < count {
        var secondChunk := count - firstChunk;
        i := 0;
        while i < secondChunk
          invariant 0 <= i <= secondChunk
          invariant Copied(old(buffer[..]), buffer[..], start, items[..firstChunk + i])
        {
          CopyExtends(old(buffer[..]), buffer[..], start, items[..firstChunk + i], items[firstChunk + i]);
          buffer[i] := items[firstChunk + i];
          assert items[..firstChunk + i + 1] == items[..firstChunk + i] + [items[firstChunk + i]];
          i := i + 1;
        }
      }
    }

    /** The copy loops of the batch dequeue. */
    method CopyOut(items: array<T>, count: nat, start: nat)
      requires count <= items.Length && count < buffer.Length && start < buffer.Length && items != buffer
      modifies items
      ensures CopiedOut(buffer[..], start, items[..count])
      ensures items[count..] == old(items[count..])
    {
      var firstChunk := if count < buffer.Length - start then count else buffer.Length - start;
      var i := 0;
      while i < firstChunk
        invariant 0 <= i <= firstChunk
        invariant forall k | 0 <= k < i :: items[k] == buffer[Wrap(start + k, buffer.Length)]
        invariant forall k | count <= k < items.Length :: items[k] == old(items[k])
      {
        items[i] := buffer[start + i];
        i := i + 1;
      }
      if firstChunk < count {
        var secondChunk := count - firstChunk;
        i := 0;
        while i < secondChunk
          invariant 0 <= i <= secondChunk
          invariant forall k | 0 <= k < firstChunk + i :: items[k] == buffer[Wrap(start + k, buffer.Length)]
          invariant forall k | count <= k < items.Length :: items[k] == old(items[k])
        {
          items[firstChunk + i] := buffer[i];
          i := i + 1;
        }
      }
    }

    method TryDequeue(seenTail: nat) returns (ok: bool, item: T)
      requires Valid() && TailOnceWas(seenTail)
      modifies this`head
      ensures Valid() && tail == old(tail)
      ensures ok <==> Used(old(head), seenTail, buffer.Length) > 0
      ensures seenTail == tail ==> (ok <==> old(Contents()) != [])
      ensures if ok then [item] + Contents() == old(Contents()) else Contents() == old(Contents())
    {
      hide Remainder;
      var currentHead := head;
      item := buffer[currentHead];
      if currentHead == seenTail {
        return false, item;
      }
      assert Used(currentHead, seenTail, buffer.Length) > 0;
      RingShrinks(buffer[..], currentHead, tail, [item]);
      head := Remainder(currentHead + 1, buffer.Length);
      return true, item;
    }

    /** Takes everything that was available when the tail was loaded, up to `max`. */
    method TryDequeueBatch(items: array<T>, max: nat, seenTail: nat) returns (count: nat)
      requires Valid() && TailOnceWas(seenTail) && max <= items.Length && items != buffer
      modifies this`head, items
      ensures Valid() && tail == old(tail)
      ensures count == (var available := Used(old(head), seenTail, buffer.Length);
                        if available < max then available else max)
      ensures items[..count] + Contents() == old(Contents())
      ensures items[count..] == old(items[count..])
    {
      hide Remainder;
      var currentHead := head;
      if currentHead == seenTail {
        return 0;
      }
      var available :=
        if seenTail >= currentHead then seenTail - currentHead
        else buffer.Length - currentHead + seenTail;
      count := if available < max then available else max;
      CopyOut(items, count, currentHead);
      RingShrinks(buffer[..], currentHead, tail, items[..count]);
      head := Remainder(currentHead + count, buffer.Length);
    }

    method Size() returns (n: nat)
      requires Valid()
      ensures n == |Contents()|
    {
      if tail >= head {
        return tail - head;
      }
      return buffer.Length - (head - tail);
    }
  }

  /** The source's `%`: an index step never passes two laps. */
  function Remainder(x: nat, size: nat): (r: nat)
    requires 0 < size && x < 2 * size
    ensures r == Wrap(x, size)
  {
    x % size
  }

  /** `after` is `before` with `items` laid down from index `start` on, around the end. */
  ghost predicate Copied<T>(before: seq<T>, after: seq<T>, start: nat, items: seq<T>) {
    && |after| == |before| && start < |before| && |items| < |before|
    && (forall k | 0 <= k < |items| :: after[Wrap(start + k, |before|)] == items[k])
    && (forall c | 0 <= c < |before| && Used(start, c, |before|) >= |items| :: after[c] == before[c])
  }

  lemma CopyExtends<T>(before: seq<T>, after: seq<T>, start: nat, items: seq<T>, item: T)
    requires Copied(before, after, start, items) && |items| + 1 < |before|
    ensures Copied(before, after[Wrap(start + |items|, |before|) := item], start, items + [item])
  {}

  /** Laying items down behind the tail and moving the tail over them appends them. */
  lemma RingGrows<T>(before: seq<T>, after: seq<T>, head: nat, tail: nat, items: seq<T>)
    requires Copied(before, after, tail, items) && head < |before|
    requires |items| <= FreeSpace(head, tail, |before|)
    ensures Ring(after, head, Wrap(tail + |items|, |before|)) == Ring(before, head, tail) + items
  {
    var n, u := |before|, Used(head, tail, |before|);
    var t' := Wrap(tail + |items|, n);
    assert Used(head, t', n) == u + |items|;
    forall j | 0 <= j < u + |items|
      ensures after[Wrap(head + j, n)] == (Ring(before, head, tail) + items)[j]
    {
      if j < u {
        assert Used(tail, Wrap(head + j, n), n) >= |items|;
      } else {
        assert Wrap(head + j, n) == Wrap(tail + (j - u), n);
      }
    }
  }

  /** `out` is what lies from index `start` on, around the end. */
  ghost predicate CopiedOut<T>(buffer: seq<T>, start: nat, out: seq<T>) {
    && start < |buffer| && |out| <= |buffer|
    && forall k | 0 <= k < |out| :: out[k] == buffer[Wrap(start + k, |buffer|)]
  }

  /** Moving the head over items that were copied out removes them from the front. */
  lemma RingShrinks<T>(buffer: seq<T>, head: nat, tail: nat, out: seq<T>)
    requires CopiedOut(buffer, head, out) && tail < |buffer| && |out| <= Used(head, tail, |buffer|)
    ensures out + Ring(buffer, Wrap(head + |out|, |buffer|), tail) == Ring(buffer, head, tail)
  {
    var n, h' := |buffer|, Wrap(head + |out|, |buffer|);
    var r, r' := Ring(buffer, head, tail), Ring(buffer, h', tail);
    assert |r'| == |r| - |out|;
    forall j | 0 <= j < |r| ensures r[j] == (out + r')[j] {
      assert r[j] == buffer[Wrap(head + j, n)];
      if j >= |out| {
        assert r'[j - |out|] == buffer[Wrap(h' + (j - |out|), n)];
      }
    }
  }
}
