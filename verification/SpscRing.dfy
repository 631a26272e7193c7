/** The ring buffer's index arithmetic as the source computes it: indices stay below
    the buffer size, and one slot is always left empty. */
module SpscRing {
  /** `x % size` for an `x` less than two laps. */
  function Wrap(x: nat, size: nat): nat
    requires 0 < size && x < 2 * size
  {
    if x < size then x else x - size
  }

  /** Items between two indices; the source's `available`. */
  function Used(head: nat, tail: nat, size: nat): (u: nat)
    requires head < size && tail < size
    ensures u < size
    ensures Wrap(head + u, size) == tail
  {
    if tail >= head then tail - head else size - head + tail
  }

  /** The source's `free_space`. */
  function FreeSpace(head: nat, tail: nat, size: nat): (f: nat)
    requires head < size && tail < size
    ensures f == size - 1 - Used(head, tail, size)
  {
    if head > tail then head - tail - 1 else size - (tail - head) - 1
  }

  /** The items from `head` up to `tail`, oldest first. */
  function Ring<T>(buffer: seq<T>, head: nat, tail: nat): (r: seq<T>)
    requires head < |buffer| && tail < |buffer|
    ensures |r| == Used(head, tail, |buffer|)
  {
    seq(Used(head, tail, |buffer|), j requires 0 <= j < Used(head, tail, |buffer|) =>
      buffer[Wrap(head + j, |buffer|)])
  }

  /** The single-item call's test for a full ring is the batch call's test for one item. */
  lemma SingleTestIsBatchTest(head: nat, tail: nat, size: nat)
    requires head < size && tail < size
    ensures Wrap(tail + 1, size) == head <==> 1 > FreeSpace(head, tail, size)
  {}

  // ---- One batch call against repeated single calls, on the abstract queue ----

  function OfferEach<T>(q: seq<T>, items: seq<T>, capacity: nat): seq<T>
    decreases |items|
  {
    if items == [] then q
    else OfferEach(if |q| < capacity then q + [items[0]] else q, items[1..], capacity)
  }

  /** A batch that fits does what offering its items one by one does. */
  lemma {:induction false} BatchIsRepeatedOffers<T>(q: seq<T>, items: seq<T>, capacity: nat)
    requires |q| + |items| <= capacity
    ensures OfferEach(q, items, capacity) == q + items
    decreases |items|
  {
    if items != [] {
      BatchIsRepeatedOffers(q + [items[0]], items[1..], capacity);
      assert q + [items[0]] + items[1..] == q + items;
    } else {
      assert q + items == q;
    }
  }

  function PollEach<T>(q: seq<T>, times: nat): (seq<T>, seq<T>) {
    if times == 0 || q == [] then ([], q)
    else
      var (got, rest) := PollEach(q[1..], times - 1);
      ([q[0]] + got, rest)
  }

  /** A batch poll returns what polling one by one up to `max` times returns. */
  lemma {:induction false} BatchIsRepeatedPolls<T>(q: seq<T>, max: nat)
    ensures var count := if |q| < max then |q| else max;
            PollEach(q, max) == (q[..count], q[count..])
    decreases max
  {
    if max != 0 && q != [] {
      BatchIsRepeatedPolls(q[1..], max - 1);
      var count := if |q| < max then |q| else max;
      assert q[..count] == [q[0]] + q[1..][..count - 1];
      assert q[count..] == q[1..][count - 1..];
    } else if max != 0 {
      assert q[..0] == q && q[0..] == q;
    } else {
      assert q[0..] == q;
    }
  }
}
