/** The multi-producer multi-consumer queue seen from outside: the entries that are
    claimed and not yet taken, in ticket order. An entry is claimed first and
    published later, and only a published entry at the front can be taken. */
module TicketQueue {
  datatype Entry<T> = Entry(value: T, published: bool)

  function Claim<T>(q: seq<Entry<T>>, v: T): seq<Entry<T>> {
    q + [Entry(v, false)]
  }

  function Publish<T>(q: seq<Entry<T>>, k: nat): seq<Entry<T>>
    requires k < |q|
  {
    q[k := q[k].(published := true)]
  }

  predicate CanTake<T>(q: seq<Entry<T>>) {
    q != [] && q[0].published
  }

  function Values<T>(q: seq<Entry<T>>): (vs: seq<T>)
    ensures |vs| == |q|
  {
    seq(|q|, k requires 0 <= k < |q| => q[k].value)
  }

  /** All that one atomic step can do to the queue. */
  ghost predicate Moves<T>(q: seq<Entry<T>>, q': seq<Entry<T>>, capacity: nat) {
    || q' == q
    || (|q| < capacity && |q'| == |q| + 1 && q' == Claim(q, q'[|q|].value))
    || (exists k | 0 <= k < |q| :: q' == Publish(q, k))
    || (CanTake(q) && q' == q[1..])
  }

  lemma ValuesClaim<T>(q: seq<Entry<T>>, v: T)
    ensures Values(Claim(q, v)) == Values(q) + [v]
  {}

  lemma ValuesPublish<T>(q: seq<Entry<T>>, k: nat)
    requires k < |q|
    ensures Values(Publish(q, k)) == Values(q)
  {}

  lemma ValuesTake<T>(q: seq<Entry<T>>)
    requires q != []
    ensures Values(q) == [q[0].value] + Values(q[1..])
  {}
}
