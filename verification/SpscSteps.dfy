/** The single-producer single-consumer ring as a machine of atomic steps.

    The producer and the consumer run batch calls of any length (a single call is
    a batch of one). Loading the other side's index, copying one item, and
    storing one's own index are separate steps, so each side works on an index
    that may be stale and the two copy loops interleave slot by slot. The ring
    has one slot more than its capacity, of any size. */
module SpscSteps {
  import opened RingIndex
  import opened SpscRing

  datatype Producer<T> =
    | Ready(accepted: bool)
    | Offering(items: seq<T>)                // about to load head_
    | Copying(items: seq<T>, done: nat)      // space granted, `done` items copied
  datatype Consumer<T> =
    | Waiting(got: seq<T>)
    | Polling(max: nat)                      // about to load tail_
    | Reading(count: nat, got: seq<T>)       // `count` items granted, `got` copied out

  /** `produced` and `consumed` are bookkeeping: the items whose index store has happened. */
  datatype State<T> = State(
    buffer: seq<T>, head: nat, tail: nat,
    producer: Producer<T>, consumer: Consumer<T>,
    produced: seq<T>, consumed: seq<T>)

  datatype Act<T> = Offer(items: seq<T>) | Poll(max: nat) | ProducerStep | ConsumerStep

  function Init<T>(capacity: nat, blank: T): State<T> {
    State(seq(capacity + 1, _ => blank), 0, 0, Ready(false), Waiting([]), [], [])
  }

  function Size<T>(s: State<T>): nat { |s.buffer| }

  /** Where the copy loops put or find item `k` of a batch of `count` starting at index `from`:
      a first chunk up to the end of the buffer, a second one from its start. */
  function ChunkSlot(from: nat, k: nat, count: nat, size: nat): nat
    requires from < size && k < count
  {
    var firstChunk := if count < size - from then count else size - from;
    if k < firstChunk then from + k else k - firstChunk
  }

  predicate Enabled<T>(s: State<T>, a: Act<T>) {
    && s.head < Size(s) && s.tail < Size(s)
    && match a
       case Offer(_) => s.producer.Ready?
       case Poll(_) => s.consumer.Waiting?
       case ProducerStep => !s.producer.Ready? && (s.producer.Copying? ==> |s.producer.items| < Size(s))
       case ConsumerStep => !s.consumer.Waiting? && (s.consumer.Reading? ==> s.consumer.count < Size(s))
  }

  function CopyOne<T>(s: State<T>, items: seq<T>, done: nat): State<T>
    requires s.tail < Size(s) && done < |items| < Size(s)
  {
    s.(buffer := s.buffer[ChunkSlot(s.tail, done, |items|, Size(s)) := items[done]],
       producer := Copying(items, done + 1))
  }

  function PublishBatch<T>(s: State<T>, items: seq<T>): State<T>
    requires s.tail < Size(s) && |items| < Size(s)
  {
    s.(tail := Wrap(s.tail + |items|, Size(s)), producer := Ready(true), produced := s.produced + items)
  }

  function ReadOne<T>(s: State<T>, count: nat, got: seq<T>): State<T>
    requires s.head < Size(s) && |got| < count < Size(s)
  {
    s.(consumer := Reading(count, got + [s.buffer[ChunkSlot(s.head, |got|, count, Size(s))]]))
  }

  function ReleaseBatch<T>(s: State<T>, count: nat, got: seq<T>): State<T>
    requires s.head < Size(s) && count < Size(s)
  {
    s.(head := Wrap(s.head + count, Size(s)), consumer := Waiting(got), consumed := s.consumed + got)
  }

  function Step<T>(s: State<T>, a: Act<T>): State<T>
    requires Enabled(s, a)
  {
    var n := Size(s);
    match a
    case Offer(items) => s.(producer := Offering(items))
    case Poll(max) => s.(consumer := Polling(max))
    case ProducerStep =>
      (match s.producer
       case Offering(items) =>
         if |items| > FreeSpace(s.head, s.tail, n) then s.(producer := Ready(false))
         else s.(producer := Copying(items, 0))
       case Copying(items, done) =>
         if done < |items| then CopyOne(s, items, done) else PublishBatch(s, items)
       case Ready(_) => s)
    case ConsumerStep =>
      (match s.consumer
       case Polling(max) =>
         if s.head == s.tail then s.(consumer := Waiting([]))
         else
           var available := Used(s.head, s.tail, n);
           s.(consumer := Reading(if available < max then available else max, []))
       case Reading(count, got) =>
         if |got| < count then ReadOne(s, count, got) else ReleaseBatch(s, count, got)
       case Waiting(_) => s)
  }

  ghost predicate RingOk<T>(s: State<T>) {
    var n, p, c := Size(s), |s.produced|, |s.consumed|;
    && 1 <= n && c <= p < c + n
    && s.tail == Slot(p, n) && s.head == Slot(c, n)
    && s.consumed == s.produced[..c]
    && forall j: nat {:trigger Slot(j, n)} | c <= j < p :: s.buffer[Slot(j, n)] == s.produced[j]
  }

  ghost predicate ProducerOk<T>(s: State<T>)
    requires RingOk(s)
  {
    s.producer.Copying? ==>
      var items, done := s.producer.items, s.producer.done;
      && done <= |items| && |s.produced| + |items| < |s.consumed| + Size(s)
      && forall k | 0 <= k < done :: s.buffer[Slot(|s.produced| + k, Size(s))] == items[k]
  }

  ghost predicate ConsumerOk<T>(s: State<T>)
    requires RingOk(s)
  {
    s.consumer.Reading? ==>
      var count, got, c := s.consumer.count, s.consumer.got, |s.consumed|;
      |got| <= count && c + count <= |s.produced| && got == s.produced[c..c + |got|]
  }

  ghost predicate Inv<T>(s: State<T>) {
    RingOk(s) && ProducerOk(s) && ConsumerOk(s)
  }

  lemma InvInit<T>(capacity: nat, blank: T)
    ensures Inv(Init(capacity, blank))
  {}

  /** Indices and counts agree. */
  lemma IndicesCount<T>(s: State<T>)
    requires Inv(s)
    ensures Used(s.head, s.tail, Size(s)) == |s.produced| - |s.consumed|
    ensures FreeSpace(s.head, s.tail, Size(s)) == Size(s) - 1 - (|s.produced| - |s.consumed|)
  {
    SlotAfter(|s.consumed|, |s.produced| - |s.consumed|, Size(s));
  }

  lemma ChunkSlotIsSlot(start: nat, k: nat, count: nat, n: nat)
    requires 0 < n && k < count < n
    ensures ChunkSlot(Slot(start, n), k, count, n) == Slot(start + k, n)
  {
    SlotAfter(start, k, n);
  }

  /** The slot the producer writes next holds no item that is still to be consumed. */
  lemma WriteSlotIsUnowned<T>(s: State<T>, j: nat)
    requires Inv(s) && s.producer.Copying? && s.producer.done < |s.producer.items|
    requires |s.consumed| <= j < |s.produced| + s.producer.done
    ensures Slot(j, Size(s)) != ChunkSlot(s.tail, s.producer.done, |s.producer.items|, Size(s))
  {
    var n, w := Size(s), |s.produced| + s.producer.done;
    ChunkSlotIsSlot(|s.produced|, s.producer.done, |s.producer.items|, n);
    if Slot(j, n) == Slot(w, n) {
      SameSlotSameTicket(j, w, n);
    }
  }

  lemma CopyKeepsInv<T>(s: State<T>, items: seq<T>, done: nat)
    requires Inv(s) && s.producer == Copying(items, done) && done < |items|
    ensures Inv(CopyOne(s, items, done))
  {
    hide Slot;
    var s', p, n := CopyOne(s, items, done), |s.produced|, Size(s);
    ChunkSlotIsSlot(p, done, |items|, n);
    forall j: nat {:trigger Slot(j, n)} | |s.consumed| <= j < p ensures s'.buffer[Slot(j, n)] == s.produced[j] {
      WriteSlotIsUnowned(s, j);
    }
    forall k | 0 <= k < done + 1 ensures s'.buffer[Slot(p + k, n)] == items[k] {
      if k < done { WriteSlotIsUnowned(s, p + k); }
    }
  }

  lemma PublishKeepsRing<T>(s: State<T>, items: seq<T>)
    requires Inv(s) && s.producer == Copying(items, |items|)
    ensures RingOk(PublishBatch(s, items))
  {
    hide Slot;
    var s', p, n := PublishBatch(s, items), |s.produced|, Size(s);
    SlotAfter(p, |items|, n);
    assert s'.tail == Slot(p + |items|, n);
    assert s'.produced[..|s.consumed|] == s.produced[..|s.consumed|];
    hide ConsumerOk;
    forall j: nat {:trigger Slot(j, n)} | |s.consumed| <= j < p + |items|
      ensures s'.buffer[Slot(j, n)] == s'.produced[j]
    {
      if j < p {
        assert s'.produced[j] == s.produced[j];
      } else {
        assert s.buffer[Slot(p + (j - p), n)] == items[j - p] == s'.produced[j];
      }
    }
  }

  lemma PublishKeepsInv<T>(s: State<T>, items: seq<T>)
    requires Inv(s) && s.producer == Copying(items, |items|)
    ensures Inv(PublishBatch(s, items))
  {
    PublishKeepsRing(s, items);
    hide RingOk, Slot, Wrap;
    var s' := PublishBatch(s, items);
    assert s.consumer.Reading? ==> ConsumerOk(s') by { GrowthKeepsReading(s, s'); }
  }

  /** What a consumer has read stays what was produced. */
  lemma GrowthKeepsReading<T>(s: State<T>, s': State<T>)
    requires RingOk(s) && RingOk(s') && ConsumerOk(s)
    requires s'.consumer == s.consumer && s'.consumed == s.consumed && s.produced <= s'.produced
    ensures ConsumerOk(s')
  {
    hide Slot;
    if s.consumer.Reading? {
      var c, g := |s.consumed|, |s.consumer.got|;
      assert s'.produced[c..c + g] == s.produced[c..c + g];
    }
  }

  lemma ReadKeepsInv<T>(s: State<T>, count: nat, got: seq<T>)
    requires Inv(s) && s.consumer == Reading(count, got) && |got| < count
    ensures Inv(ReadOne(s, count, got))
  {
    hide Slot, ChunkSlot;
    var c := |s.consumed|;
    ChunkSlotIsSlot(c, |got|, count, Size(s));
    assert s.buffer[Slot(c + |got|, Size(s))] == s.produced[c + |got|];
    assert s.produced[c..c + |got| + 1] == s.produced[c..c + |got|] + [s.produced[c + |got|]];
  }

  lemma ReleaseKeepsInv<T>(s: State<T>, count: nat, got: seq<T>)
    requires Inv(s) && s.consumer == Reading(count, got) && |got| == count
    ensures Inv(ReleaseBatch(s, count, got))
  {
    hide Slot;
    var c := |s.consumed|;
    SlotAfter(c, count, Size(s));
    assert s.produced[..c + count] == s.produced[..c] + s.produced[c..c + count];
  }

  lemma ProducerKeepsInv<T>(s: State<T>)
    requires Inv(s) && Enabled(s, ProducerStep)
    ensures Inv(Step(s, ProducerStep))
  {
    if s.producer.Copying? {
      var items, done := s.producer.items, s.producer.done;
      assert done <= |items|;
      hide Inv;
      if done < |items| { CopyKeepsInv(s, items, done); } else { PublishKeepsInv(s, items); }
    } else {
      hide Slot;
      IndicesCount(s);
    }
  }

  lemma ConsumerKeepsInv<T>(s: State<T>)
    requires Inv(s) && Enabled(s, ConsumerStep)
    ensures Inv(Step(s, ConsumerStep))
  {
    if s.consumer.Reading? {
      var count, got := s.consumer.count, s.consumer.got;
      assert |got| <= count;
      hide Inv;
      if |got| < count { ReadKeepsInv(s, count, got); } else { ReleaseKeepsInv(s, count, got); }
    } else {
      hide Slot;
      IndicesCount(s);
    }
  }

  lemma StepKeepsInv<T>(s: State<T>, a: Act<T>)
    requires Inv(s) && Enabled(s, a)
    ensures Inv(Step(s, a))
  {
    if a.ProducerStep? {
      ProducerKeepsInv(s);
      hide Inv;
    } else if a.ConsumerStep? {
      ConsumerKeepsInv(s);
      hide Inv;
    } else {
      hide Slot;
    }
  }

  /** Neither side is ever stuck: the conditions that make a step defined always hold. */
  lemma BothSidesCanStep<T>(s: State<T>, a: Act<T>)
    requires Inv(s)
    ensures a.Offer? ==> (Enabled(s, a) <==> s.producer.Ready?)
    ensures a.Poll? ==> (Enabled(s, a) <==> s.consumer.Waiting?)
    ensures a.ProducerStep? ==> (Enabled(s, a) <==> !s.producer.Ready?)
    ensures a.ConsumerStep? ==> (Enabled(s, a) <==> !s.consumer.Waiting?)
  {}

  predicate ValidRun<T>(s: State<T>, run: seq<Act<T>>)
    decreases |run|
  {
    run == [] || (Enabled(s, run[0]) && ValidRun(Step(s, run[0]), run[1..]))
  }

  function Exec<T>(s: State<T>, run: seq<Act<T>>): State<T>
    requires ValidRun(s, run)
    decreases |run|
  {
    if run == [] then s else Exec(Step(s, run[0]), run[1..])
  }

  lemma {:induction false} RunKeepsInv<T>(s: State<T>, run: seq<Act<T>>)
    requires Inv(s) && ValidRun(s, run)
    ensures Inv(Exec(s, run)) && Size(Exec(s, run)) == Size(s)
    decreases |run|
  {
    if run != [] {
      StepKeepsInv(s, run[0]);
      RunKeepsInv(Step(s, run[0]), run[1..]);
    }
  }

  /** The ring's contents, read off the indices, are the produced items not yet consumed. */
  lemma RingIsUnconsumed<T>(s: State<T>)
    requires Inv(s)
    ensures Ring(s.buffer, s.head, s.tail) == s.produced[|s.consumed|..]
  {
    IndicesCount(s);
    var c := |s.consumed|;
    forall j | 0 <= j < |s.produced| - c
      ensures s.buffer[Wrap(s.head + j, Size(s))] == s.produced[c..][j]
    {
      SlotAfter(c, j, Size(s));
      assert s.buffer[Slot(c + j, Size(s))] == s.produced[c + j];
    }
  }

  /** The two copy loops never touch the same slot, and the producer's never touches an unread item. */
  ghost predicate CopiesDisjoint<T>(s: State<T>) {
    s.producer.Copying? && s.producer.done < |s.producer.items| < Size(s) && s.tail < Size(s) ==>
      var w := ChunkSlot(s.tail, s.producer.done, |s.producer.items|, Size(s));
      && (s.consumer.Reading? && |s.consumer.got| < s.consumer.count && s.head < Size(s) ==>
            w != ChunkSlot(s.head, |s.consumer.got|, s.consumer.count, Size(s)))
      && forall j: nat {:trigger Slot(j, Size(s))} | |s.consumed| <= j < |s.produced| :: w != Slot(j, Size(s))
  }

  lemma InvMakesCopiesDisjoint<T>(s: State<T>)
    requires Inv(s)
    ensures CopiesDisjoint(s)
  {
    if s.producer.Copying? && s.producer.done < |s.producer.items| {
      forall j: nat | |s.consumed| <= j < |s.produced|
        ensures ChunkSlot(s.tail, s.producer.done, |s.producer.items|, Size(s)) != Slot(j, Size(s))
      {
        WriteSlotIsUnowned(s, j);
      }
      if s.consumer.Reading? && |s.consumer.got| < s.consumer.count {
        ChunkSlotIsSlot(|s.consumed|, |s.consumer.got|, s.consumer.count, Size(s));
      }
    }
  }

  /** Main result: in every run, what was consumed followed by what the ring holds is what
      was produced, in order; the ring never holds more than its capacity; and no slot is
      copied into while it is still to be read. */
  lemma EveryRunIsFifo<T>(capacity: nat, blank: T, run: seq<Act<T>>)
    requires ValidRun(Init(capacity, blank), run)
    ensures
      var s := Exec(Init(capacity, blank), run);
      && Size(s) == capacity + 1 && s.head < Size(s) && s.tail < Size(s)
      && s.consumed + Ring(s.buffer, s.head, s.tail) == s.produced
      && |Ring(s.buffer, s.head, s.tail)| <= capacity
      && CopiesDisjoint(s)
  {
    InvInit(capacity, blank);
    RunKeepsInv(Init(capacity, blank), run);
    var s := Exec(Init(capacity, blank), run);
    RingIsUnconsumed(s);
    InvMakesCopiesDisjoint(s);
  }

  // ---- What a call's decision means, and the queue seen from outside ----

  /** A batch is refused exactly when it does not fit at the moment the index is loaded, and a
      poll is granted everything available up to its maximum. */
  lemma DecisionAtLoad<T>(s: State<T>)
    requires Inv(s)
    ensures s.producer.Offering? && Enabled(s, ProducerStep) ==>
              (Step(s, ProducerStep).producer == Ready(false)
               <==> |s.produced| - |s.consumed| + |s.producer.items| > Size(s) - 1)
    ensures s.consumer.Polling? && Enabled(s, ConsumerStep) ==>
              var held := |s.produced| - |s.consumed|;
              Step(s, ConsumerStep).consumer
              == if held == 0 then Waiting([])
                 else Reading(if held < s.consumer.max then held else s.consumer.max, [])
  {
    IndicesCount(s);
  }

  /** The items produced and not yet consumed. */
  function Visible<T>(s: State<T>): seq<T>
    requires |s.consumed| <= |s.produced|
  {
    s.produced[|s.consumed|..]
  }

  /** Every step appends one whole batch that fits, removes one batch from the front and
      returns it, or leaves the visible contents alone. */
  lemma StepRefinesFifo<T>(s: State<T>, a: Act<T>)
    requires Inv(s) && Enabled(s, a)
    ensures
      var s' := Step(s, a);
      && |s'.consumed| <= |s'.produced|
      && (|| (s'.consumed == s.consumed && Visible(s') == Visible(s))
          || (s.producer.Copying? && s'.producer == Ready(true) && s'.consumed == s.consumed
              && Visible(s') == Visible(s) + s.producer.items && |Visible(s')| <= Size(s) - 1)
          || (s.consumer.Reading? && s'.consumer.Waiting? && s'.consumed == s.consumed + s'.consumer.got
              && s'.consumer.got + Visible(s') == Visible(s)))
  {
    var c := |s.consumed|;
    if a.ConsumerStep? && s.consumer.Reading? && |s.consumer.got| == s.consumer.count {
      var k := s.consumer.count;
      assert s.produced[c..] == s.produced[c..c + k] + s.produced[c + k..];
    } else if a.ProducerStep? && s.producer.Copying? && s.producer.done == |s.producer.items| {
      assert (s.produced + s.producer.items)[c..] == s.produced[c..] + s.producer.items;
    }
  }
}
