/** The bounded multi-producer multi-consumer queue as a machine of atomic steps.

    Any number of threads share the cells and the two position counters. Every
    load, compare-and-swap and store of `try_enqueue`, `try_dequeue` and `size`
    is one step of one thread, in any order, and a weak compare-and-swap may
    fail although the position still matches. Positions are unbounded "tickets".

    `tickets` is bookkeeping that no step reads: what happened to each claimed
    position so far. */
module MpmcSteps {
  import opened RingIndex
  import opened TicketQueue

  datatype Cell<T> = Cell(seqno: nat, data: T)

  datatype Outcome<T> = Nothing | Enqueued | Full | Dequeued(value: T) | Empty | Size(n: nat)

  /** Where a thread is, with its local variables. */
  datatype Pc<T> =
    | Idle(last: Outcome<T>)
    | EnqStart(v: T)               // about to load enqueue_pos_
    | EnqLook(v: T, pos: nat)      // about to load the cell's sequence
    | EnqTry(v: T, pos: nat)       // saw sequence == pos, about to swap enqueue_pos_
    | EnqWrite(v: T, pos: nat)     // owns pos, about to store the data
    | EnqPublish(v: T, pos: nat)   // data stored, about to store the sequence
    | DeqStart
    | DeqLook(pos: nat)
    | DeqTry(pos: nat)             // saw sequence == pos + 1, about to swap dequeue_pos_
    | DeqRead(pos: nat)            // owns pos, about to read the data
    | DeqRelease(pos: nat, v: T)   // data read, about to store the sequence
    | SizeTail(head: nat)          // loaded dequeue_pos_, about to load enqueue_pos_

  datatype Phase<T> = Claimed | Published | Taken(consumer: nat) | Released(consumer: nat, got: T)

  datatype Ticket<T> = Ticket(value: T, producer: nat, phase: Phase<T>)

  datatype State<T> = State(
    cells: seq<Cell<T>>,
    enq: nat,
    deq: nat,
    threads: seq<Pc<T>>,
    tickets: seq<Ticket<T>>)

  datatype Act<T> = CallEnqueue(v: T) | CallDequeue | CallSize | Run(spurious: bool)

  /** The queue as its constructor leaves it; `blank` stands for the unset data. */
  function Init<T>(capacity: nat, threadCount: nat, blank: T): State<T> {
    State(seq(capacity, i requires 0 <= i => Cell(i, blank)), 0, 0,
          seq(threadCount, _ => Idle(Nothing)), [])
  }

  predicate Enabled<T>(s: State<T>, i: nat, a: Act<T>) {
    i < |s.threads| && 0 < |s.cells| && (a.Run? <==> !s.threads[i].Idle?)
    // What the local variables must satisfy for the step to be defined at all.
    && (a.Run? && s.threads[i].EnqPublish? ==> s.threads[i].pos < |s.tickets|)
    && (a.Run? && s.threads[i].DeqRelease? ==> s.threads[i].pos < |s.tickets|)
    && (a.Run? && s.threads[i].DeqTry? && s.threads[i].pos == s.deq ==> s.deq < |s.tickets|)
  }

  function Goto<T>(s: State<T>, i: nat, pc: Pc<T>): State<T>
    requires i < |s.threads|
  {
    s.(threads := s.threads[i := pc])
  }

  function SetPhase<T>(s: State<T>, t: nat, p: Phase<T>): State<T>
    requires t < |s.tickets|
  {
    s.(tickets := s.tickets[t := s.tickets[t].(phase := p)])
  }

  function SetCell<T>(s: State<T>, pos: nat, c: Cell<T>): State<T>
    requires 0 < |s.cells|
  {
    s.(cells := s.cells[Slot(pos, |s.cells|) := c])
  }

  function CellAt<T>(s: State<T>, pos: nat): Cell<T>
    requires 0 < |s.cells|
  {
    s.cells[Slot(pos, |s.cells|)]
  }

  /** A successful swap of `enqueue_pos_`. */
  function ClaimBy<T>(s: State<T>, i: nat, v: T): State<T>
    requires i < |s.threads|
  {
    Goto(s.(enq := s.enq + 1, tickets := s.tickets + [Ticket(v, i, Claimed)]), i, EnqWrite(v, s.enq))
  }

  /** `cell->data = data` */
  function WriteBy<T>(s: State<T>, i: nat, v: T, pos: nat): State<T>
    requires i < |s.threads| && 0 < |s.cells|
  {
    Goto(SetCell(s, pos, CellAt(s, pos).(data := v)), i, EnqPublish(v, pos))
  }

  /** The producer's store of the sequence, which publishes ticket `pos`. */
  function PublishBy<T>(s: State<T>, i: nat, pos: nat): State<T>
    requires i < |s.threads| && 0 < |s.cells| && pos < |s.tickets|
  {
    Goto(SetPhase(SetCell(s, pos, CellAt(s, pos).(seqno := pos + 1)), pos, Published), i, Idle(Enqueued))
  }

  /** A successful swap of `dequeue_pos_`. */
  function TakeBy<T>(s: State<T>, i: nat): State<T>
    requires i < |s.threads| && s.deq < |s.tickets|
  {
    Goto(SetPhase(s.(deq := s.deq + 1), s.deq, Taken(i)), i, DeqRead(s.deq))
  }

  /** The consumer's store of the sequence, which hands the cell to the next lap. */
  function ReleaseBy<T>(s: State<T>, i: nat, pos: nat, v: T): State<T>
    requires i < |s.threads| && 0 < |s.cells| && pos < |s.tickets|
  {
    Goto(SetPhase(SetCell(s, pos, CellAt(s, pos).(seqno := pos + |s.cells|)), pos, Released(i, v)),
         i, Idle(Dequeued(v)))
  }

  function Step<T>(s: State<T>, i: nat, a: Act<T>): State<T>
    requires Enabled(s, i, a)
  {
    match a
    case CallEnqueue(v) => Goto(s, i, EnqStart(v))
    case CallDequeue => Goto(s, i, DeqStart)
    case CallSize => Goto(s, i, SizeTail(s.deq))
    case Run(spurious) =>
      match s.threads[i]
      case EnqStart(v) => Goto(s, i, EnqLook(v, s.enq))
      case EnqLook(v, pos) =>
        var seen := CellAt(s, pos).seqno;
        Goto(s, i, if seen == pos then EnqTry(v, pos) else if seen < pos then Idle(Full) else EnqStart(v))
      case EnqTry(v, pos) =>
        if s.enq == pos && !spurious then
          ClaimBy(s, i, v)
        else
          Goto(s, i, EnqLook(v, s.enq))
      case EnqWrite(v, pos) => WriteBy(s, i, v, pos)
      case EnqPublish(v, pos) => PublishBy(s, i, pos)
      case DeqStart => Goto(s, i, DeqLook(s.deq))
      case DeqLook(pos) =>
        var seen := CellAt(s, pos).seqno;
        Goto(s, i, if seen == pos + 1 then DeqTry(pos) else if seen < pos + 1 then Idle(Empty) else DeqStart)
      case DeqTry(pos) =>
        if s.deq == pos && !spurious then
          TakeBy(s, i)
        else
          Goto(s, i, DeqLook(s.deq))
      case DeqRead(pos) => Goto(s, i, DeqRelease(pos, CellAt(s, pos).data))
      case DeqRelease(pos, v) => ReleaseBy(s, i, pos, v)
      case SizeTail(head) => Goto(s, i, Idle(Size(if s.enq < head then 0 else s.enq - head)))
      case Idle(_) => s
  }

  // ---- The invariant ----

  ghost predicate Bounds<T>(s: State<T>) {
    2 <= |s.cells| && |s.tickets| == s.enq && s.deq <= s.enq <= s.deq + |s.cells|
  }

  /** Tickets are taken in order, and a ticket more than one lap old is released. */
  ghost predicate PhasesOk<T>(s: State<T>)
    requires Bounds(s)
  {
    forall t | 0 <= t < s.enq ::
      var ticket := s.tickets[t];
      && (t < s.deq <==> (ticket.phase.Taken? || ticket.phase.Released?))
      && (t + |s.cells| < s.enq ==> ticket.phase.Released?)
      && (ticket.phase.Released? ==> ticket.phase.got == ticket.value)
  }

  /** What a cell holds while `ticket` is the latest ticket of that cell. */
  predicate CellMatches<T(==)>(c: Cell<T>, t: nat, ticket: Ticket<T>, n: nat) {
    match ticket.phase
    case Claimed => c.seqno == t
    case Published => c.seqno == t + 1 && c.data == ticket.value
    case Taken(_) => c.seqno == t + 1 && c.data == ticket.value
    case Released(_, _) => c.seqno == t + n
  }

  ghost predicate CellsOk<T>(s: State<T>)
    requires Bounds(s)
  {
    && (forall t | 0 <= t < s.enq && s.enq <= t + |s.cells| ::
          CellMatches(CellAt(s, t), t, s.tickets[t], |s.cells|))
    && (forall t | s.enq <= t < |s.cells| :: s.cells[t].seqno == t)
    // A cell's sequence never falls behind a ticket it has served.
    && (forall t | 0 <= t < s.enq :: CellAt(s, t).seqno >= t + (if t < s.deq then 1 else 0))
  }

  /** Ticket `pos` may be claimed: it is the first of its cell, or the previous one was released. */
  ghost predicate Free<T>(s: State<T>, pos: nat)
    requires Bounds(s) && pos <= s.enq
  {
    pos < |s.cells| || s.tickets[pos - |s.cells|].phase.Released?
  }

  /** What each thread may rely on at its program point. A stale observation made before
      a compare-and-swap still holds if the position has not moved since. */
  ghost predicate ThreadOk<T>(s: State<T>, i: nat)
    requires Bounds(s) && i < |s.threads|
  {
    match s.threads[i]
    case Idle(_) => true
    case EnqStart(_) => true
    case EnqLook(_, pos) => pos <= s.enq
    case EnqTry(_, pos) => pos <= s.enq && (pos == s.enq ==> Free(s, pos))
    case EnqWrite(v, pos) => pos < s.enq && s.tickets[pos] == Ticket(v, i, Claimed)
    case EnqPublish(v, pos) => pos < s.enq && s.tickets[pos] == Ticket(v, i, Claimed) && CellAt(s, pos).data == v
    case DeqStart => true
    case DeqLook(pos) => pos <= s.deq
    case DeqTry(pos) => pos <= s.deq && (pos == s.deq ==> pos < s.enq && s.tickets[pos].phase.Published?)
    case DeqRead(pos) => pos < s.enq && s.tickets[pos].phase == Taken(i)
    case DeqRelease(pos, v) => pos < s.enq && s.tickets[pos].phase == Taken(i) && v == s.tickets[pos].value
    case SizeTail(head) => head <= s.deq
  }

  ghost predicate ThreadsOk<T>(s: State<T>)
    requires Bounds(s)
  {
    forall i | 0 <= i < |s.threads| :: ThreadOk(s, i)
  }

  ghost predicate OwnsAsProducer<T>(s: State<T>, i: nat, t: nat) {
    i < |s.threads| && (s.threads[i].EnqWrite? || s.threads[i].EnqPublish?) && s.threads[i].pos == t
  }

  ghost predicate OwnsAsConsumer<T>(s: State<T>, i: nat, t: nat) {
    i < |s.threads| && (s.threads[i].DeqRead? || s.threads[i].DeqRelease?) && s.threads[i].pos == t
  }

  /** A ticket under way is in the hands of the thread it names. */
  ghost predicate OwnersOk<T>(s: State<T>)
    requires Bounds(s)
  {
    forall t | 0 <= t < s.enq ::
      && (s.tickets[t].phase.Claimed? ==> OwnsAsProducer(s, s.tickets[t].producer, t))
      && (s.tickets[t].phase.Taken? ==> OwnsAsConsumer(s, s.tickets[t].phase.consumer, t))
  }

  ghost predicate Inv<T>(s: State<T>) {
    Bounds(s) && PhasesOk(s) && CellsOk(s) && ThreadsOk(s) && OwnersOk(s)
  }

  lemma InvInit<T>(capacity: nat, threadCount: nat, blank: T)
    requires AcceptedCapacity(capacity)
    ensures Inv(Init(capacity, threadCount, blank))
  {}

  /** Tickets of one lap sit in different cells. */
  lemma OtherCell<T>(s: State<T>, t: nat, u: nat)
    requires 0 < |s.cells| && t < u < t + |s.cells|
    ensures Slot(t, |s.cells|) != Slot(u, |s.cells|)
  {
    if Slot(t, |s.cells|) == Slot(u, |s.cells|) {
      SameSlotSameTicket(t, u, |s.cells|);
    }
  }

  lemma OtherCells<T>(s: State<T>, pos: nat)
    requires 0 < |s.cells|
    ensures forall t: nat | t != pos && t < pos + |s.cells| && pos < t + |s.cells| ::
              Slot(t, |s.cells|) != Slot(pos, |s.cells|)
  {
    forall t: nat | t != pos && t < pos + |s.cells| && pos < t + |s.cells|
      ensures Slot(t, |s.cells|) != Slot(pos, |s.cells|)
    {
      if t < pos { OtherCell(s, t, pos); } else { OtherCell(s, pos, t); }
    }
  }

  /** The sequence a thread finds at a position the queue has reached, case by case. */
  lemma SequenceSeen<T>(s: State<T>, pos: nat)
    requires Inv(s) && pos <= s.enq
    ensures pos == s.enq ==> (CellAt(s, pos).seqno == pos <==> Free(s, pos))
    ensures pos == s.enq ==> CellAt(s, pos).seqno <= pos
    ensures pos < s.enq ==> CellAt(s, pos).seqno >= pos + (if pos < s.deq then 1 else 0)
    ensures pos == s.deq < s.enq ==> (CellAt(s, pos).seqno == pos + 1 <==> s.tickets[pos].phase.Published?)
  {
    var n := |s.cells|;
    if pos == s.enq {
      if n <= pos {
        assert CellMatches(CellAt(s, pos - n), pos - n, s.tickets[pos - n], n);
      }
    } else {
      assert s.enq <= pos + n ==> CellMatches(CellAt(s, pos), pos, s.tickets[pos], n);
    }
  }

  // ---- Each step keeps the invariant ----

  /** Steps that only move one thread. */
  lemma GotoKeepsInv<T>(s: State<T>, i: nat, pc: Pc<T>)
    requires Inv(s) && i < |s.threads|
    requires ThreadOk(Goto(s, i, pc), i)
    requires forall t | 0 <= t < s.enq :: OwnsAsProducer(s, i, t) ==> OwnsAsProducer(Goto(s, i, pc), i, t)
    requires forall t | 0 <= t < s.enq :: OwnsAsConsumer(s, i, t) ==> OwnsAsConsumer(Goto(s, i, pc), i, t)
    ensures Inv(Goto(s, i, pc))
  {
    var s' := Goto(s, i, pc);
    forall j | 0 <= j < |s'.threads| ensures ThreadOk(s', j) {
      if j != i { assert ThreadOk(s, j); }
    }
    assert CellsOk(s') by {
      forall t | 0 <= t < s'.enq ensures CellAt(s', t) == CellAt(s, t) {}
    }
  }

  /** Only the cell and the ticket of `pos` change, and they still match. */
  lemma CellsKept<T>(s: State<T>, s': State<T>, pos: nat)
    requires Inv(s) && Bounds(s') && |s'.cells| == |s.cells| && s'.enq == s.enq
    requires pos < s.enq <= pos + |s.cells|
    requires s'.cells == s.cells[Slot(pos, |s.cells|) := CellAt(s', pos)]
    requires s'.tickets == s.tickets[pos := s'.tickets[pos]]
    requires CellMatches(CellAt(s', pos), pos, s'.tickets[pos], |s.cells|)
    requires CellAt(s', pos).seqno >= CellAt(s, pos).seqno
    requires s'.deq == s.deq || (s'.deq == pos + 1 && s.deq == pos && CellAt(s', pos).seqno >= pos + 1)
    ensures CellsOk(s')
  {
    OtherCells(s, pos);
    forall t | 0 <= t < s'.enq
      ensures s'.enq <= t + |s.cells| ==> CellMatches(CellAt(s', t), t, s'.tickets[t], |s'.cells|)
      ensures CellAt(s', t).seqno >= t + (if t < s'.deq then 1 else 0)
    {
      assert CellAt(s, t).seqno >= t + (if t < s.deq then 1 else 0);
      assert s.enq <= t + |s.cells| ==> CellMatches(CellAt(s, t), t, s.tickets[t], |s.cells|);
    }
    forall t | s'.enq <= t < |s'.cells| ensures s'.cells[t].seqno == t {
      assert Slot(pos, |s.cells|) == pos;
    }
  }

  /** Thread `j` is not disturbed when thread `i` finishes with the ticket it owns. */
  lemma OtherThreadKept<T>(s: State<T>, s': State<T>, i: nat, pos: nat, j: nat)
    requires Bounds(s) && Bounds(s') && j < |s.threads| && j != i && ThreadOk(s, j)
    requires |s'.cells| == |s.cells| && s'.enq == s.enq && s'.deq == s.deq && pos < s.enq
    requires |s'.threads| == |s.threads| && s'.threads[j] == s.threads[j]
    requires forall t: nat :: CellAt(s', t).data == CellAt(s, t).data
    requires s'.tickets == s.tickets[pos := s'.tickets[pos]]
    requires (s.tickets[pos].phase == Claimed && s.tickets[pos].producer == i && s'.tickets[pos].phase == Published)
             || (s.tickets[pos].phase == Taken(i) && s'.tickets[pos].phase.Released?)
    ensures ThreadOk(s', j)
  {
    match s.threads[j]
    case EnqPublish(v, p) => assert CellAt(s', p).data == CellAt(s, p).data;
    case _ =>
  }

  lemma OwnersKept<T>(s: State<T>, s': State<T>, i: nat, pos: nat)
    requires Inv(s) && Bounds(s') && i < |s.threads| && s'.enq == s.enq && pos < s.enq
    requires OwnsAsProducer(s, i, pos) || OwnsAsConsumer(s, i, pos)
    requires |s'.threads| == |s.threads| && s'.threads == s.threads[i := s'.threads[i]]
    requires s'.tickets == s.tickets[pos := s'.tickets[pos]]
    requires s'.tickets[pos].phase.Published? || s'.tickets[pos].phase.Released?
    ensures OwnersOk(s')
  {
    forall t | 0 <= t < s'.enq
      ensures s'.tickets[t].phase.Claimed? ==> OwnsAsProducer(s', s'.tickets[t].producer, t)
      ensures s'.tickets[t].phase.Taken? ==> OwnsAsConsumer(s', s'.tickets[t].phase.consumer, t)
    {
      if t != pos {
        assert s'.tickets[t] == s.tickets[t];
      }
    }
  }

  lemma ClaimKeepsCells<T>(s: State<T>, i: nat, v: T)
    requires Inv(s) && i < |s.threads| && Free(s, s.enq) && Bounds(ClaimBy(s, i, v))
    ensures CellsOk(ClaimBy(s, i, v))
  {
    var s' := ClaimBy(s, i, v);
    SequenceSeen(s, s.enq);
    forall t | 0 <= t < s'.enq
      ensures s'.enq <= t + |s.cells| ==> CellMatches(CellAt(s', t), t, s'.tickets[t], |s'.cells|)
      ensures CellAt(s', t).seqno >= t + (if t < s'.deq then 1 else 0)
    {
      if t < s.enq {
        assert CellAt(s, t).seqno >= t + (if t < s.deq then 1 else 0);
        assert s.enq <= t + |s.cells| ==> CellMatches(CellAt(s, t), t, s.tickets[t], |s.cells|);
      }
    }
  }

  lemma ClaimKeepsThread<T>(s: State<T>, i: nat, v: T, j: nat)
    requires Bounds(s) && i < |s.threads| && j < |s.threads| && ThreadOk(s, j) && Bounds(ClaimBy(s, i, v))
    ensures ThreadOk(ClaimBy(s, i, v), j)
  {}

  lemma ClaimKeepsInv<T>(s: State<T>, i: nat, v: T)
    requires Inv(s) && i < |s.threads| && s.threads[i] == EnqTry(v, s.enq)
    ensures Inv(ClaimBy(s, i, v))
  {
    var s' := ClaimBy(s, i, v);
    assert ThreadOk(s, i);
    assert Bounds(s');
    ClaimKeepsCells(s, i, v);
    hide CellsOk, Slot, Free;
    forall j | 0 <= j < |s'.threads| ensures ThreadOk(s', j) {
      assert ThreadOk(s, j);
      ClaimKeepsThread(s, i, v, j);
    }
    forall t | 0 <= t < s'.enq
      ensures s'.tickets[t].phase.Claimed? ==> OwnsAsProducer(s', s'.tickets[t].producer, t)
      ensures s'.tickets[t].phase.Taken? ==> OwnsAsConsumer(s', s'.tickets[t].phase.consumer, t)
    {}
  }

  lemma WriteKeepsThread<T>(s: State<T>, i: nat, v: T, pos: nat, j: nat)
    requires Inv(s) && i < |s.threads| && s.threads[i] == EnqWrite(v, pos) && j < |s.threads| && j != i
    ensures ThreadOk(WriteBy(s, i, v, pos), j)
  {
    assert ThreadOk(s, j) && ThreadOk(s, i);
    OtherCells(s, pos);
  }

  lemma WriteKeepsInv<T>(s: State<T>, i: nat, v: T, pos: nat)
    requires Inv(s) && i < |s.threads| && s.threads[i] == EnqWrite(v, pos)
    ensures Inv(WriteBy(s, i, v, pos))
  {
    var s' := WriteBy(s, i, v, pos);
    assert ThreadOk(s, i);
    assert CellMatches(CellAt(s, pos), pos, s.tickets[pos], |s.cells|);
    CellsKept(s, s', pos);
    forall j | 0 <= j < |s'.threads| ensures ThreadOk(s', j) {
      if j != i { WriteKeepsThread(s, i, v, pos, j); }
    }
    assert OwnersOk(s') by {
      forall t | 0 <= t < s'.enq
        ensures s'.tickets[t].phase.Claimed? ==> OwnsAsProducer(s', s'.tickets[t].producer, t)
        ensures s'.tickets[t].phase.Taken? ==> OwnsAsConsumer(s', s'.tickets[t].phase.consumer, t)
      {}
    }
  }

  lemma PublishKeepsInv<T>(s: State<T>, i: nat, v: T, pos: nat)
    requires Inv(s) && i < |s.threads| && s.threads[i] == EnqPublish(v, pos)
    ensures pos < |s.tickets|
    ensures Inv(PublishBy(s, i, pos))
  {
    assert ThreadOk(s, i);
    var s' := PublishBy(s, i, pos);
    assert CellMatches(CellAt(s, pos), pos, s.tickets[pos], |s.cells|);
    CellsKept(s, s', pos);
    forall j | 0 <= j < |s'.threads| ensures ThreadOk(s', j) {
      if j != i { OtherThreadKept(s, s', i, pos, j); }
    }
    OwnersKept(s, s', i, pos);
  }

  lemma TakeKeepsThread<T>(s: State<T>, i: nat, j: nat)
    requires Bounds(s) && i < |s.threads| && j < |s.threads| && ThreadOk(s, j)
    requires s.deq < s.enq && s.tickets[s.deq].phase.Published?
    ensures ThreadOk(TakeBy(s, i), j)
  {}

  lemma TakeKeepsInv<T>(s: State<T>, i: nat)
    requires Inv(s) && i < |s.threads| && s.threads[i] == DeqTry(s.deq)
    ensures s.deq < |s.tickets|
    ensures Inv(TakeBy(s, i))
  {
    assert ThreadOk(s, i);
    var s' := TakeBy(s, i);
    assert CellMatches(CellAt(s, s.deq), s.deq, s.tickets[s.deq], |s.cells|);
    CellsKept(s, s', s.deq);
    forall j | 0 <= j < |s'.threads| ensures ThreadOk(s', j) {
      assert ThreadOk(s, j);
      TakeKeepsThread(s, i, j);
    }
    forall t | 0 <= t < s'.enq
      ensures s'.tickets[t].phase.Claimed? ==> OwnsAsProducer(s', s'.tickets[t].producer, t)
      ensures s'.tickets[t].phase.Taken? ==> OwnsAsConsumer(s', s'.tickets[t].phase.consumer, t)
    {}
  }

  lemma ReadKeepsInv<T>(s: State<T>, i: nat, pos: nat)
    requires Inv(s) && i < |s.threads| && s.threads[i] == DeqRead(pos)
    ensures Inv(Goto(s, i, DeqRelease(pos, CellAt(s, pos).data)))
  {
    assert ThreadOk(s, i);
    assert CellMatches(CellAt(s, pos), pos, s.tickets[pos], |s.cells|);
    GotoKeepsInv(s, i, DeqRelease(pos, CellAt(s, pos).data));
  }

  lemma ReleaseKeepsInv<T>(s: State<T>, i: nat, pos: nat, v: T)
    requires Inv(s) && i < |s.threads| && s.threads[i] == DeqRelease(pos, v)
    ensures pos < |s.tickets|
    ensures Inv(ReleaseBy(s, i, pos, v))
  {
    assert ThreadOk(s, i);
    var s' := ReleaseBy(s, i, pos, v);
    assert CellMatches(CellAt(s, pos), pos, s.tickets[pos], |s.cells|);
    CellsKept(s, s', pos);
    forall j | 0 <= j < |s'.threads| ensures ThreadOk(s', j) {
      if j != i { OtherThreadKept(s, s', i, pos, j); }
    }
    OwnersKept(s, s', i, pos);
  }

  lemma EnqueueStepKeepsInv<T>(s: State<T>, i: nat, a: Act<T>)
    requires Inv(s) && Enabled(s, i, a) && a.Run?
    requires s.threads[i].EnqStart? || s.threads[i].EnqLook? || s.threads[i].EnqTry?
             || s.threads[i].EnqWrite? || s.threads[i].EnqPublish?
    ensures Inv(Step(s, i, a))
  {
    assert ThreadOk(s, i);
    match s.threads[i]
    case EnqStart(v) => GotoKeepsInv(s, i, EnqLook(v, s.enq));
    case EnqLook(v, pos) =>
      SequenceSeen(s, pos);
      GotoKeepsInv(s, i, Step(s, i, a).threads[i]);
    case EnqTry(v, pos) =>
      if s.enq == pos && !a.spurious {
        ClaimKeepsInv(s, i, v);
      } else {
        GotoKeepsInv(s, i, EnqLook(v, s.enq));
      }
    case EnqWrite(v, pos) => WriteKeepsInv(s, i, v, pos);
    case EnqPublish(v, pos) => PublishKeepsInv(s, i, v, pos);
  }

  lemma DequeueStepKeepsInv<T>(s: State<T>, i: nat, a: Act<T>)
    requires Inv(s) && Enabled(s, i, a) && a.Run?
    requires s.threads[i].DeqStart? || s.threads[i].DeqLook? || s.threads[i].DeqTry?
             || s.threads[i].DeqRead? || s.threads[i].DeqRelease?
    ensures Inv(Step(s, i, a))
  {
    assert ThreadOk(s, i);
    match s.threads[i]
    case DeqStart => GotoKeepsInv(s, i, DeqLook(s.deq));
    case DeqLook(pos) =>
      DequeueLook(s, i, pos);
      GotoKeepsInv(s, i, Step(s, i, a).threads[i]);
    case DeqTry(pos) =>
      if s.deq == pos && !a.spurious {
        TakeKeepsInv(s, i);
      } else {
        GotoKeepsInv(s, i, DeqLook(s.deq));
      }
    case DeqRead(pos) => ReadKeepsInv(s, i, pos);
    case DeqRelease(pos, v) => ReleaseKeepsInv(s, i, pos, v);
  }

  /** Every step of every thread keeps the invariant. */
  lemma StepKeepsInv<T>(s: State<T>, i: nat, a: Act<T>)
    requires Inv(s) && Enabled(s, i, a)
    ensures Inv(Step(s, i, a))
  {
    if !a.Run? || s.threads[i].SizeTail? {
      GotoKeepsInv(s, i, Step(s, i, a).threads[i]);
    } else if s.threads[i].DeqStart? || s.threads[i].DeqLook? || s.threads[i].DeqTry?
              || s.threads[i].DeqRead? || s.threads[i].DeqRelease? {
      DequeueStepKeepsInv(s, i, a);
    } else {
      EnqueueStepKeepsInv(s, i, a);
    }
  }

  /** What a dequeuer's sequence load tells it. */
  lemma DequeueLook<T>(s: State<T>, i: nat, pos: nat)
    requires Inv(s) && i < |s.threads| && s.threads[i] == DeqLook(pos)
    ensures CellAt(s, pos).seqno < pos + 1
            ==> pos == s.deq && (pos == s.enq || s.tickets[pos].phase.Claimed?)
    ensures CellAt(s, pos).seqno == pos + 1 && pos == s.deq
            ==> pos < s.enq && s.tickets[pos].phase.Published?
  {
    assert ThreadOk(s, i);
    SequenceSeen(s, pos);
    if pos < s.enq && pos == s.deq {
      assert s.tickets[pos].phase.Claimed? || s.tickets[pos].phase.Published?;
    }
  }

  /** No thread is ever stuck: the conditions on local variables that make a step defined hold
      in every reachable state, so an idle thread can call and a busy one can go on. */
  lemma EveryThreadCanStep<T>(s: State<T>, i: nat, a: Act<T>)
    requires Inv(s) && i < |s.threads|
    ensures Enabled(s, i, a) <==> (a.Run? <==> !s.threads[i].Idle?)
  {
    assert ThreadOk(s, i);
  }

  // ---- What every run guarantees ----

  datatype Event<T> = Event(thread: nat, act: Act<T>)

  /** A run is any sequence of steps of any threads, each one possible when it is made. */
  predicate ValidRun<T>(s: State<T>, run: seq<Event<T>>)
    decreases |run|
  {
    run == [] ||
    (Enabled(s, run[0].thread, run[0].act) && ValidRun(Step(s, run[0].thread, run[0].act), run[1..]))
  }

  function Exec<T>(s: State<T>, run: seq<Event<T>>): State<T>
    requires ValidRun(s, run)
    decreases |run|
  {
    if run == [] then s else Exec(Step(s, run[0].thread, run[0].act), run[1..])
  }

  ghost predicate Owns<T>(s: State<T>, i: nat, t: nat) {
    OwnsAsProducer(s, i, t) || OwnsAsConsumer(s, i, t)
  }

  /** Between claim and release a cell is touched by one thread only. */
  ghost predicate CellsExclusive<T>(s: State<T>)
    requires 0 < |s.cells|
  {
    forall i, j, t: nat, u: nat | 0 <= i < j < |s.threads| && Owns(s, i, t) && Owns(s, j, u) ::
      Slot(t, |s.cells|) != Slot(u, |s.cells|)
  }

  lemma InvMakesCellsExclusive<T>(s: State<T>)
    requires Inv(s)
    ensures CellsExclusive(s)
  {
    forall i, j, t: nat, u: nat | 0 <= i < j < |s.threads| && Owns(s, i, t) && Owns(s, j, u)
      ensures Slot(t, |s.cells|) != Slot(u, |s.cells|)
    {
      assert ThreadOk(s, i) && ThreadOk(s, j);
      assert t != u;
      OtherCells(s, u);
    }
  }

  /** `s'` is `s` later on: claimed tickets keep their value and producer, taken ones their
      consumer, and no ticket goes back to an earlier phase. */
  ghost predicate Later<T>(s: State<T>, s': State<T>) {
    |s.cells| == |s'.cells| && |s.tickets| <= |s'.tickets| && s.enq <= s'.enq && s.deq <= s'.deq
    && forall t | 0 <= t < |s.tickets| ::
         var a, b := s.tickets[t], s'.tickets[t];
         && b.value == a.value && b.producer == a.producer
         && (a.phase.Published? ==> !b.phase.Claimed?)
         && (a.phase.Taken? ==> (b.phase.Taken? || b.phase.Released?) && b.phase.consumer == a.phase.consumer)
         && (a.phase.Released? ==> b.phase == a.phase)
  }

  lemma StepIsLater<T>(s: State<T>, i: nat, a: Act<T>)
    requires Inv(s) && Enabled(s, i, a)
    ensures Later(s, Step(s, i, a))
  {
    assert ThreadOk(s, i);
    if a.Run? && s.threads[i].EnqTry? && s.enq == s.threads[i].pos && !a.spurious {
    } else if a.Run? && (s.threads[i].EnqPublish? || s.threads[i].DeqRelease?) {
      var pos := s.threads[i].pos;
      assert Step(s, i, a).tickets == s.tickets[pos := Step(s, i, a).tickets[pos]];
    } else if a.Run? && s.threads[i].DeqTry? && s.deq == s.threads[i].pos && !a.spurious {
    } else {
      assert Step(s, i, a).tickets == s.tickets;
    }
  }

  lemma {:induction false} RunKeepsInv<T>(s: State<T>, run: seq<Event<T>>)
    requires Inv(s) && ValidRun(s, run)
    ensures Inv(Exec(s, run)) && Later(s, Exec(s, run))
    decreases |run|
  {
    if run != [] {
      StepKeepsInv(s, run[0].thread, run[0].act);
      StepIsLater(s, run[0].thread, run[0].act);
      RunKeepsInv(Step(s, run[0].thread, run[0].act), run[1..]);
    }
  }

  /** Main result: in every state of every run, whatever the number of threads,
      the positions stay within one lap of each other, two threads never hold
      the same cell, and the consumer that released ticket `t` got exactly the
      value that the producer of ticket `t` wrote. */
  lemma EveryRunIsSafe<T>(capacity: nat, threadCount: nat, blank: T, run: seq<Event<T>>)
    requires AcceptedCapacity(capacity) && ValidRun(Init(capacity, threadCount, blank), run)
    ensures
      var s := Exec(Init(capacity, threadCount, blank), run);
      && |s.cells| == capacity && |s.tickets| == s.enq
      && s.deq <= s.enq <= s.deq + capacity
      && CellsExclusive(s)
      && forall t | 0 <= t < s.enq && s.tickets[t].phase.Released? :: s.tickets[t].phase.got == s.tickets[t].value
  {
    InvInit(capacity, threadCount, blank);
    RunKeepsInv(Init(capacity, threadCount, blank), run);
    InvMakesCellsExclusive(Exec(Init(capacity, threadCount, blank), run));
  }

  /** What a call hands back: a finished enqueue published its own ticket with its own
      argument; a finished dequeue returns the value of the one ticket it took. */
  lemma CallResult<T>(s: State<T>, i: nat, spurious: bool)
    requires Inv(s) && Enabled(s, i, Run(spurious))
    ensures
      var s' := Step(s, i, Run(spurious));
      && (s'.threads[i] == Idle(Enqueued) ==>
            exists t | 0 <= t < s.enq :: s.tickets[t] == Ticket(s.threads[i].v, i, Claimed)
                                         && s'.tickets[t] == Ticket(s.threads[i].v, i, Published))
      && (s'.threads[i].Idle? && s'.threads[i].last.Dequeued? ==>
            exists t | 0 <= t < s.deq :: s.tickets[t].phase == Taken(i)
                                         && s'.tickets[t].phase == Released(i, s.tickets[t].value)
                                         && s'.threads[i].last.value == s.tickets[t].value)
  {
    assert ThreadOk(s, i);
    var s' := Step(s, i, Run(spurious));
    match s.threads[i]
    case EnqPublish(v, pos) =>
      assert s.tickets[pos] == Ticket(v, i, Claimed) && s'.tickets[pos] == Ticket(v, i, Published);
    case DeqRelease(pos, v) =>
      assert s.tickets[pos].phase == Taken(i) && s'.tickets[pos].phase == Released(i, s.tickets[pos].value);
    case _ =>
  }

  /** `try_enqueue` gives up exactly when its position is still the current one and the
      ticket one lap earlier has not been released. */
  lemma FullMeansPreviousLapUnreleased<T>(s: State<T>, i: nat, v: T, pos: nat, spurious: bool)
    requires Inv(s) && i < |s.threads| && s.threads[i] == EnqLook(v, pos)
    ensures Step(s, i, Run(spurious)).threads[i] == Idle(Full)
            <==> pos == s.enq && pos >= |s.cells| && !s.tickets[pos - |s.cells|].phase.Released?
  {
    assert ThreadOk(s, i);
    SequenceSeen(s, pos);
  }

  /** `try_dequeue` gives up exactly when its position is still the current one and that
      ticket is not published. */
  lemma EmptyMeansUnpublished<T>(s: State<T>, i: nat, pos: nat, spurious: bool)
    requires Inv(s) && i < |s.threads| && s.threads[i] == DeqLook(pos)
    ensures Step(s, i, Run(spurious)).threads[i] == Idle(Empty)
            <==> pos == s.deq && (pos == s.enq || s.tickets[pos].phase.Claimed?)
  {
    DequeueLook(s, i, pos);
    assert ThreadOk(s, i);
    SequenceSeen(s, pos);
    if pos < s.enq && s.tickets[pos].phase.Claimed? {
      assert CellMatches(CellAt(s, pos), pos, s.tickets[pos], |s.cells|);
    }
  }

  /** With no operation of another thread between claim and release, a refusal means
      exactly full, respectively exactly empty. */
  lemma RefusalExactWhenQuiet<T>(s: State<T>, i: nat, spurious: bool)
    requires Inv(s) && i < |s.threads|
    requires forall j: nat, t: nat :: !Owns(s, j, t)
    ensures s.threads[i].EnqLook? ==>
              (Step(s, i, Run(spurious)).threads[i] == Idle(Full)
               <==> s.threads[i].pos == s.enq && s.enq - s.deq == |s.cells|)
    ensures s.threads[i].DeqLook? ==>
              (Step(s, i, Run(spurious)).threads[i] == Idle(Empty)
               <==> s.threads[i].pos == s.deq && s.enq == s.deq)
  {
    match s.threads[i]
    case EnqLook(v, pos) =>
      FullMeansPreviousLapUnreleased(s, i, v, pos, spurious);
      if pos == s.enq && pos >= |s.cells| {
        var t := pos - |s.cells|;
        assert s.tickets[t].phase.Taken? ==> Owns(s, s.tickets[t].phase.consumer, t);
        assert t < s.deq <==> (s.tickets[t].phase.Taken? || s.tickets[t].phase.Released?);
      }
    case DeqLook(pos) =>
      EmptyMeansUnpublished(s, i, pos, spurious);
      if pos < s.enq {
        assert s.tickets[pos].phase.Claimed? ==> Owns(s, s.tickets[pos].producer, pos);
      }
    case _ =>
  }

  /** `size()` never underflows, never reports less than the queue holds at its second
      load, and reports zero only if the positions were equal at that load. */
  lemma SizeOverApproximates<T>(s: State<T>, i: nat, head: nat, spurious: bool)
    requires Inv(s) && i < |s.threads| && s.threads[i] == SizeTail(head)
    ensures !(s.enq < head)
    ensures Step(s, i, Run(spurious)).threads[i].last.n >= s.enq - s.deq
    ensures Step(s, i, Run(spurious)).threads[i].last.n == 0 ==> s.enq == s.deq
  {
    assert ThreadOk(s, i);
  }

  // ---- Refinement ----

  /** The claimed and not yet taken tickets, as the queue's users see them. */
  function Visible<T>(s: State<T>): seq<Entry<T>>
    requires |s.tickets| == s.enq && s.deq <= s.enq
  {
    seq(s.enq - s.deq, k requires 0 <= k < s.enq - s.deq =>
      Entry(s.tickets[s.deq + k].value, !s.tickets[s.deq + k].phase.Claimed?))
  }

  lemma VisibleClaim<T>(s: State<T>, i: nat, v: T)
    requires Inv(s) && i < |s.threads| && ThreadOk(s, i) && s.threads[i] == EnqTry(v, s.enq)
    ensures |Visible(s)| < |s.cells| && Visible(ClaimBy(s, i, v)) == Claim(Visible(s), v)
  {}

  lemma VisiblePublish<T>(s: State<T>, i: nat, pos: nat)
    requires Inv(s) && i < |s.threads| && s.deq <= pos < s.enq
    ensures Visible(PublishBy(s, i, pos)) == Publish(Visible(s), pos - s.deq)
  {}

  lemma VisibleTake<T>(s: State<T>, i: nat)
    requires Inv(s) && i < |s.threads| && s.deq < s.enq && s.tickets[s.deq].phase.Published?
    ensures CanTake(Visible(s)) && Visible(TakeBy(s, i)) == Visible(s)[1..]
  {}

  lemma VisibleRelease<T>(s: State<T>, i: nat, pos: nat, v: T)
    requires Inv(s) && i < |s.threads| && pos < s.deq
    ensures Visible(ReleaseBy(s, i, pos, v)) == Visible(s)
  {}

  /** Every atomic step is one move of the ticket queue or none at all. */
  lemma StepRefinesTicketQueue<T>(s: State<T>, i: nat, a: Act<T>)
    requires Inv(s) && Enabled(s, i, a)
    ensures Bounds(Step(s, i, a))
    ensures Moves(Visible(s), Visible(Step(s, i, a)), |s.cells|)
  {
    assert ThreadOk(s, i);
    assert Bounds(Step(s, i, a)) by { StepKeepsInv(s, i, a); }
    if a.Run? && s.threads[i].EnqTry? && s.enq == s.threads[i].pos && !a.spurious {
      VisibleClaim(s, i, s.threads[i].v);
    } else if a.Run? && s.threads[i].EnqPublish? {
      VisiblePublish(s, i, s.threads[i].pos);
    } else if a.Run? && s.threads[i].DeqTry? && s.deq == s.threads[i].pos && !a.spurious {
      VisibleTake(s, i);
    } else if a.Run? && s.threads[i].DeqRelease? {
      VisibleRelease(s, i, s.threads[i].pos, s.threads[i].v);
    } else {
      assert Visible(Step(s, i, a)) == Visible(s);
    }
  }

  /** A dequeuer gives up only when there is nothing it could take at that moment. */
  lemma EmptyMeansNothingToTake<T>(s: State<T>, i: nat, pos: nat, spurious: bool)
    requires Inv(s) && i < |s.threads| && s.threads[i] == DeqLook(pos)
    requires Step(s, i, Run(spurious)).threads[i] == Idle(Empty)
    ensures !CanTake(Visible(s))
  {
    EmptyMeansUnpublished(s, i, pos, spurious);
  }
}
