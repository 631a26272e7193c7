/** The sequence monitor: running counters meant to tell that every id 1, 2, 3, ... passed
    once and in order. */
module SequenceMonitor {
  datatype Counters = Counters(expected: nat, gaps: nat, dups: nat, last: nat)

  const FRESH: Counters := Counters(1, 0, 0, 0)

  function Observe(c: Counters, id: nat): Counters {
    if id == c.expected then c.(expected := c.expected + 1, last := id)
    else if id < c.expected then c.(dups := c.dups + 1, last := id)
    else Counters(id + 1, c.gaps + (id - c.expected), c.dups, id)
  }

  function ObserveAll(c: Counters, ids: seq<nat>): Counters {
    if ids == [] then c else Observe(ObserveAll(c, ids[..|ids| - 1]), ids[|ids| - 1])
  }

  lemma {:induction false} ObserveAllAppend(c: Counters, a: seq<nat>, b: seq<nat>)
    ensures ObserveAll(c, a + b) == ObserveAll(ObserveAll(c, a), b)
    decreases |b|
  {
    if b == [] {
      assert a + b == a;
    } else {
      assert (a + b)[..|a + b| - 1] == a + b[..|b| - 1];
      ObserveAllAppend(c, a, b[..|b| - 1]);
    }
  }

  // ---- What happened, said without counters ----

  predicate IsHighest(ids: seq<nat>, top: nat) {
    && (forall k | 0 <= k < |ids| :: ids[k] <= top)
    && (top == 0 || top in ids)
  }

  /** The ids that passed, 0 left out: the sequence starts at 1. */
  function Passed(ids: seq<nat>): set<nat> {
    set id | id in ids && id != 0
  }

  /** The ids above `low`, up to `high`. */
  function Span(low: nat, high: nat): (r: set<nat>)
    requires low <= high
    ensures forall id :: id in r <==> low < id <= high
    ensures |r| == high - low
    decreases high
  {
    if low == high then {} else Span(low, high - 1) + {high}
  }

  /** The ids up to the highest that never passed. */
  function Missing(ids: seq<nat>, top: nat): set<nat> {
    Span(0, top) - Passed(ids)
  }

  predicate Overtaken(before: seq<nat>, id: nat) {
    exists k | 0 <= k < |before| :: before[k] > id
  }

  /** Arrivals of an id not seen before, but below one seen before. */
  function Late(ids: seq<nat>): nat {
    if ids == [] then 0
    else
      var before, id := ids[..|ids| - 1], ids[|ids| - 1];
      Late(before)
      + (if id != 0 && id !in before && Overtaken(before, id) then 1 else 0)
  }

  /** Arrivals of an id that is 0 or was seen before. */
  function Repeats(ids: seq<nat>): nat {
    if ids == [] then 0
    else
      var before, id := ids[..|ids| - 1], ids[|ids| - 1];
      Repeats(before) + (if id == 0 || id in before then 1 else 0)
  }

  predicate InOrder(ids: seq<nat>) {
    forall k | 0 <= k < |ids| :: ids[k] == k + 1
  }

  // ---- What the counters mean ----

  /** The books balance, and the expected id is one past the highest that passed. */
  lemma {:induction false} CountersBalance(ids: seq<nat>)
    ensures var c := ObserveAll(FRESH, ids);
            && 0 < c.expected && c.dups <= |ids|
            && c.expected - 1 == c.gaps + |ids| - c.dups
            && IsHighest(ids, c.expected - 1)
            && c.last == (if ids == [] then 0 else ids[|ids| - 1])
  {
    if ids != [] {
      var before, id := ids[..|ids| - 1], ids[|ids| - 1];
      CountersBalance(before);
      HighestStep(before, id, ObserveAll(FRESH, before).expected - 1);
      hide IsHighest;
      assert ids == before + [id];
    }
  }

  lemma HighestStep(before: seq<nat>, id: nat, top: nat)
    requires IsHighest(before, top)
    ensures IsHighest(before + [id], if id < top then top else id)
  {
    forall k | 0 <= k < |before + [id]| ensures (before + [id])[k] <= if id < top then top else id {
      if k < |before| { assert (before + [id])[k] == before[k]; }
    }
    assert id in before + [id];
  }

  lemma ArrivalStep(before: seq<nat>, id: nat)
    ensures ObserveAll(FRESH, before + [id]) == Observe(ObserveAll(FRESH, before), id)
    ensures Late(before + [id]) == Late(before) + (if id != 0 && id !in before && Overtaken(before, id) then 1 else 0)
    ensures Repeats(before + [id]) == Repeats(before) + (if id == 0 || id in before then 1 else 0)
  {
    assert (before + [id])[..|before|] == before;
  }

  ghost predicate Explained(c: Counters, ids: seq<nat>)
    requires 0 < c.expected
  {
    && c.dups == Repeats(ids) + Late(ids)
    && c.gaps == |Missing(ids, c.expected - 1)| + Late(ids)
  }

  /** A late arrival is counted once as a gap, when it was skipped, and once as a duplicate,
      when it came: the gap counter is the ids missing plus the late ones, the duplicate
      counter the repeats plus the late ones. */
  lemma {:induction false} CountersMean(ids: seq<nat>)
    ensures var c := ObserveAll(FRESH, ids);
            && c.dups == Repeats(ids) + Late(ids)
            && c.gaps == |Missing(ids, c.expected - 1)| + Late(ids)
  {
    hide Missing, IsHighest, Observe;
    if ids == [] {
      NothingMissing();
    } else {
      var before, id := ids[..|ids| - 1], ids[|ids| - 1];
      CountersMean(before);
      CountersBalance(before);
      ExplainedStep(ObserveAll(FRESH, before), before, id);
      assert ids == before + [id];
    }
  }

  lemma NothingMissing()
    ensures Missing([], 0) == {}
  {}

  lemma ExplainedStep(c: Counters, before: seq<nat>, id: nat)
    requires 0 < c.expected && IsHighest(before, c.expected - 1) && Explained(c, before)
    ensures Explained(Observe(c, id), before + [id])
  {
    hide Missing, IsHighest, Overtaken, ObserveAll, Late, Repeats, Span, Passed;
    ArrivalStep(before, id);
    var top := c.expected - 1;
    if id <= top {
      NotHighest(before, id, top);
    } else {
      NothingAbove(before, id, top);
      MissingGrows(before, id, top);
    }
  }

  lemma NothingAbove(before: seq<nat>, id: nat, top: nat)
    requires IsHighest(before, top) && top < id
    ensures !Overtaken(before, id) && id !in before
  {}

  lemma NotHighest(before: seq<nat>, id: nat, top: nat)
    requires IsHighest(before, top) && id <= top
    ensures id == 0 || id in before ==> Missing(before + [id], top) == Missing(before, top)
    ensures id != 0 && id !in before ==>
              |Missing(before + [id], top)| == |Missing(before, top)| - 1
              && Overtaken(before, id)
  {
    hide Span;
    PassedOneMore(before, id);
    var now, was := Missing(before + [id], top), Missing(before, top);
    if id != 0 && id !in before {
      assert top in before && top != id;
      hide IsHighest, Passed;
      assert now == was - {id};
      assert id in was;
    }
  }

  lemma PassedOneMore(before: seq<nat>, id: nat)
    ensures Passed(before + [id]) == Passed(before) + (if id == 0 then {} else {id})
    ensures id != 0 && id !in before ==> id !in Passed(before)
    ensures id in before && id != 0 ==> id in Passed(before)
  {}

  /** A new highest id leaves the ids between missing. */
  lemma MissingGrows(before: seq<nat>, id: nat, top: nat)
    requires IsHighest(before, top) && top < id
    ensures |Missing(before + [id], id)| == |Missing(before, top)| + (id - top - 1)
  {
    hide Span;
    var now, was, skipped := Missing(before + [id], id), Missing(before, top), Span(top, id - 1);
    forall x
      ensures x in now <==> x in was + skipped
    {
      assert x in Passed(before + [id]) <==> x in Passed(before) || x == id;
      assert x in Passed(before) ==> x <= top;
    }
    assert now == was + skipped;
    assert was * skipped == {};
  }

  /** Soundness and completeness: both counters are zero exactly when the ids were 1, 2, ..., n. */
  lemma {:induction false} CleanMeansInOrder(ids: seq<nat>)
    ensures var c := ObserveAll(FRESH, ids); c.gaps == 0 && c.dups == 0 <==> InOrder(ids)
  {
    if ids != [] {
      var before, id := ids[..|ids| - 1], ids[|ids| - 1];
      CleanMeansInOrder(before);
      CountersBalance(before);
      assert InOrder(ids) <==> InOrder(before) && id == |ids|;
    }
  }

  /** The counters cannot tell a loss from a swap: a gap does not mean that an id is missing. */
  lemma GapIsNotLoss()
    ensures ObserveAll(FRESH, [2, 1]) == Counters(3, 1, 1, 1)
    ensures Missing([2, 1], 2) == {} && Repeats([2, 1]) == 0
  {
    assert [2, 1][..1] == [2];
    assert [2][..0] == [];
    assert ObserveAll(FRESH, [2]) == Counters(3, 1, 0, 2);
    assert Repeats([2]) == 0;
  }
}
