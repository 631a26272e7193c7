/** What a call on the single-producer single-consumer ring does while the other side stands still
    wherever it is: one side running alone, from any state the machine can be in. */
module SpscSolo {
  import opened SpscSteps

  /** A run of one side alone leads from `s` to `s'`. */
  ghost predicate Alone<T(!new)>(s: State<T>, producing: bool, s': State<T>) {
    exists run: seq<Act<T>> :: ValidRun(s, run) && Exec(s, run) == s'
      && forall k | 0 <= k < |run| :: if producing then run[k].Offer? || run[k].ProducerStep? else run[k].Poll? || run[k].ConsumerStep?
  }

  lemma {:induction false} RunsCompose<T>(s: State<T>, before: seq<Act<T>>, after: seq<Act<T>>)
    requires ValidRun(s, before) && ValidRun(Exec(s, before), after)
    ensures ValidRun(s, before + after) && Exec(s, before + after) == Exec(Exec(s, before), after)
    decreases |before|
  {
    hide Step, Enabled;
    if before == [] {
      assert before + after == after;
    } else {
      RunsCompose(Step(s, before[0]), before[1..], after);
      assert (before + after)[1..] == before[1..] + after;
    }
  }

  lemma AloneOn<T(!new)>(s0: State<T>, producing: bool, s: State<T>, a: Act<T>)
    requires (s == s0 || Alone(s0, producing, s)) && Enabled(s, a) && Inv(s)
    requires if producing then a.Offer? || a.ProducerStep? else a.Poll? || a.ConsumerStep?
    ensures Alone(s0, producing, Step(s, a)) && Inv(Step(s, a))
  {
    StepKeepsInv(s, a);
    hide Step, Enabled, Inv;
    var run: seq<Act<T>> := [];
    assert ValidRun(s0, []) && Exec(s0, []) == s0;
    if s != s0 {
      run :| ValidRun(s0, run) && Exec(s0, run) == s
        && forall k | 0 <= k < |run| :: if producing then run[k].Offer? || run[k].ProducerStep? else run[k].Poll? || run[k].ConsumerStep?;
    }
    var more := [a];
    assert more[1..] == [] && more[0] == a;
    assert ValidRun(Step(s, a), []) && Exec(Step(s, a), []) == Step(s, a);
    assert ValidRun(s, more) && Exec(s, more) == Step(s, a);
    RunsCompose(s0, run, more);
  }

  lemma {:induction false} CopyFinishes<T(!new)>(s0: State<T>, s: State<T>) returns (s': State<T>)
    requires Alone(s0, true, s) && Inv(s) && s.producer.Copying?
    ensures Alone(s0, true, s') && Inv(s') && s'.producer == Ready(true)
    ensures s'.produced == s.produced + s.producer.items
    ensures s'.consumed == s.consumed && s'.consumer == s.consumer
    decreases |s.producer.items| - s.producer.done
  {
    hide Alone;
    BothSidesCanStep(s, ProducerStep);
    AloneOn(s0, true, s, ProducerStep);
    hide Inv;
    var s1 := Step(s, ProducerStep);
    s' := s1;
    if s.producer.done < |s.producer.items| {
      s' := CopyFinishes(s0, s1);
    } else {
      assert s.producer.done == |s.producer.items| by { CopyBound(s); }
    }
  }

  lemma CopyBound<T>(s: State<T>)
    requires Inv(s) && s.producer.Copying?
    ensures s.producer.done <= |s.producer.items|
  {}

  /** A batch offered while the consumer stands still is appended whole if it fits, and otherwise
      refused, and nothing else changes to the eye. */
  lemma UndisturbedOffer<T(!new)>(s: State<T>, items: seq<T>) returns (s': State<T>)
    requires Inv(s) && s.producer.Ready?
    ensures Alone(s, true, s') && Inv(s') && s'.consumed == s.consumed && s'.consumer == s.consumer
    ensures if |Visible(s)| + |items| <= Size(s) - 1
            then s'.producer == Ready(true) && Visible(s') == Visible(s) + items
            else s'.producer == Ready(false) && Visible(s') == Visible(s)
  {
    hide Alone;
    BothSidesCanStep(s, Offer(items));
    AloneOn(s, true, s, Offer(items));
    var s1 := Step(s, Offer(items));
    BothSidesCanStep(s1, ProducerStep);
    DecisionAtLoad(s1);
    AloneOn(s, true, s1, ProducerStep);
    var s2 := Step(s1, ProducerStep);
    s' := s2;
    if s2.producer.Copying? {
      s' := CopyFinishes(s, s2);
      assert (s.produced + items)[|s.consumed|..] == Visible(s) + items;
    }
  }

  lemma {:induction false} ReadFinishes<T(!new)>(s0: State<T>, s: State<T>) returns (s': State<T>)
    requires Alone(s0, false, s) && Inv(s) && s.consumer.Reading?
    ensures Alone(s0, false, s') && Inv(s') && s'.produced == s.produced && s'.producer == s.producer
    ensures |s.consumed| + s.consumer.count <= |s.produced|
    ensures var got := s.produced[|s.consumed|..|s.consumed| + s.consumer.count];
            s'.consumer == Waiting(got) && s'.consumed == s.consumed + got
    decreases s.consumer.count - |s.consumer.got|
  {
    hide Alone;
    BothSidesCanStep(s, ConsumerStep);
    AloneOn(s0, false, s, ConsumerStep);
    var s1 := Step(s, ConsumerStep);
    s' := s1;
    if |s.consumer.got| < s.consumer.count {
      s' := ReadFinishes(s0, s1);
    }
  }

  /** A poll while the producer stands still takes from the front as much as there is, up to its
      maximum, and returns it. */
  lemma UndisturbedPoll<T(!new)>(s: State<T>, max: nat) returns (s': State<T>)
    requires Inv(s) && s.consumer.Waiting?
    ensures Alone(s, false, s') && Inv(s') && s'.produced == s.produced && s'.producer == s.producer
    ensures var count := if |Visible(s)| < max then |Visible(s)| else max;
            s'.consumer == Waiting(Visible(s)[..count]) && Visible(s') == Visible(s)[count..]
  {
    hide Alone;
    var s2 := PollBegins(s, max);
    hide Inv;
    s' := s2;
    if s2.consumer.Reading? {
      s' := ReadFinishes(s, s2);
      VisibleShrinks(s.produced, |s.consumed|, s2.consumer.count);
    }
  }

  lemma PollBegins<T(!new)>(s: State<T>, max: nat) returns (s': State<T>)
    requires Inv(s) && s.consumer.Waiting?
    ensures Alone(s, false, s') && Inv(s')
    ensures |Visible(s)| == |s.produced| - |s.consumed|
    ensures var count := if |Visible(s)| < max then |Visible(s)| else max;
            s' == s.(consumer := if Visible(s) == [] then Waiting([]) else Reading(count, []))
  {
    hide Alone;
    BothSidesCanStep(s, Poll(max));
    AloneOn(s, false, s, Poll(max));
    var s1 := Step(s, Poll(max));
    BothSidesCanStep(s1, ConsumerStep);
    DecisionAtLoad(s1);
    AloneOn(s, false, s1, ConsumerStep);
    s' := Step(s1, ConsumerStep);
    hide Inv;
  }

  lemma VisibleShrinks<T>(produced: seq<T>, c: nat, count: nat)
    requires c + count <= |produced|
    ensures produced[c..][..count] == produced[c..c + count]
    ensures produced[c + count..] == produced[c..][count..]
  {}
}
