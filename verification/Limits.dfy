/** Where the stop's promise ends: exactly when it can leave accepted requests behind. */
module Limits {
  import opened Pipeline
  import opened Worker
  import opened TicketQueue
  import opened Stop
  import opened Schedules

  // ---- A stop loses what is still queued ----

  ghost predicate AllProcessed(e: Engine) {
    forall i | 0 <= i < |e.shards| :: e.shards[i].processed == e.shards[i].accepted
  }

  /** The documentation promises that a graceful stop processes everything in flight. From any
      reachable state, with any number of workers, the stop can go so that, with nothing
      claimed any more, exactly the entries stay unprocessed that the dispatchers had not committed
      themselves to when it began. */
  lemma StopCanLoseUncommitted(n: nat, inventory: map<int, int>, flags: map<int, bool>, before: seq<Act>)
    returns (after: seq<Act>)
    requires 0 < n && ValidRun(Init(n, inventory, flags), before)
    requires Exec(Init(n, inventory, flags), before).stopper.Up?
    ensures
      var e := Exec(Init(n, inventory, flags), before);
      && |e.shards| == n && ValidRun(e, after) && ClaimsNothing(e, after)
      && var e' := Exec(e, after);
         && |e'.shards| == n && e'.stopper.Down?
         && forall i | 0 <= i < n ::
              var s, s' := e.shards[i], e'.shards[i];
              s'.accepted == s.accepted && s'.processed + Values(Uncommitted(s)) == s.accepted
  {
    hide ValidRun, Exec, ClaimsNothing, StopInv, FlowInv, Uncommitted;
    var e0 := Init(n, inventory, flags);
    InitStops(n, inventory, flags);
    RunKeepsStop(e0, before);
    var e := Exec(e0, before);
    var e' := StopCanComplete(e);
    after :| ValidRun(e, after) && ClaimsNothing(e, after) && Exec(e, after) == e';
    RunsCompose(e0, before, after);
    StoppedShardsAreSettled(n, inventory, flags, before + after);
  }

  /** Exactly when a stop is sure to lose nothing: with nothing claimed any more, every stop
      processes everything accepted if and only if the dispatchers have committed themselves
      to every queued entry. */
  lemma StopLosesNothingExactly(n: nat, inventory: map<int, int>, flags: map<int, bool>, before: seq<Act>)
    requires 0 < n && ValidRun(Init(n, inventory, flags), before)
    requires Exec(Init(n, inventory, flags), before).stopper.Up?
    ensures
      var e := Exec(Init(n, inventory, flags), before);
      (forall after | ValidRun(e, after) && ClaimsNothing(e, after) && Exec(e, after).stopper.Down? ::
         AllProcessed(Exec(e, after)))
      <==> AllCommitted(e)
  {
    hide ValidRun, Exec, ClaimsNothing, Uncommitted;
    var e0 := Init(n, inventory, flags);
    var e := Exec(e0, before);
    if AllCommitted(e) {
      forall after | ValidRun(e, after) && ClaimsNothing(e, after) && Exec(e, after).stopper.Down?
        ensures AllProcessed(Exec(e, after))
      {
        StopAfterQuietLosesNothing(n, inventory, flags, before, after);
      }
    } else {
      var after := StopCanLoseUncommitted(n, inventory, flags, before);
      var i :| 0 <= i < |e.shards| && Uncommitted(e.shards[i]) != [];
      assert |Exec(e, after).shards[i].accepted| == |Exec(e, after).shards[i].processed| + |Uncommitted(e.shards[i])|;
      assert !AllProcessed(Exec(e, after));
    }
  }
}
