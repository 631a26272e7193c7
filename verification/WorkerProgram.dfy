/** The worker as a program: fields updated in place, the log a real file, and the atomics
    shared with the other workers an object of their own. */
module WorkerProgram {
  import opened Worker
  import D = Dedup
  import opened Wal

  class Atomics {
    var sold: int
    var flags: map<int, bool>
    var acks: nat

    constructor (flags: map<int, bool>)
      ensures Value() == Shared(0, flags, 0)
    {
      sold, this.flags, acks := 0, flags, 0;
    }

    function Value(): Shared
      reads this
    {
      Shared(sold, flags, acks)
    }
  }

  /** The C types of a request's fields. */
  predicate Typed(req: Request) {
    FitsSigned(req.sku, 8) && FitsSigned(req.qty, 4) && req.guest < Pow256(8) && req.id < Pow256(8)
  }

  function RecordOf(req: Request, stamp: nat): WalRecord {
    WalRecord(stamp, req.sku, req.qty, req.id, req.guest)
  }

  function Records(reqs: seq<Request>, stamps: seq<nat>): (rs: seq<WalRecord>)
    requires |reqs| == |stamps|
    ensures |rs| == |reqs|
  {
    seq(|reqs|, i requires 0 <= i < |reqs| => RecordOf(reqs[i], stamps[i]))
  }

  // ---- After a crash ----

  function RequestOf(r: WalRecord): Request {
    Request(r.sku, r.qty, r.guestId, r.requestId)
  }

  /** What the recovery callback sees of a log file, as requests. */
  function Recovered(file: seq<Byte>): seq<Request> {
    var rs := WholeRecords(file);
    seq(|rs|, i requires 0 <= i < |rs| => RequestOf(rs[i]))
  }

  lemma RecoveredIsLogged(file: seq<Byte>, logged: seq<Request>, stamps: seq<nat>, torn: seq<Byte>)
    requires |logged| == |stamps| && Holds(file, Records(logged, stamps)) && |torn| < RECORD_SIZE
    ensures Recovered(file + torn) == logged
  {
    RecoveryIsExact(file, Records(logged, stamps), torn);
  }

  /** The process dies at any moment of `Process`, with any part of the next record on disk. The
      requests read back from the bytes begin with every reported sale in order, and
      replaying them gives the inventory of that moment or lags it by the request at hand. */
  lemma CrashLosesNoReportedSale(init: map<int, int>, w: State, g: Shared, req: Request, at: nat,
                                 file: seq<Byte>, stamps: seq<nat>, torn: seq<Byte>)
    requires Settled(init, w) && !IsBenchmark(req) && at < |Moments(w, g, req)|
    requires |stamps| == |Moments(w, g, req)[at].w.logged| && |torn| < RECORD_SIZE
    requires Holds(file, Records(Moments(w, g, req)[at].w.logged, stamps))
    ensures
      var m, back := Moments(w, g, req)[at].w, Recovered(file + torn);
      && Successes(m.results) <= back <= Successes(m.results) + [req]
      && (m.inventory == Replay(init, back) || m.inventory == Replay(init, back + [req]))
  {
    hide Moments, Holds, Settled, Replay, Records;
    LogBeforeResultAtEveryMoment(init, w, g, req);
    assert Moments(w, g, req)[at] in Moments(w, g, req);
    RecoveredIsLogged(file, Moments(w, g, req)[at].w.logged, stamps, torn);
  }

  /** Between two calls the replay of the file, torn tail and all, is the inventory itself. */
  lemma FileReplaysToInventory(init: map<int, int>, g: Shared, reqs: seq<Request>,
                               file: seq<Byte>, stamps: seq<nat>, torn: seq<Byte>)
    requires NoBenchmarks(reqs) && forall sku | sku in init :: 0 <= init[sku]
    requires |torn| < RECORD_SIZE
    requires var w := RunAll(Worker.State.State(init, {}, [], []), g, reqs).0;
             |stamps| == |w.logged| && Holds(file, Records(w.logged, stamps))
    ensures Replay(init, Recovered(file + torn)) == RunAll(Worker.State.State(init, {}, [], []), g, reqs).0.inventory
  {
    hide Holds, Records, Replay, RunAll, Balanced;
    NoOverselling(init, g, reqs);
    var w := RunAll(Worker.State.State(init, {}, [], []), g, reqs).0;
    RecoveredIsLogged(file, w.logged, stamps, torn);
  }

  class WorkerThread {
    const shared: Atomics
    const wal: WalLogger
    var inventory: map<int, int>
    var seenRequests: set<nat>
    var results: seq<Result>
    ghost var logged: seq<Request>
    ghost var stamps: seq<nat>

    ghost function State(): State
      reads this
    {
      Worker.State.State(inventory, seenRequests, logged, results)
    }

    /** The log file holds one record for each logged request. */
    ghost predicate Valid()
      reads this, wal
    {
      wal.isOpen && |logged| == |stamps| && Holds(wal.file, Records(logged, stamps))
    }

    constructor (shared: Atomics, inventory: map<int, int>)
      ensures Valid() && this.shared == shared && fresh(wal)
      ensures State() == Worker.State.State(inventory, {}, [], [])
    {
      this.shared := shared;
      this.inventory, seenRequests, results, logged, stamps := inventory, {}, [], [], [];
      wal := new WalLogger([]);
    }

    /** True for an id in the set; otherwise inserts it and empties a set grown too large. */
    method IsDuplicate(id: nat) returns (duplicate: bool)
      modifies this`seenRequests
      ensures duplicate <==> id in old(seenRequests)
      ensures seenRequests == if duplicate then old(seenRequests) else D.Mark(old(seenRequests), id)
    {
      if id in seenRequests {
        return true;
      }
      seenRequests := seenRequests + {id};
      if |seenRequests| > D.DEDUP_LIMIT {
        seenRequests := {};
      }
      return false;
    }

    /** Appends one record; `now` is the clock and `padding` what the struct's padding holds. */
    method WriteToWal(req: Request, now: nat, padding: seq<Byte>)
      requires Valid() && Typed(req) && now < Pow256(8) && |padding| == 4
      modifies wal`file, this`logged, this`stamps
      ensures Valid() && logged == old(logged) + [req]
      ensures wal.file == old(wal.file) + Encode(RecordOf(req, now), padding)
    {
      var record := RecordOf(req, now);
      var bytes := Encode(record, padding);
      HoldsAppend(wal.file, Records(logged, stamps), record, padding);
      var ok := wal.Append(bytes, |bytes|);
      assert Records(logged + [req], stamps + [now]) == Records(logged, stamps) + [record];
      logged, stamps := logged + [req], stamps + [now];
    }

    /** One request: the whole new state is what the state machine says. */
    method Process(req: Request, now: nat, padding: seq<Byte>)
      requires Valid() && Typed(req) && now < Pow256(8) && |padding| == 4 && !IsBenchmark(req)
      modifies this, wal`file, shared
      ensures Valid()
      ensures (State(), shared.Value()) == Worker.Process(old(State()), old(shared.Value()), req)
    {
      if req.id == WARM_UP_ID {
        return;
      }
      if req.id == BARRIER_ID {
        shared.acks := shared.acks + 1;
        return;
      }
      var duplicate := IsDuplicate(req.id);
      if duplicate {
        return;
      }
      var status := 0;
      if req.sku in inventory {
        if inventory[req.sku] >= req.qty {
          inventory := inventory[req.sku := inventory[req.sku] - req.qty];
          shared.sold := shared.sold + req.qty;
          if inventory[req.sku] == 0 && req.sku in shared.flags {
            shared.flags := shared.flags[req.sku := true];
          }
          WriteToWal(req, now, padding);
          status := 1;
        } else {
          status := 2;
          if inventory[req.sku] == 0 && req.sku in shared.flags {
            shared.flags := shared.flags[req.sku := true];
          }
        }
      }
      results := results + [Result(req, status)];
    }

    /** The loop of the worker thread over one dequeued batch. */
    method ProcessBatch(batch: seq<Request>, clock: seq<nat>, padding: seq<Byte>)
      requires Valid() && |clock| == |batch| && |padding| == 4
      requires forall i | 0 <= i < |batch| :: Typed(batch[i]) && !IsBenchmark(batch[i]) && clock[i] < Pow256(8)
      modifies this, wal`file, shared
      ensures Valid()
      ensures (State(), shared.Value()) == RunAll(old(State()), old(shared.Value()), batch)
    {
      var i := 0;
      while i < |batch|
        invariant 0 <= i <= |batch| && Valid()
        invariant (State(), shared.Value()) == RunAll(old(State()), old(shared.Value()), batch[..i])
      {
        Process(batch[i], clock[i], padding);
        assert batch[..i + 1][..i] == batch[..i];
        i := i + 1;
      }
      assert batch[..i] == batch;
    }
  }
}
