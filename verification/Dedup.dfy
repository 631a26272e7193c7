/** The duplicate filter: a set of seen ids that is emptied when it grows past a limit. */
module Dedup {
  const DEDUP_LIMIT: nat := 100_000

  /** The set after an id that was not in it has been let through. */
  function Mark(seen: set<nat>, id: nat): set<nat> {
    var grown := seen + {id};
    if |grown| > DEDUP_LIMIT then {} else grown
  }

  /** The filter with what it let through so far and how often it was emptied. */
  datatype Filter = Filter(seen: set<nat>, accepted: seq<nat>, clears: nat)

  function Offer(f: Filter, id: nat): Filter {
    if id in f.seen then f
    else
      var seen := Mark(f.seen, id);
      Filter(seen, f.accepted + [id], if seen == {} then f.clears + 1 else f.clears)
  }

  function OfferAll(ids: seq<nat>): Filter {
    if ids == [] then Filter({}, [], 0)
    else Offer(OfferAll(ids[..|ids| - 1]), ids[|ids| - 1])
  }

  function Count(ids: seq<nat>, id: nat): nat {
    if ids == [] then 0
    else Count(ids[..|ids| - 1], id) + (if ids[|ids| - 1] == id then 1 else 0)
  }

  /** How many ids were accepted when the filter was emptied for the given time. */
  function AcceptedAtClear(clears: nat): nat { clears * (DEDUP_LIMIT + 1) }

  /** The accepted ids since the filter was last emptied. */
  ghost function SinceClear(f: Filter): seq<nat>
    requires AcceptedAtClear(f.clears) <= |f.accepted|
  {
    f.accepted[AcceptedAtClear(f.clears)..]
  }

  ghost predicate SizesOk(f: Filter) {
    |f.seen| <= DEDUP_LIMIT && |f.accepted| == AcceptedAtClear(f.clears) + |f.seen|
  }

  ghost predicate SeenOk(f: Filter) {
    AcceptedAtClear(f.clears) <= |f.accepted| && forall id :: id in f.seen <==> id in SinceClear(f)
  }

  ghost predicate CountsOk(f: Filter) {
    forall id :: Count(f.accepted, id) <= f.clears + (if id in f.seen then 1 else 0)
  }

  ghost predicate Inv(f: Filter) {
    SizesOk(f) && SeenOk(f) && CountsOk(f)
  }

  lemma CountOneMore(ids: seq<nat>, id: nat, x: nat)
    ensures Count(ids + [id], x) == Count(ids, x) + (if x == id then 1 else 0)
  {
    assert (ids + [id])[..|ids|] == ids;
  }

  lemma OfferKeepsCounts(f: Filter, id: nat)
    requires CountsOk(f) && id !in f.seen
    ensures CountsOk(Offer(f, id))
  {
    hide Count;
    var f' := Offer(f, id);
    forall x ensures Count(f'.accepted, x) <= f'.clears + (if x in f'.seen then 1 else 0) {
      CountOneMore(f.accepted, id, x);
      assert Count(f.accepted, x) <= f.clears + (if x in f.seen then 1 else 0);
    }
  }

  lemma OfferKeepsSizes(f: Filter, id: nat)
    requires SizesOk(f) && id !in f.seen
    ensures SizesOk(Offer(f, id))
    ensures Offer(f, id).seen == if |f.seen| < DEDUP_LIMIT then f.seen + {id} else {}
  {
    assert |f.seen + {id}| == |f.seen| + 1;
    assert AcceptedAtClear(f.clears + 1) == AcceptedAtClear(f.clears) + DEDUP_LIMIT + 1;
    hide AcceptedAtClear;
  }

  lemma OfferKeepsSeen(f: Filter, id: nat)
    requires SizesOk(f) && SeenOk(f) && id !in f.seen
    ensures SeenOk(Offer(f, id))
  {
    hide AcceptedAtClear, Mark;
    OfferKeepsSizes(f, id);
    var f' := Offer(f, id);
    if f'.seen != {} {
      assert SinceClear(f') == SinceClear(f) + [id];
    } else {
      assert SinceClear(f') == [];
    }
  }

  lemma OfferKeepsInv(f: Filter, id: nat)
    requires Inv(f)
    ensures Inv(Offer(f, id))
  {
    hide SizesOk, SeenOk, CountsOk;
    if id !in f.seen {
      OfferKeepsSizes(f, id);
      OfferKeepsSeen(f, id);
      OfferKeepsCounts(f, id);
    }
  }

  lemma {:induction false} FilterInv(ids: seq<nat>)
    ensures Inv(OfferAll(ids))
    decreases |ids|
  {
    if ids != [] {
      FilterInv(ids[..|ids| - 1]);
      OfferKeepsInv(OfferAll(ids[..|ids| - 1]), ids[|ids| - 1]);
    }
  }

  /** After any calls the set holds at most 100000 ids; and an id was let through at most once
      per 100001 accepted calls, rounded up. */
  lemma DedupBound(ids: seq<nat>, id: nat)
    ensures |OfferAll(ids).seen| <= 100_000
    ensures Count(OfferAll(ids).accepted, id) <= (|OfferAll(ids).accepted| + 100_000) / 100_001
    ensures |OfferAll(ids).accepted| <= 100_001 ==> Count(OfferAll(ids).accepted, id) <= 1
  {
    FilterInv(ids);
    var f := OfferAll(ids);
    if id in f.seen {
      assert |f.seen| >= 1 by { assert f.seen != {}; }
    }
  }

  /** The filter is exact only since it was last emptied: a call is judged a duplicate exactly
      when its id was accepted after that. */
  lemma DuplicateExactly(ids: seq<nat>, id: nat)
    ensures
      var f := OfferAll(ids);
      && AcceptedAtClear(f.clears) <= |f.accepted|
      && (Offer(f, id) == f <==> id in SinceClear(f))
      && f.clears == |f.accepted| / 100_001
  {
    FilterInv(ids);
    var f := OfferAll(ids);
    if id !in f.seen {
      assert |Offer(f, id).accepted| == |f.accepted| + 1;
    }
  }
}
