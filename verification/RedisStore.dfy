/** The Redis keys of one SKU and the two scripts that change them, each of which runs
    as a whole. A member of the pending set names SKU, user, quantity and request. */
module RedisStore {
  import opened Sums

  datatype Member = Member(sku: int, user: nat, qty: int, reqId: nat)

  datatype Stock = Missing | Units(n: int)

  datatype Keys = Keys(stock: Stock, bought: set<nat>, pending: set<Member>)

  /** Check and decrement. 1: reserved; 0: sold out; -1: already bought; -2: no such stock. */
  function DeductScript(k: Keys, m: Member): (Keys, int) {
    if m.user in k.bought then (k, -1)
    else if k.stock.Missing? then (k, -2)
    else if k.stock.n < m.qty then (k, 0)
    else (Keys(Units(k.stock.n - m.qty), k.bought + {m.user}, k.pending + {m}), 1)
  }

  /** Compensation, only for a user in the bought set. INCRBY on a missing key counts from zero. */
  function RollbackScript(k: Keys, m: Member): (Keys, int) {
    if m.user in k.bought then
      (Keys(Units((if k.stock.Units? then k.stock.n else 0) + m.qty), k.bought - {m.user}, k.pending - {m}), 1)
    else (k, 0)
  }

  /** Compensation undoes a reservation: rolling back what a deduction just took gives back the
      keys as they were, a pending entry of the same name aside. */
  lemma RollbackUndoesDeduct(k: Keys, m: Member)
    requires DeductScript(k, m).1 == 1
    ensures RollbackScript(DeductScript(k, m).0, m) == (k.(pending := k.pending - {m}), 1)
    ensures m !in k.pending ==> RollbackScript(DeductScript(k, m).0, m) == (k, 1)
  {
    var k' := DeductScript(k, m).0;
    assert k'.bought - {m.user} == k.bought;
    assert k'.pending - {m} == k.pending - {m};
    assert m !in k.pending ==> k.pending - {m} == k.pending;
  }

  /** What a deduction promises its caller: it grants exactly when the user has not bought and
      the stock suffices, a grant enters the user once, and nothing else ever changes. */
  lemma DeductGrantsOnce(k: Keys, m: Member, again: Member)
    ensures
      var (k', status) := DeductScript(k, m);
      && (status == 1 <==> m.user !in k.bought && m.user in k'.bought)
      && (status == 1 <==> k' != k)
      && (status == 1 && again.user == m.user ==> DeductScript(k', again) == (k', -1))
      && (k.stock.Units? && 0 <= k.stock.n ==> k'.stock.Units? && 0 <= k'.stock.n)
  {
    var (k', status) := DeductScript(k, m);
    assert status == 1 ==> m.user in k'.bought;
  }

  /** What each status of a deduction tells its caller, given what was there at the start and is
      reserved now: 0 means that too little is left, -1 that the user has a reservation, and -2
      only ever that the SKU has no stock entry. */
  lemma DeductStatusMeans(k: Keys, live: map<nat, int>, total: int, m: Member)
    requires Accounts(k, live, total)
    ensures
      var status := DeductScript(k, m).1;
      && (status == 1 <==> m.user !in live && total - Sum(live) >= m.qty)
      && (status == 0 <==> m.user !in live && total - Sum(live) < m.qty)
      && (status == -1 <==> m.user in live)
  {}

  lemma DeductNeedsStockEntry(k: Keys, m: Member)
    requires m.user !in k.bought
    ensures DeductScript(k, m) == (k, -2) <==> k.stock.Missing?
    ensures DeductScript(k, m).1 == -2 <==> k.stock.Missing?
  {}

  /** A rollback answers 1 exactly for a user with a reservation, who then has none; an increment
      of a missing stock entry counts from zero. */
  lemma RollbackStatusMeans(k: Keys, m: Member)
    ensures
      var (k', status) := RollbackScript(k, m);
      && (status == 1 <==> m.user in k.bought) && (status == 0 <==> k' == k && m.user !in k.bought)
      && m.user !in k'.bought
      && (status == 1 && k.stock.Missing? ==> k'.stock == Units(m.qty))
      && (status == 1 ==> m !in k'.pending && k'.pending + {m} == k.pending + {m})
  {}

  datatype Op = Deduct(m: Member) | Rollback(m: Member)

  function Apply(k: Keys, op: Op): Keys {
    if op.Deduct? then DeductScript(k, op.m).0 else RollbackScript(k, op.m).0
  }

  function ApplyAll(k: Keys, ops: seq<Op>): Keys
    decreases |ops|
  {
    if ops == [] then k else ApplyAll(Apply(k, ops[0]), ops[1..])
  }

  /** With one quantity throughout, any interleaving and any repetition of the scripts keeps
      the stock non-negative and stock plus quantity times buyers constant. */
  lemma {:induction false} UniformConservation(k: Keys, ops: seq<Op>, q: nat)
    requires k.stock.Units? && 0 <= k.stock.n
    requires forall i | 0 <= i < |ops| :: ops[i].m.qty == q
    ensures
      var k' := ApplyAll(k, ops);
      && k'.stock.Units? && 0 <= k'.stock.n
      && k'.stock.n + q * |k'.bought| == k.stock.n + q * |k.bought|
    decreases |ops|
  {
    if ops != [] {
      var user, k1 := ops[0].m.user, Apply(k, ops[0]);
      if k1 != k {
        if ops[0].Deduct? {
          assert |k.bought + {user}| == |k.bought| + 1;
          TimesOneMore(q, |k.bought|);
        } else {
          assert |k.bought| == |k.bought - {user}| + 1;
          TimesOneMore(q, |k.bought - {user}|);
        }
      }
      UniformConservation(k1, ops[1..], q);
    }
  }

  lemma TimesOneMore(q: nat, n: nat)
    ensures q * (n + 1) == q * n + q
  {}

  // ---- Mixed quantities ----

  /** `live` says which quantity each buyer's reservation took. */
  ghost predicate Accounts(k: Keys, live: map<nat, int>, total: int) {
    k.stock.Units? && k.bought == live.Keys && k.stock.n + Sum(live) == total
  }

  lemma DeductKeepsAccounts(k: Keys, live: map<nat, int>, total: int, m: Member)
    requires Accounts(k, live, total)
    ensures
      var (k', status) := DeductScript(k, m);
      Accounts(k', if status == 1 then live[m.user := m.qty] else live, total)
  {
    if DeductScript(k, m).1 == 1 { SumInsert(live, m.user, m.qty); }
  }

  /** A rollback keeps the account exactly when it finds no reservation or names the
      quantity the user's reservation took. */
  lemma RollbackKeepsAccountsExactly(k: Keys, live: map<nat, int>, total: int, m: Member)
    requires Accounts(k, live, total)
    ensures Accounts(RollbackScript(k, m).0, live - {m.user}, total)
            <==> m.user !in live || live[m.user] == m.qty
  {
    if m.user in live {
      SumTakeOut(live, m.user);
    } else {
      assert live - {m.user} == live;
    }
  }

  /** The live reservations after a script: a grant enters one, a rollback ends the user's. */
  function LiveAfter(k: Keys, live: map<nat, int>, op: Op): map<nat, int> {
    if op.Rollback? then live - {op.m.user}
    else if DeductScript(k, op.m).1 == 1 then live[op.m.user := op.m.qty]
    else live
  }

  /** Every rollback of the sequence that finds a reservation names the quantity it took. */
  predicate NamesLive(k: Keys, live: map<nat, int>, ops: seq<Op>)
    decreases |ops|
  {
    ops == []
    || ((ops[0].Rollback? && ops[0].m.user in live ==> live[ops[0].m.user] == ops[0].m.qty)
        && NamesLive(Apply(k, ops[0]), LiveAfter(k, live, ops[0]), ops[1..]))
  }

  /** The account is right before the first script and after every one. */
  ghost predicate AccountsThroughout(k: Keys, live: map<nat, int>, ops: seq<Op>, total: int)
    decreases |ops|
  {
    Accounts(k, live, total)
    && (ops == [] || AccountsThroughout(Apply(k, ops[0]), LiveAfter(k, live, ops[0]), ops[1..], total))
  }

  /** Any interleaving of scripts of any quantities keeps stock plus live reservations throughout
      exactly when every rollback names the quantity its user's reservation took. */
  lemma {:induction false} MixedConservation(k: Keys, live: map<nat, int>, ops: seq<Op>, total: int)
    requires Accounts(k, live, total)
    ensures AccountsThroughout(k, live, ops, total) <==> NamesLive(k, live, ops)
    decreases |ops|
  {
    if ops != [] {
      OpKeepsAccountsExactly(k, live, ops[0], total);
      var k', live' := Apply(k, ops[0]), LiveAfter(k, live, ops[0]);
      hide Accounts, LiveAfter;
      if Accounts(k', live', total) {
        MixedConservation(k', live', ops[1..], total);
      } else {
        assert !AccountsThroughout(k', live', ops[1..], total);
      }
    }
  }

  lemma OpKeepsAccountsExactly(k: Keys, live: map<nat, int>, op: Op, total: int)
    requires Accounts(k, live, total)
    ensures Accounts(Apply(k, op), LiveAfter(k, live, op), total)
            <==> (op.Rollback? && op.m.user in live ==> live[op.m.user] == op.m.qty)
  {
    if op.Deduct? {
      DeductKeepsAccounts(k, live, total, op.m);
    } else {
      RollbackKeepsAccountsExactly(k, live, total, op.m);
    }
  }

  /** A rollback repeated later, whatever else happened to the SKU in between except a new
      reservation by the same user, changes nothing. */
  lemma {:induction false} RepeatedRollbackTakesEffectOnce(k: Keys, m: Member, between: seq<Op>, again: Member)
    requires again.user == m.user && forall i | 0 <= i < |between| :: between[i].Deduct? ==> between[i].m.user != m.user
    ensures
      var k' := ApplyAll(RollbackScript(k, m).0, between);
      RollbackScript(k', again) == (k', 0)
  {
    StaysOut(RollbackScript(k, m).0, between, m.user);
  }

  lemma {:induction false} StaysOut(k: Keys, ops: seq<Op>, user: nat)
    requires user !in k.bought && forall i | 0 <= i < |ops| :: ops[i].Deduct? ==> ops[i].m.user != user
    ensures user !in ApplyAll(k, ops).bought
    decreases |ops|
  {
    if ops != [] { StaysOut(Apply(k, ops[0]), ops[1..], user); }
  }

  // ---- The retry loop ----

  /** What became of one call to the server. */
  datatype Call = Answered | AnswerLost | NeverArrived

  const MAX_RETRIES: nat := 3

  class SkuStore {
    var stock: Stock
    var bought: set<nat>
    var pending: set<Member>
    var deadLetters: seq<Member>

    constructor (stock: Stock)
      ensures Value() == Keys(stock, {}, {}) && deadLetters == []
    {
      this.stock, bought, pending, deadLetters := stock, {}, {}, [];
    }

    function Value(): Keys
      reads this
    {
      Keys(stock, bought, pending)
    }

    method EvalDeduct(m: Member) returns (status: int)
      modifies this`stock, this`bought, this`pending
      ensures (Value(), status) == DeductScript(old(Value()), m)
      ensures status == 1 <==> m.user !in old(bought) && m.user in bought
      ensures status != 1 ==> Value() == old(Value())
    {
      if m.user in bought {
        return -1;
      }
      if stock.Missing? {
        return -2;
      }
      if stock.n < m.qty {
        return 0;
      }
      stock := Units(stock.n - m.qty);
      bought := bought + {m.user};
      pending := pending + {m};
      return 1;
    }

    method EvalRollback(m: Member) returns (status: int)
      modifies this`stock, this`bought, this`pending
      ensures (Value(), status) == RollbackScript(old(Value()), m)
      ensures m.user !in bought && (status == 1 <==> m.user in old(bought))
    {
      if m.user in bought {
        bought := bought - {m.user};
        stock := Units((if stock.Units? then stock.n else 0) + m.qty);
        pending := pending - {m};
        return 1;
      }
      return 0;
    }

    /** Up to three calls until one is answered. However many of them reached the server, the
        rollback takes effect once; if none is answered the member goes to the dead letters. */
    method RollbackInventory(m: Member, calls: seq<Call>) returns (ok: bool)
      requires |calls| == 3
      modifies this
      ensures ok <==> Answered in calls
      ensures Value() == if exists i | 0 <= i < MAX_RETRIES ::
                             !calls[i].NeverArrived? && forall j | 0 <= j < i :: !calls[j].Answered?
                         then RollbackScript(old(Value()), m).0 else old(Value())
      ensures deadLetters == old(deadLetters) + (if ok then [] else [m])
    {
      var i := 0;
      while i < MAX_RETRIES
        invariant 0 <= i <= MAX_RETRIES
        invariant forall j | 0 <= j < i :: !calls[j].Answered?
        invariant Value() == if exists j | 0 <= j < i :: !calls[j].NeverArrived?
                             then RollbackScript(old(Value()), m).0 else old(Value())
        invariant deadLetters == old(deadLetters)
      {
        if !calls[i].NeverArrived? {
          var _ := EvalRollback(m);
        }
        if calls[i].Answered? {
          assert deadLetters == old(deadLetters) + [];
          return true;
        }
        i := i + 1;
      }
      deadLetters := deadLetters + [m];
      return false;
    }
  }
}
