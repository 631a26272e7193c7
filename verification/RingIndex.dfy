/** Index arithmetic shared by the two ring buffers: the slot of a ticket, and the
    bit mask that stands for the modulus when the ring size is a power of two. */
module RingIndex {

  /** The slot of ticket `t` in a ring of `n` slots, lap by lap. */
  function Slot(t: nat, n: nat): (r: nat)
    requires 0 < n
    ensures r < n
    ensures t < n ==> r == t
    decreases t
  {
    if t < n then t else Slot(t - n, n)
  }

  /** Two tickets less than one lap apart use the same slot only if they are equal. */
  lemma {:induction false} SameSlotSameTicket(a: nat, b: nat, n: nat)
    requires 0 < n && a <= b < a + n
    requires Slot(a, n) == Slot(b, n)
    ensures a == b
    decreases b
  {
    if n <= a {
      SameSlotSameTicket(a - n, b - n, n);
    }
  }

  /** Tickets less than a lap apart: the later slot is the earlier one moved on, minus one lap at the end. */
  lemma {:induction false} SlotAfter(t: nat, k: nat, n: nat)
    requires 0 < n && k <= n
    ensures Slot(t + k, n) == if Slot(t, n) + k < n then Slot(t, n) + k else Slot(t, n) + k - n
    decreases t
  {
    if n <= t {
      SlotAfter(t - n, k, n);
      assert Slot(t + k, n) == Slot(t - n + k, n);
    }
  }

  /** The slot is the remainder. */
  lemma {:induction false} SlotIsModulus(t: nat, n: nat)
    requires 0 < n
    ensures Slot(t, n) == t % n
    decreases t
  {
    if n <= t {
      SlotIsModulus(t - n, n);
      ModOneLapLater(t - n, n);
    }
  }

  lemma ModOneLapLater(t: nat, n: nat)
    requires 0 < n
    ensures (t + n) % n == t % n
  {
    var q, r := t / n, t % n;
    Distribute(q + 1, q, n);
    DivModUnique(t + n, n, q + 1, r);
  }

  /** A non-zero multiple of `n` is at least `n` away from zero. */
  lemma MultipleIsFar(d: int, n: int)
    requires 0 < n && d != 0
    ensures d > 0 ==> d * n >= n
    ensures d < 0 ==> d * n <= -n
    decreases if d > 0 then d else -d
  {
    if d > 1 {
      MultipleIsFar(d - 1, n);
      assert d * n == (d - 1) * n + n;
    } else if d < -1 {
      MultipleIsFar(d + 1, n);
      assert d * n == (d + 1) * n - n;
    }
  }

  lemma Distribute(x: int, y: int, n: int)
    ensures (x - y) * n == x * n - y * n
  {}

  lemma DivModUnique(x: int, n: int, q: int, r: int)
    requires 0 < n && 0 <= r < n && x == q * n + r
    ensures x / n == q && x % n == r
  {
    var q', r' := x / n, x % n;
    assert x == q' * n + r';
    Distribute(q, q', n);
    if q != q' {
      MultipleIsFar(q - q', n);
    }
  }

  // ---- The mask ----

  function Pow2(k: nat): nat {
    if k == 0 then 1 else 2 * Pow2(k - 1)
  }

  /** Bitwise "and" of two unsigned words, bit by bit. */
  function BitAnd(x: nat, y: nat): nat
    decreases x
  {
    if x == 0 then 0 else (if x % 2 == 1 && y % 2 == 1 then 1 else 0) + 2 * BitAnd(x / 2, y / 2)
  }

  lemma BitAndZero(x: nat)
    ensures BitAnd(x, 0) == 0
  {}

  lemma ModPow2Split(x: nat, k: nat)
    requires 0 < k
    ensures Pow2(k - 1) > 0 && Pow2(k) > 0
    ensures x % Pow2(k) == x % 2 + 2 * (x / 2 % Pow2(k - 1))
  {
    Pow2Positive(k - 1);
    var p := Pow2(k - 1);
    var q, r := x / 2 / p, x / 2 % p;
    assert x / 2 == q * p + r;
    assert x == q * (2 * p) + (x % 2 + 2 * r) by { assert 2 * (q * p) == q * (2 * p); }
    DivModUnique(x, 2 * p, q, x % 2 + 2 * r);
  }

  lemma Pow2Positive(k: nat)
    ensures Pow2(k) > 0
  {}

  /** For a power-of-two capacity, `pos & mask_` is the slot of `pos`. */
  lemma MaskIsSlot(pos: nat, k: nat)
    ensures Pow2(k) > 0
    ensures BitAnd(pos, Pow2(k) - 1) == Slot(pos, Pow2(k))
  {
    MaskIsModulus(pos, k);
    SlotIsModulus(pos, Pow2(k));
  }

  lemma {:induction false} MaskIsModulus(x: nat, k: nat)
    ensures Pow2(k) > 0
    ensures BitAnd(x, Pow2(k) - 1) == x % Pow2(k)
    decreases k
  {
    Pow2Positive(k);
    if k == 0 {
      BitAndZero(x);
    } else {
      ModPow2Split(x, k);
      MaskIsModulus(x / 2, k - 1);
      var m := Pow2(k) - 1;
      assert m == 2 * (Pow2(k - 1) - 1) + 1;
      assert m % 2 == 1 && m / 2 == Pow2(k - 1) - 1;
      if x == 0 {
        assert 0 % Pow2(k) == 0;
      }
    }
  }

  /** What the queue's constructor accepts before it builds anything. */
  predicate AcceptedCapacity(capacity: nat) {
    !(capacity < 2 || BitAnd(capacity, capacity - 1) != 0)
  }

  lemma {:induction false} BitAndPredecessor(c: nat)
    requires 0 < c
    ensures BitAnd(c, c - 1) == 0 <==> IsPow2(c)
    decreases c
  {
    if c == 1 {
      assert c == Pow2(0);
      assert BitAnd(1, 0) == 0;
    } else if c % 2 == 1 {
      assert BitAnd(c, c - 1) == 2 * BitAnd(c / 2, (c - 1) / 2);
      assert (c - 1) / 2 == c / 2;
      BitAndSelf(c / 2);
    } else {
      assert (c - 1) / 2 == c / 2 - 1;
      assert (c - 1) % 2 == 1 && c % 2 == 0;
      BitAndPredecessor(c / 2);
      assert c == 2 * (c / 2) && BitAnd(c, c - 1) == 2 * BitAnd(c / 2, c / 2 - 1);
      HalfPower(c);
    }
  }

  ghost predicate IsPow2(c: nat) {
    exists k: nat :: c == Pow2(k)
  }

  lemma HalfPower(c: nat)
    requires 0 < c && c % 2 == 0
    ensures IsPow2(c) <==> IsPow2(c / 2)
  {
    if IsPow2(c) {
      var k: nat :| c == Pow2(k);
      assert c / 2 == Pow2(k - 1);
    }
    if IsPow2(c / 2) {
      var k: nat :| c / 2 == Pow2(k);
      assert c == Pow2(k + 1);
    }
  }

  lemma BitAndSelf(x: nat)
    ensures BitAnd(x, x) == x
  {}

  /** The constructor accepts a capacity exactly when it is a power of two that is at least two. */
  lemma CapacityCheckIsPowerOfTwo(capacity: nat)
    ensures AcceptedCapacity(capacity) <==> capacity >= 2 && IsPow2(capacity)
  {
    if capacity >= 2 {
      BitAndPredecessor(capacity);
    }
  }

  /** For every capacity the constructor accepts, masking a position selects its slot. */
  lemma MaskSelectsSlot(pos: nat, capacity: nat)
    requires AcceptedCapacity(capacity)
    ensures BitAnd(pos, capacity - 1) == Slot(pos, capacity)
  {
    CapacityCheckIsPowerOfTwo(capacity);
    var k: nat :| capacity == Pow2(k);
    MaskIsSlot(pos, k);
  }
}
