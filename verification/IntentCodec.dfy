/** The order payload `request,user,sku,qty[,ts]` in decimal: how it is printed and read. */
module IntentCodec {
  import RingIndex

  datatype Option<T> = None | Some(value: T)

  datatype Intent = Intent(request: nat, user: nat, sku: nat, qty: nat, ts: nat)

  const U32: nat := 0x1_0000_0000
  const U64: nat := 0x1_0000_0000_0000_0000

  predicate InRange(x: Intent) {
    x.request < U64 && x.user < U64 && x.sku < U32 && x.qty < U32 && x.ts < U64
  }

  // ---- Decimal numbers ----

  predicate Digits(s: string) {
    forall k | 0 <= k < |s| :: '0' <= s[k] <= '9'
  }

  /** The number a digit string writes, however long. */
  function Value(s: string): nat
    requires Digits(s)
  {
    if s == "" then 0 else Value(s[..|s| - 1]) * 10 + (s[|s| - 1] - '0') as nat
  }

  function Pow10(k: nat): nat {
    if k == 0 then 1 else 10 * Pow10(k - 1)
  }

  lemma Pow10Step(k: nat)
    ensures Pow10(k + 1) == 10 * Pow10(k)
  {}

  /** The value is the decimal one: putting digits behind others shifts these by a power of ten. */
  lemma {:induction false} ValueAppend(a: string, b: string)
    requires Digits(a) && Digits(b)
    ensures Value(a + b) == Value(a) * Pow10(|b|) + Value(b)
    ensures |b| == 1 ==> Value(b) == (b[0] - '0') as nat
    decreases |b|
  {
    if b == "" {
      assert a + b == a;
    } else {
      var b', d := b[..|b| - 1], (b[|b| - 1] - '0') as nat;
      ValueAppend(a, b');
      assert (a + b)[..|a + b| - 1] == a + b';
      assert Value(a + b) == Value(a + b') * 10 + d && Value(b) == Value(b') * 10 + d;
      hide Value, Digits, Pow10;
      ShiftedSum(Value(a), Pow10(|b'|), Value(b'), d);
      assert Pow10(|b|) == 10 * Pow10(|b'|) by { Pow10Step(|b'|); }
    }
  }

  lemma ShiftedSum(x: nat, p: nat, y: nat, d: nat)
    ensures (x * p + y) * 10 + d == x * (10 * p) + (y * 10 + d)
  {}

  function Decimal(n: nat): (s: string)
    ensures s != "" && Digits(s)
  {
    var d := [('0' as int + n % 10) as char];
    if n < 10 then d else Decimal(n / 10) + d
  }

  lemma {:induction false} DecimalRoundTrip(n: nat)
    ensures Value(Decimal(n)) == n
  {
    var s := Decimal(n);
    if n >= 10 {
      DecimalRoundTrip(n / 10);
      assert s[..|s| - 1] == Decimal(n / 10);
    }
  }

  /** What `parse_u64` stores: the value cut to 64 bits. */
  function Number(s: string): Option<nat> {
    if s != "" && Digits(s) then Some(Cut(Value(s))) else None
  }

  /** What `parse_u32` stores: it rejects what does not fit, but only after the cut. */
  function SmallNumber(s: string): Option<nat> {
    var n := Number(s);
    if n.Some? && n.value < U32 then n else None
  }

  function Cut(n: nat): nat { n % U64 }

  lemma CutStep(n: nat, d: nat)
    ensures Cut(Cut(n) * 10 + d) == Cut(n * 10 + d)
  {
    var q, rest := n / U64, n % U64 * 10 + d;
    assert n * 10 + d == (10 * q + rest / U64) * U64 + rest % U64;
    RingIndex.DivModUnique(n * 10 + d, U64, 10 * q + rest / U64, rest % U64);
  }

  method ParseU64(s: string) returns (r: Option<nat>)
    ensures r == Number(s)
  {
    if s == "" { return None; }
    var val := 0;
    assert Cut(val) == val;
    hide Cut;
    for i := 0 to |s|
      invariant Digits(s[..i]) && val == Cut(Value(s[..i]))
    {
      if s[i] < '0' || s[i] > '9' { return None; }
      assert s[..i + 1][..i] == s[..i];
      CutStep(Value(s[..i]), (s[i] - '0') as nat);
      val := Cut(val * 10 + (s[i] - '0') as nat);
    }
    assert s[..|s|] == s;
    return Some(val);
  }

  method ParseU32(s: string) returns (r: Option<nat>)
    ensures r == SmallNumber(s)
  {
    var tmp := ParseU64(s);
    if tmp.None? || tmp.value > 0xFFFF_FFFF { return None; }
    return tmp;
  }

  // ---- Fields ----

  predicate CommaFree(s: string) { ',' !in s }

  function Join(fs: seq<string>): string
    requires fs != []
  {
    if |fs| == 1 then fs[0] else Join(fs[..|fs| - 1]) + "," + fs[|fs| - 1]
  }

  /** The fields of a payload, all of them. */
  function Fields(p: string): (fs: seq<string>)
    ensures fs != []
  {
    if p == "" then [""]
    else
      var fs, c := Fields(p[..|p| - 1]), p[|p| - 1];
      if c == ',' then fs + [""] else fs[|fs| - 1 := fs[|fs| - 1] + [c]]
  }

  lemma {:induction false} JoinOfFields(p: string)
    ensures Join(Fields(p)) == p
    ensures forall k | 0 <= k < |Fields(p)| :: CommaFree(Fields(p)[k])
  {
    if p != "" {
      var q, c := p[..|p| - 1], p[|p| - 1];
      JoinOfFields(q);
      var fs := Fields(q);
      if c == ',' {
        assert (fs + [""])[..|fs|] == fs;
      } else {
        var gs := fs[|fs| - 1 := fs[|fs| - 1] + [c]];
        assert gs[..|fs| - 1] == fs[..|fs| - 1];
        assert Join(gs) == Join(fs) + [c];
      }
      assert p == q + [c];
    }
  }

  lemma {:induction false} FieldsAppend(p: string, s: string)
    requires CommaFree(s)
    ensures Fields(p + "," + s) == Fields(p) + [s]
    decreases |s|
  {
    var whole := p + "," + s;
    if s == "" {
      assert whole[..|whole| - 1] == p;
    } else {
      var s' := s[..|s| - 1];
      FieldsAppend(p, s');
      assert whole[..|whole| - 1] == p + "," + s';
      assert s == s' + [s[|s| - 1]];
      assert (Fields(p) + [s'])[|Fields(p)| := s' + [s[|s| - 1]]] == Fields(p) + [s];
    }
  }

  lemma {:induction false} FieldsOfOne(s: string)
    requires CommaFree(s)
    ensures Fields(s) == [s]
    decreases |s|
  {
    if s != "" {
      FieldsOfOne(s[..|s| - 1]);
      assert s == s[..|s| - 1] + [s[|s| - 1]];
    }
  }

  /** With `JoinOfFields`: the fields are the only way to cut a payload at its commas. */
  lemma {:induction false} FieldsOfJoin(fs: seq<string>)
    requires fs != [] && forall k | 0 <= k < |fs| :: CommaFree(fs[k])
    ensures Fields(Join(fs)) == fs
    decreases |fs|
  {
    hide Fields, CommaFree;
    if |fs| == 1 {
      FieldsOfOne(fs[0]);
    } else {
      var init, s := fs[..|fs| - 1], fs[|fs| - 1];
      FieldsOfJoin(init);
      FieldsAppend(Join(init), s);
      assert fs == init + [s];
    }
  }

  // ---- Payloads ----

  function Print(x: Intent): string {
    Join([Decimal(x.request), Decimal(x.user), Decimal(x.sku), Decimal(x.qty), Decimal(x.ts)])
  }

  /** What a payload says, if it is well formed. A missing or empty fifth field reads as 0, and
      fields after the fifth are ignored. */
  function Read(p: string): Option<Intent> {
    ReadFields(Fields(p))
  }

  function ReadFields(f: seq<string>): Option<Intent> {
    if |f| < 4 then None
    else
      var ts := if |f| >= 5 && f[4] != "" then Number(f[4]) else Some(0);
      match (Number(f[0]), Number(f[1]), SmallNumber(f[2]), SmallNumber(f[3]), ts)
      case (Some(a), Some(b), Some(c), Some(d), Some(e)) => Some(Intent(a, b, c, d, e))
      case _ => None
  }

  /** The printed payload has the five fields in the order request, user, SKU, quantity, time. */
  lemma PrintedFields(x: Intent)
    ensures
      var fs := Fields(Print(x));
      && |fs| == 5 && (forall k | 0 <= k < 5 :: Digits(fs[k]))
      && Value(fs[0]) == x.request && Value(fs[1]) == x.user && Value(fs[2]) == x.sku
      && Value(fs[3]) == x.qty && Value(fs[4]) == x.ts
  {
    hide Fields, Join, Decimal, Value;
    var fs := [Decimal(x.request), Decimal(x.user), Decimal(x.sku), Decimal(x.qty), Decimal(x.ts)];
    forall k | 0 <= k < 5 ensures CommaFree(fs[k]) { DigitsHaveNoComma(fs[k]); }
    FieldsOfJoin(fs);
    DecimalRoundTrip(x.request);
    DecimalRoundTrip(x.user);
    DecimalRoundTrip(x.sku);
    DecimalRoundTrip(x.qty);
    DecimalRoundTrip(x.ts);
  }

  lemma ReadJoined(fs: seq<string>)
    requires fs != [] && forall k | 0 <= k < |fs| :: CommaFree(fs[k])
    ensures Read(Join(fs)) == ReadFields(fs)
  {
    hide Fields, Join, ReadFields;
    FieldsOfJoin(fs);
  }

  predicate IsNumber(s: string) { s != "" && Digits(s) }

  predicate IsSmallNumber(s: string) { IsNumber(s) && Cut(Value(s)) < U32 }

  /** Exactly what is accepted: at least four fields, the first two numbers, the next two numbers that fit
      32 bits after the cut, and a fifth, if it is there and not empty, a number. */
  lemma AcceptedExactly(fs: seq<string>)
    requires fs != [] && forall k | 0 <= k < |fs| :: CommaFree(fs[k])
    ensures Read(Join(fs)).Some? <==>
              && |fs| >= 4 && IsNumber(fs[0]) && IsNumber(fs[1]) && IsSmallNumber(fs[2]) && IsSmallNumber(fs[3])
              && (|fs| == 4 || fs[4] == "" || IsNumber(fs[4]))
  {
    ReadJoined(fs);
    hide Join, CommaFree, Read, Number, SmallNumber, IsNumber, IsSmallNumber;
    if |fs| >= 4 {
      ReadAs(fs[0]);
      ReadAs(fs[1]);
      ReadAs(fs[2]);
      ReadAs(fs[3]);
      if |fs| >= 5 { ReadAs(fs[4]); }
    }
  }

  lemma ReadAs(s: string)
    ensures Number(s).Some? <==> IsNumber(s)
    ensures SmallNumber(s).Some? <==> IsSmallNumber(s)
  {}

  lemma NumberOfDecimal(n: nat)
    ensures n < U64 ==> Number(Decimal(n)) == Some(n)
    ensures n < U32 ==> SmallNumber(Decimal(n)) == Some(n)
  {
    hide Decimal, Value;
    DecimalRoundTrip(n);
  }

  /** The time may be missing or empty and then reads as 0; fields after it are ignored. */
  lemma ShortAndLongPayloads(x: Intent, extra: seq<string>)
    requires InRange(x) && forall k | 0 <= k < |extra| :: CommaFree(extra[k])
    ensures
      var four := [Decimal(x.request), Decimal(x.user), Decimal(x.sku), Decimal(x.qty)];
      && Read(Join(four)) == Some(x.(ts := 0))
      && Read(Join(four + [""])) == Some(x.(ts := 0))
      && Read(Join(four + [Decimal(x.ts)] + extra)) == Some(x)
  {
    hide Fields, Join, Decimal, Number, SmallNumber, Read;
    var four := [Decimal(x.request), Decimal(x.user), Decimal(x.sku), Decimal(x.qty)];
    forall k | 0 <= k < 4 ensures CommaFree(four[k]) { DigitsHaveNoComma(four[k]); }
    DigitsHaveNoComma(Decimal(x.ts));
    hide CommaFree;
    ReadJoined(four);
    assert CommaFree("") by { DigitsHaveNoComma(""); }
    ReadJoined(four + [""]);
    ReadJoined(four + [Decimal(x.ts)] + extra);
    NumberOfDecimal(x.request);
    NumberOfDecimal(x.user);
    NumberOfDecimal(x.sku);
    NumberOfDecimal(x.qty);
    NumberOfDecimal(x.ts);
  }

  /** The main law: an in-range intent is read back as it was printed. */
  lemma PrintReadRoundTrip(x: Intent)
    requires InRange(x)
    ensures Read(Print(x)) == Some(x)
  {
    hide Fields, Join, Decimal, Value;
    var fs := [Decimal(x.request), Decimal(x.user), Decimal(x.sku), Decimal(x.qty), Decimal(x.ts)];
    forall k | 0 <= k < 5 ensures CommaFree(fs[k]) { DigitsHaveNoComma(fs[k]); }
    FieldsOfJoin(fs);
    DecimalRoundTrip(x.request);
    DecimalRoundTrip(x.user);
    DecimalRoundTrip(x.sku);
    DecimalRoundTrip(x.qty);
    DecimalRoundTrip(x.ts);
  }

  lemma DigitsHaveNoComma(s: string)
    requires Digits(s)
    ensures CommaFree(s)
  {}

  /** Reading is exact for a number below the cut and for no other. */
  lemma ReadExactlyBelowCut(s: string)
    requires s != "" && Digits(s)
    ensures Number(s) == Some(Value(s)) <==> Value(s) < 18_446_744_073_709_551_616
    ensures SmallNumber(s) == Some(Value(s)) <==> Value(s) < 4_294_967_296
    ensures SmallNumber(s).Some? <==> Value(s) % 18_446_744_073_709_551_616 < 4_294_967_296
  {
    assert Value(s) < U64 ==> Cut(Value(s)) == Value(s);
  }

  /** 2^64 + 7 is read as 7, also where only 32 bits are allowed. */
  lemma OverlongNumberIsMisread(x: Intent)
    requires InRange(x)
    ensures var n := Decimal(U64 + 7);
            var p := Join([Decimal(x.request), Decimal(x.user), n, Decimal(x.qty), Decimal(x.ts)]);
            SmallNumber(n) == Some(7) && Read(p) == Some(x.(sku := 7))
  {
    hide Fields, Join, Decimal, Value;
    var n := Decimal(U64 + 7);
    var fs := [Decimal(x.request), Decimal(x.user), n, Decimal(x.qty), Decimal(x.ts)];
    forall k | 0 <= k < 5 ensures CommaFree(fs[k]) { DigitsHaveNoComma(fs[k]); }
    FieldsOfJoin(fs);
    DecimalRoundTrip(x.request);
    DecimalRoundTrip(x.user);
    DecimalRoundTrip(U64 + 7);
    DecimalRoundTrip(x.qty);
    DecimalRoundTrip(x.ts);
  }

  /** Up to `i` the payload is cut into `closed` and a last field, still open, from `start`. */
  predicate CutSoFar(p: string, start: nat, i: nat, closed: seq<string>) {
    start <= i <= |p| && Fields(p[..i]) == closed + [p[start..i]]
  }

  lemma CutGoesOn(p: string, start: nat, i: nat, closed: seq<string>)
    requires i < |p| && CutSoFar(p, start, i, closed)
    ensures if p[i] == ',' then CutSoFar(p, i + 1, i + 1, closed + [p[start..i]]) else CutSoFar(p, start, i + 1, closed)
  {
    assert p[..i + 1][..i] == p[..i];
    assert p[start..i + 1] == p[start..i] + [p[i]];
    assert p[i + 1..i + 1] == "";
  }

  lemma CutEnds(p: string, start: nat, closed: seq<string>)
    requires CutSoFar(p, start, |p|, closed)
    ensures Fields(p) == closed + [p[start..|p|]]
  {
    assert p[..|p|] == p;
  }

  function FirstFive(fs: seq<string>): seq<string> {
    fs[..if |fs| < 5 then |fs| else 5]
  }

  lemma FirstFiveIs(fs: seq<string>)
    ensures FirstFive(fs) == fs[..if |fs| < 5 then |fs| else 5]
  {}

  lemma FirstFiveGrows(fs: seq<string>, f: string)
    ensures FirstFive(fs + [f]) == if |FirstFive(fs)| < 5 then FirstFive(fs) + [f] else FirstFive(fs)
  {
    if |fs| < 5 { assert FirstFive(fs) == fs; }
  }

  /** Cuts the payload into at most five parts. */
  method Split(payload: string) returns (parts: array<string>, count: nat)
    ensures fresh(parts) && parts.Length == 5
    ensures var f := Fields(payload); count == (if |f| < 5 then |f| else 5) && parts[..count] == f[..count]
  {
    parts := new string[5](_ => "");
    count := 0;
    var start := 0;
    ghost var closed: seq<string> := [];
    var i := 0;
    assert Fields(payload[..0]) == [""] && [] + [payload[0..0]] == [""] && FirstFive([]) == [];
    hide Fields, FirstFive;
    assert CutSoFar(payload, start, i, closed);
    hide CutSoFar;
    while i <= |payload|
      invariant 0 <= start <= i <= |payload| + 1 && count <= 5
      invariant i <= |payload| ==> CutSoFar(payload, start, i, closed)
      invariant i == |payload| + 1 ==> Fields(payload) == closed
      invariant parts[..count] == FirstFive(closed) && |FirstFive(closed)| == count
    {
      if i == |payload| { CutEnds(payload, start, closed); } else { CutGoesOn(payload, start, i, closed); }
      if i == |payload| || payload[i] == ',' {
        var part := payload[start..i];
        FirstFiveGrows(closed, part);
        if count < 5 {
          ghost var before := parts[..count];
          parts[count] := part;
          assert parts[..count + 1] == before + [part];
          count := count + 1;
        }
        closed := closed + [part];
        start := i + 1;
      }
      i := i + 1;
    }
    FirstFiveIs(closed);
  }

  /** The reader writes into the caller's record field by field, so a rejected payload leaves
      the fields read before the fault. */
  method ParseIntent(payload: string, before: Intent) returns (ok: bool, out: Intent)
    ensures ok == Read(payload).Some?
    ensures ok ==> out == Read(payload).value
    ensures !ok ==> out == PartlyRead(payload, before)
  {
    out := before;
    var parts, count := Split(payload);
    ghost var f := Fields(payload);
    assert forall k | 0 <= k < count :: parts[k] == parts[..count][k] == f[k];
    hide Fields, Number, SmallNumber;
    if count < 4 { return false, out; }
    var request := ParseU64(parts[0]);
    if request.None? { return false, out; }
    out := out.(request := request.value);
    var user := ParseU64(parts[1]);
    if user.None? { return false, out; }
    out := out.(user := user.value);
    var sku := ParseU32(parts[2]);
    if sku.None? { return false, out; }
    out := out.(sku := sku.value);
    var qty := ParseU32(parts[3]);
    if qty.None? { return false, out; }
    out := out.(qty := qty.value);
    out := out.(ts := 0);
    if count >= 5 && parts[4] != "" {
      var ts := ParseU64(parts[4]);
      if ts.None? { return false, out; }
      out := out.(ts := ts.value);
    }
    return true, out;
  }

  function Or(n: Option<nat>, otherwise: nat): nat {
    if n.Some? then n.value else otherwise
  }

  /** The record after a rejected payload: each field up to the first fault is the payload's,
      each later one the caller's, and a fault in the time stamp leaves 0 there. */
  function PartlyRead(payload: string, before: Intent): Intent {
    var f := Fields(payload);
    if |f| < 4 then before
    else
      var a, b, c, d := Number(f[0]), Number(f[1]), SmallNumber(f[2]), SmallNumber(f[3]);
      Intent(
        Or(a, before.request),
        if a.Some? then Or(b, before.user) else before.user,
        if a.Some? && b.Some? then Or(c, before.sku) else before.sku,
        if a.Some? && b.Some? && c.Some? then Or(d, before.qty) else before.qty,
        if a.Some? && b.Some? && c.Some? && d.Some? then 0 else before.ts)
  }
}
