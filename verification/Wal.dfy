/** The write-ahead log: fixed-size binary records appended to a file, and the
    recovery loop that reads them back. */
module Wal {
  type Byte = b: int | 0 <= b < 256

  datatype WalRecord = WalRecord(timestamp: nat, sku: int, qty: int, requestId: nat, guestId: nat)

  /** sizeof(WalRecord): two 8-byte fields, a 4-byte field with 4 bytes of padding, two 8-byte fields. */
  const RECORD_SIZE: nat := 40

  function Pow256(k: nat): nat {
    if k == 0 then 1 else 256 * Pow256(k - 1)
  }

  /** The fields fit their C types. */
  predicate Representable(r: WalRecord) {
    && r.timestamp < Pow256(8) && r.requestId < Pow256(8) && r.guestId < Pow256(8)
    && FitsSigned(r.sku, 8) && FitsSigned(r.qty, 4)
  }

  predicate FitsSigned(x: int, k: nat) {
    -2 * x <= Pow256(k) && 2 * x < Pow256(k)
  }

  // ---- Bytes of one field ----

  function LittleEndian(x: nat, k: nat): (bytes: seq<Byte>)
    ensures |bytes| == k
  {
    if k == 0 then [] else [x % 256] + LittleEndian(x / 256, k - 1)
  }

  function FromLittleEndian(bytes: seq<Byte>): nat {
    if bytes == [] then 0 else bytes[0] + 256 * FromLittleEndian(bytes[1..])
  }

  lemma {:induction false} LittleEndianRoundTrip(x: nat, k: nat)
    requires x < Pow256(k)
    ensures FromLittleEndian(LittleEndian(x, k)) == x
    decreases k
  {
    if k != 0 {
      LittleEndianRoundTrip(x / 256, k - 1);
    }
  }

  /** Two's complement. */
  function ToUnsigned(x: int, k: nat): nat
    requires FitsSigned(x, k)
  {
    if x < 0 then x + Pow256(k) else x
  }

  function ToSigned(u: nat, k: nat): int {
    if 2 * u >= Pow256(k) then u - Pow256(k) else u
  }

  /** Byte `j` is the digit of weight 256^j: the least significant byte comes first. */
  lemma {:induction false} LittleEndianByte(x: nat, k: nat, j: nat)
    requires j < k
    ensures LittleEndian(x, k)[j] == Digit(x, j)
    decreases j
  {
    if j > 0 { LittleEndianByte(x / 256, k - 1, j - 1); }
  }

  function Digit(x: nat, j: nat): nat {
    if j == 0 then x % 256 else Digit(x / 256, j - 1)
  }

  /** Two's complement: a negative number is written as what it lacks to the next power. */
  lemma UnsignedOfSigned(x: int, k: nat)
    requires FitsSigned(x, k)
    ensures x >= 0 ==> ToUnsigned(x, k) == x
    ensures x < 0 ==> ToUnsigned(x, k) - x == Pow256(k)
  {}

  // ---- Bytes of one record ----

  /** The record as it lies in memory; the padding holds whatever was there. */
  function Encode(r: WalRecord, padding: seq<Byte>): (bytes: seq<Byte>)
    requires Representable(r) && |padding| == 4
    ensures |bytes| == RECORD_SIZE
  {
    LittleEndian(r.timestamp, 8) + LittleEndian(ToUnsigned(r.sku, 8), 8)
    + LittleEndian(ToUnsigned(r.qty, 4), 4) + padding
    + LittleEndian(r.requestId, 8) + LittleEndian(r.guestId, 8)
  }

  function Decode(bytes: seq<Byte>): WalRecord
    requires |bytes| == RECORD_SIZE
  {
    WalRecord(
      FromLittleEndian(bytes[..8]),
      ToSigned(FromLittleEndian(bytes[8..16]), 8),
      ToSigned(FromLittleEndian(bytes[16..20]), 4),
      FromLittleEndian(bytes[24..32]),
      FromLittleEndian(bytes[32..]))
  }

  lemma SignedRoundTrip(x: int, k: nat)
    requires FitsSigned(x, k)
    ensures ToUnsigned(x, k) < Pow256(k)
    ensures ToSigned(ToUnsigned(x, k), k) == x
  {}

  /** Where each field lies. */
  lemma FieldOffsets(r: WalRecord, padding: seq<Byte>)
    requires Representable(r) && |padding| == 4
    ensures
      var bytes := Encode(r, padding);
      && |bytes| == 40
      && bytes[..8] == LittleEndian(r.timestamp, 8)
      && bytes[8..16] == LittleEndian(ToUnsigned(r.sku, 8), 8)
      && bytes[16..20] == LittleEndian(ToUnsigned(r.qty, 4), 4)
      && bytes[24..32] == LittleEndian(r.requestId, 8)
      && bytes[32..] == LittleEndian(r.guestId, 8)
  {
    hide LittleEndian, Pow256;
    var f0, f1, f2 := LittleEndian(r.timestamp, 8), LittleEndian(ToUnsigned(r.sku, 8), 8), LittleEndian(ToUnsigned(r.qty, 4), 4);
    var f4, f5 := LittleEndian(r.requestId, 8), LittleEndian(r.guestId, 8);
    assert Encode(r, padding) == f0 + f1 + f2 + padding + f4 + f5;
  }

  /** Whatever the padding, reading a written record gives the record back. */
  lemma RecordRoundTrip(r: WalRecord, padding: seq<Byte>)
    requires Representable(r) && |padding| == 4
    ensures Decode(Encode(r, padding)) == r
  {
    hide LittleEndian, Pow256, FromLittleEndian, Encode;
    FieldOffsets(r, padding);
    SignedRoundTrip(r.sku, 8);
    SignedRoundTrip(r.qty, 4);
    LittleEndianRoundTrip(r.timestamp, 8);
    LittleEndianRoundTrip(ToUnsigned(r.sku, 8), 8);
    LittleEndianRoundTrip(ToUnsigned(r.qty, 4), 4);
    LittleEndianRoundTrip(r.requestId, 8);
    LittleEndianRoundTrip(r.guestId, 8);
  }

  // ---- The file ----

  ghost predicate AllRepresentable(rs: seq<WalRecord>) {
    forall i | 0 <= i < |rs| :: Representable(rs[i])
  }

  /** `file` is what appending the records of `rs` in order leaves, for some padding bytes. */
  ghost predicate Holds(file: seq<Byte>, rs: seq<WalRecord>) {
    && AllRepresentable(rs) && |file| == RECORD_SIZE * |rs|
    && forall i | 0 <= i < |rs| :: exists padding: seq<Byte> | |padding| == 4 ::
         file[RECORD_SIZE * i..RECORD_SIZE * (i + 1)] == Encode(rs[i], padding)
  }

  /** The whole records of a file, oldest first; a shorter rest is ignored. */
  function WholeRecords(file: seq<Byte>): seq<WalRecord>
    decreases |file|
  {
    if |file| < RECORD_SIZE then []
    else [Decode(file[..RECORD_SIZE])] + WholeRecords(file[RECORD_SIZE..])
  }

  lemma HoldsTail(file: seq<Byte>, rs: seq<WalRecord>)
    requires Holds(file, rs) && rs != []
    ensures |file| >= RECORD_SIZE && Holds(file[RECORD_SIZE..], rs[1..])
    ensures Decode(file[..RECORD_SIZE]) == rs[0]
  {
    var padding: seq<Byte> :| |padding| == 4
      && file[RECORD_SIZE * 0..RECORD_SIZE * (0 + 1)] == Encode(rs[0], padding);
    RecordRoundTrip(rs[0], padding);
    var tail := file[RECORD_SIZE..];
    forall i | 0 <= i < |rs[1..]|
      ensures exists p: seq<Byte> | |p| == 4 ::
                tail[RECORD_SIZE * i..RECORD_SIZE * (i + 1)] == Encode(rs[1..][i], p)
    {
      assert tail[RECORD_SIZE * i..RECORD_SIZE * (i + 1)] == file[RECORD_SIZE * (i + 1)..RECORD_SIZE * (i + 1 + 1)];
    }
  }

  /** Whatever follows whole records in a file, recovery reads them and goes on behind them. */
  lemma {:induction false} RecoveryGoesOn(file: seq<Byte>, rs: seq<WalRecord>, rest: seq<Byte>)
    requires Holds(file, rs)
    ensures WholeRecords(file + rest) == rs + WholeRecords(rest)
    decreases |rs|
  {
    assert rs == [] ==> file == [];
    hide WholeRecords, Holds, Decode;
    if rs == [] {
      assert file + rest == rest && [] + WholeRecords(rest) == WholeRecords(rest);
    } else {
      HoldsTail(file, rs);
      RecoveryGoesOn(file[RECORD_SIZE..], rs[1..], rest);
      FirstRecord(file, rest);
      Regroup(rs, WholeRecords(rest));
    }
  }

  lemma Regroup(rs: seq<WalRecord>, more: seq<WalRecord>)
    requires rs != []
    ensures [rs[0]] + (rs[1..] + more) == rs + more
  {}

  lemma FirstRecord(file: seq<Byte>, rest: seq<Byte>)
    requires |file| >= RECORD_SIZE
    ensures WholeRecords(file + rest) == [Decode(file[..RECORD_SIZE])] + WholeRecords(file[RECORD_SIZE..] + rest)
  {
    hide Decode;
    assert (file + rest)[..RECORD_SIZE] == file[..RECORD_SIZE];
    assert (file + rest)[RECORD_SIZE..] == file[RECORD_SIZE..] + rest;
  }

  /** A log that ends in a torn record recovers exactly the records appended before it. */
  lemma RecoveryIsExact(file: seq<Byte>, rs: seq<WalRecord>, torn: seq<Byte>)
    requires Holds(file, rs) && |torn| < RECORD_SIZE
    ensures WholeRecords(file + torn) == rs
  {
    RecoveryGoesOn(file, rs, torn);
  }

  lemma HoldsAppend(file: seq<Byte>, rs: seq<WalRecord>, r: WalRecord, padding: seq<Byte>)
    requires Holds(file, rs) && Representable(r) && |padding| == 4
    ensures Holds(file + Encode(r, padding), rs + [r])
  {
    var file', rs' := file + Encode(r, padding), rs + [r];
    forall i | 0 <= i < |rs'|
      ensures exists p: seq<Byte> | |p| == 4 ::
                file'[RECORD_SIZE * i..RECORD_SIZE * (i + 1)] == Encode(rs'[i], p)
    {
      if i < |rs| {
        assert file'[RECORD_SIZE * i..RECORD_SIZE * (i + 1)] == file[RECORD_SIZE * i..RECORD_SIZE * (i + 1)];
      } else {
        assert file'[RECORD_SIZE * i..RECORD_SIZE * (i + 1)] == Encode(r, padding);
      }
    }
  }

  // ---- After a write that stopped short ----

  /** The bytes that carry a field; the others are padding. */
  predicate CarriesField(j: nat) {
    j < 20 || 24 <= j < RECORD_SIZE
  }

  lemma {:induction false} LittleEndianInjective(a: seq<Byte>, b: seq<Byte>)
    requires |a| == |b|
    ensures FromLittleEndian(a) == FromLittleEndian(b) <==> a == b
    ensures FromLittleEndian(a) < Pow256(|a|)
    decreases |a|
  {
    if a != [] {
      LittleEndianInjective(a[1..], b[1..]);
      assert a == [a[0]] + a[1..] && b == [b[0]] + b[1..];
    }
  }

  lemma SignedInjective(a: seq<Byte>, b: seq<Byte>)
    requires |a| == |b|
    ensures ToSigned(FromLittleEndian(a), |a|) == ToSigned(FromLittleEndian(b), |a|) <==> a == b
  {
    hide FromLittleEndian, Pow256;
    LittleEndianInjective(a, b);
    LittleEndianInjective(b, a);
  }

  /** Two records' bytes mean the same record exactly when they agree off the padding. */
  lemma DecodeInjective(a: seq<Byte>, b: seq<Byte>)
    requires |a| == |b| == RECORD_SIZE
    ensures Decode(a) == Decode(b) <==> forall j: nat | j < RECORD_SIZE && CarriesField(j) :: a[j] == b[j]
  {
    hide FromLittleEndian, ToSigned;
    LittleEndianInjective(a[..8], b[..8]);
    SignedInjective(a[8..16], b[8..16]);
    SignedInjective(a[16..20], b[16..20]);
    LittleEndianInjective(a[24..32], b[24..32]);
    LittleEndianInjective(a[32..], b[32..]);
    AgreeInPieces(a, b);
  }

  lemma AgreeInPieces(a: seq<Byte>, b: seq<Byte>)
    requires |a| == |b| == RECORD_SIZE
    ensures (forall j: nat | j < RECORD_SIZE && CarriesField(j) :: a[j] == b[j])
            <==> a[..8] == b[..8] && a[8..16] == b[8..16] && a[16..20] == b[16..20]
                 && a[24..32] == b[24..32] && a[32..] == b[32..]
  {
    if a[..8] == b[..8] && a[8..16] == b[8..16] && a[16..20] == b[16..20] && a[24..32] == b[24..32] && a[32..] == b[32..] {
      forall j: nat | j < RECORD_SIZE && CarriesField(j) ensures a[j] == b[j] {
        if j < 8 {
          assert a[..8][j] == b[..8][j];
        } else if j < 16 {
          assert a[8..16][j - 8] == b[8..16][j - 8];
        } else if j < 20 {
          assert a[16..20][j - 16] == b[16..20][j - 16];
        } else if j < 32 {
          assert a[24..32][j - 24] == b[24..32][j - 24];
        } else {
          assert a[32..][j - 32] == b[32..][j - 32];
        }
      }
    }
  }

  /** What recovery finds at a record's byte `j`: the bytes a short write left, then the record's. */
  function Found(part: seq<Byte>, bytes: seq<Byte>, j: nat): Byte
    requires j < |bytes|
  {
    if j < |part| then part[j] else bytes[j - |part|]
  }

  /** Each byte found that carries a field is the one the record has there. So the bytes left
      are the record's first, and its own bytes repeat at that distance. */
  predicate Repeats(part: seq<Byte>, bytes: seq<Byte>)
    requires |part| < |bytes| == RECORD_SIZE
  {
    forall j: nat | j < RECORD_SIZE && CarriesField(j) :: Found(part, bytes, j) == bytes[j]
  }

  /** A write that stopped short is not noticed: what is appended after it is read at an offset.
      The next record alone behind it yields one record, the right one exactly when its bytes
      repeat at that offset. */
  lemma RecordAfterShortWrite(file: seq<Byte>, rs: seq<WalRecord>, part: seq<Byte>, r: WalRecord, padding: seq<Byte>)
    requires Holds(file, rs) && 0 < |part| < RECORD_SIZE && Representable(r) && |padding| == 4
    ensures
      var back := WholeRecords(file + (part + Encode(r, padding)));
      |back| == |rs| + 1 && back[..|rs|] == rs && (back == rs + [r] <==> Repeats(part, Encode(r, padding)))
  {
    var bytes := Encode(r, padding);
    var tail := part + bytes;
    RecoveryGoesOn(file, rs, tail);
    OneRecordBack(part, bytes);
    hide WholeRecords, Encode, Decode, Holds, Repeats, Representable;
    RecordRoundTrip(r, padding);
    ReadAtOffset(part, bytes);
    SameLast(rs, Decode(tail[..RECORD_SIZE]), r);
  }

  lemma OneRecordBack(part: seq<Byte>, bytes: seq<Byte>)
    requires |part| < |bytes| == RECORD_SIZE
    ensures WholeRecords(part + bytes) == [Decode((part + bytes)[..RECORD_SIZE])]
  {
    hide Decode;
    assert WholeRecords((part + bytes)[RECORD_SIZE..]) == [];
  }

  lemma ReadAtOffset(part: seq<Byte>, bytes: seq<Byte>)
    requires |part| < |bytes| == RECORD_SIZE
    ensures Decode((part + bytes)[..RECORD_SIZE]) == Decode(bytes) <==> Repeats(part, bytes)
  {
    hide Decode, CarriesField;
    var first := (part + bytes)[..RECORD_SIZE];
    DecodeInjective(first, bytes);
    assert forall j: nat | j < RECORD_SIZE :: first[j] == Found(part, bytes, j);
  }

  lemma SameLast(rs: seq<WalRecord>, x: WalRecord, y: WalRecord)
    ensures |rs + [x]| == |rs| + 1 && (rs + [x])[..|rs|] == rs
    ensures rs + [x] == rs + [y] <==> x == y
  {
    assert (rs + [x])[|rs|] == x && (rs + [y])[|rs|] == y;
  }

  /** A sale the worker can log. */
  const SALE: WalRecord := WalRecord(1, 123, 1, 1, 1)

  lemma SaleBytes(padding: seq<Byte>)
    requires |padding| == 4
    ensures Representable(SALE) && Encode(SALE, padding)[7] == 0 && Encode(SALE, padding)[8] == 123
  {
    assert Pow256(4) > 246 && Pow256(8) > 246;
    FieldOffsets(SALE, padding);
    var bytes := Encode(SALE, padding);
    hide Encode;
    assert bytes[8] == bytes[8..16][0] == 123;
    assert bytes[7] == bytes[..8][7] == 0;
  }

  /** A sale the worker can log whose record is misread after a write that stopped after any
      one byte. */
  lemma SaleAfterShortWriteIsMisread(part: Byte, padding: seq<Byte>)
    requires |padding| == 4
    ensures Representable(SALE) && WholeRecords([part] + Encode(SALE, padding)) != [SALE]
  {
    SaleBytes(padding);
    hide Encode, WholeRecords, Decode, Representable;
    var bytes := Encode(SALE, padding);
    RecordRoundTrip(SALE, padding);
    OneRecordBack([part], bytes);
    ReadAtOffset([part], bytes);
    assert CarriesField(8) && Found([part], bytes, 8) == bytes[7];
  }

  class WalLogger {
    var file: seq<Byte>
    var isOpen: bool

    constructor (existing: seq<Byte>)
      ensures file == existing && isOpen
    {
      file, isOpen := existing, true;
    }

    /** One `write` call. `written` is what the kernel takes; anything but all of it is reported
        as a failure, and what was taken stays in the file. */
    method Append(data: seq<Byte>, written: nat) returns (ok: bool)
      requires written <= |data|
      modifies this`file
      ensures ok <==> isOpen && written == |data|
      ensures file == old(file) + (if isOpen then data[..written] else [])
      ensures ok ==> file == old(file) + data
    {
      if !isOpen {
        assert file == file + [];
        return false;
      }
      file := file + data[..written];
      return written == |data|;
    }

    /** Reads record after record and hands each to the callback, here: appends it to `out`. */
    method Recover() returns (out: seq<WalRecord>)
      ensures out == WholeRecords(file)
    {
      out := [];
      var offset := 0;
      while |file| - offset >= RECORD_SIZE
        invariant 0 <= offset <= |file|
        invariant out + WholeRecords(file[offset..]) == WholeRecords(file)
      {
        var rest := file[offset..];
        assert WholeRecords(rest) == [Decode(rest[..RECORD_SIZE])] + WholeRecords(rest[RECORD_SIZE..]);
        assert rest[RECORD_SIZE..] == file[offset + RECORD_SIZE..];
        assert rest[..RECORD_SIZE] == file[offset..offset + RECORD_SIZE];
        out := out + [Decode(file[offset..offset + RECORD_SIZE])];
        offset := offset + RECORD_SIZE;
      }
    }
  }
}
