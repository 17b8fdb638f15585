/**
 base/pickle.h and base/pickle.cc: the bytes a Pickle holds, and what reading them gives.
 A 64-bit little-endian host.  The classes in Pickle.dfy are proved against these functions.
 */
module PickleWire {
  import opened Sequences
  import opened Wrappers

  type Byte = b: int | 0 <= b < 0x100
  type UInt16 = n: int | 0 <= n < 0x1_0000
  type UInt32 = n: int | 0 <= n < 0x1_0000_0000
  type UInt64 = n: int | 0 <= n < 0x1_0000_0000_0000_0000
  type Int32 = n: int | -0x8000_0000 <= n < 0x8000_0000
  type Int64 = n: int | -0x8000_0000_0000_0000 <= n < 0x8000_0000_0000_0000

  const MAX_UINT32: nat := 0xffff_ffff

  // ----- numbers as bytes -----

  function Encode(n: nat, width: nat): (b: seq<Byte>)
    ensures |b| == width
  {
    if width == 0 then [] else [n % 0x100] + Encode(n / 0x100, width - 1)
  }

  function Decode(b: seq<Byte>): nat {
    if b == [] then 0 else b[0] + 0x100 * Decode(b[1..])
  }

  function Pow256(width: nat): (p: nat)
    ensures p > 0
  {
    if width == 0 then 1 else 0x100 * Pow256(width - 1)
  }

  lemma {:induction false} DecodeEncode(n: nat, width: nat)
    requires n < Pow256(width)
    ensures Decode(Encode(n, width)) == n
  {
    if width > 0 {
      DecodeEncode(n / 0x100, width - 1);
      assert Encode(n, width)[1..] == Encode(n / 0x100, width - 1);
    }
  }

  lemma {:induction false} EncodeDecode(b: seq<Byte>)
    ensures Encode(Decode(b), |b|) == b
  {
    if b != [] {
      EncodeDecode(b[1..]);
      assert b == [b[0]] + b[1..];
    }
  }

  lemma Powers()
    ensures Pow256(1) == 0x100 && Pow256(2) == 0x1_0000 && Pow256(4) == 0x1_0000_0000 && Pow256(8) == 0x1_0000_0000_0000_0000
  {
    assert Pow256(3) == 0x100_0000;
    assert Pow256(5) == 0x100_0000_0000;
    assert Pow256(6) == 0x1_0000_0000_0000;
    assert Pow256(7) == 0x100_0000_0000_0000;
  }

  lemma RoundedTo4(i: nat)
    ensures (i + (4 - i % 4) % 4) % 4 == 0
  {
    var r := i % 4;
    assert r == 0 || r == 1 || r == 2 || r == 3;
  }

  lemma RoundedTo64(i: nat)
    ensures (i + (64 - i % 64) % 64) % 64 == 0
  {
    var q, r := i / 64, i % 64;
    assert i == 64 * q + r;
    assert r > 0 ==> i + (64 - r) % 64 == 64 * (q + 1);
  }

  /** AlignInt(i, alignment), for the two alignments in use: uint32 and kPayloadUnit. */
  function AlignInt(i: nat, alignment: nat): (a: nat)
    requires alignment == 4 || alignment == 64
    ensures a % alignment == 0 && i <= a < i + alignment
  {
    RoundedTo4(i);
    RoundedTo64(i);
    if alignment == 4 then i + (4 - i % 4) % 4 else i + (64 - i % 64) % 64
  }

  // ----- what is written -----

  datatype Value =
    | Bool(b: bool)
    | Int(i: Int32)
    | Long(l: Int64)
    | U16(w: UInt16)
    | U32(u: UInt32)
    | I64(j: Int64)
    | U64(v: UInt64)
    | SizeT(n: UInt64)
    | Float(bits32: UInt32)
    | Double(bits64: UInt64)
    | String(text: seq<Byte>)
    | String16(units: seq<UInt16>)
    | Data(blob: seq<Byte>)
    | Bytes(raw: seq<Byte>)

  /** Lengths travel as int, and a 16-bit string's length in bytes must fit as well. */
  predicate Writable(v: Value) {
    match v
    case String(text) => |text| < 0x8000_0000
    case String16(units) => |units| < 0x4000_0000
    case Data(blob) => |blob| < 0x8000_0000
    case Bytes(raw) => |raw| < 0x8000_0000
    case _ => true
  }

  function Zeros(n: nat): (z: seq<Byte>)
    ensures |z| == n
  {
    seq(n, _ => 0)
  }

  /** One call of WriteBytesCommon: the bytes, and zeros up to a multiple of four. */
  function Field(bytes: seq<Byte>): (f: seq<Byte>)
    ensures |f| == AlignInt(|bytes|, 4)
  {
    bytes + Zeros(AlignInt(|bytes|, 4) - |bytes|)
  }

  function UnitBytes(units: seq<UInt16>): (b: seq<Byte>)
    ensures |b| == 2 * |units|
  {
    if units == [] then [] else Encode(units[0], 2) + UnitBytes(units[1..])
  }

  /** The fields one Write call appends. */
  function Fields(v: Value): (fields: seq<seq<Byte>>)
    ensures 1 <= |fields| <= 2
  {
    match v
    case Bool(b) => [Encode(if b then 1 else 0, 4)]
    case Int(i) => [EncodeInt(i)]
    case Long(l) => [Encode(Unsigned64(l), 8)]
    case U16(w) => [Encode(w, 2)]
    case U32(u) => [Encode(u, 4)]
    case I64(j) => [Encode(Unsigned64(j), 8)]
    case U64(v) => [Encode(v, 8)]
    case SizeT(n) => [Encode(n, 8)]
    case Float(bits) => [Encode(bits, 4)]
    case Double(bits) => [Encode(bits, 8)]
    case String(text) => [EncodeInt(|text|), text]
    case String16(units) => [EncodeInt(|units|), UnitBytes(units)]
    case Data(blob) => [EncodeInt(|blob|), blob]
    case Bytes(raw) => [raw]
  }

  function Unsigned64(n: Int64): UInt64 {
    if n < 0 then n + 0x1_0000_0000_0000_0000 else n
  }

  function EncodeInt(i: int): (b: seq<Byte>)
    ensures |b| == 4
  {
    Encode((if i < 0 then i + 0x1_0000_0000 else i) % 0x1_0000_0000, 4)
  }

  function Wire(v: Value): seq<Byte> {
    var fields := Fields(v);
    if |fields| == 1 then Field(fields[0]) else Field(fields[0]) + Field(fields[1])
  }

  function WireAll(values: seq<Value>): seq<Byte> {
    if values == [] then [] else Wire(values[0]) + WireAll(values[1..])
  }

  // ----- what is read -----

  /** The type a reader asks for; ReadBytes says how many bytes it wants. */
  datatype Kind =
    | KBool | KInt | KLong | KU16 | KU32 | KI64 | KU64 | KSizeT | KFloat | KDouble
    | KString | KString16 | KData | KBytes(length: int)

  function KindOf(v: Value): Kind {
    match v
    case Bool(_) => KBool
    case Int(_) => KInt
    case Long(_) => KLong
    case U16(_) => KU16
    case U32(_) => KU32
    case I64(_) => KI64
    case U64(_) => KU64
    case SizeT(_) => KSizeT
    case Float(_) => KFloat
    case Double(_) => KDouble
    case String(_) => KString
    case String16(_) => KString16
    case Data(_) => KData
    case Bytes(raw) => KBytes(|raw|)
  }

  /** Advance(size): on by a multiple of four, but not past the end. */
  function Advance(end: nat, index: nat, size: nat): (next: nat)
    requires index <= end
    ensures index <= next <= end
  {
    var aligned := AlignInt(size, 4);
    if end - index < aligned then end else index + aligned
  }

  /** GetReadPointerAndAdvance(num_bytes): the slice read, or nothing and the iterator is spent. */
  function Take(payload: seq<Byte>, index: nat, count: int): (r: (Option<seq<Byte>>, nat))
    requires index <= |payload|
    ensures index <= r.1 <= |payload|
    ensures r.0.Some? ==> 0 <= count <= |payload| - index && r.0.value == payload[index..index + count]
    ensures r.0.None? ==> r.1 == |payload|
  {
    if count < 0 || |payload| - index < count then (None, |payload|)
    else (Some(payload[index..index + count]), Advance(|payload|, index, count))
  }

  /** GetReadPointerAndAdvance(num_elements, sizeof(char16)): nothing moves if the product does not fit an int. */
  function TakeUnits(payload: seq<Byte>, index: nat, count: int): (r: (Option<seq<Byte>>, nat))
    requires index <= |payload|
    ensures index <= r.1 <= |payload|
    ensures r.0.Some? ==> 0 <= count && |r.0.value| == 2 * count
  {
    if -0x8000_0000 <= 2 * count < 0x8000_0000 then Take(payload, index, 2 * count) else (None, index)
  }

  function DecodeInt(b: seq<Byte>): int {
    var n := Decode(b);
    if n < 0x8000_0000 then n else n - 0x1_0000_0000
  }

  function DecodeUnits(b: seq<Byte>): seq<nat>
    requires |b| % 2 == 0
  {
    if b == [] then [] else [Decode(b[..2])] + DecodeUnits(b[2..])
  }

  /** The values of the types read, as the caller sees them. */
  datatype Item = Number(n: int) | Truth(b: bool) | Blob(bytes: seq<Byte>) | Wide(units: seq<nat>)

  function ItemOf(v: Value): Item {
    match v
    case Bool(b) => Truth(b)
    case Int(i) => Number(i)
    case Long(l) => Number(l)
    case U16(w) => Number(w)
    case U32(u) => Number(u)
    case I64(j) => Number(j)
    case U64(v) => Number(v)
    case SizeT(n) => Number(n)
    case Float(bits) => Number(bits)
    case Double(bits) => Number(bits)
    case String(text) => Blob(text)
    case String16(units) => Wide(units)
    case Data(blob) => Blob(blob)
    case Bytes(raw) => Blob(raw)
  }

  /** sizeof the type read, for the types of fixed size. */
  function SizeOf(k: Kind): nat {
    match k
    case KBool => 1
    case KU16 => 2
    case KLong => 8
    case KI64 => 8
    case KU64 => 8
    case KSizeT => 8
    case KDouble => 8
    case _ => 4
  }

  /** What the bytes of a fixed-size type mean. */
  function Interpret(k: Kind, b: seq<Byte>): Item {
    match k
    case KBool => Truth(Decode(b) != 0)
    case KInt => Number(DecodeInt(b))
    case KLong => Number(DecodeLong(b))
    case KI64 => Number(DecodeLong(b))
    case _ => Number(Decode(b))
  }

  function DecodeLong(b: seq<Byte>): int {
    var n := Decode(b);
    if n < 0x8000_0000_0000_0000 then n else n - 0x1_0000_0000_0000_0000
  }

  predicate HasLength(k: Kind) {
    k == KString || k == KString16 || k == KData
  }

  /** ReadBool ... ReadBytes. */
  function Read(payload: seq<Byte>, index: nat, k: Kind): (r: (Option<Item>, nat))
    requires index <= |payload|
    ensures index <= r.1 <= |payload|
  {
    if k.KBytes? then
      var (bytes, next) := Take(payload, index, k.length);
      (if bytes.Some? then Some(Blob(bytes.value)) else None, next)
    else if HasLength(k) then
      var (field, at) := Take(payload, index, 4);
      if field.None? then (None, at)
      else
        var length := DecodeInt(field.value);
        var (bytes, next) := if k == KString16 then TakeUnits(payload, at, length) else Take(payload, at, length);
        if bytes.None? then (None, next)
        else (Some(if k == KString16 then Wide(DecodeUnits(bytes.value)) else Blob(bytes.value)), next)
    else
      var (bytes, next) := Take(payload, index, SizeOf(k));
      (if bytes.Some? then Some(Interpret(k, bytes.value)) else None, next)
  }

  function ReadAll(payload: seq<Byte>, index: nat, kinds: seq<Kind>): (r: (seq<Option<Item>>, nat))
    requires index <= |payload|
    ensures index <= r.1 <= |payload|
    decreases |kinds|
  {
    if kinds == [] then ([], index)
    else
      var (item, next) := Read(payload, index, kinds[0]);
      var (items, end) := ReadAll(payload, next, kinds[1..]);
      ([item] + items, end)
  }

  // ----- round trips -----

  lemma FieldTaken(before: seq<Byte>, bytes: seq<Byte>, n: nat, rest: seq<Byte>)
    requires |before| % 4 == 0 && n <= |bytes| && AlignInt(n, 4) == |Field(bytes)|
    ensures Take(before + Field(bytes) + rest, |before|, n) == (Some(bytes[..n]), |before + Field(bytes)|)
  {
    var payload := before + Field(bytes) + rest;
    assert payload[|before|..|before| + n] == bytes[..n];
  }

  lemma EncodeIntRoundTrip(i: int)
    requires -0x8000_0000 <= i < 0x8000_0000
    ensures DecodeInt(EncodeInt(i)) == i
  {
    Powers();
    DecodeEncode((if i < 0 then i + 0x1_0000_0000 else i) % 0x1_0000_0000, 4);
  }

  lemma {:induction false} UnitsRoundTrip(units: seq<UInt16>)
    ensures DecodeUnits(UnitBytes(units)) == units
  {
    if units != [] {
      Powers();
      DecodeEncode(units[0], 2);
      assert UnitBytes(units)[..2] == Encode(units[0], 2);
      assert UnitBytes(units)[2..] == UnitBytes(units[1..]);
      UnitsRoundTrip(units[1..]);
    }
  }

  /** A value of a fixed-size type reads back from the first SizeOf bytes of its field. */
  lemma FixedRoundTrip(v: Value)
    requires !HasLength(KindOf(v)) && !v.Bytes?
    ensures SizeOf(KindOf(v)) <= |Fields(v)[0]|
    ensures AlignInt(SizeOf(KindOf(v)), 4) == |Field(Fields(v)[0])|
    ensures Interpret(KindOf(v), Fields(v)[0][..SizeOf(KindOf(v))]) == ItemOf(v)
  {
    Powers();
    var bytes := Fields(v)[0];
    if v.Bool? {
      var n: nat := if v.b then 1 else 0;
      assert bytes[0] == n;
      assert bytes[..1] == [n];
      assert Decode([n]) == n;
    } else {
      assert bytes[..|bytes|] == bytes;
      match v {
        case Int(i) => EncodeIntRoundTrip(i);
        case Long(l) => DecodeEncode(Unsigned64(l), 8);
        case U16(w) => DecodeEncode(w, 2);
        case U32(u) => DecodeEncode(u, 4);
        case I64(j) => DecodeEncode(Unsigned64(j), 8);
        case U64(n) => DecodeEncode(n, 8);
        case SizeT(n) => DecodeEncode(n, 8);
        case Float(bits) => DecodeEncode(bits, 4);
        case Double(bits) => DecodeEncode(bits, 8);
      }
    }
  }

  lemma FixedReads(before: seq<Byte>, v: Value, rest: seq<Byte>)
    requires |before| % 4 == 0 && !HasLength(KindOf(v)) && !v.Bytes?
    ensures Read(before + Wire(v) + rest, |before|, KindOf(v)) == (Some(ItemOf(v)), |before + Wire(v)|)
  {
    FixedRoundTrip(v);
    assert Wire(v) == Field(Fields(v)[0]);
    FieldTaken(before, Fields(v)[0], SizeOf(KindOf(v)), rest);
    assert !KindOf(v).KBytes?;
    hide Fields, Interpret, ItemOf, SizeOf, Take, Field, Wire, AlignInt, KindOf;
  }

  /** The two steps of reading a string or a blob: its length, then its bytes. */
  lemma CountThenBody(before: seq<Byte>, length: int, body: seq<Byte>, rest: seq<Byte>)
    requires |before| % 4 == 0 && 0 <= length < 0x8000_0000
    ensures var payload := before + (Field(EncodeInt(length)) + Field(body)) + rest;
      var (field, at) := Take(payload, |before|, 4);
      && field.Some? && DecodeInt(field.value) == length
      && Take(payload, at, |body|) == (Some(body), |before + (Field(EncodeInt(length)) + Field(body))|)
  {
    var count := EncodeInt(length);
    EncodeIntRoundTrip(length);
    assert count[..4] == count && body[..|body|] == body;
    assert |before + Field(count)| % 4 == 0;
    hide Field, Take, EncodeInt, DecodeInt;
    FieldTaken(before, count, 4, Field(body) + rest);
    FieldTaken(before + Field(count), body, |body|, rest);
    Regroup(before, Field(count), Field(body));
    Regroup(before + Field(count), Field(body), rest);
  }

  lemma LengthReads(before: seq<Byte>, v: Value, rest: seq<Byte>)
    requires |before| % 4 == 0 && HasLength(KindOf(v)) && Writable(v)
    ensures Read(before + Wire(v) + rest, |before|, KindOf(v)) == (Some(ItemOf(v)), |before + Wire(v)|)
  {
    var body := Fields(v)[1];
    var length := if v.String16? then |v.units| else |body|;
    assert Wire(v) == Field(EncodeInt(length)) + Field(body);
    CountThenBody(before, length, body, rest);
    if v.String16? {
      UnitsRoundTrip(v.units);
    }
    hide Field, Take, EncodeInt, DecodeInt, Wire, UnitBytes, DecodeUnits;
  }

  lemma ValueReads(before: seq<Byte>, v: Value, rest: seq<Byte>)
    requires |before| % 4 == 0 && Writable(v)
    ensures Read(before + Wire(v) + rest, |before|, KindOf(v)) == (Some(ItemOf(v)), |before + Wire(v)|)
  {
    if HasLength(KindOf(v)) {
      LengthReads(before, v, rest);
    } else if v.Bytes? {
      assert v.raw[..|v.raw|] == v.raw;
      FieldTaken(before, v.raw, |v.raw|, rest);
      hide Field, Take;
    } else {
      FixedReads(before, v, rest);
    }
  }

  lemma WireAligned(v: Value)
    ensures |Wire(v)| % 4 == 0
  {
    hide EncodeInt, Encode, UnitBytes;
  }

  function Kinds(values: seq<Value>): (k: seq<Kind>)
    ensures |k| == |values|
  {
    seq(|values|, i requires 0 <= i < |values| => KindOf(values[i]))
  }

  function Items(values: seq<Value>): (r: seq<Option<Item>>)
    ensures |r| == |values|
  {
    seq(|values|, i requires 0 <= i < |values| => Some(ItemOf(values[i])))
  }

  predicate AllWritable(values: seq<Value>) {
    values == [] || (Writable(values[0]) && AllWritable(values[1..]))
  }

  lemma {:induction false} RoundTripFrom(before: seq<Byte>, values: seq<Value>)
    requires |before| % 4 == 0 && AllWritable(values)
    ensures ReadAll(before + WireAll(values), |before|, Kinds(values)) == (Items(values), |before + WireAll(values)|)
    decreases |values|, 1
  {
    if values == [] {
      assert before + [] == before;
    } else {
      RoundTripStep(before, values[0], values[1..]);
      assert values == [values[0]] + values[1..];
    }
  }

  lemma {:induction false} RoundTripStep(before: seq<Byte>, first: Value, rest: seq<Value>)
    requires |before| % 4 == 0 && Writable(first) && AllWritable(rest)
    ensures ReadAll(before + WireAll([first] + rest), |before|, Kinds([first] + rest)) == (Items([first] + rest), |before + WireAll([first] + rest)|)
    decreases |rest| + 1, 0
  {
    hide *;
    WireAligned(first);
    AlignedConcat(before, Wire(first));
    ValueReads(before, first, WireAll(rest));
    RoundTripFrom(before + Wire(first), rest);
    FirstOfAll(first, rest);
    ReadFirst(before, Wire(first), WireAll(rest), KindOf(first), Some(ItemOf(first)), Kinds(rest), Items(rest));
  }

  lemma AlignedConcat(a: seq<Byte>, b: seq<Byte>)
    requires |a| % 4 == 0 && |b| % 4 == 0
    ensures |a + b| % 4 == 0
  {
  }

  lemma FirstOfAll(first: Value, rest: seq<Value>)
    ensures WireAll([first] + rest) == Wire(first) + WireAll(rest)
    ensures Kinds([first] + rest) == [KindOf(first)] + Kinds(rest)
    ensures Items([first] + rest) == [Some(ItemOf(first))] + Items(rest)
  {
    hide Wire, KindOf, ItemOf;
    FirstOfWire(first, rest);
  }

  lemma FirstOfWire(first: Value, rest: seq<Value>)
    ensures WireAll([first] + rest) == Wire(first) + WireAll(rest)
  {
    hide Wire;
    assert ([first] + rest)[1..] == rest;
  }

  lemma ReadFirst(before: seq<Byte>, wire: seq<Byte>, rest: seq<Byte>, k: Kind, item: Option<Item>, kinds: seq<Kind>, items: seq<Option<Item>>)
    requires Read(before + wire + rest, |before|, k) == (item, |before + wire|)
    requires ReadAll(before + wire + rest, |before + wire|, kinds) == (items, |before + wire + rest|)
    ensures ReadAll(before + (wire + rest), |before|, [k] + kinds) == ([item] + items, |before + (wire + rest)|)
  {
    Regroup(before, wire, rest);
    assert ([k] + kinds)[1..] == kinds;
    hide Read;
  }

  /** Reading back in the order of writing gives the values written, and ends exactly at the end. */
  lemma RoundTrip(values: seq<Value>)
    requires AllWritable(values)
    ensures ReadAll(WireAll(values), 0, Kinds(values)) == (Items(values), |WireAll(values)|)
  {
    RoundTripFrom([], values);
    assert [] + WireAll(values) == WireAll(values);
  }

  // ----- failed reads -----

  /** A 16-bit string whose stated length, doubled, does not fit an int. */
  predicate LengthOverflows(payload: seq<Byte>, index: nat, k: Kind)
    requires index <= |payload|
  {
    k == KString16 && |payload| - index >= 4
    && (DecodeInt(payload[index..index + 4]) < -0x4000_0000 || DecodeInt(payload[index..index + 4]) >= 0x4000_0000)
  }

  /**
   pickle.h says that nothing can be read after a failed read.  That holds, because the
   iterator is left at the end, in every case but one: when a 16-bit string's length
   overflows the iterator stays just behind the length, and what follows can still be read.
   */
  lemma FailedReadsStick(payload: seq<Byte>, index: nat, k: Kind)
    requires index <= |payload| && Read(payload, index, k).0.None?
    ensures Read(payload, index, k).1 == |payload| <==> !(LengthOverflows(payload, index, k) && index + 4 < |payload|)
  {
  }

  lemma OverflowDoesNotStick()
    ensures var payload := [0, 0, 0, 64, 7, 0, 0, 0];
      && Read(payload, 0, KString16) == (None, 4)
      && Read(payload, 4, KInt) == (Some(Number(7)), 8)
  {
    var payload := [0, 0, 0, 64, 7, 0, 0, 0];
    assert payload[0..4] == [0, 0, 0, 64] && payload[4..8] == [7, 0, 0, 0];
    assert Decode([0, 0, 0, 64]) == 0x4000_0000 && Decode([7, 0, 0, 0]) == 7;
  }

  // ----- the wire form -----

  /** header_->payload_size. */
  function PayloadSize(data: seq<Byte>): nat
    requires |data| >= 4
  {
    Decode(data[..4])
  }

  /** The constructor from raw bytes: the header size it settles on, 0 when it rejects the data. */
  function DeducedHeader(data: seq<Byte>): nat
    requires |data| < 0x8000_0000
  {
    if |data| < 4 then 0
    else
      var header := (|data| - PayloadSize(data)) % 0x1_0000_0000;
      if header > |data| then 0
      else if header != AlignInt(header, 4) then 0
      else header
  }

  lemma {:induction false} DecodeBound(b: seq<Byte>)
    ensures Decode(b) < Pow256(|b|)
  {
    if b != [] {
      DecodeBound(b[1..]);
    }
  }

  /** Data is accepted exactly when it is some aligned, non-empty header followed by the payload the header announces. */
  lemma HeaderDeduction(data: seq<Byte>)
    requires |data| < 0x8000_0000
    ensures DeducedHeader(data) > 0 <==> |data| >= 4 && PayloadSize(data) < |data| && (|data| - PayloadSize(data)) % 4 == 0
    ensures DeducedHeader(data) > 0 ==> DeducedHeader(data) % 4 == 0 && DeducedHeader(data) + PayloadSize(data) == |data|
  {
    if |data| >= 4 {
      DecodeBound(data[..4]);
      Powers();
    }
  }

  /** The bytes of a pickle: a header that begins with the payload's size, and the payload. */
  ghost predicate IsImage(image: seq<Byte>, header: nat, payload: seq<Byte>) {
    && header >= 4 && header % 4 == 0
    && |image| == header + |payload|
    && image[header..] == payload
    && image[..4] == Encode(|payload|, 4)
    && |payload| <= MAX_UINT32
  }

  /** What a Pickle wrote is recovered: the header size and the payload. */
  lemma ImageRecovered(image: seq<Byte>, header: nat, payload: seq<Byte>)
    requires IsImage(image, header, payload) && |image| < 0x8000_0000
    ensures DeducedHeader(image) == header
    ensures image[DeducedHeader(image)..] == payload && PayloadSize(image) == |payload|
  {
    Powers();
    DecodeEncode(|payload|, 4);
  }

  /** FindNext on the bytes from start to end: where the first pickle ends, if all of it is there. */
  function FindNext(header: nat, range: seq<Byte>): Option<nat> {
    if |range| < 4 then None
    else if |range| < header || |range| - header < PayloadSize(range) then None
    else Some(header + PayloadSize(range))
  }

  /** The pickle is found whatever follows it, and not found while any of it is missing. */
  lemma FindNextIsExact(image: seq<Byte>, header: nat, payload: seq<Byte>, rest: seq<Byte>, n: nat)
    requires IsImage(image, header, payload) && n < |image|
    ensures FindNext(header, image + rest) == Some(|image|)
    ensures FindNext(header, image[..n]) == None
  {
    Powers();
    DecodeEncode(|payload|, 4);
    assert (image + rest)[..4] == image[..4];
    if n >= 4 {
      assert image[..n][..4] == image[..4];
    }
  }

  /** Cutting a stream into pickles, as a receiver does with FindNext; the last part is what is still incomplete. */
  function Cut(header: nat, stream: seq<Byte>): (seq<seq<Byte>>, seq<Byte>)
    decreases |stream|
  {
    var next := FindNext(header, stream);
    if next.None? || next.value == 0 || next.value > |stream| then ([], stream)
    else
      var (images, rest) := Cut(header, stream[next.value..]);
      ([stream[..next.value]] + images, rest)
  }

  function Joined(images: seq<seq<Byte>>): seq<Byte> {
    if images == [] then [] else images[0] + Joined(images[1..])
  }

  /** Pickles with equal headers, one after another and then part of one more, are separated again. */
  lemma {:induction false} CutSeparates(header: nat, images: seq<seq<Byte>>, payloads: seq<seq<Byte>>, last: seq<Byte>, lastPayload: seq<Byte>, n: nat)
    requires |payloads| == |images| && forall i :: 0 <= i < |images| ==> IsImage(images[i], header, payloads[i])
    requires IsImage(last, header, lastPayload) && n < |last|
    ensures Cut(header, Joined(images) + last[..n]) == (images, last[..n])
  {
    if images == [] {
      assert Joined(images) + last[..n] == last[..n];
      FindNextIsExact(last, header, lastPayload, [], n);
    } else {
      var rest := Joined(images[1..]) + last[..n];
      Regroup(images[0], Joined(images[1..]), last[..n]);
      assert IsImage(images[0], header, payloads[0]);
      FindNextIsExact(images[0], header, payloads[0], rest, 0);
      CutSeparates(header, images[1..], payloads[1..], last, lastPayload, n);
      assert (images[0] + rest)[..|images[0]|] == images[0] && (images[0] + rest)[|images[0]|..] == rest;
      assert images == [images[0]] + images[1..];
      hide FindNext, Joined;
    }
  }

  // ----- writing at an offset -----

  /** WriteBytesCommon on a payload, at the offset the Pickle remembers. */
  function Written(payload: seq<Byte>, offset: nat, bytes: seq<Byte>): seq<Byte>
    requires offset <= |payload|
  {
    payload[..offset] + Field(bytes)
  }

  /** A write appends exactly when the offset is the end; a copy of read-only data has offset 0, and its payload is lost. */
  lemma WriteAppendsAtEnd(payload: seq<Byte>, offset: nat, bytes: seq<Byte>)
    requires offset <= |payload|
    ensures Written(payload, offset, bytes) == payload + Field(bytes) <==> offset == |payload|
  {
    hide Field;
    if offset == |payload| {
      assert payload[..offset] == payload;
    } else {
      assert |Written(payload, offset, bytes)| < |payload + Field(bytes)|;
    }
  }
}
