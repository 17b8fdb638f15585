/**
 base/pickle.h and base/pickle.cc: the growing buffer of a Pickle and the iterator that
 reads one, changed in place.
 */
module Pickle {
  import opened Sequences
  import opened Wrappers
  import opened PickleWire

  const PAYLOAD_UNIT: nat := 64

  class Pickle {
    /** What header_ points at: the header, then the capacity, or the bytes a read-only pickle wraps. */
    var memory: array<Byte>
    /** 0 when the wrapped bytes were rejected, and header_ is NULL. */
    var headerSize: nat
    var capacityAfterHeader: nat
    /** capacity_after_header_ is kCapacityReadOnly. */
    var readOnly: bool
    var writeOffset: nat

    ghost predicate Shape()
      reads this
    {
      && headerSize % 4 == 0 && headerSize <= memory.Length
      && (!readOnly ==> headerSize > 0 && Room())
    }

    /** The allocation has room for the header and the capacity, which is a multiple of 64. */
    ghost predicate Room()
      reads this
    {
      capacityAfterHeader % PAYLOAD_UNIT == 0 && memory.Length == headerSize + capacityAfterHeader
    }

    /** payload_size(). */
    function StoredSize(): nat
      reads this, memory
    {
      if headerSize == 0 || memory.Length < 4 then 0 else Decode(memory[..4])
    }

    /** The payload lies behind the header, and the next write begins, aligned, somewhere in it or at its end. */
    ghost predicate Valid()
      reads this, memory
    {
      && Shape()
      && writeOffset % 4 == 0 && writeOffset <= StoredSize()
      && headerSize + StoredSize() <= memory.Length
      && (readOnly && headerSize > 0 ==> headerSize + StoredSize() == memory.Length)
    }

    /** Every pickle that was not copied from wrapped bytes: what is written next follows the payload. */
    ghost predicate AtEnd()
      reads this, memory
      ensures AtEnd() ==> Valid() && !readOnly && writeOffset == |Payload()| && 4 <= headerSize <= memory.Length
    {
      Valid() && !readOnly && writeOffset == StoredSize()
    }

    function Payload(): seq<Byte>
      requires Valid()
      reads this, memory
    {
      memory[headerSize..headerSize + StoredSize()]
    }

    /** data(), size() bytes of it: what is sent to a reader. */
    function Image(): seq<Byte>
      requires Valid()
      reads this, memory
    {
      memory[..headerSize + StoredSize()]
    }

    /** Pickle() is Pickle(4). */
    constructor (requested: nat)
      requires 4 <= requested <= PAYLOAD_UNIT
      ensures AtEnd() && fresh(memory) && headerSize == AlignInt(requested, 4) && Payload() == []
    {
      headerSize := AlignInt(requested, 4);
      capacityAfterHeader, readOnly := 0, false;
      writeOffset := 0;
      memory := new Byte[AlignInt(requested, 4)](i => 0);
      new;
      Resize(PAYLOAD_UNIT);
      StorePayloadSize(0);
      SizeStored(memory[..4], 0);
    }

    /** Pickle(data, data_len): wraps the bytes if they can be a pickle, and rejects them otherwise. */
    constructor Wrap(data: array<Byte>)
      requires data.Length < 0x8000_0000
      ensures Valid() && readOnly && memory == data && writeOffset == 0
      ensures headerSize == DeducedHeader(data[..])
      ensures headerSize > 0 ==> Image() == data[..] && Payload() == data[headerSize..]
    {
      var header := 0;
      if data.Length >= 4 {
        header := (data.Length - Decode(data[..4])) % 0x1_0000_0000;
        assert data[..][..4] == data[..4];
      }
      if header > data.Length {
        header := 0;
      }
      if header != AlignInt(header, 4) {
        header := 0;
      }
      HeaderDeduction(data[..]);
      memory, headerSize, capacityAfterHeader, readOnly, writeOffset := data, header, 0, true, 0;
    }

    /** header_->payload_size = size. */
    method StorePayloadSize(size: nat)
      requires 4 <= memory.Length && size <= MAX_UINT32
      modifies memory
      ensures memory[..] == Encode(size, 4) + old(memory[4..])
    {
      CopyIn(0, Encode(size, 4));
    }

    static lemma SizeStored(field: seq<Byte>, size: nat)
      requires field == Encode(size, 4) && size <= MAX_UINT32
      ensures Decode(field) == size
    {
      Powers();
      DecodeEncode(size, 4);
    }

    /** memcpy. */
    method CopyIn(at: nat, source: seq<Byte>)
      requires at + |source| <= memory.Length
      modifies memory
      ensures memory[..] == old(memory[..at]) + source + old(memory[at + |source|..])
    {
      for i := 0 to |source|
        invariant forall k :: 0 <= k < i ==> memory[at + k] == source[k]
        invariant forall k :: 0 <= k < at || at + i <= k < memory.Length ==> memory[k] == old(memory[k])
      {
        memory[at + i] := source[i];
      }
    }

    /** realloc: the allocation moves, and what fits of its contents moves along. */
    method Resize(newCapacity: nat)
      modifies this`capacityAfterHeader, this`memory
      ensures fresh(memory) && Room() && capacityAfterHeader == AlignInt(newCapacity, PAYLOAD_UNIT)
      ensures old(memory.Length) <= memory.Length ==> memory[..old(memory.Length)] == old(memory[..])
    {
      var was := memory;
      capacityAfterHeader := AlignInt(newCapacity, PAYLOAD_UNIT);
      var moved := new Byte[headerSize + capacityAfterHeader](i => 0);
      var kept := if was.Length <= moved.Length then was.Length else moved.Length;
      for i := 0 to kept
        invariant moved[..i] == was[..i]
        modifies moved
      {
        moved[i] := was[i];
      }
      memory := moved;
      assert was[..was.Length] == was[..];
    }

    /** Room for newSize bytes of payload: at least twice the capacity when there was not enough. */
    method MakeRoom(newSize: nat)
      requires Shape() && !readOnly
      modifies this`capacityAfterHeader, this`memory
      ensures Shape() && newSize <= capacityAfterHeader && (memory == old(memory) || fresh(memory))
      ensures old(memory.Length) <= memory.Length && memory[..old(memory.Length)] == old(memory[..])
    {
      if newSize > capacityAfterHeader {
        Resize(if capacityAfterHeader * 2 > newSize then capacityAfterHeader * 2 else newSize);
      }
    }

    /**
     WriteBytesCommon: the bytes and their padding go in at the offset, over what is there, and
     whatever was behind them is no longer part of the payload.
     */
    method WriteBytesCommon(data: seq<Byte>)
      requires Valid() && !readOnly && writeOffset + AlignInt(|data|, 4) <= MAX_UINT32
      modifies this, memory
      ensures AtEnd() && headerSize == old(headerSize) && (memory == old(memory) || fresh(memory))
      ensures Payload() == Written(old(Payload()), old(writeOffset), data)
      ensures memory[4..headerSize] == old(memory[4..headerSize])
    {
      hide Encode, Decode, Zeros, Field, AlignInt;
      var newSize := writeOffset + AlignInt(|data|, 4);
      AlignedSum(writeOffset, |data|);
      ghost var image := memory[..headerSize + writeOffset];
      PayloadStart(memory[..], image, headerSize, writeOffset, StoredSize());
      ghost var written := Written(Payload(), writeOffset, data);
      assert written == image[headerSize..] + Field(data);
      hide Written;
      MakeRoom(newSize);
      Prefixed(memory[..], old(memory[..]), headerSize + writeOffset);
      hide Valid, AtEnd, Payload, StoredSize, Room;
      FinishWrite(image, data, newSize);
    }

    method FinishWrite(ghost image: seq<Byte>, data: seq<Byte>, newSize: nat)
      requires Shape() && !readOnly && writeOffset <= capacityAfterHeader && image == memory[..headerSize + writeOffset]
      requires newSize == writeOffset + AlignInt(|data|, 4) <= capacityAfterHeader && newSize <= MAX_UINT32 && newSize % 4 == 0
      modifies this`writeOffset, memory
      ensures AtEnd() && Payload() == image[headerSize..] + Field(data)
      ensures memory[4..headerSize] == image[4..headerSize]
    {
      hide Encode, Decode, Field, AlignInt;
      StoreField(image, data, newSize);
      SizeStored(memory[..4], newSize);
      writeOffset := newSize;
    }

    static lemma Prefixed(after: seq<Byte>, before: seq<Byte>, n: nat)
      requires n <= |before| <= |after| && after[..|before|] == before
      ensures after[..n] == before[..n]
    {
    }

    /** The image up to the offset ends with the payload up to the offset. */
    static lemma PayloadStart(memory: seq<Byte>, image: seq<Byte>, h: nat, offset: nat, size: nat)
      requires 4 <= h && offset <= size && h + size <= |memory| && image == memory[..h + offset]
      ensures image[4..h] == memory[4..h] && image[h..] == memory[h..h + size][..offset]
    {
    }

    /** What WriteBytesCommon stores once there is room: the field after the image, and the new size. */
    method StoreField(ghost image: seq<Byte>, data: seq<Byte>, newSize: nat)
      requires Shape() && !readOnly && writeOffset <= capacityAfterHeader && image == memory[..headerSize + writeOffset]
      requires newSize == writeOffset + AlignInt(|data|, 4) <= capacityAfterHeader && newSize <= MAX_UINT32
      modifies memory
      ensures memory[..4] == Encode(newSize, 4) && memory[4..headerSize] == image[4..headerSize]
      ensures memory[headerSize..headerSize + newSize] == image[headerSize..] + Field(data)
    {
      var at, padding := headerSize + writeOffset, Zeros(AlignInt(|data|, 4) - |data|);
      assert Field(data) == data + padding;
      hide Encode, Zeros, AlignInt, Field;
      ghost var rest := memory[at + |data| + |padding|..];
      AppendField(at, data, padding);
      StorePayloadSize(newSize);
      Kept(memory[..], Encode(newSize, 4), image, headerSize, Field(data), rest);
    }

    static lemma AlignedSum(offset: nat, n: nat)
      requires offset % 4 == 0
      ensures (offset + AlignInt(n, 4)) % 4 == 0
    {
      hide AlignInt;
    }

    /** The two stores of WriteBytesCommon: the bytes, then the padding. */
    method AppendField(at: nat, data: seq<Byte>, padding: seq<Byte>)
      requires at + |data| + |padding| <= memory.Length
      modifies memory
      ensures memory[..] == old(memory[..at]) + (data + padding) + old(memory[at + |data| + |padding|..])
    {
      ghost var before := memory[..];
      CopyIn(at, data);
      ghost var between := memory[..];
      CopyIn(at + |data|, padding);
      Spliced(before, at, data, padding, between);
    }

    static lemma Spliced(s: seq<Byte>, at: nat, data: seq<Byte>, padding: seq<Byte>, between: seq<Byte>)
      requires at + |data| + |padding| <= |s|
      requires between == s[..at] + data + s[at + |data|..]
      ensures between[..at + |data|] + padding + between[at + |data| + |padding|..]
           == s[..at] + (data + padding) + s[at + |data| + |padding|..]
    {
      assert between[..at + |data|] == s[..at] + data;
      assert between[at + |data| + |padding|..] == s[at + |data| + |padding|..];
    }

    /** Storing the size changes neither the rest of the header nor the payload. */
    static lemma Kept(after: seq<Byte>, size: seq<Byte>, image: seq<Byte>, h: nat, field: seq<Byte>, rest: seq<Byte>)
      requires |size| == 4 <= h <= |image|
      requires after == size + (image + field + rest)[4..]
      ensures |after| == |image| + |field| + |rest|
      ensures after[..4] == size && after[4..h] == image[4..h]
      ensures after[h..|image| + |field|] == image[h..] + field
    {
      assert after == size + image[4..] + field + rest;
    }

    /** Any of the Write methods: one field, or a length and a field. */
    method Write(v: Value)
      requires Valid() && !readOnly && Writable(v) && writeOffset + |Wire(v)| <= MAX_UINT32
      modifies this, memory
      ensures AtEnd() && headerSize == old(headerSize) && (memory == old(memory) || fresh(memory))
      ensures Payload() == old(Payload())[..old(writeOffset)] + Wire(v)
      ensures memory[4..headerSize] == old(memory[4..headerSize])
    {
      var fields := Fields(v);
      ghost var payload := Payload()[..writeOffset];
      hide Fields, Field, Decode, Valid, AtEnd, Payload, StoredSize, Shape, Room;
      WriteBytesCommon(fields[0]);
      if |fields| == 2 {
        ghost var more := Payload();
        WriteBytesCommon(fields[1]);
        assert more[..|more|] == more;
        Regroup(payload, Field(fields[0]), Field(fields[1]));
      }
    }

    /** Reserve: more capacity, same contents; nothing for a read-only pickle, whose capacity counts as endless. */
    method Reserve(length: nat)
      requires Valid() && writeOffset + AlignInt(length, 4) <= MAX_UINT32
      modifies this`capacityAfterHeader, this`memory
      ensures Valid() && Image() == old(Image()) && Payload() == old(Payload()) && headerSize == old(headerSize)
      ensures !readOnly ==> capacityAfterHeader >= writeOffset + AlignInt(length, 4)
    {
      hide Decode, AlignInt;
      var newSize := writeOffset + AlignInt(length, 4);
      if !readOnly && newSize > capacityAfterHeader {
        ghost var before, n := memory[..], headerSize + StoredSize();
        Resize(capacityAfterHeader * 2 + newSize);
        Prefixed(memory[..], before, n);
        SameImage(memory[..], before, headerSize, n);
      }
    }

    /** Two memories with the same image have the same size field and payload. */
    static lemma SameImage(after: seq<Byte>, before: seq<Byte>, h: nat, n: nat)
      requires 4 <= h <= n <= |before| && n <= |after| && after[..n] == before[..n]
      ensures after[..4] == before[..4] && after[h..n] == before[h..n]
    {
    }

    /** The other's image in a new allocation, with its write offset; its header size has been taken over before. */
    method TakeOver(other: Pickle, capacity: nat)
      requires other.Valid() && other.headerSize > 0 && other != this && !readOnly
      requires headerSize == other.headerSize && capacity >= other.StoredSize()
      modifies this`capacityAfterHeader, this`memory, this`writeOffset
      ensures Valid() && fresh(memory) && writeOffset == other.writeOffset
      ensures Payload() == other.Payload() && Image() == other.Image()
    {
      hide Encode, Decode, AlignInt;
      var image := other.Image();
      Resize(capacity);
      CopyIn(0, image);
      writeOffset := other.writeOffset;
      Copied(memory[..], image);
      SameImage(memory[..], other.memory[..], headerSize, |image|);
    }

    /** operator=: header, payload and write offset become the other's, whether either is read-only or not. */
    method Assign(other: Pickle)
      requires Valid() && other.Valid() && other.headerSize > 0
      modifies this
      ensures Valid() && headerSize == other.headerSize && writeOffset == other.writeOffset
      ensures Payload() == other.Payload() && Image() == other.Image()
      ensures other != this ==> !readOnly && fresh(memory)
    {
      if this == other {
        return;
      }
      if readOnly {
        memory, capacityAfterHeader, readOnly := new Byte[0], 0, false;
      }
      if headerSize != other.headerSize {
        memory, headerSize := new Byte[0], other.headerSize;
      }
      hide Valid, Payload, Image, StoredSize;
      TakeOver(other, other.StoredSize());
    }

    /** Pickle(const Pickle&). */
    constructor Copy(other: Pickle)
      requires other.Valid() && other.headerSize > 0
      ensures Valid() && !readOnly && fresh(memory) && headerSize == other.headerSize && writeOffset == other.writeOffset
      ensures Payload() == other.Payload() && Image() == other.Image()
    {
      headerSize := other.headerSize;
      capacityAfterHeader, readOnly, writeOffset := 0, false, 0;
      memory := new Byte[0];
      new;
      TakeOver(other, headerSize + other.StoredSize());
    }

    static lemma Copied(after: seq<Byte>, image: seq<Byte>)
      requires exists rest: seq<Byte> :: after == [] + image + rest
      ensures |image| <= |after| && after[..|image|] == image
    {
      var rest: seq<Byte> :| after == [] + image + rest;
    }

    /** The bytes of a Pickle are an image in the sense of the wire form. */
    lemma ImageIsImage()
      requires Valid() && headerSize > 0
      ensures IsImage(Image(), headerSize, Payload())
    {
      assert Image()[..4] == memory[..4];
      EncodeDecode(memory[..4]);
      DecodeBound(memory[..4]);
      Powers();
    }
  }

  /** A fresh Pickle with these values written to it. */
  method WriteValues(values: seq<Value>) returns (p: Pickle)
    requires AllWritable(values) && |WireAll(values)| <= MAX_UINT32
    ensures p.AtEnd() && fresh(p) && fresh(p.memory) && p.headerSize == 4 && p.Payload() == WireAll(values)
  {
    hide Wire, Writable, Decode, WireAll, AllWritable;
    p := new Pickle(4);
    var i := 0;
    assert values[0..] == values;
    Empty(WireAll(values));
    while i < |values|
      invariant i <= |values| && AllWritable(values[i..])
      invariant p.AtEnd() && fresh(p) && fresh(p.memory) && p.headerSize == 4
      invariant p.Payload() + WireAll(values[i..]) == WireAll(values)
    {
      WriteOne(p, values, i);
      i := i + 1;
    }
    NothingLeft(values[i..]);
    Empty(p.Payload());
  }

  lemma NothingLeft(values: seq<Value>)
    requires values == []
    ensures WireAll(values) == []
  {
  }

  lemma OneLeft(values: seq<Value>, i: nat, payload: seq<Byte>)
    requires i < |values| && AllWritable(values[i..])
    ensures Writable(values[i]) && AllWritable(values[i + 1..])
    ensures payload + WireAll(values[i..]) == payload + Wire(values[i]) + WireAll(values[i + 1..])
  {
    assert values[i..][1..] == values[i + 1..];
    hide Wire, Writable;
    Regroup(payload, Wire(values[i]), WireAll(values[i + 1..]));
  }

  method WriteOne(p: Pickle, values: seq<Value>, i: nat)
    requires i < |values| && AllWritable(values[i..]) && p.AtEnd()
    requires |p.Payload() + WireAll(values[i..])| <= MAX_UINT32
    modifies p, p.memory
    ensures p.AtEnd() && p.headerSize == old(p.headerSize) && (p.memory == old(p.memory) || fresh(p.memory))
    ensures AllWritable(values[i + 1..])
    ensures p.Payload() + WireAll(values[i + 1..]) == old(p.Payload()) + WireAll(values[i..])
  {
    hide Wire, Writable, Decode, WireAll, AllWritable;
    ghost var payload := p.Payload();
    OneLeft(values, i, payload);
    assert payload[..|payload|] == payload;
    p.Write(values[i]);
  }

  /**
   A pickle that wraps bytes, copied, and written to: the copy's offset is zero, so the write
   takes the place of the whole payload.
   */
  method WriteToCopy(data: array<Byte>, bytes: seq<Byte>) returns (p: Pickle)
    requires data.Length < 0x8000_0000 && DeducedHeader(data[..]) > 0 && |bytes| < 0x8000_0000
    ensures p.AtEnd() && p.headerSize == DeducedHeader(data[..]) && p.Payload() == Field(bytes)
    ensures p.Payload() == data[p.headerSize..] + Field(bytes) <==> p.headerSize == data.Length
  {
    hide Field, Decode;
    var wrapped := new Pickle.Wrap(data);
    p := new Pickle.Copy(wrapped);
    ghost var payload := p.Payload();
    WriteAppendsAtEnd(payload, 0, bytes);
    p.WriteBytesCommon(bytes);
    assert payload[..0] + Field(bytes) == Field(bytes);
  }

  class PickleIterator {
    const payload: seq<Byte>
    var readIndex: nat

    /** The iterator never leaves the payload. */
    ghost predicate Valid()
      reads this
    {
      readIndex <= |payload|
    }

    constructor (payload: seq<Byte>)
      ensures Valid() && readIndex == 0 && this.payload == payload
    {
      this.payload := payload;
      readIndex := 0;
    }

    method AdvanceBy(size: nat)
      requires Valid()
      modifies this
      ensures Valid() && readIndex == Advance(|payload|, old(readIndex), size)
    {
      var aligned := AlignInt(size, 4);
      if |payload| - readIndex < aligned {
        readIndex := |payload|;
      } else {
        readIndex := readIndex + aligned;
      }
    }

    method GetReadPointerAndAdvance(count: int) returns (bytes: Option<seq<Byte>>)
      requires Valid()
      modifies this
      ensures Valid() && (bytes, readIndex) == Take(payload, old(readIndex), count)
    {
      if count < 0 || |payload| - readIndex < count {
        readIndex := |payload|;
        return None;
      }
      bytes := Some(payload[readIndex..readIndex + count]);
      AdvanceBy(count);
    }

    method GetUnitsPointerAndAdvance(count: int) returns (bytes: Option<seq<Byte>>)
      requires Valid()
      modifies this
      ensures Valid() && (bytes, readIndex) == TakeUnits(payload, old(readIndex), count)
    {
      var size := 2 * count;
      if !(-0x8000_0000 <= size < 0x8000_0000) {
        return None;
      }
      bytes := GetReadPointerAndAdvance(size);
    }

    /** Each of ReadBool, ReadInt, ... ReadBytes, by the type asked for. */
    method ReadItem(k: Kind) returns (item: Option<Item>)
      requires Valid()
      modifies this
      ensures Valid() && (item, readIndex) == Read(payload, old(readIndex), k)
    {
      hide Take, TakeUnits, Interpret, Decode, DecodeInt, DecodeUnits;
      var bytes;
      if k.KBytes? {
        bytes := GetReadPointerAndAdvance(k.length);
        return if bytes.Some? then Some(Blob(bytes.value)) else None;
      }
      if !HasLength(k) {
        bytes := GetReadPointerAndAdvance(SizeOf(k));
        return if bytes.Some? then Some(Interpret(k, bytes.value)) else None;
      }
      var field := GetReadPointerAndAdvance(4);
      if field.None? {
        return None;
      }
      if k == KString16 {
        bytes := GetUnitsPointerAndAdvance(DecodeInt(field.value));
        if bytes.Some? {
          assert |bytes.value| % 2 == 0;
          item := Some(Wide(DecodeUnits(bytes.value)));
        } else {
          item := None;
        }
      } else {
        bytes := GetReadPointerAndAdvance(DecodeInt(field.value));
        item := if bytes.Some? then Some(Blob(bytes.value)) else None;
      }
    }
  }

  /** Reads of the types given, one after another. */
  method ReadItems(payload: seq<Byte>, kinds: seq<Kind>) returns (items: seq<Option<Item>>, end: nat)
    ensures (items, end) == ReadAll(payload, 0, kinds)
  {
    var it := new PickleIterator(payload);
    hide Read;
    items := [];
    assert kinds[0..] == kinds;
    ghost var all := ReadAll(payload, 0, kinds);
    assert [] + all.0 == all.0;
    for i := 0 to |kinds|
      invariant it.Valid() && it.payload == payload
      invariant var rest := ReadAll(payload, it.readIndex, kinds[i..]); all == (items + rest.0, rest.1)
    {
      assert kinds[i..][1..] == kinds[i + 1..];
      ghost var before := items;
      var item := it.ReadItem(kinds[i]);
      items := items + [item];
      Regroup(before, [item], ReadAll(payload, it.readIndex, kinds[i + 1..]).0);
    }
    assert items + [] == items;
    end := it.readIndex;
  }

  /** Whatever is written to a fresh Pickle, an iterator asked for the same types reads back, and ends at the end. */
  method WriteThenRead(values: seq<Value>) returns (items: seq<Option<Item>>, end: nat)
    requires AllWritable(values) && |WireAll(values)| <= MAX_UINT32
    ensures items == Items(values) && end == |WireAll(values)|
  {
    var p := WriteValues(values);
    items, end := ReadItems(p.Payload(), Kinds(values));
    RoundTrip(values);
  }

  /** The same when the pickle's bytes are sent and the receiver wraps them. */
  method SendAndRead(values: seq<Value>) returns (items: seq<Option<Item>>, end: nat)
    requires AllWritable(values) && 4 + |WireAll(values)| < 0x8000_0000
    ensures items == Items(values) && end == |WireAll(values)|
  {
    var p := WriteValues(values);
    var image := p.Image();
    p.ImageIsImage();
    ImageRecovered(image, p.headerSize, p.Payload());
    var data := new Byte[|image|](i requires 0 <= i < |image| => image[i]);
    assert data[..] == image;
    var received := new Pickle.Wrap(data);
    items, end := ReadItems(received.Payload(), Kinds(values));
    RoundTrip(values);
  }
}
