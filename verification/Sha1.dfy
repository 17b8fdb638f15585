/**
 base/sha1_portable.cc: SHA-1 over one 320-byte area that is at once the schedule W
 (80 words) and, in its first 64 bytes, the message buffer M.
 */
module Sha1 {
  import opened Words
  import opened Blocks
  import opened Sha1Spec

  // ----- the pure helpers of the source, and what the standard calls them -----

  function Mix(t: nat, b: Word, c: Word, d: Word): Word
    requires t < 80
  {
    if t < 20 then (b & c) | (!b & d)
    else if t < 40 then b ^ c ^ d
    else if t < 60 then (b & c) | (b & d) | (c & d)
    else b ^ c ^ d
  }

  lemma ChoiceBits(x: Word, y: Word, z: Word)
    ensures (x & y) | (!x & z) == (x & y) ^ (!x & z)
  {
  }

  lemma MajorityBits(x: Word, y: Word, z: Word)
    ensures (x & y) | (x & z) | (y & z) == (x & y) ^ (x & z) ^ (y & z)
  {
  }

  lemma MixIsF(t: nat, b: Word, c: Word, d: Word)
    requires t < 80
    ensures Mix(t, b, c, d) == F(t, b, c, d)
  {
    if t < 20 {
      ChoiceBits(b, c, d);
    } else if 40 <= t < 60 {
      MajorityBits(b, c, d);
    }
  }

  function S(n: Word, x: Word): Word
    requires 0 < n < 32
  {
    (x << n) | (x >> (32 - n))
  }

  /** The shift by n, for the counts that are used. */
  lemma SIsRotation(x: Word)
    ensures S(1, x) == RotateLeft(1, x) && S(5, x) == RotateLeft(5, x) && S(30, x) == RotateLeft(30, x)
  {
  }

  function K(t: nat): Word
    requires t < 80
  {
    if t < 20 then 0x5a827999
    else if t < 40 then 0x6ed9eba1
    else if t < 60 then 0x8f1bbcdc
    else 0xca62c1d6
  }

  lemma KIsConstant(t: nat)
    requires t < 80
    ensures K(t) == Constant(t)
  {
  }

  /** A later word of W. */
  function Extended(w3: Word, w8: Word, w14: Word, w16: Word): Word {
    S(1, w3 ^ w8 ^ w14 ^ w16)
  }

  lemma ExtendedIsExpand(w3: Word, w8: Word, w14: Word, w16: Word)
    ensures Extended(w3, w8, w14, w16) == Expand(w3, w8, w14, w16)
  {
    SIsRotation(w3 ^ w8 ^ w14 ^ w16);
    hide S, RotateLeft;
  }

  /** TEMP in the order the source adds it up. */
  function SourceTemp(a: Word, f: Word, e: Word, w: Word, k: Word): Word {
    Sum(S(5, a), f, e, w, k)
  }

  lemma TempOrder(a: Word, f: Word, e: Word, w: Word, k: Word)
    ensures SourceTemp(a, f, e, w, k) == Temp(a, f, e, k, w)
  {
    SIsRotation(a);
    LastTwo(S(5, a), f, e, w, k);
    hide RotateLeft, S, Sum;
  }

  lemma LastTwo(a: Word, b: Word, c: Word, d: Word, e: Word)
    ensures Sum(a, b, c, d, e) == Sum(a, b, c, e, d)
  {
  }

  function SwapEnds(t: Word): Word {
    (t >> 24) | ((t >> 8) & 0xff00) | ((t & 0xff00) << 8) | (t << 24)
  }

  lemma SwapReadsBigEndian(b: seq<Byte>)
    requires |b| == 4
    ensures SwapEnds(LittleEndian(b)) == BigEndian(b)
  {
  }

  lemma SwapWritesBigEndian(w: Word)
    ensures LittleEndianBytes(SwapEnds(w)) == BigEndianBytes(w)
  {
  }

  // ----- bytes within words -----

  function ByteOf(w: Word, k: nat): Byte
    requires k < 4
  {
    LittleEndianBytes(w)[k]
  }

  /** Storing one byte of a word in little-endian memory. */
  function WithByte(w: Word, k: nat, b: Byte): Word
    requires k < 4
  {
    LittleEndian(LittleEndianBytes(w)[k := b])
  }

  lemma WithByteReads(w: Word, k: nat, b: Byte, j: nat)
    requires k < 4 && j < 4
    ensures ByteOf(WithByte(w, k, b), j) == if j == k then b else ByteOf(w, j)
  {
    LittleEndianRoundTrip(LittleEndianBytes(w)[k := b]);
  }

  /** The union's byte view. */
  function Bytes(w: seq<Word>): (m: seq<Byte>)
    requires |w| == 80
    ensures |m| == 64
  {
    seq(64, i requires 0 <= i < 64 => ByteOf(w[i / 4], i % 4))
  }

  lemma BytesUpdate(w: seq<Word>, i: nat, b: Byte)
    requires |w| == 80 && i < 64
    ensures Bytes(w[i / 4 := WithByte(w[i / 4], i % 4, b)]) == Bytes(w)[i := b]
  {
    hide ByteOf, WithByte;
    var w' := w[i / 4 := WithByte(w[i / 4], i % 4, b)];
    forall j | 0 <= j < 64
      ensures Bytes(w')[j] == Bytes(w)[i := b][j]
    {
      if j / 4 == i / 4 {
        WithByteReads(w[i / 4], i % 4, b, j % 4);
      }
    }
  }

  lemma WordOfBytes(w: seq<Word>, t: nat)
    requires |w| == 80 && t < 16
    ensures w[t] == LittleEndian(Bytes(w)[4 * t..4 * t + 4])
  {
    LittleEndianOfBytes(w[t]);
    assert Bytes(w)[4 * t..4 * t + 4] == LittleEndianBytes(w[t]);
  }

  // ----- the class -----

  class SecureHashAlgorithm {
    const w: array<Word>
    const h: array<Word>
    var cursor: nat
    /** The length so far in bits, a uint64. */
    var l: nat
    ghost var seen: seq<Byte>

    ghost predicate Shape() {
      w.Length == 80 && h.Length == 5
    }

    ghost function State(): Regs
      requires Shape()
      reads h
    {
      Regs(h[0], h[1], h[2], h[3], h[4])
    }

    ghost function M(): seq<Byte>
      requires Shape()
      reads w
    {
      Bytes(w[..])
    }

    /** Between calls: the cursor is (l / 8) mod 64, and M holds the bytes since the last whole block. */
    ghost predicate Valid()
      reads this, w, h
    {
      && Shape()
      && l == 8 * |seen| % 0x1_0000_0000_0000_0000
      && cursor == |seen| % 64
      && State() == Fold(INITIAL, Whole(seen))
      && M()[..cursor] == Tail(seen)
    }

    constructor ()
      ensures Valid() && seen == [] && fresh(w) && fresh(h)
    {
      w := new Word[80];
      h := new Word[5];
      cursor, l, seen := 0, 0, [];
      new;
      h[0], h[1], h[2], h[3], h[4] := 0x67452301, 0xefcdab89, 0x98badcfe, 0x10325476, 0xc3d2e1f0;
    }

    /** M[cursor++] = b. */
    method Put(b: Byte)
      requires Shape() && cursor < 64
      modifies `cursor, w
      ensures cursor == old(cursor) + 1
      ensures M() == old(M())[old(cursor) := b]
      ensures M()[..cursor] == old(M()[..cursor]) + [b]
    {
      hide Bytes, WithByte;
      BytesUpdate(w[..], cursor, b);
      ghost var expected := w[..][cursor / 4 := WithByte(w[cursor / 4], cursor % 4, b)];
      w[cursor / 4] := WithByte(w[cursor / 4], cursor % 4, b);
      assert w[..] == expected;
      cursor := cursor + 1;
    }

    /** while (cursor < limit) M[cursor++] = 0. */
    method PutZeros(limit: nat)
      requires Shape() && cursor <= limit <= 64
      modifies `cursor, w
      ensures cursor == limit
      ensures M()[..limit] == old(M()[..cursor]) + Zeros(limit - old(cursor))
    {
      while cursor < limit
        invariant old(cursor) <= cursor <= limit
        invariant M()[..cursor] == old(M()[..cursor]) + Zeros(cursor - old(cursor))
      {
        Put(0);
      }
    }

    /** Steps a and b of Process: swap the sixteen message words in place, then extend them to eighty. */
    method Expansion(ghost block: seq<Byte>)
      requires Shape() && block == M()
      modifies w
      ensures forall t :: 0 <= t < 80 ==> w[t] == Schedule(block, t)
    {
      hide Bytes, LittleEndian, BigEndian, SwapEnds, Expand, Extended;
      ghost var was := w[..];
      for t := 0 to 16
        invariant forall i :: 0 <= i < t ==> w[i] == Schedule(block, i)
        invariant forall i :: t <= i < 80 ==> w[i] == was[i]
      {
        WordOfBytes(was, t);
        SwapReadsBigEndian(block[4 * t..4 * t + 4]);
        w[t] := SwapEnds(w[t]);
      }
      for t := 16 to 80
        invariant forall i :: 0 <= i < t ==> w[i] == Schedule(block, i)
      {
        ExtendedIsExpand(w[t - 3], w[t - 8], w[t - 14], w[t - 16]);
        w[t] := Extended(w[t - 3], w[t - 8], w[t - 14], w[t - 16]);
      }
    }

    method Process()
      requires Shape()
      modifies this`cursor, w, h
      ensures State() == Compress(old(State()), old(M()))
      ensures cursor == 0
    {
      hide Schedule, F, Mix, Temp, SourceTemp, RotateLeft, Add, Constant, K, S, Bytes;
      ghost var block := M();
      ghost var start := State();
      Expansion(block);
      var a, b, c, d, e := h[0], h[1], h[2], h[3], h[4];
      for t := 0 to 80
        invariant Regs(a, b, c, d, e) == Rounds(t, start, block)
        invariant State() == start
        invariant forall i :: 0 <= i < 80 ==> w[i] == Schedule(block, i)
      {
        MixIsF(t, b, c, d);
        KIsConstant(t);
        SIsRotation(b);
        TempOrder(a, Mix(t, b, c, d), e, w[t], K(t));
        var temp := SourceTemp(a, Mix(t, b, c, d), e, w[t], K(t));
        e := d;
        d := c;
        c := S(30, b);
        b := a;
        a := temp;
      }
      h[0] := Add(h[0], a);
      h[1] := Add(h[1], b);
      h[2] := Add(h[2], c);
      h[3] := Add(h[3], d);
      h[4] := Add(h[4], e);
      cursor := 0;
    }

    /** Process, seen from outside: one more block is digested. */
    method Consume(ghost blocks: seq<Byte>)
      requires Shape() && |blocks| % 64 == 0 && State() == Fold(INITIAL, blocks)
      modifies this`cursor, w, h
      ensures |blocks + old(M())| % 64 == 0
      ensures State() == Fold(INITIAL, blocks + old(M())) && cursor == 0
    {
      hide Fold, Compress, Bytes;
      FoldAppend(INITIAL, blocks, M());
      Process();
    }

    method Update(data: seq<Byte>)
      requires Valid()
      modifies this, w, h
      ensures Valid() && seen == old(seen) + data
    {
      ghost var was := seen;
      assert was + data[..0] == was;
      for i := 0 to |data|
        invariant Valid() && seen == was + data[..i]
      {
        UpdateByte(data[i]);
        assert was + data[..i] + [data[i]] == was + data[..i + 1];
      }
      assert data[..|data|] == data;
    }

    /** The body of Update's loop. */
    method UpdateByte(b: Byte)
      requires Valid()
      modifies this, w, h
      ensures Valid() && seen == old(seen) + [b]
    {
      hide Fold, Whole, Tail, Bytes;
      ghost var blocks, tail := Whole(seen), Tail(seen);
      Split(seen);
      ghost var was := M();
      Put(b);
      assert M()[..cursor] == was[..cursor - 1] + [b];
      assert seen + [b] == blocks + (tail + [b]);
      if cursor >= 64 {
        assert M()[..cursor] == M();
        Consume(blocks);
        WholeAndTail(blocks + (tail + [b]), []);
        assert blocks + (tail + [b]) + [] == seen + [b];
      } else {
        WholeAndTail(blocks, tail + [b]);
      }
      l := (l + 8) % 0x1_0000_0000_0000_0000;
      seen := seen + [b];
    }

    method PutFour(b0: Byte, b1: Byte, b2: Byte, b3: Byte)
      requires Shape() && cursor <= 60
      modifies `cursor, w
      ensures cursor == old(cursor) + 4
      ensures M()[..cursor] == old(M()[..cursor]) + [b0, b1, b2, b3]
    {
      hide Bytes;
      Put(b0);
      Put(b1);
      Put(b2);
      Put(b3);
    }

    method PutLength()
      requires Shape() && cursor == 56
      modifies `cursor, w
      ensures cursor == 64
      ensures M() == old(M()[..56]) + LengthBytes(l)
    {
      hide Bytes, ByteAt;
      PutFour(ByteAt(l, 0x100_0000_0000_0000), ByteAt(l, 0x1_0000_0000_0000), ByteAt(l, 0x100_0000_0000), ByteAt(l, 0x1_0000_0000));
      PutFour(ByteAt(l, 0x100_0000), ByteAt(l, 0x1_0000), ByteAt(l, 0x100), ByteAt(l, 1));
      assert M()[..64] == M();
    }

    /** After Pad the buffer holds the last block of the padded message, and the earlier ones are digested. */
    method Pad() returns (ghost blocks: seq<Byte>)
      requires Valid()
      modifies this`cursor, w, h
      ensures |blocks| % 64 == 0 && State() == Fold(INITIAL, blocks)
      ensures |seen| < 0x2000_0000_0000_0000 ==> blocks + M() == seen + Padding(|seen|)
    {
      hide Fold, Whole, Tail, Bytes, LengthBytes, Zeros;
      PaddedBlocks(seen, LengthBytes(8 * |seen|));
      assert |seen| < 0x2000_0000_0000_0000 ==> l == 8 * |seen|;
      blocks := Whole(seen);
      ghost var tail := Tail(seen);
      ghost var m0 := M();
      Put(0x80);
      assert M()[..cursor] == m0[..cursor - 1] + [0x80] == tail + [0x80];
      if cursor > 56 {
        PutZeros(64);
        assert M()[..64] == M();
        ghost var m := M();
        assert m == tail + [0x80] + Zeros(63 - |tail|);
        Consume(blocks);
        blocks := blocks + m;
        PutZeros(56);
        assert [] + Zeros(56) == Zeros(56);
        assert M()[..56] == Zeros(56);
      } else {
        PutZeros(56);
        assert M()[..56] == tail + [0x80] + Zeros(55 - |tail|);
      }
      PutLength();
    }

    /** The end of Final, and Digest(): the state words are swapped in place and read as bytes. */
    method SwapState() returns (digest: seq<Byte>)
      requires Shape()
      modifies h
      ensures digest == DigestBytes(old(State()))
    {
      hide LittleEndianBytes, BigEndianBytes, SwapEnds;
      ghost var words := h[..];
      for t := 0 to 5
        invariant forall i :: 0 <= i < t ==> LittleEndianBytes(h[i]) == BigEndianBytes(words[i])
        invariant forall i :: t <= i < 5 ==> h[i] == words[i]
      {
        SwapWritesBigEndian(h[t]);
        h[t] := SwapEnds(h[t]);
      }
      digest := LittleEndianBytes(h[0]) + LittleEndianBytes(h[1]) + LittleEndianBytes(h[2]) + LittleEndianBytes(h[3]) + LittleEndianBytes(h[4]);
    }

    method Final() returns (digest: seq<Byte>)
      requires Valid() && |seen| < 0x2000_0000_0000_0000
      modifies this, w, h
      ensures digest == Digest(old(seen))
    {
      hide Fold, Whole, Tail, Bytes, Padding, DigestBytes;
      ghost var message := seen;
      ghost var blocks := Pad();
      Consume(blocks);
      digest := SwapState();
    }
  }

  /** SHA1HashBytes. */
  method Sha1HashBytes(data: seq<Byte>) returns (digest: seq<Byte>)
    requires |data| < 0x2000_0000_0000_0000
    ensures digest == Digest(data)
  {
    hide Digest, Fold, Whole, Tail;
    var sha := new SecureHashAlgorithm();
    sha.Update(data);
    assert [] + data == data;
    digest := sha.Final();
  }

  /** The usage example at the top of the source: any number of updates, one digest. */
  method Sha1OfPieces(pieces: seq<seq<Byte>>) returns (digest: seq<Byte>)
    requires |Concat(pieces)| < 0x2000_0000_0000_0000
    ensures digest == Digest(Concat(pieces))
  {
    hide Digest, Fold, Whole, Tail;
    var sha := new SecureHashAlgorithm();
    for i := 0 to |pieces|
      invariant sha.Valid() && sha.seen == Concat(pieces[..i])
      invariant fresh(sha) && fresh(sha.w) && fresh(sha.h)
    {
      sha.Update(pieces[i]);
      assert pieces[..i + 1][..i] == pieces[..i];
    }
    assert pieces[..|pieces|] == pieces;
    digest := sha.Final();
  }
}
