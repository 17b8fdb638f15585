/**
 base/md5.cc: the streaming context.  `Valid` ties the four state words, the two-word
 bit counter and the 64-byte buffer to the bytes seen so far.
 */
module Md5 {
  import opened Sequences
  import opened Words
  import opened Blocks
  import opened Md5Spec
  import Md5Transform

  const WRAP: nat := 0x1_0000_0000

  // ----- arithmetic of the counter -----

  /** The two words of the counter hold the length in bits, modulo 2^64. */
  predicate Counts(low: Count, high: Count, seen: nat) {
    low == 8 * seen % WRAP && high == 8 * seen / WRAP % WRAP
  }

  lemma Divides(n: nat, quotient: nat, remainder: nat)
    requires n == remainder + WRAP * quotient && remainder < WRAP
    ensures n % WRAP == remainder && n / WRAP == quotient
  {
  }

  /** Adding before or after reducing comes to the same. */
  lemma HighWord(a: nat, carry: nat, b: nat)
    ensures ((a % WRAP + carry) % WRAP + b % WRAP) % WRAP == (a + carry + b) % WRAP
  {
  }

  /** A carry happened exactly when the low word came out smaller than it was. */
  lemma CounterAdds(low: Count, high: Count, seen: nat, len: nat)
    requires Counts(low, high, seen)
    ensures var low' := (low + len % WRAP * 8 % WRAP) % WRAP;
      var carried := if low' < low then (high + 1) % WRAP else high;
      Counts(low', (carried + len / 0x2000_0000 % WRAP) % WRAP, seen + len)
  {
    var added := 8 * (len % 0x2000_0000);
    assert len % WRAP * 8 % WRAP == added;
    var low' := (low + added) % WRAP;
    var carry := if low' < low then 1 else 0;
    assert low + added == low' + WRAP * carry;
    var was := 8 * seen / WRAP;
    assert 8 * seen == low + WRAP * was;
    assert 8 * len == added + WRAP * (len / 0x2000_0000);
    Divides(8 * (seen + len), was + carry + len / 0x2000_0000, low');
    HighWord(was, carry, len / 0x2000_0000);
  }

  lemma CounterLow(low: Count, high: Count, seen: nat)
    requires Counts(low, high, seen)
    ensures low / 8 % 64 == seen % 64
  {
    assert 8 * seen == low + WRAP * (8 * seen / WRAP);
    assert low % 8 == 0;
    assert seen == low / 8 + 0x2000_0000 * (8 * seen / WRAP);
  }

  // ----- padding -----

  /** The padded message, when the padding fits in the last block and when it spills into another. */
  lemma PaddedMessage(message: seq<Byte>, low: Count, high: Count)
    requires Counts(low, high, |message|)
    ensures var tail := Tail(message);
      var length := CountBytes(low) + CountBytes(high);
      message + Padding(|message|) ==
        if |tail| < 56 then Whole(message) + (tail + [0x80] + Zeros(55 - |tail|) + length)
        else Whole(message) + (tail + [0x80] + Zeros(63 - |tail|)) + (Zeros(56) + length)
  {
    LengthOfCount(low, high, |message|);
    PaddedBlocks(message, CountBytes(low) + CountBytes(high));
    hide Zeros, CountBytes, Whole, Tail;
  }

  lemma LengthOfCount(low: Count, high: Count, n: nat)
    requires Counts(low, high, n)
    ensures LengthBytes(8 * n) == CountBytes(low) + CountBytes(high)
  {
    hide CountBytes;
  }

  // ----- the context -----

  class Md5Context {
    const buf: array<Word>
    const bits: array<Count>
    const input: array<Byte>
    ghost var seen: seq<Byte>

    ghost predicate Shape() {
      buf.Length == 4 && bits.Length == 2 && input.Length == 64
    }

    ghost function State(): Regs
      requires Shape()
      reads buf
    {
      Regs(buf[0], buf[1], buf[2], buf[3])
    }

    /** The counter counts the bytes seen, the words are their whole blocks' digest, the buffer holds the rest. */
    ghost predicate Valid()
      reads this, buf, bits, input
    {
      && Shape()
      && Counts(bits[0], bits[1], |seen|)
      && State() == Fold(INITIAL, Whole(seen))
      && input[..|seen| % 64] == Tail(seen)
    }

    /** MD5Init. */
    constructor ()
      ensures Valid() && seen == []
      ensures fresh(buf) && fresh(bits) && fresh(input)
    {
      buf := new Word[4];
      bits := new Count[2];
      input := new Byte[64];
      seen := [];
      new;
      buf[0], buf[1], buf[2], buf[3] := 0x67452301, 0xefcdab89, 0x98badcfe, 0x10325476;
      bits[0], bits[1] := 0, 0;
    }

    /** memcpy to `input` at an offset. */
    method CopyIn(at: nat, source: seq<Byte>)
      requires Shape() && at + |source| <= 64
      modifies input
      ensures input[..] == old(input[..at]) + source + old(input[at + |source|..])
    {
      for i := 0 to |source|
        invariant input[..] == old(input[..at]) + source[..i] + old(input[at + i..])
      {
        input[at + i] := source[i];
      }
    }

    /** byteReverse: assemble each word from its bytes and store it back; nothing changes on a little-endian host. */
    method ByteReverse(longs: nat)
      requires Shape() && 0 < longs <= 16
      modifies input
      ensures input[..] == old(input[..])
    {
      for n := 0 to longs
        invariant input[..] == old(input[..])
      {
        var temp := LittleEndian(input[4 * n..4 * n + 4]);
        LittleEndianRoundTrip(input[4 * n..4 * n + 4]);
        CopyIn(4 * n, LittleEndianBytes(temp));
      }
    }

    /** MD5Transform on the buffer. */
    method Transform()
      requires Shape()
      modifies buf
      ensures State() == Compress(old(State()), BlockWords(input[..]))
    {
      hide Steps, BlockWords, Add;
      var x := BlockWords(input[..]);
      var r := Regs(buf[0], buf[1], buf[2], buf[3]);
      var after := Md5Transform.AllRounds(r, x);
      buf[0] := Add(buf[0], after.a);
      buf[1] := Add(buf[1], after.b);
      buf[2] := Add(buf[2], after.c);
      buf[3] := Add(buf[3], after.d);
    }

    /** byteReverse and MD5Transform, which always go together: one more block is digested. */
    method Consume(ghost blocks: seq<Byte>)
      requires Shape() && |blocks| % 64 == 0 && State() == Fold(INITIAL, blocks)
      modifies buf, input
      ensures input[..] == old(input[..])
      ensures |blocks + input[..]| % 64 == 0
      ensures State() == Fold(INITIAL, blocks + input[..])
    {
      hide Fold, Compress, BlockWords;
      ByteReverse(16);
      Transform();
      FoldAppend(INITIAL, blocks, input[..]);
    }

    /** The bit count is carried from the low word to the high one. */
    method CountBits(len: nat)
      requires Shape() && Counts(bits[0], bits[1], |seen|) && len < 0x1_0000_0000_0000_0000
      modifies bits
      ensures Counts(bits[0], bits[1], |seen| + len)
    {
      hide Counts;
      CounterAdds(bits[0], bits[1], |seen|, len);
      var t := bits[0];
      bits[0] := (t + len % WRAP * 8 % WRAP) % WRAP;
      if bits[0] < t {
        bits[1] := (bits[1] + 1) % WRAP;
      }
      bits[1] := (bits[1] + len / 0x2000_0000 % WRAP) % WRAP;
    }

    /** The last part of MD5Update: whole blocks straight from the data, and the rest kept. */
    method ConsumeBlocks(data: seq<Byte>, ghost before: seq<Byte>)
      requires Shape() && |before| % 64 == 0 && State() == Fold(INITIAL, before)
      modifies buf, input
      ensures State() == Fold(INITIAL, Whole(before + data))
      ensures input[..|before + data| % 64] == Tail(before + data)
    {
      hide Fold, Compress, BlockWords, Whole, Tail;
      var pos := 0;
      assert before + data[..0] == before;
      while |data| - pos >= 64
        invariant pos <= |data| && |before + data[..pos]| % 64 == 0
        invariant State() == Fold(INITIAL, before + data[..pos])
        decreases |data| - pos
      {
        TakeOn(before, data, pos, pos + 64);
        CopyBlock(data[pos..pos + 64]);
        Consume(before + data[..pos]);
        pos := pos + 64;
      }
      TakeOn(before, data, pos, |data|);
      WholeAndTail(before + data[..pos], data[pos..]);
      CopyIn(0, data[pos..]);
    }

    method CopyBlock(block: seq<Byte>)
      requires Shape() && |block| == 64
      modifies input
      ensures input[..] == block
    {
      CopyIn(0, block);
    }

    method Update(data: seq<Byte>)
      requires Valid() && |data| < 0x1_0000_0000_0000_0000
      modifies this, buf, bits, input
      ensures Valid() && seen == old(seen) + data
    {
      hide Fold, Counts, Whole, Tail;
      var len := |data|;
      var t := bits[0];
      CounterLow(bits[0], bits[1], |seen|);
      CountBits(len);
      Split(seen);
      ghost var blocks, tail := Whole(seen), Tail(seen);
      seen := seen + data;
      var have := t / 8 % 64;
      if have == 0 {
        assert tail == [] && seen == blocks + data;
        ConsumeBlocks(data, blocks);
      } else {
        var need := 64 - have;
        if len < need {
          CopyIn(have, data);
          assert seen == blocks + (tail + data);
          WholeAndTail(blocks, tail + data);
        } else {
          CopyIn(have, data[..need]);
          assert input[..] == tail + data[..need];
          Consume(blocks);
          assert seen == blocks + (tail + data[..need]) + data[need..];
          ConsumeBlocks(data[need..], blocks + (tail + data[..need]));
        }
      }
    }

    /** The padding up to the length, in one block or in two. */
    method Pad(ghost message: seq<Byte>) returns (ghost blocks: seq<Byte>)
      requires Valid() && message == seen
      modifies buf, input
      ensures |blocks| % 64 == 0 && State() == Fold(INITIAL, blocks)
      ensures bits[..] == old(bits[..])
      ensures blocks + (input[..56] + (CountBytes(bits[0]) + CountBytes(bits[1]))) == message + Padding(|message|)
    {
      hide Fold, Counts, Whole, Tail, Padding, CountBytes;
      PaddedMessage(seen, bits[0], bits[1]);
      CounterLow(bits[0], bits[1], |seen|);
      var count := bits[0] / 8 % 64;
      ghost var tail := Tail(seen);
      blocks := Whole(seen);
      assert Shape() && input.Length == 64 && buf.Length == 4 && bits.Length == 2;
      assert input[..count] == tail && State() == Fold(INITIAL, blocks);
      hide *;
      CopyIn(count, [0x80]);
      assert input[..count + 1] == tail + [0x80];
      var free := 63 - count;
      if free < 8 {
        CopyIn(count + 1, Zeros(free));
        assert input[..] == tail + [0x80] + Zeros(63 - |tail|);
        Consume(blocks);
        blocks := blocks + input[..];
        CopyIn(0, Zeros(56));
        assert input[..56] == Zeros(56);
        Regroup(Whole(seen), tail + [0x80] + Zeros(63 - |tail|), Zeros(56) + (CountBytes(bits[0]) + CountBytes(bits[1])));
      } else {
        CopyIn(count + 1, Zeros(free - 8));
        assert input[..56] == tail + [0x80] + Zeros(55 - |tail|);
      }
    }

    /** MD5Final: pad, append the length, digest, and wipe the context. */
    method Final() returns (digest: seq<Byte>)
      requires Valid()
      modifies this, buf, bits, input
      ensures digest == Digest(old(seen))
      ensures buf[..] == [0, 0, 0, 0] && bits[..] == [0, 0] && input[..] == Zeros(64)
    {
      hide Fold, Counts, Whole, Tail, Padding, CountBytes, LittleEndianBytes, Compress, BlockWords;
      ghost var blocks := Pad(seen);
      ghost var front := input[..56];
      ByteReverse(14);
      CopyIn(56, CountBytes(bits[0]));
      CopyIn(60, CountBytes(bits[1]));
      assert input[..] == front + (CountBytes(bits[0]) + CountBytes(bits[1]));
      Transform();
      FoldAppend(INITIAL, blocks, input[..]);
      digest := LittleEndianBytes(buf[0]) + LittleEndianBytes(buf[1]) + LittleEndianBytes(buf[2]) + LittleEndianBytes(buf[3]);
      buf[0], buf[1], buf[2], buf[3] := 0, 0, 0, 0;
      bits[0], bits[1] := 0, 0;
      CopyIn(0, Zeros(64));
    }

    /** MD5IntermediateFinal: the digest so far, computed on a copy. */
    method IntermediateFinal() returns (digest: seq<Byte>)
      requires Valid()
      ensures digest == Digest(seen)
    {
      var copy := new Md5Context();
      copy.CopyFrom(this);
      digest := copy.Final();
    }

    method CopyFrom(other: Md5Context)
      requires Shape() && other.Valid() && other != this
      requires buf != other.buf && bits != other.bits && input != other.input
      modifies this, buf, bits, input
      ensures Valid() && seen == other.seen
    {
      hide Fold, Compress, BlockWords, Whole, Tail, Counts;
      buf[0], buf[1], buf[2], buf[3] := other.buf[0], other.buf[1], other.buf[2], other.buf[3];
      bits[0], bits[1] := other.bits[0], other.bits[1];
      CopyIn(0, other.input[..]);
      seen := other.seen;
    }
  }

  /** MD5Sum. */
  method Md5Sum(data: seq<Byte>) returns (digest: seq<Byte>)
    requires |data| < 0x1_0000_0000_0000_0000
    ensures digest == Digest(data)
  {
    hide Digest;
    var context := new Md5Context();
    context.Update(data);
    assert [] + data == data;
    digest := context.Final();
  }

  /** The calling sequence documented in md5.h: however a message is cut up, the digest is that of the whole. */
  method Md5OfPieces(pieces: seq<seq<Byte>>) returns (digest: seq<Byte>, prefixes: seq<seq<Byte>>)
    requires forall i :: 0 <= i < |pieces| ==> |pieces[i]| < 0x1_0000_0000_0000_0000
    ensures digest == Digest(Concat(pieces))
    ensures |prefixes| == |pieces|
    ensures forall i :: 0 <= i < |pieces| ==> prefixes[i] == Digest(Concat(pieces[..i + 1]))
  {
    hide Digest, Fold, Counts, Whole, Tail;
    var context := new Md5Context();
    prefixes := [];
    for i := 0 to |pieces|
      invariant context.Valid() && context.seen == Concat(pieces[..i])
      invariant fresh(context) && fresh(context.buf) && fresh(context.bits) && fresh(context.input)
      invariant |prefixes| == i && forall j :: 0 <= j < i ==> prefixes[j] == Digest(Concat(pieces[..j + 1]))
    {
      context.Update(pieces[i]);
      assert pieces[..i + 1][..i] == pieces[..i];
      var prefix := context.IntermediateFinal();
      prefixes := prefixes + [prefix];
    }
    assert pieces[..|pieces|] == pieces;
    digest := context.Final();
  }

  // ----- the printed form -----

  function HexDigit(n: Byte): char
    requires n < 16
  {
    if n == 0 then '0' else
    if n == 1 then '1' else
    if n == 2 then '2' else
    if n == 3 then '3' else
    if n == 4 then '4' else
    if n == 5 then '5' else
    if n == 6 then '6' else
    if n == 7 then '7' else
    if n == 8 then '8' else
    if n == 9 then '9' else
    if n == 10 then 'a' else
    if n == 11 then 'b' else
    if n == 12 then 'c' else
    if n == 13 then 'd' else
    if n == 14 then 'e' else
    'f'
  }

  /** The value of a digit, 16 for what is not one. */
  function HexValue(c: char): Byte {
    if c == '0' then 0 else
    if c == '1' then 1 else
    if c == '2' then 2 else
    if c == '3' then 3 else
    if c == '4' then 4 else
    if c == '5' then 5 else
    if c == '6' then 6 else
    if c == '7' then 7 else
    if c == '8' then 8 else
    if c == '9' then 9 else
    if c == 'a' then 10 else
    if c == 'b' then 11 else
    if c == 'c' then 12 else
    if c == 'd' then 13 else
    if c == 'e' then 14 else
    if c == 'f' then 15 else
    16
  }

  lemma HexRoundTrip(n: Byte)
    requires n < 16
    ensures HexValue(HexDigit(n)) == n
  {
  }

  lemma Nibbles(b: Byte)
    ensures b >> 4 < 16 && b & 0xf < 16
    ensures ((b >> 4) << 4) | (b & 0xf) == b
  {
  }

  function Pair(high: char, low: char): Byte {
    (HexValue(high) << 4) | HexValue(low)
  }

  function FromBase16(text: string): seq<Byte> {
    seq(|text| / 2, i requires 0 <= i < |text| / 2 => Pair(text[2 * i], text[2 * i + 1]))
  }

  /** MD5DigestToBase16: the text reads back as the digest. */
  method DigestToBase16(digest: seq<Byte>) returns (text: string)
    requires |digest| == 16
    ensures |text| == 32 && FromBase16(text) == digest
    ensures forall c <- text :: HexValue(c) < 16
  {
    text := "";
    for i := 0 to 16
      invariant |text| == 2 * i && FromBase16(text) == digest[..i]
      invariant forall c <- text :: HexValue(c) < 16
    {
      var a := digest[i];
      Nibbles(a);
      HexRoundTrip((a >> 4) & 0xf);
      HexRoundTrip(a & 0xf);
      text := text + [HexDigit((a >> 4) & 0xf), HexDigit(a & 0xf)];
    }
  }
}
