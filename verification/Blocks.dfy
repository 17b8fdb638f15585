/** Messages cut into 64-byte blocks, as both hashes cut them. */
module Blocks {
  import opened Words

  function Whole(message: seq<Byte>): (blocks: seq<Byte>)
    ensures |blocks| % 64 == 0
  {
    message[..|message| - |message| % 64]
  }

  function Tail(message: seq<Byte>): (tail: seq<Byte>)
    ensures |tail| == |message| % 64
  {
    message[|message| - |message| % 64..]
  }

  lemma WholeAndTail(blocks: seq<Byte>, tail: seq<Byte>)
    requires |blocks| % 64 == 0 && |tail| < 64
    ensures Whole(blocks + tail) == blocks && Tail(blocks + tail) == tail && |blocks + tail| % 64 == |tail|
  {
    assert |blocks + tail| % 64 == |tail|;
  }

  lemma Split(message: seq<Byte>)
    ensures message == Whole(message) + Tail(message)
  {
  }

  lemma ZerosConcat(m: nat, n: nat)
    ensures Zeros(m) + Zeros(n) == Zeros(m + n)
  {
  }

  /** How many zero bytes bring n bytes and the one bit to 56 modulo 64. */
  function ZeroCount(n: nat): (z: nat)
    ensures (n + z + 9) % 64 == 0 && z < 64
  {
    if n % 64 < 56 then 55 - n % 64 else 119 - n % 64
  }

  /** The one bit, the zeros, and the eight bytes of the length. */
  function PaddingWith(n: nat, length: seq<Byte>): (p: seq<Byte>)
    requires |length| == 8
    ensures (n + |p|) % 64 == 0
  {
    var z := ZeroCount(n);
    var p := [0x80] + Zeros(z) + length;
    assert |p| == z + 9;
    p
  }

  /** A message after the one bit, the zeros and eight more bytes: the padding fits in the last block, or spills into another. */
  lemma PaddedBlocks(message: seq<Byte>, length: seq<Byte>)
    requires |length| == 8
    ensures var tail := Tail(message);
      message + PaddingWith(|message|, length) ==
        if |tail| < 56 then Whole(message) + (tail + [0x80] + Zeros(55 - |tail|) + length)
        else Whole(message) + (tail + [0x80] + Zeros(63 - |tail|)) + (Zeros(56) + length)
  {
    var tail, blocks, n := Tail(message), Whole(message), |message|;
    Split(message);
    if |tail| >= 56 {
      ZerosConcat(63 - |tail|, 56);
      assert ZeroCount(n) == 63 - |tail| + 56;
      hide *;
      assert blocks + tail + ([0x80] + (Zeros(63 - |tail|) + Zeros(56)) + length)
          == blocks + (tail + [0x80] + Zeros(63 - |tail|)) + (Zeros(56) + length);
    } else {
      assert ZeroCount(n) == 55 - |tail|;
      hide *;
      assert blocks + tail + ([0x80] + Zeros(55 - |tail|) + length) == blocks + (tail + [0x80] + Zeros(55 - |tail|) + length);
    }
  }

  function Concat(pieces: seq<seq<Byte>>): seq<Byte> {
    if pieces == [] then [] else Concat(pieces[..|pieces| - 1]) + pieces[|pieces| - 1]
  }
}
