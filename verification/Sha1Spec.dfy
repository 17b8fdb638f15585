/** The Secure Hash Algorithm SHA-1 as FIPS 180-3 defines it. */
module Sha1Spec {
  import opened Words
  import opened Blocks

  datatype Regs = Regs(a: Word, b: Word, c: Word, d: Word, e: Word)

  /** Section 3.2: circular shift left. */
  function RotateLeft(n: nat, x: Word): Word
    requires 0 < n < 32
  {
    x.RotateLeft(n)
  }

  // Section 4.1.1.
  function Ch(x: Word, y: Word, z: Word): Word { (x & y) ^ (!x & z) }
  function Parity(x: Word, y: Word, z: Word): Word { x ^ y ^ z }
  function Maj(x: Word, y: Word, z: Word): Word { (x & y) ^ (x & z) ^ (y & z) }

  function F(t: nat, x: Word, y: Word, z: Word): Word
    requires t < 80
  {
    if t < 20 then Ch(x, y, z) else if t < 40 then Parity(x, y, z) else if t < 60 then Maj(x, y, z) else Parity(x, y, z)
  }

  /** Section 4.2.1. */
  function Constant(t: nat): Word
    requires t < 80
  {
    CONSTANTS[t / 20]
  }

  const CONSTANTS: seq<Word> := [0x5a827999, 0x6ed9eba1, 0x8f1bbcdc, 0xca62c1d6]

  /** Section 6.1.2, step 1: the message schedule. */
  function Schedule(block: seq<Byte>, t: nat): Word
    requires |block| == 64 && t < 80
    decreases t
  {
    if t < 16 then BigEndian(block[4 * t..4 * t + 4])
    else Expand(Schedule(block, t - 3), Schedule(block, t - 8), Schedule(block, t - 14), Schedule(block, t - 16))
  }

  function Expand(w3: Word, w8: Word, w14: Word, w16: Word): Word {
    RotateLeft(1, w3 ^ w8 ^ w14 ^ w16)
  }

  function Temp(a: Word, f: Word, e: Word, k: Word, w: Word): Word {
    Sum(RotateLeft(5, a), f, e, k, w)
  }

  function Sum(a: Word, b: Word, c: Word, d: Word, e: Word): Word {
    a + b + c + d + e
  }

  /** Step 3, one value of t. */
  function Round(t: nat, r: Regs, w: Word): Regs
    requires t < 80
  {
    Regs(Temp(r.a, F(t, r.b, r.c, r.d), r.e, Constant(t), w), r.a, RotateLeft(30, r.b), r.c, r.d)
  }

  function Rounds(n: nat, r: Regs, block: seq<Byte>): Regs
    requires n <= 80 && |block| == 64
  {
    if n == 0 then r else Round(n - 1, Rounds(n - 1, r, block), Schedule(block, n - 1))
  }

  function Plus(r: Regs, q: Regs): Regs {
    Regs(Add(r.a, q.a), Add(r.b, q.b), Add(r.c, q.c), Add(r.d, q.d), Add(r.e, q.e))
  }

  /** Steps 2 to 4. */
  function Compress(r: Regs, block: seq<Byte>): Regs
    requires |block| == 64
  {
    Plus(r, Rounds(80, r, block))
  }

  /** Section 5.3.1. */
  const INITIAL := Regs(0x67452301, 0xefcdab89, 0x98badcfe, 0x10325476, 0xc3d2e1f0)

  function Fold(r: Regs, blocks: seq<Byte>): Regs
    requires |blocks| % 64 == 0
  {
    if blocks == [] then r
    else
      var n := |blocks| - 64;
      Compress(Fold(r, blocks[..n]), blocks[n..])
  }

  /** The byte of a number that starts `shift` bits up: (n >> shift) & 0xff. */
  function ByteAt(n: nat, unit: nat): Byte
    requires unit > 0
  {
    (n / unit % 256) as Byte
  }

  /** Section 5.1.1: the length as a 64-bit block, most significant byte first. */
  function LengthBytes(bits: nat): (b: seq<Byte>)
    ensures |b| == 8
  {
    [ByteAt(bits, 0x100_0000_0000_0000), ByteAt(bits, 0x1_0000_0000_0000), ByteAt(bits, 0x100_0000_0000), ByteAt(bits, 0x1_0000_0000),
     ByteAt(bits, 0x100_0000), ByteAt(bits, 0x1_0000), ByteAt(bits, 0x100), ByteAt(bits, 1)]
  }

  function Padding(n: nat): (p: seq<Byte>)
    ensures (n + |p|) % 64 == 0
  {
    PaddingWith(n, LengthBytes(8 * n))
  }

  function DigestBytes(r: Regs): (digest: seq<Byte>)
    ensures |digest| == 20
  {
    BigEndianBytes(r.a) + BigEndianBytes(r.b) + BigEndianBytes(r.c) + BigEndianBytes(r.d) + BigEndianBytes(r.e)
  }

  /** The standard is defined for messages of fewer than 2^64 bits. */
  function Digest(message: seq<Byte>): (digest: seq<Byte>)
    requires |message| < 0x2000_0000_0000_0000
    ensures |digest| == 20
  {
    DigestBytes(Fold(INITIAL, message + Padding(|message|)))
  }

  lemma FoldAppend(r: Regs, blocks: seq<Byte>, block: seq<Byte>)
    requires |blocks| % 64 == 0 && |block| == 64
    ensures |blocks + block| % 64 == 0
    ensures Fold(r, blocks + block) == Compress(Fold(r, blocks), block)
  {
    assert (blocks + block)[..|blocks|] == blocks;
    assert (blocks + block)[|blocks|..] == block;
  }
}
