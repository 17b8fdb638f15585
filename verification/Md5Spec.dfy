/** The MD5 message digest as RFC 1321 defines it. */
module Md5Spec {
  import opened Words
  import opened Blocks

  datatype Regs = Regs(a: Word, b: Word, c: Word, d: Word)

  // Section 3.4: the four auxiliary functions.
  function F(x: Word, y: Word, z: Word): Word { (x & y) | (!x & z) }
  function G(x: Word, y: Word, z: Word): Word { (x & z) | (y & !z) }
  function H(x: Word, y: Word, z: Word): Word { x ^ y ^ z }
  function I(x: Word, y: Word, z: Word): Word { y ^ (x | !z) }

  function RotateLeft(x: Word, s: Word): Word
    requires 0 < s < 32
  {
    (x << s) | (x >> (32 - s))
  }

  /** Section 3.4: the table T, floor(4294967296 * abs(sin(i + 1))), a round at a time. */
  function T(i: nat): Word
    requires i < 64
  {
    if i < 16 then T1(i) else if i < 32 then T2(i - 16) else if i < 48 then T3(i - 32) else T4(i - 48)
  }

  function T1(i: nat): Word
    requires i < 16
  {
    match i
    case 0 => 0xd76aa478 case 1 => 0xe8c7b756 case 2 => 0x242070db case 3 => 0xc1bdceee
    case 4 => 0xf57c0faf case 5 => 0x4787c62a case 6 => 0xa8304613 case 7 => 0xfd469501
    case 8 => 0x698098d8 case 9 => 0x8b44f7af case 10 => 0xffff5bb1 case 11 => 0x895cd7be
    case 12 => 0x6b901122 case 13 => 0xfd987193 case 14 => 0xa679438e case 15 => 0x49b40821
  }

  function T2(i: nat): Word
    requires i < 16
  {
    match i
    case 0 => 0xf61e2562 case 1 => 0xc040b340 case 2 => 0x265e5a51 case 3 => 0xe9b6c7aa
    case 4 => 0xd62f105d case 5 => 0x02441453 case 6 => 0xd8a1e681 case 7 => 0xe7d3fbc8
    case 8 => 0x21e1cde6 case 9 => 0xc33707d6 case 10 => 0xf4d50d87 case 11 => 0x455a14ed
    case 12 => 0xa9e3e905 case 13 => 0xfcefa3f8 case 14 => 0x676f02d9 case 15 => 0x8d2a4c8a
  }

  function T3(i: nat): Word
    requires i < 16
  {
    match i
    case 0 => 0xfffa3942 case 1 => 0x8771f681 case 2 => 0x6d9d6122 case 3 => 0xfde5380c
    case 4 => 0xa4beea44 case 5 => 0x4bdecfa9 case 6 => 0xf6bb4b60 case 7 => 0xbebfbc70
    case 8 => 0x289b7ec6 case 9 => 0xeaa127fa case 10 => 0xd4ef3085 case 11 => 0x04881d05
    case 12 => 0xd9d4d039 case 13 => 0xe6db99e5 case 14 => 0x1fa27cf8 case 15 => 0xc4ac5665
  }

  function T4(i: nat): Word
    requires i < 16
  {
    match i
    case 0 => 0xf4292244 case 1 => 0x432aff97 case 2 => 0xab9423a7 case 3 => 0xfc93a039
    case 4 => 0x655b59c3 case 5 => 0x8f0ccc92 case 6 => 0xffeff47d case 7 => 0x85845dd1
    case 8 => 0x6fa87e4f case 9 => 0xfe2ce6e0 case 10 => 0xa3014314 case 11 => 0x4e0811a1
    case 12 => 0xf7537e82 case 13 => 0xbd3af235 case 14 => 0x2ad7d2bb case 15 => 0xeb86d391
  }

  /** Which word of the block step i uses. */
  function K(i: nat): (k: nat)
    requires i < 64
    ensures k < 16
  {
    if i < 16 then i
    else if i < 32 then (5 * i + 1) % 16
    else if i < 48 then (3 * i + 5) % 16
    else (7 * i) % 16
  }

  /** How far step i rotates. */
  function S(i: nat): (s: Word)
    requires i < 64
    ensures 0 < s < 32
  {
    if i < 16 then (if i % 4 == 0 then 7 else if i % 4 == 1 then 12 else if i % 4 == 2 then 17 else 22)
    else if i < 32 then (if i % 4 == 0 then 5 else if i % 4 == 1 then 9 else if i % 4 == 2 then 14 else 20)
    else if i < 48 then (if i % 4 == 0 then 4 else if i % 4 == 1 then 11 else if i % 4 == 2 then 16 else 23)
    else (if i % 4 == 0 then 6 else if i % 4 == 1 then 10 else if i % 4 == 2 then 15 else 21)
  }

  function Mix(i: nat, x: Word, y: Word, z: Word): Word
    requires i < 64
  {
    if i < 16 then F(x, y, z) else if i < 32 then G(x, y, z) else if i < 48 then H(x, y, z) else I(x, y, z)
  }

  function Turn(a: Word, b: Word, mix: Word, word: Word, constant: Word, s: Word): Word
    requires 0 < s < 32
  {
    b + RotateLeft(a + mix + word + constant, s)
  }

  /**
   Step i: a = b + ((a + mix(b, c, d) + X[k] + T[i]) <<< s).  The RFC names the registers
   [ABCD], [DABC], [CDAB], [BCDA] in turn; here they trade places instead.
   */
  function Op(i: nat, r: Regs, x: seq<Word>): Regs
    requires i < 64 && |x| == 16
  {
    Regs(r.d, Turn(r.a, r.b, Mix(i, r.b, r.c, r.d), x[K(i)], T(i), S(i)), r.b, r.c)
  }

  function Steps(first: nat, n: nat, r: Regs, x: seq<Word>): Regs
    requires first + n <= 64 && |x| == 16
    decreases n
  {
    if n == 0 then r else Op(first + n - 1, Steps(first, n - 1, r, x), x)
  }

  function BlockWords(block: seq<Byte>): (x: seq<Word>)
    requires |block| == 64
    ensures |x| == 16
  {
    seq(16, i requires 0 <= i < 16 => LittleEndian(block[4 * i..4 * i + 4]))
  }

  function Plus(r: Regs, q: Regs): Regs {
    Regs(Add(r.a, q.a), Add(r.b, q.b), Add(r.c, q.c), Add(r.d, q.d))
  }

  function Compress(r: Regs, x: seq<Word>): Regs
    requires |x| == 16
  {
    Plus(r, Steps(0, 64, r, x))
  }

  /** Section 3.3. */
  const INITIAL := Regs(0x67452301, 0xefcdab89, 0x98badcfe, 0x10325476)

  /** Section 3.4: the blocks of a padded message, from first to last. */
  function Fold(r: Regs, blocks: seq<Byte>): Regs
    requires |blocks| % 64 == 0
  {
    if blocks == [] then r
    else
      var n := |blocks| - 64;
      Compress(Fold(r, blocks[..n]), BlockWords(blocks[n..]))
  }

  /** Section 3.2: a 64-bit count, low-order word first. */
  function LengthBytes(bits: nat): (b: seq<Byte>)
    ensures |b| == 8
  {
    CountBytes(bits % 0x1_0000_0000) + CountBytes(bits / 0x1_0000_0000 % 0x1_0000_0000)
  }

  /** Section 3.1 and 3.2: a one bit, the zeros, and the length in bits. */
  function Padding(n: nat): (p: seq<Byte>)
    ensures (n + |p|) % 64 == 0
  {
    PaddingWith(n, LengthBytes(8 * n))
  }

  function DigestBytes(r: Regs): (digest: seq<Byte>)
    ensures |digest| == 16
  {
    LittleEndianBytes(r.a) + LittleEndianBytes(r.b) + LittleEndianBytes(r.c) + LittleEndianBytes(r.d)
  }

  function Digest(message: seq<Byte>): (digest: seq<Byte>)
    ensures |digest| == 16
  {
    DigestBytes(Fold(INITIAL, message + Padding(|message|)))
  }

  lemma FoldAppend(r: Regs, blocks: seq<Byte>, block: seq<Byte>)
    requires |blocks| % 64 == 0 && |block| == 64
    ensures |blocks + block| % 64 == 0
    ensures Fold(r, blocks + block) == Compress(Fold(r, blocks), BlockWords(block))
  {
    assert (blocks + block)[..|blocks|] == blocks;
    assert (blocks + block)[|blocks|..] == block;
  }
}
