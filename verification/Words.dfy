/** Bytes, 32-bit words and the two byte orders, as the hashes use them. */
module Words {
  type Byte = bv8
  type Word = bv32

  /** Unsigned 32-bit addition, which wraps. */
  function Add(x: Word, y: Word): Word {
    x + y
  }

  function LittleEndian(b: seq<Byte>): Word
    requires |b| == 4
  {
    (b[3] as Word << 24) | (b[2] as Word << 16) | (b[1] as Word << 8) | (b[0] as Word)
  }

  function BigEndian(b: seq<Byte>): Word
    requires |b| == 4
  {
    (b[0] as Word << 24) | (b[1] as Word << 16) | (b[2] as Word << 8) | (b[3] as Word)
  }

  function LittleEndianBytes(w: Word): (b: seq<Byte>)
    ensures |b| == 4
  {
    [(w & 0xff) as Byte, ((w >> 8) & 0xff) as Byte, ((w >> 16) & 0xff) as Byte, (w >> 24) as Byte]
  }

  function BigEndianBytes(w: Word): (b: seq<Byte>)
    ensures |b| == 4
  {
    [(w >> 24) as Byte, ((w >> 16) & 0xff) as Byte, ((w >> 8) & 0xff) as Byte, (w & 0xff) as Byte]
  }

  lemma LittleEndianRoundTrip(b: seq<Byte>)
    requires |b| == 4
    ensures LittleEndianBytes(LittleEndian(b)) == b
  {
  }

  lemma LittleEndianOfBytes(w: Word)
    ensures LittleEndian(LittleEndianBytes(w)) == w
  {
  }

  /** A uint32_t kept as an integer because it is counted with rather than mixed. */
  type Count = n: int | 0 <= n < 0x1_0000_0000

  /** The four bytes of such a word in the memory of a little-endian host. */
  function CountBytes(n: Count): (b: seq<Byte>)
    ensures |b| == 4
  {
    LittleEndianBytes(n as Word)
  }

  function Zeros(n: nat): (z: seq<Byte>)
    ensures |z| == n
  {
    seq(n, _ => 0)
  }
}
