/**
 Bytes, 16-bit lengths and 64-bit patterns, and the big-endian order in which the wire carries them.
 */
module Bytes {

  newtype byte = x: int | 0 <= x < 256

  /** The eight bits of a byte. */
  function Bits(b: byte): bv8 {
    b as bv8
  }

  function FromBits(v: bv8): byte {
    v as byte
  }

  lemma NextPattern(v: bv8)
    requires v != 255
    ensures (v + 1) as int == v as int + 1
  {
  }

  lemma PatternOfNumber(n: int) returns (v: bv8)
    requires 0 <= n < 256
    ensures v as int == n
  {
    if n == 0 {
      v := 0;
    } else {
      v := PatternOfNumber(n - 1);
      NextPattern(v);
      v := v + 1;
    }
  }

  lemma NumberOfPattern(n: int)
    requires 0 <= n < 256
    ensures (n as bv8) as int == n
  {
    var v := PatternOfNumber(n);
    assert (v as int) as bv8 == v;
  }

  lemma FromBitsOfBits(b: byte)
    ensures FromBits(Bits(b)) == b
  {
    NumberOfPattern(b as int);
  }

  lemma BitsOfFromBits(v: bv8)
    ensures Bits(FromBits(v)) == v
  {
  }

  /** A sixteen-bit length as a number, read from its two wire bytes. */
  function BigEndian16(hi: byte, lo: byte): (n: nat)
    ensures n < 0x1_0000
  {
    (hi as nat) * 256 + (lo as nat)
  }

  function Encode16(n: nat): (b: seq<byte>)
    requires n < 0x1_0000
    ensures |b| == 2 && BigEndian16(b[0], b[1]) == n
  {
    [(n / 256) as byte, (n % 256) as byte]
  }

  lemma BigEndian16Injective(b: seq<byte>, c: seq<byte>)
    requires |b| == |c| == 2 && BigEndian16(b[0], b[1]) == BigEndian16(c[0], c[1])
    ensures b == c
  {
  }

  /** A sixteen-bit word whose more significant byte comes first. */
  function Word16(hi: byte, lo: byte): bv16 {
    ((Bits(hi) as bv16) << 8) | (Bits(lo) as bv16)
  }

  function EncodeWord16(w: bv16): (b: seq<byte>)
    ensures |b| == 2
  {
    [FromBits((w >> 8) as bv8), FromBits((w & 0xFF) as bv8)]
  }

  lemma Word16OfEncoded(w: bv16)
    ensures Word16(EncodeWord16(w)[0], EncodeWord16(w)[1]) == w
  {
    BitsOfFromBits((w >> 8) as bv8);
    BitsOfFromBits((w & 0xFF) as bv8);
  }

  function Join(b0: bv8, b1: bv8, b2: bv8, b3: bv8, b4: bv8, b5: bv8, b6: bv8, b7: bv8): bv64 {
    ((b0 as bv64) << 56) | ((b1 as bv64) << 48) | ((b2 as bv64) << 40) | ((b3 as bv64) << 32) |
    ((b4 as bv64) << 24) | ((b5 as bv64) << 16) | ((b6 as bv64) << 8) | (b7 as bv64)
  }

  /** The big-endian reading of eight bytes. */
  function Word64(b: seq<byte>): bv64
    requires |b| == 8
  {
    Join(Bits(b[0]), Bits(b[1]), Bits(b[2]), Bits(b[3]), Bits(b[4]), Bits(b[5]), Bits(b[6]), Bits(b[7]))
  }

  function ByteAt(w: bv64, shift: bv7): bv8
    requires shift <= 56
  {
    ((w >> shift) & 0xFF) as bv8
  }

  function EncodeWord64(w: bv64): (b: seq<byte>)
    ensures |b| == 8
  {
    [FromBits(ByteAt(w, 56)), FromBits(ByteAt(w, 48)), FromBits(ByteAt(w, 40)), FromBits(ByteAt(w, 32)),
     FromBits(ByteAt(w, 24)), FromBits(ByteAt(w, 16)), FromBits(ByteAt(w, 8)), FromBits(ByteAt(w, 0))]
  }

  lemma JoinOfBytes(w: bv64)
    ensures Join(ByteAt(w, 56), ByteAt(w, 48), ByteAt(w, 40), ByteAt(w, 32), ByteAt(w, 24), ByteAt(w, 16),
            ByteAt(w, 8), ByteAt(w, 0)) == w
  {
  }

  lemma BytesOfJoin(b0: bv8, b1: bv8, b2: bv8, b3: bv8, b4: bv8, b5: bv8, b6: bv8, b7: bv8)
    ensures var w := Join(b0, b1, b2, b3, b4, b5, b6, b7);
            && ByteAt(w, 56) == b0 && ByteAt(w, 48) == b1 && ByteAt(w, 40) == b2 && ByteAt(w, 32) == b3
            && ByteAt(w, 24) == b4 && ByteAt(w, 16) == b5 && ByteAt(w, 8) == b6 && ByteAt(w, 0) == b7
  {
  }

  lemma Word64OfEncoded(w: bv64)
    ensures Word64(EncodeWord64(w)) == w
  {
    var e := EncodeWord64(w);
    BitsOfFromBits(ByteAt(w, 56));
    BitsOfFromBits(ByteAt(w, 48));
    BitsOfFromBits(ByteAt(w, 40));
    BitsOfFromBits(ByteAt(w, 32));
    BitsOfFromBits(ByteAt(w, 24));
    BitsOfFromBits(ByteAt(w, 16));
    BitsOfFromBits(ByteAt(w, 8));
    BitsOfFromBits(ByteAt(w, 0));
    JoinOfBytes(w);
  }

  lemma EncodedOfWord64(b: seq<byte>)
    requires |b| == 8
    ensures EncodeWord64(Word64(b)) == b
  {
    BytesOfJoin(Bits(b[0]), Bits(b[1]), Bits(b[2]), Bits(b[3]), Bits(b[4]), Bits(b[5]), Bits(b[6]), Bits(b[7]));
    forall i | 0 <= i < 8 ensures FromBits(Bits(b[i])) == b[i] {
      FromBitsOfBits(b[i]);
    }
  }

  // ----- big-endian, byte by byte -----

  /** The more significant byte of a length comes first. */
  lemma Encode16Bytes(n: nat)
    requires n < 0x1_0000
    ensures Encode16(n)[0] as int == n / 256 && Encode16(n)[1] as int == n % 256
  {
  }

  lemma FromBitsIsNumber(v: bv8)
    ensures FromBits(v) as int == v as int
  {
  }

  /** The two halves of a sixteen-bit word, as numbers. */
  function UpperHalf(w: bv16): int {
    ((w >> 8) as bv8) as int
  }

  function LowerHalf(w: bv16): int {
    ((w & 0xFF) as bv8) as int
  }

  /** The more significant byte of a sixteen-bit word comes first. */
  lemma EncodeWord16Bytes(w: bv16)
    ensures EncodeWord16(w)[0] as int == UpperHalf(w) && EncodeWord16(w)[1] as int == LowerHalf(w)
  {
    hide FromBits;
    FromBitsIsNumber((w >> 8) as bv8);
    FromBitsIsNumber((w & 0xFF) as bv8);
  }

  lemma ShiftedByte(w: bv64, shift: bv7)
    requires shift <= 56
    ensures FromBits(ByteAt(w, shift)) as int == (((w >> shift) & 0xFF) as bv8) as int
  {
    hide FromBits;
    FromBitsIsNumber(ByteAt(w, shift));
  }

  /** Byte `i` of an eight-byte field is what lies 56 - 8 i bits up in the word. */
  lemma EncodeWord64Bytes(w: bv64)
    ensures var e := EncodeWord64(w);
            && e[0] as int == (((w >> 56) & 0xFF) as bv8) as int && e[1] as int == (((w >> 48) & 0xFF) as bv8) as int
            && e[2] as int == (((w >> 40) & 0xFF) as bv8) as int && e[3] as int == (((w >> 32) & 0xFF) as bv8) as int
            && e[4] as int == (((w >> 24) & 0xFF) as bv8) as int && e[5] as int == (((w >> 16) & 0xFF) as bv8) as int
            && e[6] as int == (((w >> 8) & 0xFF) as bv8) as int && e[7] as int == ((w & 0xFF) as bv8) as int
  {
    hide FromBits, ByteAt;
    ShiftedByte(w, 56);
    ShiftedByte(w, 48);
    ShiftedByte(w, 40);
    ShiftedByte(w, 32);
    ShiftedByte(w, 24);
    ShiftedByte(w, 16);
    ShiftedByte(w, 8);
    ShiftedByte(w, 0);
    NoShift(w);
  }

  lemma NoShift(w: bv64)
    ensures w >> 0 == w
  {
  }
}
