/**
 The checksum one bit at a time. Each byte enters least significant bit first, and the register is linear:
 the checksums of two equally long inputs differ by what the register makes of the bits in which they differ.
 */
module CrcBits {
  import opened Bytes
  import opened Crc

  function BitWord(bit: bool): bv16 {
    if bit then 1 else 0
  }

  /** The register after single bits have been fed in. */
  function FeedBits(crc: bv16, bits: seq<bool>): bv16
    decreases |bits|, crc
  {
    if |bits| == 0 then crc
    else Shift(Plus(FeedBits(crc, bits[..|bits| - 1]), BitWord(bits[|bits| - 1])))
  }

  predicate Has(v: bv8, mask: bv8) {
    v & mask != 0
  }

  function ByteBits(b: byte): (bits: seq<bool>)
    ensures |bits| == 8
  {
    var v := Bits(b);
    [Has(v, 0x01), Has(v, 0x02), Has(v, 0x04), Has(v, 0x08), Has(v, 0x10), Has(v, 0x20), Has(v, 0x40), Has(v, 0x80)]
  }

  /** All bits of `data` in the order in which the register sees them. */
  function BitsOf(data: seq<byte>): (bits: seq<bool>)
    ensures |bits| == 8 * |data|
    decreases |data|
  {
    if |data| == 0 then [] else BitsOf(data[..|data| - 1]) + ByteBits(data[|data| - 1])
  }

  // ----- registers form a group under Plus -----

  lemma XorAssociative(a: bv16, b: bv16, c: bv16)
    ensures (a ^ b) ^ c == a ^ (b ^ c)
  {
  }

  lemma PlusAssociative(a: bv16, b: bv16, c: bv16)
    ensures Plus(Plus(a, b), c) == Plus(a, Plus(b, c))
  {
    XorAssociative(a, b, c);
  }

  lemma PlusCommutative(a: bv16, b: bv16)
    ensures Plus(a, b) == Plus(b, a)
  {
  }

  lemma PlusZero(a: bv16)
    ensures Plus(a, 0) == a && Plus(0, a) == a && Plus(a, a) == 0
  {
  }

  lemma PlusCancel(a: bv16, b: bv16)
    ensures Plus(a, b) == 0 <==> a == b
  {
    hide Plus;
    PlusAssociative(a, b, b);
    PlusZero(a);
    PlusZero(b);
  }

  lemma Interchange(a: bv16, b: bv16, c: bv16, d: bv16)
    ensures Plus(Plus(a, b), Plus(c, d)) == Plus(Plus(a, c), Plus(b, d))
  {
    hide Plus;
    PlusAssociative(a, b, Plus(c, d));
    PlusAssociative(b, c, d);
    PlusCommutative(b, c);
    PlusAssociative(c, b, d);
    PlusAssociative(a, c, Plus(b, d));
  }

  // ----- turning is linear and injective -----

  lemma XorOfHalves(a: bv16, b: bv16)
    ensures (a ^ b) & 1 == (a & 1) ^ (b & 1)
    ensures (a ^ b) >> 1 == (a >> 1) ^ (b >> 1)
    ensures (a & 1 == 0 || a & 1 == 1) && (b & 1 == 0 || b & 1 == 1)
  {
  }

  lemma HalvesOfPlus(a: bv16, b: bv16)
    ensures LowBit(Plus(a, b)) == (LowBit(a) != LowBit(b))
    ensures Half(Plus(a, b)) == Plus(Half(a), Half(b))
  {
    XorOfHalves(a, b);
  }

  /** The polynomial, added twice, is gone; added once, it may be added last. */
  lemma PolynomialCancels(a: bv16, b: bv16)
    ensures Plus(Plus(a, POLYNOMIAL), Plus(b, POLYNOMIAL)) == Plus(a, b)
    ensures Plus(Plus(a, POLYNOMIAL), b) == Plus(Plus(a, b), POLYNOMIAL)
    ensures Plus(a, Plus(b, POLYNOMIAL)) == Plus(Plus(a, b), POLYNOMIAL)
  {
    hide Plus;
    Interchange(a, POLYNOMIAL, b, POLYNOMIAL);
    Interchange(a, POLYNOMIAL, b, 0);
    PlusAssociative(a, b, POLYNOMIAL);
    PlusZero(b);
    PlusZero(POLYNOMIAL);
    PlusZero(Plus(a, b));
  }

  lemma ShiftLinear(a: bv16, b: bv16)
    ensures Shift(Plus(a, b)) == Plus(Shift(a), Shift(b))
  {
    hide Shift, Plus, LowBit, Half;
    ShiftByHalves(a);
    ShiftByHalves(b);
    ShiftByHalves(Plus(a, b));
    HalvesOfPlus(a, b);
    PolynomialCancels(Half(a), Half(b));
  }

  lemma ShiftInjective(a: bv16, b: bv16)
    requires Shift(a) == Shift(b)
    ensures a == b
  {
  }

  lemma {:induction false} ShiftsLinear(a: bv16, b: bv16, n: nat)
    ensures Shifts(Plus(a, b), n) == Plus(Shifts(a, n), Shifts(b, n))
    decreases n
  {
    hide Shift, Plus;
    if n > 0 {
      ShiftsLinear(a, b, n - 1);
      ShiftLinear(Shifts(a, n - 1), Shifts(b, n - 1));
    }
  }

  lemma {:induction false} ShiftsInjective(a: bv16, b: bv16, n: nat)
    requires Shifts(a, n) == Shifts(b, n)
    ensures a == b
    decreases n
  {
    hide Shift;
    if n > 0 {
      ShiftInjective(Shifts(a, n - 1), Shifts(b, n - 1));
      ShiftsInjective(a, b, n - 1);
    }
  }

  lemma {:induction false} ShiftsAdd(crc: bv16, m: nat, n: nat)
    ensures Shifts(crc, m + n) == Shifts(Shifts(crc, m), n)
    decreases n
  {
    hide Shift;
    if n > 0 {
      ShiftsAdd(crc, m, n - 1);
    }
  }

  lemma {:induction false} ShiftsOfZero(n: nat)
    ensures Shifts(0, n) == 0
    decreases n
  {
    if n > 0 {
      ShiftsOfZero(n - 1);
    }
  }

  // ----- a run of bits acts like one word loaded at once -----

  /** The register that one turn takes to `crc`. */
  function Unshift(crc: bv16): bv16 {
    if crc & 0x8000 != 0 then ((crc ^ POLYNOMIAL) << 1) | 1 else crc << 1
  }

  lemma UnshiftWithCarry(crc: bv16)
    requires crc & 0x8000 != 0
    ensures (((crc ^ POLYNOMIAL) << 1) | 1) & 1 == 1
    ensures (((crc ^ POLYNOMIAL) << 1) | 1) >> 1 == crc ^ POLYNOMIAL
    ensures (crc ^ POLYNOMIAL) ^ POLYNOMIAL == crc
  {
  }

  lemma UnshiftWithoutCarry(crc: bv16)
    requires crc & 0x8000 == 0
    ensures (crc << 1) & 1 == 0
    ensures (crc << 1) >> 1 == crc
  {
  }

  lemma ShiftOfUnshift(crc: bv16)
    ensures Shift(Unshift(crc)) == crc
  {
    if crc & 0x8000 != 0 {
      UnshiftWithCarry(crc);
    } else {
      UnshiftWithoutCarry(crc);
    }
  }

  function Unshifts(crc: bv16, n: nat): bv16
    decreases n, crc
  {
    if n == 0 then crc else Unshift(Unshifts(crc, n - 1))
  }

  lemma {:induction false} ShiftsOfUnshifts(crc: bv16, n: nat)
    ensures Shifts(Unshifts(crc, n), n) == crc
    decreases n
  {
    hide Shift, Unshift;
    if n > 0 {
      ShiftsAdd(Unshifts(crc, n), 1, n - 1);
      assert Shifts(Unshifts(crc, n), 1) == Shift(Shifts(Unshifts(crc, n), 0));
      ShiftOfUnshift(Unshifts(crc, n - 1));
      ShiftsOfUnshifts(crc, n - 1);
    }
  }

  /** The word that, loaded at once, acts like `bits` fed in one by one. */
  function WordOf(bits: seq<bool>): bv16
    decreases |bits|
  {
    if |bits| == 0 then 0
    else Plus(WordOf(bits[..|bits| - 1]), Unshifts(BitWord(bits[|bits| - 1]), |bits| - 1))
  }

  lemma {:induction false} FeedBitsAtOnce(crc: bv16, bits: seq<bool>)
    ensures FeedBits(crc, bits) == Shifts(Plus(crc, WordOf(bits)), |bits|)
    decreases |bits|
  {
    hide Shift, Plus, Unshifts, BitWord;
    if |bits| == 0 {
      PlusZero(crc);
    } else {
      var n := |bits| - 1;
      var init, last := bits[..n], BitWord(bits[n]);
      FeedBitsAtOnce(crc, init);
      ShiftsOfUnshifts(last, n);
      ShiftsLinear(Plus(crc, WordOf(init)), Unshifts(last, n), n);
      PlusAssociative(crc, WordOf(init), Unshifts(last, n));
    }
  }

  lemma {:induction false} FeedBitsConcat(crc: bv16, a: seq<bool>, b: seq<bool>)
    ensures FeedBits(crc, a + b) == FeedBits(FeedBits(crc, a), b)
    decreases |b|
  {
    hide Shift, Plus, BitWord;
    if |b| == 0 {
      assert a + b == a;
    } else {
      assert (a + b)[..|a + b| - 1] == a + b[..|b| - 1];
      FeedBitsConcat(crc, a, b[..|b| - 1]);
    }
  }

  // ----- the byte-wise loop is the bit-serial register -----

  /** A single one bit at position k below sixteen is worth two to the k. */
  lemma SmallUnits()
    ensures Unshifts(1, 0) == 0x0001 && Unshifts(1, 1) == 0x0002 && Unshifts(1, 2) == 0x0004 && Unshifts(1, 3) == 0x0008
    ensures Unshifts(1, 4) == 0x0010 && Unshifts(1, 5) == 0x0020 && Unshifts(1, 6) == 0x0040 && Unshifts(1, 7) == 0x0080
    ensures Unshifts(1, 8) == 0x0100 && Unshifts(1, 9) == 0x0200
    ensures Unshifts(1, 10) == 0x0400 && Unshifts(1, 11) == 0x0800
    ensures Unshifts(1, 12) == 0x1000 && Unshifts(1, 13) == 0x2000
    ensures Unshifts(1, 14) == 0x4000 && Unshifts(1, 15) == 0x8000
  {
  }

  lemma {:induction false} UnshiftsOfZero(n: nat)
    ensures Unshifts(0, n) == 0
    decreases n
  {
    if n > 0 {
      UnshiftsOfZero(n - 1);
    }
  }

  function Digit(bit: bool, value: bv16): bv16 {
    if bit then value else 0
  }

  lemma WordOfNext(b: seq<bool>, i: nat, value: bv16)
    requires i < |b| && Unshifts(1, i) == value
    ensures WordOf(b[..i + 1]) == Plus(WordOf(b[..i]), Digit(b[i], value))
  {
    hide Plus, Unshifts;
    assert b[..i + 1][..i] == b[..i];
    UnshiftsOfZero(i);
  }

  lemma WordOfEight(b: seq<bool>)
    requires |b| == 8
    ensures WordOf(b) ==
            Plus(Plus(Plus(Plus(Plus(Plus(Plus(Digit(b[0], 0x01), Digit(b[1], 0x02)), Digit(b[2], 0x04)),
              Digit(b[3], 0x08)),
                           Digit(b[4], 0x10)), Digit(b[5], 0x20)), Digit(b[6], 0x40)), Digit(b[7], 0x80))
  {
    hide Plus, Unshifts, Digit;
    SmallUnits();
    PlusZero(Digit(b[0], 0x01));
    WordOfNext(b, 0, 0x01);
    WordOfNext(b, 1, 0x02);
    WordOfNext(b, 2, 0x04);
    WordOfNext(b, 3, 0x08);
    WordOfNext(b, 4, 0x10);
    WordOfNext(b, 5, 0x20);
    WordOfNext(b, 6, 0x40);
    WordOfNext(b, 7, 0x80);
    assert b[..8] == b;
  }

  lemma DigitsOfByte(v: bv8)
    ensures v as bv16 ==
      Plus(Plus(Plus(Plus(Plus(Plus(Plus(Digit(Has(v, 0x01), 0x01), Digit(Has(v, 0x02), 0x02)),
        Digit(Has(v, 0x04), 0x04)),
        Digit(Has(v, 0x08), 0x08)), Digit(Has(v, 0x10), 0x10)), Digit(Has(v, 0x20), 0x20)), Digit(Has(v, 0x40), 0x40)),
        Digit(Has(v, 0x80), 0x80))
  {
  }

  lemma WordOfByteBits(b: byte)
    ensures WordOf(ByteBits(b)) == Widen(b)
  {
    hide Plus, WordOf, Digit, Bits, Has;
    WordOfEight(ByteBits(b));
    DigitsOfByte(Bits(b));
  }

  lemma AbsorbIsEightBits(crc: bv16, b: byte)
    ensures Absorb(crc, b) == FeedBits(crc, ByteBits(b))
  {
    hide Shift, Plus, Widen, WordOf, ByteBits;
    FeedBitsAtOnce(crc, ByteBits(b));
    WordOfByteBits(b);
  }

  lemma {:induction false} FeedIsFeedBits(crc: bv16, data: seq<byte>)
    ensures Feed(crc, data) == FeedBits(crc, BitsOf(data))
    decreases |data|
  {
    hide Absorb, Shift, Plus, ByteBits, FeedBits;
    if |data| == 0 {
      assert FeedBits(crc, []) == crc by { hide *; FeedBitsNone(crc); }
    } else {
      var init, last := data[..|data| - 1], data[|data| - 1];
      FeedIsFeedBits(crc, init);
      AbsorbIsEightBits(Feed(crc, init), last);
      FeedBitsConcat(crc, BitsOf(init), ByteBits(last));
    }
  }

  lemma FeedBitsNone(crc: bv16)
    ensures FeedBits(crc, []) == crc
  {
  }
}
