/**
 What the checksum catches: every burst of up to sixteen bits, every odd number of flipped bits, and every pair of
 flipped bits except those exactly a multiple of the generator's order apart.
 */
module CrcDetection {
  import opened Bytes
  import opened Crc
  import opened CrcBits
  import opened CrcOrder

  /** The positions at which two equally long bit strings differ. */
  function Errors(a: seq<bool>, b: seq<bool>): (e: seq<bool>)
    requires |a| == |b|
    ensures |e| == |a| && forall i :: 0 <= i < |e| ==> (e[i] <==> a[i] != b[i])
  {
    seq(|a|, i requires 0 <= i < |a| => a[i] != b[i])
  }

  lemma BitWordOfDifference(x: bool, y: bool)
    ensures BitWord(x != y) == Plus(BitWord(x), BitWord(y))
  {
  }

  /** The registers differ by what the register, started from the difference, makes of the errors alone. */
  lemma {:induction false} FeedBitsOfErrors(c: bv16, d: bv16, a: seq<bool>, b: seq<bool>)
    requires |a| == |b|
    ensures FeedBits(Plus(c, d), Errors(a, b)) == Plus(FeedBits(c, a), FeedBits(d, b))
    decreases |a|
  {
    hide Plus, Shift, BitWord;
    if |a| > 0 {
      var n := |a| - 1;
      assert Errors(a, b)[..n] == Errors(a[..n], b[..n]);
      FeedBitsOfErrors(c, d, a[..n], b[..n]);
      BitWordOfDifference(a[n], b[n]);
      Interchange(FeedBits(c, a[..n]), FeedBits(d, b[..n]), BitWord(a[n]), BitWord(b[n]));
      ShiftLinear(Plus(FeedBits(c, a[..n]), BitWord(a[n])), Plus(FeedBits(d, b[..n]), BitWord(b[n])));
    }
  }

  /** The checksums of two inputs of equal length differ by what the errors make of an empty register. */
  lemma ChecksumDifference(a: seq<byte>, b: seq<byte>)
    requires |a| == |b|
    ensures Plus(Crc16(a), Crc16(b)) == FeedBits(0, Errors(BitsOf(a), BitsOf(b)))
  {
    hide Plus, FeedBits, Feed;
    FeedIsFeedBits(INITIAL, a);
    FeedIsFeedBits(INITIAL, b);
    FeedBitsOfErrors(INITIAL, INITIAL, BitsOf(a), BitsOf(b));
    PlusZero(INITIAL);
  }

  /** Two inputs of equal length have the same checksum exactly when the errors drive the register back to zero. */
  lemma SameChecksum(a: seq<byte>, b: seq<byte>)
    requires |a| == |b|
    ensures Crc16(a) == Crc16(b) <==> FeedBits(0, Errors(BitsOf(a), BitsOf(b))) == 0
  {
    hide Plus, FeedBits, Feed;
    ChecksumDifference(a, b);
    PlusCancel(Crc16(a), Crc16(b));
  }

  ghost predicate Silent(bits: seq<bool>) {
    forall i :: 0 <= i < |bits| ==> !bits[i]
  }

  lemma {:induction false} FeedSilence(crc: bv16, bits: seq<bool>)
    requires Silent(bits)
    ensures FeedBits(crc, bits) == Shifts(crc, |bits|)
    decreases |bits|
  {
    hide Plus, Shift;
    if |bits| > 0 {
      FeedSilence(crc, bits[..|bits| - 1]);
      PlusZero(FeedBits(crc, bits[..|bits| - 1]));
    }
  }

  lemma SilentBehind(e: seq<bool>, i: nat)
    requires i <= |e| && forall k :: i <= k < |e| ==> !e[k]
    ensures Silent(e[i..])
  {
  }

  // ----- bursts -----

  lemma AboveTheRest(w: bv16, u: bv16)
    requires w < u && u & (u - 1) == 0
    ensures w ^ u != 0
    ensures u < 0x8000 ==> w ^ u < u << 1 && w < u << 1
  {
  }

  /** Up to sixteen bits load a word that is zero only if all of them are. */
  lemma {:induction false} ShortWord(bits: seq<bool>)
    requires |bits| <= 16
    ensures WordOf(bits) == 0 ==> Silent(bits)
    ensures |bits| < 16 ==> WordOf(bits) < Unshifts(1, |bits|)
    decreases |bits|
  {
    SmallUnits();
    if |bits| > 0 {
      var n := |bits| - 1;
      ShortWord(bits[..n]);
      UnshiftsOfZero(n);
      AboveTheRest(WordOf(bits[..n]), Unshifts(1, n));
      PlusZero(WordOf(bits[..n]));
    }
  }

  lemma BurstMovesRegister(e: seq<bool>, p: nat, q: nat)
    requires p <= q <= |e| && q - p <= 16 && !Silent(e)
    requires forall i :: 0 <= i < |e| && !(p <= i < q) ==> !e[i]
    ensures FeedBits(0, e) != 0
  {
    hide Plus, Shift, FeedBits, WordOf, Shifts;
    var before, core, after := e[..p], e[p..q], e[q..];
    assert e == before + core + after;
    FeedBitsConcat(0, before + core, after);
    FeedBitsConcat(0, before, core);
    FeedSilence(0, before);
    ShiftsOfZero(p);
    FeedBitsAtOnce(0, core);
    PlusZero(WordOf(core));
    FeedSilence(FeedBits(0, core), after);
    ShiftsOfZero(|after|);
    ShiftsOfZero(|core|);
    if FeedBits(0, e) == 0 {
      ShiftsInjective(FeedBits(0, core), 0, |after|);
      ShiftsInjective(WordOf(core), 0, |core|);
      ShortWord(core);
    }
  }

  lemma {:induction false} BitsOfInjective(a: seq<byte>, b: seq<byte>)
    requires |a| == |b| && BitsOf(a) == BitsOf(b)
    ensures a == b
    decreases |a|
  {
    hide ByteBits;
    if |a| > 0 {
      var n := |a| - 1;
      assert BitsOf(a)[..8 * n] == BitsOf(a[..n]) && BitsOf(b)[..8 * n] == BitsOf(b[..n]);
      assert BitsOf(a)[8 * n..] == ByteBits(a[n]) && BitsOf(b)[8 * n..] == ByteBits(b[n]);
      BitsOfInjective(a[..n], b[..n]);
      ByteBitsInjective(a[n], b[n]);
      assert a == a[..n] + [a[n]] && b == b[..n] + [b[n]];
    }
  }

  lemma SamePattern(v: bv8, w: bv8)
    requires Has(v, 0x01) == Has(w, 0x01) && Has(v, 0x02) == Has(w, 0x02) && Has(v, 0x04) == Has(w, 0x04)
             && Has(v, 0x08) == Has(w, 0x08)
    requires Has(v, 0x10) == Has(w, 0x10) && Has(v, 0x20) == Has(w, 0x20) && Has(v, 0x40) == Has(w, 0x40)
             && Has(v, 0x80) == Has(w, 0x80)
    ensures v == w
  {
  }

  lemma ByteBitsInjective(x: byte, y: byte)
    requires ByteBits(x) == ByteBits(y)
    ensures x == y
  {
    hide Has, Bits, FromBits;
    var a, b := ByteBits(x), ByteBits(y);
    assert a[0] == b[0] && a[1] == b[1] && a[2] == b[2] && a[3] == b[3];
    assert a[4] == b[4] && a[5] == b[5] && a[6] == b[6] && a[7] == b[7];
    SamePattern(Bits(x), Bits(y));
    FromBitsOfBits(x);
    FromBitsOfBits(y);
  }

  /** Inputs that differ, but only inside sixteen consecutive bits, have different checksums. */
  lemma BurstDetected(a: seq<byte>, b: seq<byte>, p: nat)
    requires |a| == |b| && a != b
    requires forall i :: 0 <= i < 8 * |a| && !(p <= i < p + 16) ==> BitsOf(a)[i] == BitsOf(b)[i]
    ensures Crc16(a) != Crc16(b)
  {
    hide Feed, FeedBits, BitsOf;
    var e := Errors(BitsOf(a), BitsOf(b));
    SameChecksum(a, b);
    if Silent(e) {
      assert BitsOf(a) == BitsOf(b) by {
        forall i | 0 <= i < 8 * |a| ensures BitsOf(a)[i] == BitsOf(b)[i] {
          assert !e[i];
        }
      }
      BitsOfInjective(a, b);
    } else {
      var q := if p + 16 <= |e| then p + 16 else |e|;
      BurstMovesRegister(e, if p <= q then p else q, q);
    }
  }

  // ----- pairs of bits -----

  /** One bit alone in the register: only its distance from the end matters. */
  lemma OneInRegister(e: seq<bool>, i: nat)
    requires i < |e| && forall k :: 0 <= k < |e| ==> (e[k] <==> k == i)
    ensures FeedBits(0, e) == Shifts(1, |e| - i)
  {
    hide Plus, Shift, FeedBits, Shifts, BitWord;
    FeedAsParts(0, e, i);
    FeedSilence(0, e[..i]);
    ShiftsOfZero(i);
    FeedOne(0);
    PlusZero(1);
    SilentBehind(e, i + 1);
    FeedSilence(Shifts(1, 1), e[i + 1..]);
    ShiftsAdd(1, 1, |e| - i - 1);
  }

  lemma PairInRegister(e: seq<bool>, i: nat, j: nat)
    requires i < j < |e|
    requires forall k :: 0 <= k < |e| ==> (e[k] <==> k == i || k == j)
    ensures FeedBits(0, e) == Shifts(Plus(Shifts(1, j - i), 1), |e| - j)
  {
    hide Plus, Shift, FeedBits, Shifts, BitWord;
    var front := e[..j];
    FeedAsParts(0, e, j);
    OneInRegister(front, i);
    FeedOne(Shifts(1, j - i));
    SilentBehind(e, j + 1);
    FeedSilence(Shifts(Plus(Shifts(1, j - i), 1), 1), e[j + 1..]);
    ShiftsAdd(Plus(Shifts(1, j - i), 1), 1, |e| - j - 1);
  }

  /** Feeding bits is feeding those before position `i`, that one, and those behind it. */
  lemma FeedAsParts(crc: bv16, e: seq<bool>, i: nat)
    requires i < |e|
    ensures FeedBits(crc, e) == FeedBits(FeedBits(FeedBits(crc, e[..i]), [e[i]]), e[i + 1..])
  {
    hide FeedBits;
    assert e == e[..i] + [e[i]] + e[i + 1..];
    FeedBitsConcat(crc, e[..i] + [e[i]], e[i + 1..]);
    FeedBitsConcat(crc, e[..i], [e[i]]);
  }

  lemma FeedOne(crc: bv16)
    ensures FeedBits(crc, [true]) == Shifts(Plus(crc, 1), 1)
  {
    hide Plus, Shift;
    assert [true][..0] == [];
    assert FeedBits(crc, [true][..0]) == crc;
    assert Shifts(Plus(crc, 1), 1) == Shift(Shifts(Plus(crc, 1), 0));
  }

  /** Two flipped bits go unnoticed exactly when their distance is a multiple of 32767. */
  lemma PairDetected(a: seq<byte>, b: seq<byte>, i: nat, j: nat)
    requires |a| == |b| && i < j < 8 * |a|
    requires forall k :: 0 <= k < 8 * |a| ==> (BitsOf(a)[k] != BitsOf(b)[k] <==> k == i || k == j)
    ensures Crc16(a) == Crc16(b) <==> (j - i) % ORDER == 0
  {
    hide Feed, FeedBits, BitsOf, Shifts, Plus;
    var e := Errors(BitsOf(a), BitsOf(b));
    var w := Plus(Shifts(1, j - i), 1);
    SameChecksum(a, b);
    PairInRegister(e, i, j);
    ShiftsOfZero(|e| - j);
    if Shifts(w, |e| - j) == 0 {
      ShiftsInjective(w, 0, |e| - j);
    }
    PlusCancel(Shifts(1, j - i), 1);
    OrderOfGenerator(j - i);
  }

  /** No frame is long enough for a pair to slip through: 260 bytes hold 2080 bits. */
  lemma PairInFrameDetected(a: seq<byte>, b: seq<byte>, i: nat, j: nat)
    requires |a| == |b| <= 260 && i < j < 8 * |a|
    requires forall k :: 0 <= k < 8 * |a| ==> (BitsOf(a)[k] != BitsOf(b)[k] <==> k == i || k == j)
    ensures Crc16(a) != Crc16(b)
  {
    PairDetected(a, b, i, j);
  }

  // ----- parity -----

  /** The number of one bits. */
  function Ones(bits: seq<bool>): nat
    decreases |bits|
  {
    if |bits| == 0 then 0 else Ones(bits[..|bits| - 1]) + (if bits[|bits| - 1] then 1 else 0)
  }

  /** A register with an odd number of one bits. */
  predicate Odd(w: bv16)
    decreases w
  {
    w != 0 && (LowBit(w) != Odd(Half(w)))
  }

  lemma HalfIsSmaller(a: bv16)
    requires a != 0
    ensures Half(a) < a
  {
  }

  lemma OddUnfolds(w: bv16)
    ensures Odd(w) == (LowBit(w) != Odd(Half(w)))
  {
  }

  lemma {:induction false} OddOfPlus(a: bv16, b: bv16)
    ensures Odd(Plus(a, b)) == (Odd(a) != Odd(b))
    decreases a
  {
    hide Plus, LowBit, Half;
    if a == 0 {
      PlusZero(b);
    } else {
      HalfIsSmaller(a);
      OddOfPlus(Half(a), Half(b));
      HalvesOfPlus(a, b);
      OddUnfolds(a);
      OddUnfolds(b);
      OddUnfolds(Plus(a, b));
    }
  }

  lemma OddPolynomial()
    ensures Odd(POLYNOMIAL) && Odd(1) && !Odd(0)
  {
    assert !Odd(0x0005);
    assert !Odd(0x0014);
    assert !Odd(0x0050);
    assert !Odd(0x0140);
    assert !Odd(0x0500);
    assert !Odd(0x1400);
    assert !Odd(0x5000);
  }

  lemma InitialIsEven()
    ensures !Odd(INITIAL)
  {
    assert !Odd(0x0003);
    assert !Odd(0x000F);
    assert !Odd(0x003F);
    assert !Odd(0x00FF);
    assert !Odd(0x03FF);
    assert !Odd(0x0FFF);
    assert !Odd(0x3FFF);
  }

  lemma OddOfShift(w: bv16)
    ensures Odd(Shift(w)) == Odd(w)
  {
    hide Plus, Shift, LowBit, Half, Odd;
    OddPolynomial();
    OddUnfolds(w);
    assert Shift(w) == if LowBit(w) then Plus(Half(w), POLYNOMIAL) else Half(w) by { ShiftByHalves(w); }
    OddOfPlus(Half(w), POLYNOMIAL);
  }

  lemma OddOfPlusBit(w: bv16, bit: bool)
    ensures Odd(Plus(w, BitWord(bit))) == (Odd(w) != bit)
  {
    hide Odd, Plus;
    OddPolynomial();
    OddOfPlus(w, BitWord(bit));
  }

  lemma {:induction false} OddOfShifts(w: bv16, n: nat)
    ensures Odd(Shifts(w, n)) == Odd(w)
    decreases n
  {
    hide Shift, Odd;
    if n > 0 {
      OddOfShifts(w, n - 1);
      OddOfShift(Shifts(w, n - 1));
    }
  }

  lemma {:induction false} OddOfFeedBits(crc: bv16, bits: seq<bool>)
    ensures Odd(FeedBits(crc, bits)) == (Odd(crc) != (Ones(bits) % 2 == 1))
    decreases |bits|
  {
    hide Shift, Odd, Plus, BitWord;
    if |bits| > 0 {
      var n := |bits| - 1;
      OddOfFeedBits(crc, bits[..n]);
      OddOfPlusBit(FeedBits(crc, bits[..n]), bits[n]);
      OddOfShift(Plus(FeedBits(crc, bits[..n]), BitWord(bits[n])));
    }
  }

  /** The parity of the checksum is the parity of the data. */
  lemma ChecksumParity(data: seq<byte>)
    ensures Odd(Crc16(data)) <==> Ones(BitsOf(data)) % 2 == 1
  {
    hide Odd, Feed, FeedBits;
    FeedIsFeedBits(INITIAL, data);
    OddOfFeedBits(INITIAL, BitsOf(data));
    InitialIsEven();
  }

  lemma {:induction false} OnesConcat(a: seq<bool>, b: seq<bool>)
    ensures Ones(a + b) == Ones(a) + Ones(b)
    decreases |b|
  {
    if |b| == 0 {
      assert a + b == a;
    } else {
      assert (a + b)[..|a + b| - 1] == a + b[..|b| - 1];
      OnesConcat(a, b[..|b| - 1]);
    }
  }

  lemma ByteParity(b: byte)
    ensures Odd(Widen(b)) <==> Ones(ByteBits(b)) % 2 == 1
  {
    hide Odd, Plus, Widen, ByteBits, FeedBits, Shifts;
    AbsorbIsEightBits(0, b);
    OddOfFeedBits(0, ByteBits(b));
    OddPolynomial();
    PlusZero(Widen(b));
    OddOfShifts(Widen(b), 8);
  }

  lemma HalfOfDouble(w: bv16)
    requires w & 0x8000 == 0
    ensures Half(w << 1) == w && !LowBit(w << 1)
  {
  }

  lemma OddOfDouble(w: bv16)
    requires w & 0x8000 == 0
    ensures Odd(w << 1) == Odd(w)
  {
    hide Half, LowBit, Odd;
    HalfOfDouble(w);
    OddUnfolds(w << 1);
  }

  lemma HighByte(v: bv8, w: bv16)
    requires w == v as bv16
    ensures (w << 1) << 1 == w << 2 && (w << 2) << 1 == w << 3 && (w << 3) << 1 == w << 4 && (w << 4) << 1 == w << 5
    ensures (w << 5) << 1 == w << 6 && (w << 6) << 1 == w << 7 && (w << 7) << 1 == w << 8
    ensures w & 0x8000 == 0 && (w << 1) & 0x8000 == 0 && (w << 2) & 0x8000 == 0 && (w << 3) & 0x8000 == 0
    ensures (w << 4) & 0x8000 == 0 && (w << 5) & 0x8000 == 0 && (w << 6) & 0x8000 == 0 && (w << 7) & 0x8000 == 0
  {
  }

  lemma OddOfHighByte(v: bv8, w: bv16)
    requires w == v as bv16
    ensures Odd(w << 8) == Odd(w)
  {
    hide Odd;
    HighByte(v, w);
    OddOfDouble(w);
    OddOfDouble(w << 1);
    OddOfDouble(w << 2);
    OddOfDouble(w << 3);
    OddOfDouble(w << 4);
    OddOfDouble(w << 5);
    OddOfDouble(w << 6);
    OddOfDouble(w << 7);
  }

  lemma JoinedBytes(hi: byte, lo: byte)
    ensures Word16(hi, lo) == Plus(Widen(hi) << 8, Widen(lo))
  {
  }

  lemma OddOfWord16(hi: byte, lo: byte)
    ensures Odd(Word16(hi, lo)) == (Odd(Widen(hi)) != Odd(Widen(lo)))
  {
    hide Odd, Plus, Word16, Bits;
    JoinedBytes(hi, lo);
    OddOfPlus(Widen(hi) << 8, Widen(lo));
    OddOfHighByte(Bits(hi), Widen(hi));
  }

  lemma {:induction false} BitsOfConcat(a: seq<byte>, b: seq<byte>)
    ensures BitsOf(a + b) == BitsOf(a) + BitsOf(b)
    decreases |b|
  {
    hide ByteBits;
    if |b| == 0 {
      assert a + b == a;
    } else {
      assert (a + b)[..|a + b| - 1] == a + b[..|b| - 1];
      BitsOfConcat(a, b[..|b| - 1]);
    }
  }

  lemma BitsOfOne(b: byte)
    ensures BitsOf([b]) == ByteBits(b)
  {
    hide ByteBits;
    assert [b][..0] == [];
    assert BitsOf([b]) == BitsOf([b][..0]) + ByteBits(b);
  }

  lemma FieldParity(hi: byte, lo: byte)
    ensures Odd(Word16(hi, lo)) <==> Ones(BitsOf([hi, lo])) % 2 == 1
  {
    hide Odd, ByteBits, Ones, BitsOf, Word16, Widen;
    OddOfWord16(hi, lo);
    ByteParity(hi);
    ByteParity(lo);
    assert [hi, lo] == [hi] + [lo];
    BitsOfConcat([hi], [lo]);
    BitsOfOne(hi);
    BitsOfOne(lo);
    OnesConcat(ByteBits(hi), ByteBits(lo));
  }

  /** Bytes whose last two are the checksum of the others, more significant byte first. */
  predicate Checked(f: seq<byte>)
    requires |f| >= 2
  {
    Word16(f[|f| - 2], f[|f| - 1]) == Crc16(f[..|f| - 2])
  }

  lemma CheckedIsEven(f: seq<byte>)
    requires |f| >= 2 && Checked(f)
    ensures Ones(BitsOf(f)) % 2 == 0
  {
    hide Odd, Ones, BitsOf, Feed, Word16;
    var n := |f| - 2;
    assert f == f[..n] + [f[n], f[n + 1]];
    BitsOfConcat(f[..n], [f[n], f[n + 1]]);
    OnesConcat(BitsOf(f[..n]), BitsOf([f[n], f[n + 1]]));
    ChecksumParity(f[..n]);
    FieldParity(f[n], f[n + 1]);
  }

  lemma {:induction false} OnesOfErrors(a: seq<bool>, b: seq<bool>)
    requires |a| == |b|
    ensures Ones(Errors(a, b)) % 2 == (Ones(a) + Ones(b)) % 2
    decreases |a|
  {
    if |a| > 0 {
      var n := |a| - 1;
      assert Errors(a, b)[..n] == Errors(a[..n], b[..n]);
      OnesOfErrors(a[..n], b[..n]);
    }
  }

  /** An odd number of flipped bits, in the data or in the checksum field, is always noticed. */
  lemma OddFlipsDetected(f: seq<byte>, g: seq<byte>)
    requires |f| == |g| >= 2 && Checked(f)
    requires Ones(Errors(BitsOf(f), BitsOf(g))) % 2 == 1
    ensures !Checked(g)
  {
    hide Ones, BitsOf, Checked;
    CheckedIsEven(f);
    OnesOfErrors(BitsOf(f), BitsOf(g));
    if Checked(g) {
      CheckedIsEven(g);
    }
  }
}
