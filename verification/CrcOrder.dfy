/**
 The order of the shift register: started from a single bit it comes back to that bit after 32767 = 7 * 31 * 151
 turns and after no other number of turns short of a multiple of it.
 */
module CrcOrder {
  import opened Crc
  import opened CrcBits

  const ORDER: nat := 32767

  /** The unit: turning it n times gives the n-th power of the generator's root. */
  const UNIT: bv16 := 0x8000

  // ----- doubling the number of turns, by Horner's rule on the coefficients of the register -----

  /** The leading coefficient of `w`, times `p`. */
  function Leading(w: bv16, p: bv16): bv16 {
    if w & 0x8000 != 0 then p else 0
  }

  function OneTerm(w: bv16, p: bv16, rest: bv16): bv16 {
    Plus(Leading(w, p), Shift(rest))
  }

  function FourTerms(w: bv16, p: bv16, rest: bv16): bv16 {
    OneTerm(w, p, OneTerm(w << 1, p, OneTerm(w << 2, p, OneTerm(w << 3, p, rest))))
  }

  function Horner(w: bv16, p: bv16): bv16 {
    FourTerms(w, p, FourTerms(w << 4, p, FourTerms(w << 8, p, FourTerms(w << 12, p, 0))))
  }

  lemma ShiftOfDouble(w: bv16)
    ensures Shift(w << 1) == w & 0x7FFF
  {
    SplitWord(w);
  }

  lemma SplitWord(w: bv16)
    ensures (w << 1) & 1 == 0 && (w << 1) >> 1 == w & 0x7FFF
  {
  }

  lemma LeadingUnit(w: bv16)
    ensures Leading(w, UNIT) == w & 0x8000
  {
  }

  lemma LeadingAndRest(w: bv16)
    ensures (w & 0x8000) ^ (w & 0x7FFF) == w
  {
  }

  lemma SplitLeading(w: bv16)
    ensures w == Plus(Leading(w, UNIT), Shift(w << 1))
  {
    hide Shift, Leading;
    ShiftOfDouble(w);
    LeadingUnit(w);
    LeadingAndRest(w);
  }

  lemma LeadingTurned(w: bv16, n: nat)
    ensures Shifts(Leading(w, UNIT), n) == Leading(w, Shifts(UNIT, n))
  {
    hide Shift;
    ShiftsOfZero(n);
  }

  lemma ShiftsCommute(crc: bv16, n: nat)
    ensures Shifts(Shift(crc), n) == Shift(Shifts(crc, n))
  {
    hide Shift;
    ShiftsAdd(crc, 1, n);
    assert Shifts(crc, 1) == Shift(Shifts(crc, 0));
  }

  lemma OneTermTurned(w: bv16, n: nat)
    ensures Shifts(w, n) == OneTerm(w, Shifts(UNIT, n), Shifts(w << 1, n))
  {
    hide Plus, Shift, Leading, Shifts;
    SplitLeading(w);
    ShiftsLinear(Leading(w, UNIT), Shift(w << 1), n);
    LeadingTurned(w, n);
    ShiftsCommute(w << 1, n);
  }

  lemma ShiftLefts(w: bv16)
    ensures (w << 1) << 1 == w << 2 && (w << 2) << 1 == w << 3 && (w << 3) << 1 == w << 4
    ensures (w << 4) << 4 == w << 8 && (w << 8) << 4 == w << 12 && (w << 12) << 4 == 0
  {
  }

  lemma FourTermsTurned(w: bv16, n: nat)
    ensures Shifts(w, n) == FourTerms(w, Shifts(UNIT, n), Shifts(w << 4, n))
  {
    hide OneTerm, Shifts;
    ShiftLefts(w);
    OneTermTurned(w, n);
    OneTermTurned(w << 1, n);
    OneTermTurned(w << 2, n);
    OneTermTurned(w << 3, n);
  }

  lemma TurnsByHorner(w: bv16, n: nat)
    ensures Shifts(w, n) == Horner(w, Shifts(UNIT, n))
  {
    hide FourTerms, Shifts;
    ShiftLefts(w);
    FourTermsTurned(w, n);
    FourTermsTurned(w << 4, n);
    FourTermsTurned(w << 8, n);
    FourTermsTurned(w << 12, n);
    ShiftsOfZero(n);
  }

  lemma Doubled(n: nat, p: bv16, square: bv16)
    requires Shifts(UNIT, n) == p && Horner(p, p) == square
    ensures Shifts(UNIT, 2 * n) == square
  {
    hide Shifts, Horner;
    ShiftsAdd(UNIT, n, n);
    TurnsByHorner(p, n);
  }

  lemma Turned(n: nat, p: bv16, next: bv16)
    requires Shifts(UNIT, n) == p && Shift(p) == next
    ensures Shifts(UNIT, n + 1) == next
  {
  }

  lemma PowerOf1()
    ensures Shifts(UNIT, 1) == 0x4000
  {
    assert Shifts(UNIT, 1) == Shift(Shifts(UNIT, 0));
  }

  lemma PowerOf217()
    ensures Shifts(UNIT, 217) == 0x3e55
  {
    hide Shifts;
    PowerOf1();
    Doubled(1, 0x4000, 0x2000);
    Turned(2, 0x2000, 0x1000);
    Doubled(3, 0x1000, 0x0200);
    Doubled(6, 0x0200, 0x0008);
    Turned(12, 0x0008, 0x0004);
    Doubled(13, 0x0004, 0xc019);
    Turned(26, 0xc019, 0xc00d);
    Doubled(27, 0xc00d, 0xc079);
    Doubled(54, 0xc079, 0xdfe1);
    Doubled(108, 0xdfe1, 0x7caa);
    Turned(216, 0x7caa, 0x3e55);
  }

  lemma PowerOf1057()
    ensures Shifts(UNIT, 1057) == 0xce41
  {
    hide Shifts;
    PowerOf1();
    Doubled(1, 0x4000, 0x2000);
    Doubled(2, 0x2000, 0x0800);
    Doubled(4, 0x0800, 0x0080);
    Doubled(8, 0x0080, 0xa001);
    Doubled(16, 0xa001, 0xe801);
    Turned(32, 0xe801, 0xd401);
    Doubled(33, 0xd401, 0xc221);
    Doubled(66, 0xc221, 0x0608);
    Doubled(132, 0x0608, 0xc049);
    Doubled(264, 0xc049, 0xd861);
    Doubled(528, 0xd861, 0xdc81);
    Turned(1056, 0xdc81, 0xce41);
  }

  lemma PowerOf4681()
    ensures Shifts(UNIT, 4681) == 0x8c69
  {
    hide Shifts;
    PowerOf1();
    Doubled(1, 0x4000, 0x2000);
    Doubled(2, 0x2000, 0x0800);
    Doubled(4, 0x0800, 0x0080);
    Turned(8, 0x0080, 0x0040);
    Doubled(9, 0x0040, 0xd801);
    Doubled(18, 0xd801, 0xc281);
    Doubled(36, 0xc281, 0x6008);
    Turned(72, 0x6008, 0x3004);
    Doubled(73, 0x3004, 0xca19);
    Doubled(146, 0xca19, 0xc169);
    Doubled(292, 0xc169, 0x1e62);
    Turned(584, 0x1e62, 0x0f31);
    Doubled(585, 0x0f31, 0x672b);
    Doubled(1170, 0x672b, 0x8e4c);
    Doubled(2340, 0x8e4c, 0x58d1);
    Turned(4680, 0x58d1, 0x8c69);
  }

  lemma PowerOf256()
    ensures Shifts(UNIT, 256) == 0x8801
  {
    hide Shifts;
    PowerOf1();
    Doubled(1, 0x4000, 0x2000);
    Doubled(2, 0x2000, 0x0800);
    Doubled(4, 0x0800, 0x0080);
    Doubled(8, 0x0080, 0xa001);
    Doubled(16, 0xa001, 0xe801);
    Doubled(32, 0xe801, 0xc881);
    Doubled(64, 0xc881, 0x6080);
    Doubled(128, 0x6080, 0x8801);
  }

  lemma PowerOf32768()
    ensures Shifts(UNIT, 32768) == 0x4000
  {
    hide Shifts;
    PowerOf256();
    Doubled(256, 0x8801, 0xe081);
    Doubled(512, 0xe081, 0x6800);
    Doubled(1024, 0x6800, 0x2880);
    Doubled(2048, 0x2880, 0xa881);
    Doubled(4096, 0xa881, 0x4880);
    Doubled(8192, 0x4880, 0x8081);
    Doubled(16384, 0x8081, 0x4000);
  }

  // ----- the numbers of turns that lead back to the unit -----

  ghost predicate Returns(n: nat) {
    Shifts(UNIT, n) == UNIT
  }

  lemma ReturnsSum(m: nat, n: nat)
    requires Returns(m)
    ensures Returns(m + n) <==> Returns(n)
  {
    hide Shifts;
    ShiftsAdd(UNIT, m, n);
  }

  lemma {:induction false} ReturnsMultiple(m: nat, k: nat)
    requires Returns(m)
    ensures Returns(k * m)
  {
    if k > 0 {
      ReturnsMultiple(m, k - 1);
      assert k * m == m + (k - 1) * m;
      ReturnsSum(m, (k - 1) * m);
    }
  }

  lemma OrderReturns()
    ensures Returns(ORDER)
  {
    hide Shift;
    PowerOf32768();
    PowerOf1();
    ShiftInjective(Shifts(UNIT, ORDER), Shifts(UNIT, 0));
  }

  ghost predicate Prime(p: nat) {
    p >= 2 && forall k :: 2 <= k < p ==> p % k != 0
  }

  lemma Regroup(p: nat, q: nat, k: nat, r: nat, m: nat)
    requires p == q * k + r
    ensures p * m == q * (k * m) + r * m
  {
    assert (q * k + r) * m == q * k * m + r * m;
    assert q * k * m == q * (k * m);
  }

  /** If m turns lead back p times and also k times over, for a prime p and k below it, then m turns already do. */
  lemma {:induction false} PrimeStep(p: nat, m: nat, k: nat)
    requires Prime(p) && 1 <= k < p
    requires Returns(p * m) && Returns(k * m)
    ensures Returns(m)
    decreases k
  {
    hide Shifts, Returns;
    if k > 1 {
      var q, r := p / k, p % k;
      Regroup(p, q, k, r, m);
      ReturnsMultiple(k * m, q);
      ReturnsSum(q * (k * m), r * m);
      PrimeStep(p, m, r);
    } else {
      assert k * m == m;
    }
  }

  /** A prime factor p of the order divides every number of turns that leads back, if order / p turns do not. */
  lemma FactorDivides(p: nat, m: nat, d: nat)
    requires Prime(p) && p * m == ORDER && !Returns(m) && Returns(d)
    ensures d % p == 0
  {
    hide Shifts, Returns, Prime;
    OrderReturns();
    ReturnsMultiple(d, m);
    var q, k := d / p, d % p;
    Regroup(d, q, p, k, m);
    assert m * d == d * m;
    ReturnsMultiple(p * m, q);
    ReturnsSum(q * (p * m), k * m);
    if k != 0 {
      PrimeStep(p, m, k);
    }
  }

  lemma NoSmallFactor(a: nat, b: nat)
    requires 2 <= a <= 12
    ensures a * b != 151
  {
    assert 2 * b != 151 && 3 * b != 151 && 4 * b != 151 && 5 * b != 151 && 6 * b != 151 && 7 * b != 151;
    assert 8 * b != 151 && 9 * b != 151 && 10 * b != 151 && 11 * b != 151 && 12 * b != 151;
  }

  lemma LargeFactors(a: nat, b: nat)
    requires a >= 13 && b >= 13
    ensures a * b > 151
  {
    assert a * b >= 13 * b;
  }

  lemma NotAProduct(a: nat, b: nat)
    requires a >= 2 && b >= 2
    ensures a * b != 151
  {
    if a <= 12 {
      NoSmallFactor(a, b);
    } else if b <= 12 {
      NoSmallFactor(b, a);
    } else {
      LargeFactors(a, b);
    }
  }

  lemma SmallPrimes()
    ensures Prime(7) && Prime(31)
  {
  }

  lemma LargePrime()
    ensures Prime(151)
  {
    forall k | 2 <= k < 151 ensures 151 % k != 0 {
      var q := 151 / k;
      if 151 % k == 0 {
        assert k * q == 151;
        NotAProduct(k, q);
      }
    }
  }

  lemma Divides217(d: nat)
    requires d % 7 == 0 && d % 31 == 0
    ensures d % 217 == 0
  {
    var a, b := d / 7, d / 31;
    assert b == 7 * (5 * a - 22 * b);
  }

  lemma CoprimeFactors(d: nat)
    requires d % 7 == 0 && d % 31 == 0 && d % 151 == 0
    ensures d % ORDER == 0
  {
    Divides217(d);
    var e, c := d / 217, d / 151;
    assert e == 151 * (23 * e - 16 * c);
    OrderDivides(d, 23 * e - 16 * c);
  }

  lemma OrderDivides(d: nat, m: int)
    requires d == ORDER * m
    ensures d % ORDER == 0
  {
  }

  lemma ReturnsFromLowestBit(d: nat)
    ensures Shifts(1, d) == 1 <==> Returns(d)
  {
    hide Shift, Shifts;
    assert Shifts(UNIT, 15) == 1 by { UnitFifteenTimes(); }
    ShiftsAdd(UNIT, 15, d);
    ShiftsAdd(UNIT, d, 15);
    if Shifts(1, d) == 1 {
      ShiftsInjective(Shifts(UNIT, d), UNIT, 15);
    }
  }

  lemma UnitFifteenTimes()
    ensures Shifts(UNIT, 15) == 1
  {
    assert Shifts(UNIT, 5) == 0x0400;
    assert Shifts(UNIT, 10) == 0x0020;
  }

  /** A single bit is back where it was exactly after the multiples of 32767 turns. */
  lemma OrderOfGenerator(d: nat)
    ensures Shifts(1, d) == 1 <==> d % ORDER == 0
  {
    hide Shifts, Returns, Prime;
    ReturnsFromLowestBit(d);
    OrderReturns();
    if Returns(d) {
      SmallPrimes();
      LargePrime();
      assert !Returns(4681) && !Returns(1057) && !Returns(217) by { ProperFactorsDoNotReturn(); }
      FactorDivides(7, 4681, d);
      FactorDivides(31, 1057, d);
      FactorDivides(151, 217, d);
      CoprimeFactors(d);
    } else if d % ORDER == 0 {
      ReturnsMultiple(ORDER, d / ORDER);
    }
  }

  lemma ProperFactorsDoNotReturn()
    ensures !Returns(4681) && !Returns(1057) && !Returns(217)
  {
    hide Shifts;
    PowerOf4681();
    PowerOf1057();
    PowerOf217();
  }
}
