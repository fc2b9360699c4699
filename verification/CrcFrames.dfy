/**
 Damage to data and checksum together. The checksum is sent high byte first, against the order in which the register
 would take it back in; with its two bytes exchanged, a frame is right exactly when the register ends at zero.
 */
module CrcFrames {
  import opened Bytes
  import opened Crc
  import opened CrcBits
  import opened CrcOrder
  import opened CrcDetection

  /** A frame with its two checksum bytes exchanged. */
  function RegisterOrder(f: seq<byte>): (r: seq<byte>)
    requires |f| >= 2
    ensures |r| == |f|
  {
    f[..|f| - 2] + [f[|f| - 1], f[|f| - 2]]
  }

  /** A byte at the top of the register comes down unchanged. */
  lemma HighByteTurned(b: byte)
    ensures Shifts(Widen(b) << 8, 8) == Widen(b)
  {
    hide Shifts, Widen, Unshifts;
    ShiftsOfUnshifts(Widen(b), 8);
    UnshiftsOfByte(b);
  }

  lemma UnshiftOnce(w: bv16, n: nat, v: bv16)
    requires Unshifts(w, n) == v && v & 0x8000 == 0
    ensures Unshifts(w, n + 1) == v << 1
  {
    hide Unshift;
    UnshiftWithoutTop(v);
  }

  lemma UnshiftWithoutTop(w: bv16)
    requires w & 0x8000 == 0
    ensures Unshift(w) == w << 1
  {
  }

  lemma UnshiftsOfByte(b: byte)
    ensures Unshifts(Widen(b), 8) == Widen(b) << 8
  {
    hide Unshifts, Widen;
    var w := Widen(b);
    HighByte(Bits(b), w) by { WidenIsByte(b); }
    assert Unshifts(w, 0) == w by { UnshiftsNone(w); }
    UnshiftOnce(w, 0, w);
    UnshiftOnce(w, 1, w << 1);
    UnshiftOnce(w, 2, w << 2);
    UnshiftOnce(w, 3, w << 3);
    UnshiftOnce(w, 4, w << 4);
    UnshiftOnce(w, 5, w << 5);
    UnshiftOnce(w, 6, w << 6);
    UnshiftOnce(w, 7, w << 7);
  }

  lemma UnshiftsNone(w: bv16)
    ensures Unshifts(w, 0) == w
  {
  }

  lemma WidenIsByte(b: byte)
    ensures Widen(b) == Bits(b) as bv16
  {
  }

  /** The checksum field, low byte first, loads the register with the word it stands for. */
  lemma FieldFed(crc: bv16, hi: byte, lo: byte)
    ensures Feed(crc, [lo, hi]) == Shifts(Plus(crc, Word16(hi, lo)), 16)
  {
    hide Shifts, Plus, Widen, Word16;
    assert [lo, hi][..1] == [lo] && [lo][..0] == [];
    assert Feed(crc, [lo]) == Absorb(Feed(crc, [lo][..0]), lo);
    var x := Plus(crc, Widen(lo));
    HighByteTurned(hi);
    ShiftsLinear(x, Widen(hi) << 8, 8);
    ShiftsAdd(Plus(x, Widen(hi) << 8), 8, 8);
    JoinedBytes(hi, lo);
    PlusCommutative(Widen(hi) << 8, Widen(lo));
    PlusAssociative(crc, Widen(lo), Widen(hi) << 8);
  }

  lemma {:induction false} FeedConcat(crc: bv16, a: seq<byte>, b: seq<byte>)
    ensures Feed(crc, a + b) == Feed(Feed(crc, a), b)
    decreases |b|
  {
    hide Absorb;
    if |b| == 0 {
      assert a + b == a;
    } else {
      assert (a + b)[..|a + b| - 1] == a + b[..|b| - 1];
      FeedConcat(crc, a, b[..|b| - 1]);
    }
  }

  /** A frame is right if and only if, with its checksum bytes exchanged, its own checksum is zero. */
  lemma CheckedExactly(f: seq<byte>)
    requires |f| >= 2
    ensures Checked(f) <==> Crc16(RegisterOrder(f)) == 0
  {
    hide Feed, Shifts, Plus, Word16;
    var n := |f| - 2;
    var crc, field := Crc16(f[..n]), Word16(f[n], f[n + 1]);
    FeedConcat(INITIAL, f[..n], [f[n + 1], f[n]]);
    FieldFed(crc, f[n], f[n + 1]);
    ShiftsOfZero(16);
    if Shifts(Plus(crc, field), 16) == 0 {
      ShiftsInjective(Plus(crc, field), 0, 16);
    }
    PlusCancel(crc, field);
  }

  /**
   Any damage, exactly: it goes unnoticed if and only if the flipped bits, in register order, drive an empty register
   back to zero.
   */
  lemma DamageUnnoticedExactly(f: seq<byte>, g: seq<byte>)
    requires |f| == |g| >= 2 && Checked(f)
    ensures Checked(g) <==> FeedBits(0, Errors(BitsOf(RegisterOrder(f)), BitsOf(RegisterOrder(g)))) == 0
  {
    hide Checked, Crc16, RegisterOrder, BitsOf, Errors, FeedBits;
    CheckedExactly(f);
    CheckedExactly(g);
    SameChecksum(RegisterOrder(f), RegisterOrder(g));
  }

  // ----- where the bits of a frame go -----

  /** The place of wire bit `k` in register order, and the other way round. */
  function Exchanged(n: nat, k: nat): (p: nat)
    requires k < 8 * n + 16
    ensures p < 8 * n + 16
    ensures k < 8 * n ==> p == k
    ensures 8 * n <= k ==> 8 * n <= p
  {
    if k < 8 * n then k else if k < 8 * n + 8 then k + 8 else k - 8
  }

  lemma ExchangedTwice(n: nat, k: nat)
    requires k < 8 * n + 16
    ensures Exchanged(n, Exchanged(n, k)) == k
  {
  }

  lemma BitsOfTwo(x: byte, y: byte)
    ensures BitsOf([x, y]) == ByteBits(x) + ByteBits(y)
  {
    hide BitsOf, ByteBits;
    assert [x, y] == [x] + [y];
    BitsOfConcat([x], [y]);
    BitsOfOne(x);
    BitsOfOne(y);
  }

  lemma BitsOfFrame(d: seq<byte>, x: byte, y: byte)
    ensures BitsOf(d + [x, y]) == BitsOf(d) + (ByteBits(x) + ByteBits(y))
  {
    hide BitsOf, ByteBits;
    BitsOfConcat(d, [x, y]);
    BitsOfTwo(x, y);
  }

  lemma ExchangedInside(a: seq<bool>, b: seq<bool>, c: seq<bool>, n: nat, k: nat)
    requires |a| == 8 * n && |b| == 8 && |c| == 8 && k < 8 * n + 16
    ensures (a + (c + b))[k] == (a + (b + c))[Exchanged(n, k)]
  {
  }

  /** Bit `k` in register order is the wire bit at the place that `k` is exchanged with. */
  lemma BitExchanged(f: seq<byte>, n: nat, k: nat)
    requires |f| == n + 2 && k < 8 * n + 16
    ensures BitsOf(RegisterOrder(f))[k] == BitsOf(f)[Exchanged(n, k)]
  {
    hide BitsOf, ByteBits, Exchanged;
    assert f == f[..n] + [f[n], f[n + 1]];
    BitsOfFrame(f[..n], f[n], f[n + 1]);
    BitsOfFrame(f[..n], f[n + 1], f[n]);
    ExchangedInside(BitsOf(f[..n]), ByteBits(f[n]), ByteBits(f[n + 1]), n, k);
  }

  lemma RegisterOrderInjective(f: seq<byte>, g: seq<byte>)
    requires |f| == |g| >= 2 && RegisterOrder(f) == RegisterOrder(g)
    ensures f == g
  {
    var n := |f| - 2;
    var r, t := RegisterOrder(f), RegisterOrder(g);
    assert f[..n] == r[..n] && g[..n] == t[..n];
    assert r[n] == f[n + 1] && r[n + 1] == f[n] && t[n] == g[n + 1] && t[n + 1] == g[n];
    assert f == f[..n] + [f[n], f[n + 1]] && g == g[..n] + [g[n], g[n + 1]];
  }

  // ----- pairs -----

  ghost predicate DifferExactly(a: seq<bool>, b: seq<bool>, i: int, j: int) {
    |a| == |b| && forall k :: 0 <= k < |a| ==> (a[k] != b[k] <==> k == i || k == j)
  }

  lemma PairExchanged(f: seq<byte>, g: seq<byte>, n: nat, i: nat, j: nat)
    requires |f| == n + 2 && |g| == n + 2 && i < 8 * n + 16 && j < 8 * n + 16
    requires DifferExactly(BitsOf(f), BitsOf(g), i, j)
    ensures DifferExactly(BitsOf(RegisterOrder(f)), BitsOf(RegisterOrder(g)), Exchanged(n, i), Exchanged(n, j))
  {
    hide BitsOf, RegisterOrder, Exchanged;
    var a, b := BitsOf(RegisterOrder(f)), BitsOf(RegisterOrder(g));
    forall k | 0 <= k < |a| ensures a[k] != b[k] <==> k == Exchanged(n, i) || k == Exchanged(n, j) {
      BitExchanged(f, n, k);
      BitExchanged(g, n, k);
      ExchangedTwice(n, k);
      ExchangedTwice(n, i);
      ExchangedTwice(n, j);
    }
  }

  /** Two flipped bits, anywhere, go unnoticed exactly when their distance in register order is a multiple of 32767. */
  lemma PairUnnoticedExactly(f: seq<byte>, g: seq<byte>, n: nat, i: nat, j: nat)
    requires |f| == n + 2 && |g| == n + 2 && Checked(f) && i < j < 8 * n + 16
    requires DifferExactly(BitsOf(f), BitsOf(g), i, j)
    ensures Checked(g) <==> (Exchanged(n, j) - Exchanged(n, i)) % ORDER == 0
  {
    hide BitsOf, RegisterOrder, Checked, Crc16, Exchanged;
    var p, q := Exchanged(n, i), Exchanged(n, j);
    ExchangedTwice(n, i);
    ExchangedTwice(n, j);
    PairExchanged(f, g, n, i, j);
    CheckedExactly(f);
    CheckedExactly(g);
    if p < q {
      PairDetected(RegisterOrder(f), RegisterOrder(g), p, q);
    } else {
      PairDetected(RegisterOrder(f), RegisterOrder(g), q, p);
      NegatedMultiple(p - q);
    }
  }

  lemma NegatedMultiple(d: int)
    ensures d % ORDER == 0 <==> (-d) % ORDER == 0
  {
    if d % ORDER == 0 {
      assert -d == ORDER * -(d / ORDER);
    }
    if (-d) % ORDER == 0 {
      assert d == ORDER * -((-d) / ORDER);
    }
  }

  /** Any two flipped bits of at most 262 bytes of data and checksum, wherever they are, are noticed. */
  lemma PairFlipsDetected(f: seq<byte>, g: seq<byte>, i: nat, j: nat)
    requires 2 <= |f| == |g| <= 262 && Checked(f) && i < j < 8 * |f|
    requires DifferExactly(BitsOf(f), BitsOf(g), i, j)
    ensures !Checked(g)
  {
    hide BitsOf, Checked, DifferExactly, Exchanged;
    var n := |f| - 2;
    PairUnnoticedExactly(f, g, n, i, j);
    ExchangedTwice(n, i);
    ExchangedTwice(n, j);
    NegatedMultiple(Exchanged(n, j) - Exchanged(n, i));
  }

  // ----- bursts -----

  ghost predicate AgreeOutside(a: seq<bool>, b: seq<bool>, p: int, q: int) {
    |a| == |b| && forall k :: 0 <= k < |a| && !(p <= k < q) ==> a[k] == b[k]
  }

  /** A burst of up to sixteen bits in register order is always noticed. */
  lemma RegisterBurstDetected(f: seq<byte>, g: seq<byte>, p: nat)
    requires |f| == |g| >= 2 && Checked(f) && f != g
    requires AgreeOutside(BitsOf(RegisterOrder(f)), BitsOf(RegisterOrder(g)), p, p + 16)
    ensures !Checked(g)
  {
    hide BitsOf, RegisterOrder, Checked, Crc16;
    CheckedExactly(f);
    CheckedExactly(g);
    if RegisterOrder(f) == RegisterOrder(g) {
      RegisterOrderInjective(f, g);
    }
    BurstDetected(RegisterOrder(f), RegisterOrder(g), p);
  }

  /** Where wire bits outside a stretch agree, so do the bits they are exchanged with. */
  lemma StretchExchanged(f: seq<byte>, g: seq<byte>, n: nat, p: nat, q: nat, p': nat, q': nat)
    requires |f| == n + 2 && |g| == n + 2 && AgreeOutside(BitsOf(f), BitsOf(g), p, q)
    requires forall k :: 0 <= k < 8 * n + 16 && !(p' <= k < q') ==> !(p <= Exchanged(n, k) < q)
    ensures AgreeOutside(BitsOf(RegisterOrder(f)), BitsOf(RegisterOrder(g)), p', q')
  {
    hide BitsOf, RegisterOrder, Exchanged;
    var a, b := BitsOf(RegisterOrder(f)), BitsOf(RegisterOrder(g));
    forall k | 0 <= k < |a| && !(p' <= k < q') ensures a[k] == b[k] {
      BitExchanged(f, n, k);
      BitExchanged(g, n, k);
    }
  }

  /** A burst of up to eight bits as sent, in data, checksum or across, is always noticed. */
  lemma ShortBurstDetected(f: seq<byte>, g: seq<byte>, n: nat, p: nat)
    requires |f| == n + 2 && |g| == n + 2 && Checked(f) && f != g
    requires AgreeOutside(BitsOf(f), BitsOf(g), p, p + 8)
    ensures !Checked(g)
  {
    hide BitsOf, RegisterOrder, Checked, AgreeOutside;
    var start := if p < 8 * n then p else 8 * n;
    StretchExchanged(f, g, n, p, p + 8, start, start + 16);
    RegisterBurstDetected(f, g, start);
  }

  /** What a burst that starts at `p` does to an empty register. */
  function BurstEffect(f: seq<byte>, g: seq<byte>, p: nat): bv16
    requires |f| == |g| >= 2 && p <= 8 * |f|
  {
    FeedBits(0, Errors(BitsOf(RegisterOrder(f)), BitsOf(RegisterOrder(g)))[p..])
  }

  lemma CrossingBurst(f: seq<byte>, g: seq<byte>, n: nat, p: nat)
    requires |f| == n + 2 && |g| == n + 2 && Checked(f) && p < 8 * n < p + 16
    requires AgreeOutside(BitsOf(f), BitsOf(g), p, p + 16)
    ensures Checked(g) <==> BurstEffect(f, g, p) == 0
  {
    hide BitsOf, RegisterOrder, Checked, AgreeOutside, Errors, FeedBits;
    DamageUnnoticedExactly(f, g);
    StretchExchanged(f, g, n, p, p + 16, p, 8 * n + 16);
    SilentBefore(BitsOf(RegisterOrder(f)), BitsOf(RegisterOrder(g)), p, 8 * n + 16);
  }

  lemma OneSidedBurst(f: seq<byte>, g: seq<byte>, n: nat, p: nat)
    requires |f| == n + 2 && |g| == n + 2 && Checked(f) && f != g && !(p < 8 * n < p + 16)
    requires AgreeOutside(BitsOf(f), BitsOf(g), p, p + 16)
    ensures !Checked(g)
  {
    hide BitsOf, RegisterOrder, Checked, AgreeOutside;
    var start := if p < 8 * n then p else 8 * n;
    StretchExchanged(f, g, n, p, p + 16, start, start + 16);
    RegisterBurstDetected(f, g, start);
  }

  /**
   A burst of up to sixteen bits as sent goes unnoticed if and only if it crosses from the data into the checksum and
   its bits, in register order, drive an empty register back to zero.
   */
  lemma BurstUnnoticedExactly(f: seq<byte>, g: seq<byte>, n: nat, p: nat)
    requires |f| == n + 2 && |g| == n + 2 && Checked(f) && f != g
    requires AgreeOutside(BitsOf(f), BitsOf(g), p, p + 16)
    ensures Checked(g) <==> p < 8 * n < p + 16 && BurstEffect(f, g, p) == 0
  {
    hide BitsOf, BurstEffect, Checked, AgreeOutside;
    if p < 8 * n < p + 16 {
      CrossingBurst(f, g, n, p);
    } else {
      OneSidedBurst(f, g, n, p);
    }
  }

  lemma SilentBefore(a: seq<bool>, b: seq<bool>, p: nat, q: nat)
    requires AgreeOutside(a, b, p, q) && p <= |a|
    ensures FeedBits(0, Errors(a, b)) == FeedBits(0, Errors(a, b)[p..])
  {
    hide FeedBits;
    var e := Errors(a, b);
    assert e == e[..p] + e[p..];
    FeedBitsConcat(0, e[..p], e[p..]);
    FeedSilence(0, e[..p]);
    ShiftsOfZero(p);
  }

  // ----- nine bits are too many -----

  /** A byte with some bits flipped. */
  function Flip(b: byte, mask: bv8): byte {
    FromBits(Bits(b) ^ mask)
  }

  lemma BitsOfFlip(b: byte, mask: bv8)
    ensures Bits(Flip(b, mask)) == Bits(b) ^ mask
  {
    hide FromBits, Bits;
    BitsOfFromBits(Bits(b) ^ mask);
  }

  lemma WidenOfFlip(b: byte, mask: bv8)
    ensures Widen(Flip(b, mask)) == Plus(Widen(b), mask as bv16)
  {
    hide Flip, Bits;
    BitsOfFlip(b, mask);
    WideXor(Bits(b), mask);
  }

  lemma WideXor(v: bv8, mask: bv8)
    ensures (v ^ mask) as bv16 == (v as bv16) ^ (mask as bv16)
  {
  }

  lemma TwelveTurned()
    ensures Shifts(0x000C, 8) == 0x0500
  {
    assert Shifts(0x000C, 4) == 0x5000;
  }

  lemma DataFlipped(d: seq<byte>, x: byte)
    ensures Crc16(d + [Flip(x, 0x0C)]) == Plus(Crc16(d + [x]), 0x0500)
  {
    hide Shifts, Plus, Widen, Flip;
    var c := Feed(INITIAL, d);
    assert (d + [x])[..|d|] == d && (d + [Flip(x, 0x0C)])[..|d|] == d;
    WidenOfFlip(x, 0x0C);
    PlusAssociative(c, Widen(x), 0x000C);
    ShiftsLinear(Plus(c, Widen(x)), 0x000C, 8);
    TwelveTurned();
  }

  lemma HighFlipped(hi: byte, lo: byte)
    ensures Word16(Flip(hi, 0x05), lo) == Plus(Word16(hi, lo), 0x0500)
  {
    hide Plus, Widen, Flip, Word16;
    JoinedBytes(hi, lo);
    JoinedBytes(Flip(hi, 0x05), lo);
    WidenOfFlip(hi, 0x05);
    FiveRaised(Widen(hi), Widen(lo));
  }

  lemma FiveRaised(v: bv16, w: bv16)
    ensures Plus(Plus(v, 0x0005) << 8, w) == Plus(Plus(v << 8, w), 0x0500)
  {
  }

  predicate SameBits(v: bv8, w: bv8, mask: bv8) {
    v & mask == w & mask
  }

  lemma SameBit(v: bv8, w: bv8, mask: bv8, bit: bv8)
    requires SameBits(v, w, mask) && bit & mask == bit
    ensures Has(v, bit) == Has(w, bit)
  {
  }

  lemma FlipKeeps(b: byte, flipped: bv8)
    ensures SameBits(Bits(b), Bits(Flip(b, flipped)), !flipped)
  {
    hide Bits, Flip;
    BitsOfFlip(b, flipped);
    XorKeeps(Bits(b), flipped);
  }

  lemma XorKeeps(v: bv8, flipped: bv8)
    ensures SameBits(v, v ^ flipped, !flipped)
  {
  }

  lemma FlippedTwelve(b: byte)
    ensures AgreeOutside(ByteBits(b), ByteBits(Flip(b, 0x0C)), 2, 4)
  {
    hide Bits, Flip, Has, SameBits;
    var v, w := Bits(b), Bits(Flip(b, 0x0C));
    FlipKeeps(b, 0x0C);
    SameBit(v, w, 0xF3, 0x01);
    SameBit(v, w, 0xF3, 0x02);
    SameBit(v, w, 0xF3, 0x10);
    SameBit(v, w, 0xF3, 0x20);
    SameBit(v, w, 0xF3, 0x40);
    SameBit(v, w, 0xF3, 0x80);
  }

  lemma FlippedFive(b: byte)
    ensures AgreeOutside(ByteBits(b), ByteBits(Flip(b, 0x05)), 0, 3)
  {
    hide Bits, Flip, Has, SameBits;
    var v, w := Bits(b), Bits(Flip(b, 0x05));
    FlipKeeps(b, 0x05);
    SameBit(v, w, 0xFA, 0x08);
    SameBit(v, w, 0xFA, 0x10);
    SameBit(v, w, 0xFA, 0x20);
    SameBit(v, w, 0xFA, 0x40);
    SameBit(v, w, 0xFA, 0x80);
  }

  lemma NineBitsApart(d: seq<byte>, x: byte, hi: byte, lo: byte)
    ensures AgreeOutside(BitsOf(d + [x] + [hi, lo]), BitsOf(d + [Flip(x, 0x0C)] + [Flip(hi, 0x05), lo]),
                         8 * |d| + 2, 8 * |d| + 11)
  {
    hide BitsOf, ByteBits, Flip;
    var y, hi' := Flip(x, 0x0C), Flip(hi, 0x05);
    BitsOfFrame(d + [x], hi, lo);
    BitsOfFrame(d + [y], hi', lo);
    BitsOfConcat(d, [x]);
    BitsOfConcat(d, [y]);
    BitsOfOne(x);
    BitsOfOne(y);
    FlippedTwelve(x);
    FlippedFive(hi);
    NineBitsInside(BitsOf(d), ByteBits(x), ByteBits(y), ByteBits(hi), ByteBits(hi'), ByteBits(lo));
  }

  lemma NineBitsInside(d: seq<bool>, x: seq<bool>, y: seq<bool>, hi: seq<bool>, hi': seq<bool>, lo: seq<bool>)
    requires |x| == 8 && |hi| == 8 && AgreeOutside(x, y, 2, 4) && AgreeOutside(hi, hi', 0, 3)
    ensures AgreeOutside((d + x) + (hi + lo), (d + y) + (hi' + lo), |d| + 2, |d| + 11)
  {
  }

  /**
   In every frame, flipping 0x0C in the last data byte and 0x05 in the first checksum byte, all within nine bits as
   sent, goes unnoticed.
   */
  lemma NineBitBurstUnnoticed(d: seq<byte>, x: byte, hi: byte, lo: byte)
    requires Checked(d + [x] + [hi, lo])
    ensures var f, g := d + [x] + [hi, lo], d + [Flip(x, 0x0C)] + [Flip(hi, 0x05), lo];
            Checked(g) && f != g && AgreeOutside(BitsOf(f), BitsOf(g), 8 * |d| + 2, 8 * |d| + 11)
  {
    hide Flip, Word16, Crc16, Plus, BitsOf, AgreeOutside;
    var f, g := d + [x] + [hi, lo], d + [Flip(x, 0x0C)] + [Flip(hi, 0x05), lo];
    var n := |d| + 1;
    assert f[..n] == d + [x] && g[..n] == d + [Flip(x, 0x0C)];
    DataFlipped(d, x);
    HighFlipped(hi, lo);
    NineBitsApart(d, x, hi, lo);
    if g == f {
      assert g[n] == f[n];
      PlusOfSame(Word16(hi, lo));
    }
  }

  lemma PlusOfSame(w: bv16)
    ensures Plus(w, 0x0500) != w
  {
  }
}
