/**
 The checksum is the published one: its start value, and its value for the nine digits by which implementations of
 CRC-16/MODBUS are compared.
 */
module CrcStandard {
  import opened Bytes
  import opened Crc
  import opened CrcBits
  import opened CrcFrames

  /** One byte, of a given pattern, takes the register from `crc` through `half` to `next`. */
  lemma NextByte(data: seq<byte>, b: byte, pattern: bv16, crc: bv16, half: bv16, next: bv16)
    requires Feed(INITIAL, data) == crc && Widen(b) == pattern
    requires Shifts(crc ^ pattern, 4) == half && Shifts(half, 4) == next
    ensures Feed(INITIAL, data + [b]) == next
  {
    hide Shifts;
    assert (data + [b])[..|data|] == data;
    ShiftsAdd(crc ^ pattern, 4, 4);
  }

  lemma FourTurns(a: bv16, b: bv16, c: bv16, d: bv16, e: bv16)
    requires Shift(a) == b && Shift(b) == c && Shift(c) == d && Shift(d) == e
    ensures Shifts(a, 4) == e
  {
    assert Shifts(a, 1) == Shift(Shifts(a, 0));
    assert Shifts(a, 2) == Shift(Shifts(a, 1));
    assert Shifts(a, 3) == Shift(Shifts(a, 2));
  }

  lemma Digits()
    ensures Widen(0x31) == 0x0031 && Widen(0x32) == 0x0032 && Widen(0x33) == 0x0033
    ensures Widen(0x34) == 0x0034 && Widen(0x35) == 0x0035 && Widen(0x36) == 0x0036
    ensures Widen(0x37) == 0x0037 && Widen(0x38) == 0x0038 && Widen(0x39) == 0x0039
    ensures Widen(0xFF) == 0x00FF
  {
  }

  /** Fed into the start value, two full bytes leave nothing: what follows them is fed into an empty register. */
  lemma FullBytesFed()
    ensures Crc16([0xFF, 0xFF]) == 0
  {
    hide Shifts, Widen;
    Digits();
    var none: seq<byte> := [];
    assert Feed(INITIAL, none) == 0xFFFF;
    FourTurns(0xFF00, 0x7F80, 0x3FC0, 0x1FE0, 0x0FF0);
    FourTurns(0x0FF0, 0x07F8, 0x03FC, 0x01FE, 0x00FF);
    NextByte(none, 0xFF, 0x00FF, 0xFFFF, 0x0FF0, 0x00FF);
    assert none + [0xFF] == [0xFF];
    FourTurns(0x0000, 0x0000, 0x0000, 0x0000, 0x0000);
    FourTurns(0x0000, 0x0000, 0x0000, 0x0000, 0x0000);
    NextByte([0xFF], 0xFF, 0x00FF, 0x00FF, 0x0000, 0x0000);
    assert [0xFF as byte] + [0xFF] == [0xFF, 0xFF];
  }

  /** So the checksum starts as if from an empty register after two full bytes, and in no other way. */
  lemma StartValue(d: seq<byte>)
    ensures Crc16([0xFF, 0xFF] + d) == Feed(0, d)
  {
    hide Feed;
    FullBytesFed();
    FeedConcat(INITIAL, [0xFF, 0xFF], d);
  }

  // ----- the check value -----

  lemma FirstFour()
    ensures Feed(INITIAL, [0x31, 0x32, 0x33, 0x34]) == 0x30BA
  {
    hide Shifts, Widen;
    Digits();
    var none: seq<byte> := [];
    assert Feed(INITIAL, none) == 0xFFFF;
    FourTurns(0xFFCE, 0x7FE7, 0x9FF2, 0x4FF9, 0x87FD);
    FourTurns(0x87FD, 0xE3FF, 0xD1FE, 0x68FF, 0x947E);
    NextByte(none, 0x31, 0x0031, 0xFFFF, 0x87FD, 0x947E);
    assert none + [0x31] == [0x31];
    FourTurns(0x944C, 0x4A26, 0x2513, 0xB288, 0x5944);
    FourTurns(0x5944, 0x2CA2, 0x1651, 0xAB29, 0xF595);
    NextByte([0x31], 0x32, 0x0032, 0x947E, 0x5944, 0xF595);
    assert [0x31] + [0x32] == [0x31, 0x32];
    FourTurns(0xF5A6, 0x7AD3, 0x9D68, 0x4EB4, 0x275A);
    FourTurns(0x275A, 0x13AD, 0xA9D7, 0xF4EA, 0x7A75);
    NextByte([0x31, 0x32], 0x33, 0x0033, 0xF595, 0x275A, 0x7A75);
    assert [0x31, 0x32] + [0x33] == [0x31, 0x32, 0x33];
    FourTurns(0x7A41, 0x9D21, 0xEE91, 0xD749, 0xCBA5);
    FourTurns(0xCBA5, 0xC5D3, 0xC2E8, 0x6174, 0x30BA);
    NextByte([0x31, 0x32, 0x33], 0x34, 0x0034, 0x7A75, 0xCBA5, 0x30BA);
    assert [0x31, 0x32, 0x33] + [0x34] == [0x31, 0x32, 0x33, 0x34];
  }

  /** The digits one to nine, as text, have the checksum 0x4B37. */
  lemma CheckValue()
    ensures Crc16([0x31, 0x32, 0x33, 0x34, 0x35, 0x36, 0x37, 0x38, 0x39]) == 0x4B37
  {
    hide Shifts, Widen;
    Digits();
    FirstFour();
    FourTurns(0x308F, 0xB846, 0x5C23, 0x8E10, 0x4708);
    FourTurns(0x4708, 0x2384, 0x11C2, 0x08E1, 0xA471);
    NextByte([0x31, 0x32, 0x33, 0x34], 0x35, 0x0035, 0x30BA, 0x4708, 0xA471);
    assert [0x31, 0x32, 0x33, 0x34] + [0x35] == [0x31, 0x32, 0x33, 0x34, 0x35];
    FourTurns(0xA447, 0xF222, 0x7911, 0x9C89, 0xEE45);
    FourTurns(0xEE45, 0xD723, 0xCB90, 0x65C8, 0x32E4);
    NextByte([0x31, 0x32, 0x33, 0x34, 0x35], 0x36, 0x0036, 0xA471, 0xEE45, 0x32E4);
    assert [0x31, 0x32, 0x33, 0x34, 0x35] + [0x36] == [0x31, 0x32, 0x33, 0x34, 0x35, 0x36];
    FourTurns(0x32D3, 0xB968, 0x5CB4, 0x2E5A, 0x172D);
    FourTurns(0x172D, 0xAB97, 0xF5CA, 0x7AE5, 0x9D73);
    NextByte([0x31, 0x32, 0x33, 0x34, 0x35, 0x36], 0x37, 0x0037, 0x32E4, 0x172D, 0x9D73);
    assert [0x31, 0x32, 0x33, 0x34, 0x35, 0x36] + [0x37] == [0x31, 0x32, 0x33, 0x34, 0x35, 0x36, 0x37];
    FourTurns(0x9D4B, 0xEEA4, 0x7752, 0x3BA9, 0xBDD5);
    FourTurns(0xBDD5, 0xFEEB, 0xDF74, 0x6FBA, 0x37DD);
    NextByte([0x31, 0x32, 0x33, 0x34, 0x35, 0x36, 0x37], 0x38, 0x0038, 0x9D73, 0xBDD5, 0x37DD);
    assert [0x31, 0x32, 0x33, 0x34, 0x35, 0x36, 0x37] + [0x38] == [0x31, 0x32, 0x33, 0x34, 0x35, 0x36, 0x37, 0x38];
    FourTurns(0x37E4, 0x1BF2, 0x0DF9, 0xA6FD, 0xF37F);
    FourTurns(0xF37F, 0xD9BE, 0x6CDF, 0x966E, 0x4B37);
    NextByte([0x31, 0x32, 0x33, 0x34, 0x35, 0x36, 0x37, 0x38], 0x39, 0x0039, 0x37DD, 0xF37F, 0x4B37);
    assert [0x31, 0x32, 0x33, 0x34, 0x35, 0x36, 0x37, 0x38] + [0x39] == [0x31, 0x32, 0x33, 0x34, 0x35, 0x36,
      0x37, 0x38, 0x39];
  }
}
