/**
 CRC-16/MODBUS: the shift register of "MODBUS over Serial Line, Specification and Implementation Guide V1.02",
 section 6.2.2, as both ends of the link compute it.
 */
module Crc {
  import opened Bytes

  const POLYNOMIAL: bv16 := 0xA001
  const INITIAL: bv16 := 0xFFFF

  /** Addition of registers, bit by bit and without carry. */
  function Plus(a: bv16, b: bv16): bv16 {
    a ^ b
  }

  function Widen(b: byte): bv16 {
    Bits(b) as bv16
  }

  /** One turn of the shift register. */
  function Shift(crc: bv16): bv16 {
    if crc & 1 == 1 then (crc >> 1) ^ POLYNOMIAL else crc >> 1
  }

  predicate LowBit(w: bv16) {
    w & 1 == 1
  }

  function Half(w: bv16): bv16 {
    w >> 1
  }

  lemma ShiftByHalves(w: bv16)
    ensures Shift(w) == if LowBit(w) then Plus(Half(w), POLYNOMIAL) else Half(w)
  {
  }

  /** `n` turns. */
  function Shifts(crc: bv16, n: nat): bv16
    decreases n, crc
  {
    if n == 0 then crc else Shift(Shifts(crc, n - 1))
  }

  /** One byte enters the register: it is added to the low half, then the register turns eight times. */
  function Absorb(crc: bv16, b: byte): bv16 {
    Shifts(Plus(crc, Widen(b)), 8)
  }

  /** The register after `data` has been fed in. */
  function Feed(crc: bv16, data: seq<byte>): bv16
    decreases |data|
  {
    if |data| == 0 then crc else Absorb(Feed(crc, data[..|data| - 1]), data[|data| - 1])
  }

  function Crc16(data: seq<byte>): bv16 {
    Feed(INITIAL, data)
  }

  /** The server's nested loop over the first `len` bytes of a buffer. */
  method ComputeCrc16(data: seq<byte>, len: nat) returns (crc: bv16)
    requires len <= |data|
    ensures crc == Crc16(data[..len])
  {
    crc := INITIAL;
    for i := 0 to len
      invariant crc == Feed(INITIAL, data[..i])
    {
      assert data[..i + 1][..i] == data[..i];
      crc := crc ^ (Bits(data[i]) as bv16);
      ghost var start := crc;
      for j := 0 to 8
        invariant crc == Shifts(start, j)
      {
        if crc & 1 == 1 {
          crc := (crc >> 1) ^ POLYNOMIAL;
        } else {
          crc := crc >> 1;
        }
      }
    }
  }

  /** A register value as an integer wider than sixteen bits, such as the sender's script computes with. */
  function Wide(w: bv16): bv32 {
    w as bv32
  }

  lemma WideHalf(w: bv16)
    ensures Wide(w) >> 1 == Wide(Half(w))
    ensures Wide(w) & 1 == 1 <==> LowBit(w)
  {
  }

  lemma WidePattern(w: bv16)
    ensures Wide(w) ^ 0xA001 == Wide(w ^ 0xA001)
  {
  }

  lemma WidePolynomial(w: bv16)
    ensures Wide(w) ^ 0xA001 == Wide(Plus(w, POLYNOMIAL))
  {
    hide Wide;
    WidePattern(w);
  }

  lemma WideShift(w: bv16)
    ensures Wide(Shift(w)) == if Wide(w) & 1 == 1 then (Wide(w) >> 1) ^ 0xA001 else Wide(w) >> 1
  {
    hide Wide, Shift, Plus, Half, LowBit;
    ShiftByHalves(w);
    WideHalf(w);
    WidePolynomial(Half(w));
  }

  /** A turn of the register as the sender's script writes it. */
  method TurnWide(crc: bv32, ghost narrow: bv16) returns (turned: bv32)
    requires crc == Wide(narrow)
    ensures turned == Wide(Shift(narrow))
  {
    hide Wide, Shift;
    WideShift(narrow);
    if crc & 1 == 1 {
      turned := (crc >> 1) ^ 0xA001;
    } else {
      turned := crc >> 1;
    }
  }

  lemma WideWord(crc: bv16, b: byte)
    ensures Wide(crc) ^ (Bits(b) as bv32) == Wide(Plus(crc, Widen(b)))
  {
  }

  /** The sender's final mask, which changes nothing. */
  method MaskWide(crc: bv32, ghost narrow: bv16) returns (masked: bv32)
    requires crc == Wide(narrow)
    ensures masked == crc
  {
    masked := crc & 0xFFFF;
  }

  /** The sender's treatment of one byte: the addition and the inner loop. */
  method AbsorbWide(start: bv32, b: byte, ghost narrow: bv16) returns (crc: bv32)
    requires start == Wide(narrow)
    ensures crc == Wide(Absorb(narrow, b))
  {
    hide Wide, Shift, Plus, Widen, Bits;
    WideWord(narrow, b);
    crc := start ^ (Bits(b) as bv32);
    ghost var register := Plus(narrow, Widen(b));
    for j := 0 to 8
      invariant register == Shifts(Plus(narrow, Widen(b)), j) && crc == Wide(register)
    {
      crc := TurnWide(crc, register);
      register := Shift(register);
    }
  }

  /** The sender's loops. The register is a Python integer, wider than sixteen bits, and is masked only at the end. */
  method Crc16Modbus(data: seq<byte>) returns (crc: bv32)
    ensures crc == Crc16(data) as bv32
  {
    hide Absorb;
    crc := 0xFFFF;
    ghost var narrow := INITIAL;
    for i := 0 to |data|
      invariant narrow == Feed(INITIAL, data[..i]) && crc == Wide(narrow)
    {
      assert data[..i + 1][..i] == data[..i];
      crc := AbsorbWide(crc, data[i], narrow);
      narrow := Absorb(narrow, data[i]);
    }
    assert data[..|data|] == data;
    crc := MaskWide(crc, narrow);
  }
}
