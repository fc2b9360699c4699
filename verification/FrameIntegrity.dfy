/**
 What damage to a valid frame the parser notices: it drops one byte and counts a failure at that position, instead of
 reporting telemetry that was never sent.
 */
module FrameIntegrity {
  import opened Bytes
  import opened Crc
  import opened CrcBits
  import opened CrcDetection
  import opened CrcFrames
  import opened ReferenceParse
  import opened Wrappers

  /** The frame at the front of `s`, header to checksum. */
  function FrameBytes(s: seq<byte>): (f: seq<byte>)
    requires |s| >= 4 && |s| >= LengthAt(s) + 6
    ensures |f| == LengthAt(s) + 6
  {
    s[..LengthAt(s) + 6]
  }

  /** Two streams whose first four bytes, header and length, are the same, and whose frame there is complete. */
  ghost predicate SameHead(s: seq<byte>, t: seq<byte>) {
    && |s| >= 4 && |t| >= 4 && s[..4] == t[..4]
    && LengthAt(t) == LengthAt(s) && |s| >= LengthAt(s) + 6 && |t| >= LengthAt(s) + 6
  }

  lemma SameHeadFacts(s: seq<byte>, t: seq<byte>)
    requires SameHead(s, t)
    ensures LengthAt(s) == LengthAt(t) && (HeaderAt(s) <==> HeaderAt(t))
  {
    hide BigEndian16;
    assert s[0] == s[..4][0] && s[1] == s[..4][1] && s[2] == s[..4][2] && s[3] == s[..4][3];
    assert t[0] == t[..4][0] && t[1] == t[..4][1] && t[2] == t[..4][2] && t[3] == t[..4][3];
  }

  lemma ChecksumIsChecked(s: seq<byte>)
    requires |s| >= 4 && |s| >= LengthAt(s) + 6
    ensures ChecksumAt(s) <==> Checked(FrameBytes(s))
  {
    hide BigEndian16, Word16, Crc16;
    var n := LengthAt(s) + 4;
    assert FrameBytes(s)[..n] == s[..n] && FrameBytes(s)[n] == s[n] && FrameBytes(s)[n + 1] == s[n + 1];
  }

  lemma RejectedWithoutChecksum(s: seq<byte>, t: seq<byte>)
    requires SameHead(s, t) && FrameAt(s) && !ChecksumAt(t)
    ensures Decide(t) == Some(BadCrc)
  {
    hide BigEndian16, Word16, Crc16, ChecksumAt, HeaderAt;
    SameHeadFacts(s, t);
  }

  /** An odd number of flipped bits in payload and checksum. */
  lemma OddDamageRejected(s: seq<byte>, t: seq<byte>)
    requires FrameAt(s) && SameHead(s, t)
    requires Ones(Errors(BitsOf(FrameBytes(s)), BitsOf(FrameBytes(t)))) % 2 == 1
    ensures Decide(t) == Some(BadCrc)
  {
    hide BitsOf, Ones, Checked, ChecksumAt, HeaderAt;
    ChecksumIsChecked(s);
    ChecksumIsChecked(t);
    OddFlipsDetected(FrameBytes(s), FrameBytes(t));
    RejectedWithoutChecksum(s, t);
  }

  /** The bytes the checksum covers. */
  function Covered(s: seq<byte>): (d: seq<byte>)
    requires |s| >= 4 && |s| >= LengthAt(s) + 6
    ensures |d| == LengthAt(s) + 4
  {
    s[..LengthAt(s) + 4]
  }

  /** Frames with the same header, length and checksum field, but different data. */
  ghost predicate OnlyDataDiffers(s: seq<byte>, t: seq<byte>) {
    && SameHead(s, t)
    && var n := LengthAt(s) + 4; s[n] == t[n] && s[n + 1] == t[n + 1]
  }

  lemma RejectedByData(s: seq<byte>, t: seq<byte>)
    requires FrameAt(s) && OnlyDataDiffers(s, t) && Crc16(Covered(s)) != Crc16(Covered(t))
    ensures Decide(t) == Some(BadCrc)
  {
    hide BigEndian16, Word16, Crc16, HeaderAt;
    RejectedWithoutChecksum(s, t);
  }

  /** Any damage to the payload inside sixteen consecutive bits. */
  lemma BurstDamageRejected(s: seq<byte>, t: seq<byte>, p: nat)
    requires FrameAt(s) && OnlyDataDiffers(s, t) && Covered(s) != Covered(t)
    requires forall i :: 0 <= i < 8 * |Covered(s)| && !(p <= i < p + 16) ==>
             BitsOf(Covered(s))[i] == BitsOf(Covered(t))[i]
    ensures Decide(t) == Some(BadCrc)
  {
    hide BitsOf, Crc16, FrameAt;
    BurstDetected(Covered(s), Covered(t), p);
    RejectedByData(s, t);
  }

  lemma FramesDiffer(s: seq<byte>, t: seq<byte>)
    requires SameHead(s, t)
    ensures |FrameBytes(s)| == |FrameBytes(t)| == LengthAt(s) + 6
  {
  }

  lemma AcceptedWithChecksum(s: seq<byte>, t: seq<byte>)
    requires SameHead(s, t) && FrameAt(s)
    ensures Decide(t) == Some(BadCrc) <==> !ChecksumAt(t)
    ensures ChecksumAt(t) <==> FrameAt(t)
  {
    hide BigEndian16, Word16, Crc16, ChecksumAt, HeaderAt;
    SameHeadFacts(s, t);
  }

  /** A burst of up to eight bits as sent, anywhere in payload and checksum field. */
  lemma ShortBurstDamageRejected(s: seq<byte>, t: seq<byte>, p: nat)
    requires FrameAt(s) && SameHead(s, t) && FrameBytes(s) != FrameBytes(t)
    requires AgreeOutside(BitsOf(FrameBytes(s)), BitsOf(FrameBytes(t)), p, p + 8)
    ensures Decide(t) == Some(BadCrc)
  {
    hide BitsOf, AgreeOutside, Checked, ChecksumAt, HeaderAt;
    FramesDiffer(s, t);
    ChecksumIsChecked(s);
    ChecksumIsChecked(t);
    ShortBurstDetected(FrameBytes(s), FrameBytes(t), LengthAt(s) + 4, p);
    AcceptedWithChecksum(s, t);
  }

  /**
   A burst of up to sixteen bits as sent, anywhere: the frame is taken in spite of it if and only if it crosses from
   the payload into the checksum field and its bits, in register order, drive an empty register back to zero.
   */
  lemma BurstDamageTakenExactly(s: seq<byte>, t: seq<byte>, p: nat)
    requires FrameAt(s) && SameHead(s, t) && FrameBytes(s) != FrameBytes(t)
    requires AgreeOutside(BitsOf(FrameBytes(s)), BitsOf(FrameBytes(t)), p, p + 16)
    ensures var end := 8 * (LengthAt(s) + 4);
            FrameAt(t) <==> p < end < p + 16 && BurstEffect(FrameBytes(s), FrameBytes(t), p) == 0
    ensures Decide(t) == Some(BadCrc) <==> !FrameAt(t)
  {
    hide BitsOf, AgreeOutside, Checked, ChecksumAt, HeaderAt, BurstEffect;
    FramesDiffer(s, t);
    ChecksumIsChecked(s);
    ChecksumIsChecked(t);
    BurstUnnoticedExactly(FrameBytes(s), FrameBytes(t), LengthAt(s) + 4, p);
    AcceptedWithChecksum(s, t);
  }

  /** Any two flipped bits, each of them in the payload or in the checksum field. */
  lemma PairDamageRejected(s: seq<byte>, t: seq<byte>, i: nat, j: nat)
    requires FrameAt(s) && SameHead(s, t)
    requires i < j < 8 * |FrameBytes(s)| && DifferExactly(BitsOf(FrameBytes(s)), BitsOf(FrameBytes(t)), i, j)
    ensures Decide(t) == Some(BadCrc)
  {
    hide BitsOf, DifferExactly, Checked, ChecksumAt, HeaderAt;
    ChecksumIsChecked(s);
    ChecksumIsChecked(t);
    PairFlipsDetected(FrameBytes(s), FrameBytes(t), i, j);
    RejectedWithoutChecksum(s, t);
  }
}
