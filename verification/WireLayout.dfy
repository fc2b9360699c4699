/**
 The wire format spelled out, byte by byte, and what the scan decides in terms of the sender's frames.
 */
module WireLayout {
  import opened Bytes
  import opened Crc
  import opened Codec
  import opened ReferenceParse
  import opened RoundTrip
  import opened Wrappers

  // ----- the bytes of a packet -----

  lemma PacketParts(r: Report, corruptCrc: bool)
    requires BuildPacket(r, corruptCrc).Ok?
    ensures IsAscii(r.drone_id) && |r.drone_id| <= 65493
    ensures var payload := Serialize(TelemetryOf(r));
            |payload| < 0x1_0000
            && BuildPacket(r, corruptCrc).value ==
               FrameWith(payload, SentChecksum(Crc16(Headed(payload)), corruptCrc))
  {
    hide Crc16, FrameWith, Serialize, Headed, SentChecksum;
  }

  /** The first six bytes: header, payload length and id length, each with its more significant byte first. */
  lemma PacketHead(r: Report, corruptCrc: bool)
    requires BuildPacket(r, corruptCrc).Ok?
    ensures var p, n := BuildPacket(r, corruptCrc).value, |r.drone_id|;
            && |p| == 48 + n
            && p[0] == 0xAA && p[1] == 0x55
            && p[2] as int == (42 + n) / 256 && p[3] as int == (42 + n) % 256
            && p[4] as int == n / 256 && p[5] as int == n % 256
  {
    hide Crc16, Encode16, EncodeWord16, SentChecksum, FixedPart, BuildPacket, IsAscii, AsciiBytes;
    PacketParts(r, corruptCrc);
    var n := |r.drone_id|;
    Encode16Bytes(PACKET_HEADER);
    Encode16Bytes(42 + n);
    Encode16Bytes(n);
  }

  /** Behind them, the characters of the id, one byte each. */
  lemma PacketId(r: Report, corruptCrc: bool, k: nat)
    requires BuildPacket(r, corruptCrc).Ok? && k < |r.drone_id|
    ensures |BuildPacket(r, corruptCrc).value| == 48 + |r.drone_id|
    ensures BuildPacket(r, corruptCrc).value[6 + k] as int == r.drone_id[k] as int
  {
    hide Crc16, Encode16, EncodeWord16, SentChecksum, FixedPart, BuildPacket, IsAscii;
    PacketParts(r, corruptCrc);
  }

  lemma FrameParts(payload: seq<byte>, crc: bv16)
    requires |payload| < 0x1_0000
    ensures var p, n := FrameWith(payload, crc), |payload|;
            && p[..n + 4] == Headed(payload) && p[4..n + 4] == payload && [p[n + 4], p[n + 5]] == EncodeWord16(crc)
  {
    hide Encode16, EncodeWord16;
  }

  lemma PacketAroundPayload(r: Report, corruptCrc: bool)
    requires BuildPacket(r, corruptCrc).Ok?
    ensures IsAscii(r.drone_id) && |r.drone_id| <= 65493
    ensures var p, n, payload := BuildPacket(r, corruptCrc).value, |r.drone_id|, Serialize(TelemetryOf(r));
            && |p| == 48 + n && p[..46 + n] == Headed(payload) && p[4..46 + n] == payload
            && [p[46 + n], p[47 + n]] == EncodeWord16(SentChecksum(Crc16(p[..46 + n]), corruptCrc))
  {
    hide Crc16, FrameWith, EncodeWord16, SentChecksum, Serialize, BuildPacket, IsAscii, AsciiBytes, Headed;
    PacketParts(r, corruptCrc);
    var payload := Serialize(TelemetryOf(r));
    FrameParts(payload, SentChecksum(Crc16(Headed(payload)), corruptCrc));
  }

  lemma FieldsOfPayload(t: Telemetry)
    requires |t.drone_id| < 0x1_0000
    ensures var payload, n := Serialize(t), |t.drone_id|;
            && |payload| == 42 + n
            && payload[2 + n..10 + n] == EncodeWord64(t.latitude)
            && payload[10 + n..18 + n] == EncodeWord64(t.longitude)
            && payload[18 + n..26 + n] == EncodeWord64(t.altitude) && payload[26 + n..34 + n] == EncodeWord64(t.speed)
            && payload[34 + n..42 + n] == EncodeWord64(t.timestamp)
  {
    hide EncodeWord64, Serialize, FixedPart, Encode16;
    SerializedFields(t, Serialize(t));
    FixedFieldsAt(t, Serialize(t), 2 + |t.drone_id|);
  }

  /** Then the five fields, eight bytes each. */
  lemma PacketFields(r: Report, corruptCrc: bool)
    requires BuildPacket(r, corruptCrc).Ok?
    ensures var p, n := BuildPacket(r, corruptCrc).value, |r.drone_id|;
            && |p| == 48 + n
            && p[6 + n..14 + n] == EncodeWord64(r.latitude) && p[14 + n..22 + n] == EncodeWord64(r.longitude)
            && p[22 + n..30 + n] == EncodeWord64(r.altitude) && p[30 + n..38 + n] == EncodeWord64(r.speed)
            && p[38 + n..46 + n] == EncodeWord64(r.timestamp)
  {
    hide Crc16, EncodeWord16, EncodeWord64, BuildPacket, IsAscii, AsciiBytes, Serialize, Headed;
    PacketAroundPayload(r, corruptCrc);
    var t := TelemetryOf(r);
    FieldsOfPayload(t);
    SlicesShifted(BuildPacket(r, corruptCrc).value, Serialize(t), |r.drone_id|);
  }

  lemma SlicesShifted(p: seq<byte>, payload: seq<byte>, n: nat)
    requires |p| == 48 + n && |payload| == 42 + n && p[4..46 + n] == payload
    ensures p[6 + n..14 + n] == payload[2 + n..10 + n] && p[14 + n..22 + n] == payload[10 + n..18 + n]
    ensures p[22 + n..30 + n] == payload[18 + n..26 + n] && p[30 + n..38 + n] == payload[26 + n..34 + n]
    ensures p[38 + n..46 + n] == payload[34 + n..42 + n]
  {
    forall k | 0 <= k < 42 + n ensures p[4 + k] == payload[k] {
    }
  }

  /** And the checksum of everything before it, corrupted or not, more significant byte first. */
  lemma PacketChecksum(r: Report, corruptCrc: bool)
    requires BuildPacket(r, corruptCrc).Ok?
    ensures var p, n := BuildPacket(r, corruptCrc).value, |r.drone_id|;
            && |p| == 48 + n
            && p[46 + n] as int == UpperHalf(SentChecksum(Crc16(p[..46 + n]), corruptCrc))
            && p[47 + n] as int == LowerHalf(SentChecksum(Crc16(p[..46 + n]), corruptCrc))
  {
    hide Crc16, EncodeWord16, SentChecksum, UpperHalf, LowerHalf, BuildPacket, IsAscii, AsciiBytes, Serialize, Headed;
    PacketAroundPayload(r, corruptCrc);
    var p, n := BuildPacket(r, corruptCrc).value, |r.drone_id|;
    EncodeWord16Bytes(SentChecksum(Crc16(p[..46 + n]), corruptCrc));
    assert [p[46 + n], p[47 + n]][0] == p[46 + n] && [p[46 + n], p[47 + n]][1] == p[47 + n];
  }

  /** A corrupted checksum has the bits of 0xBEEF flipped. */
  lemma CorruptionFlips(crc: bv16)
    ensures SentChecksum(crc, false) == crc && SentChecksum(crc, true) == Plus(crc, 0xBEEF)
  {
  }

  // ----- what the scan decides, in terms of frames -----

  lemma EncodedOfWord16(hi: byte, lo: byte)
    ensures EncodeWord16(Word16(hi, lo)) == [hi, lo]
  {
    hide Bits, FromBits;
    BytesOfWord(Bits(hi), Bits(lo));
    FromBitsOfBits(hi);
    FromBitsOfBits(lo);
  }

  lemma BytesOfWord(v: bv8, w: bv8)
    ensures (((((v as bv16) << 8) | (w as bv16)) >> 8) as bv8) == v
    ensures (((((v as bv16) << 8) | (w as bv16)) & 0xFF) as bv8) == w
  {
  }

  /** A complete frame at the front of a stream, right or wrong, is a frame of its payload and its checksum field. */
  lemma FrameInStream(s: seq<byte>)
    requires HeaderAt(s) && |s| >= 4 && |s| >= LengthAt(s) + 6
    ensures FrameWith(PayloadAt(s), Word16(s[LengthAt(s) + 4], s[LengthAt(s) + 5])) == s[..LengthAt(s) + 6]
  {
    hide BigEndian16, Encode16, EncodeWord16, Word16;
    var n := LengthAt(s);
    BigEndian16Injective(Encode16(PACKET_HEADER), s[..2]);
    BigEndian16Injective(Encode16(n), s[2..4]);
    EncodedOfWord16(s[n + 4], s[n + 5]);
    assert s[..n + 6] == s[..2] + s[2..4] + s[4..4 + n] + [s[n + 4], s[n + 5]];
  }

  /** A stream that begins with a frame: what its front looks like to the scan. */
  lemma StreamWithFrame(s: seq<byte>, p: seq<byte>, crc: bv16)
    requires |p| < 0x1_0000 && FrameWith(p, crc) <= s
    ensures && HeaderAt(s) && |s| >= 4 && LengthAt(s) == |p| && |s| >= |p| + 6 && PayloadAt(s) == p
            && (ChecksumAt(s) <==> crc == Crc16(Headed(p)))
  {
    hide Crc16, FrameWith, ChecksumAt, HeaderAt, Headed;
    var more := s[|p| + 6..];
    assert s == FrameWith(p, crc) + more;
    FrameFields(p, crc, more);
    ChecksumOfFrame(p, crc, more);
  }

  /** The stream begins with the sender's frame of a payload of legal length. */
  predicate BeginsWithFrame(s: seq<byte>, p: seq<byte>) {
    1 <= |p| <= 256 && Frame(p) <= s
  }

  lemma FrameAtExactly(s: seq<byte>, p: seq<byte>)
    ensures FrameAt(s) && PayloadAt(s) == p <==> BeginsWithFrame(s, p)
  {
    hide Crc16, FrameWith, ChecksumAt, HeaderAt, Headed, Word16;
    if BeginsWithFrame(s, p) {
      StreamWithFrame(s, p, Crc16(Headed(p)));
    } else if FrameAt(s) && PayloadAt(s) == p {
      FrameInStream(s);
      var crc := Word16(s[LengthAt(s) + 4], s[LengthAt(s) + 5]);
      assert FrameWith(p, crc) <= s;
      StreamWithFrame(s, p, crc);
    }
  }

  lemma TakenExactly(s: seq<byte>, p: seq<byte>)
    ensures Decide(s) == Some(Taken(p)) <==> BeginsWithFrame(s, p)
  {
    hide FrameAt, BeginsWithFrame, Taken, Decide;
    FrameAtExactly(s, p);
    DecisionAtFrame(s);
    if Decide(s) == Some(Taken(p)) {
      FrameAtExactly(s, PayloadAt(s));
    }
  }

  /** Telemetry is emitted if and only if the stream begins with a frame whose payload begins with its encoding. */
  lemma EmittedExactly(s: seq<byte>, p: seq<byte>, t: Telemetry)
    ensures Decide(s) == Some(Emitted(p, t)) <==>
            BeginsWithFrame(s, p) && |t.drone_id| < 0x1_0000 && Serialize(t) <= p
  {
    hide Decide, BeginsWithFrame, Serialize, Deserialize;
    TakenExactly(s, p);
    DeserializeExact(p, t);
    OnlyTaken(s, Emitted(p, t));
  }

  /** What takes a frame is what its payload decodes to. */
  lemma OnlyTaken(s: seq<byte>, e: Event)
    ensures e.Takes() && Decide(s) == Some(e) ==> e == Taken(e.payload)
  {
    hide Deserialize, ChecksumAt, HeaderAt;
  }

  /** A payload is malformed if and only if it has no id length, or less than the id and the five fields behind it. */
  lemma MalformedExactly(s: seq<byte>, p: seq<byte>)
    ensures Decide(s) == Some(Malformed(p)) <==>
            BeginsWithFrame(s, p) && (|p| < 2 || |p| < 42 + 256 * p[0] as int + p[1] as int)
  {
    hide Decide, BeginsWithFrame, FixedFields;
    TakenExactly(s, p);
    OnlyTaken(s, Malformed(p));
  }

  /** A checksum mismatch is counted if and only if the stream begins with a frame whose checksum is another. */
  lemma BadCrcExactly(s: seq<byte>)
    ensures Decide(s) == Some(BadCrc) <==>
            exists p: seq<byte>, crc: bv16 :: 1 <= |p| <= 256 && crc != Crc16(Headed(p)) && FrameWith(p, crc) <= s
  {
    hide Crc16, FrameWith, HeaderAt, Headed, Taken, ChecksumAt, Word16;
    if Decide(s) == Some(BadCrc) {
      var p, crc := PayloadAt(s), Word16(s[LengthAt(s) + 4], s[LengthAt(s) + 5]);
      FrameInStream(s);
      assert FrameWith(p, crc) <= s;
      StreamWithFrame(s, p, crc);
    } else if exists p: seq<byte>, crc: bv16 :: 1 <= |p| <= 256 && crc != Crc16(Headed(p)) && FrameWith(p, crc) <= s {
      var p: seq<byte>, crc: bv16 :| 1 <= |p| <= 256 && crc != Crc16(Headed(p)) && FrameWith(p, crc) <= s;
      StreamWithFrame(s, p, crc);
    }
  }

  /**
   The scan waits for more if and only if it has fewer than two bytes, or a header and fewer than four, or the
   beginning of a frame of legal length.
   */
  lemma WaitsExactly(s: seq<byte>)
    ensures Decide(s) == None <==>
            || |s| < 2
            || (|s| < 4 && s[..2] == [0xAA, 0x55])
            || (|s| >= 4 && exists p: seq<byte>, crc: bv16 :: 1 <= |p| <= 256 && s < FrameWith(p, crc))
  {
    hide Crc16, FrameWith, Taken, ChecksumAt, Word16;
    if |s| >= 4 {
      if Decide(s) == None {
        FrameCompletes(s);
      } else if exists p: seq<byte>, crc: bv16 :: 1 <= |p| <= 256 && s < FrameWith(p, crc) {
        var p: seq<byte>, crc: bv16 :| 1 <= |p| <= 256 && s < FrameWith(p, crc);
        FrameBegun(s, p, crc);
      }
    } else if |s| >= 2 {
      assert s[..2] == [s[0], s[1]];
    }
  }

  lemma FrameBegun(s: seq<byte>, p: seq<byte>, crc: bv16)
    requires |s| >= 4 && |p| < 0x1_0000 && s < FrameWith(p, crc)
    ensures HeaderAt(s) && LengthAt(s) == |p| && |s| < |p| + 6
  {
    hide Crc16, ChecksumAt, FrameWith;
    var f := FrameWith(p, crc);
    StreamWithFrame(f, p, crc);
    assert s[0] == f[0] && s[1] == f[1] && s[2] == f[2] && s[3] == f[3];
  }

  /** The beginning of a frame can be completed. */
  lemma FrameCompletes(s: seq<byte>)
    requires |s| >= 4 && HeaderAt(s) && LegalLength(LengthAt(s)) && |s| < LengthAt(s) + 6
    ensures exists p: seq<byte>, crc: bv16 :: 1 <= |p| <= 256 && s < FrameWith(p, crc)
  {
    hide Crc16, ChecksumAt, FrameWith, Word16;
    var n := LengthAt(s);
    var f := s + seq(n + 6 - |s|, _ => 0);
    assert f[0] == s[0] && f[1] == s[1] && f[2] == s[2] && f[3] == s[3];
    FrameInStream(f);
    assert f[..n + 6] == f;
    assert s < FrameWith(PayloadAt(f), Word16(f[n + 4], f[n + 5]));
  }
}
