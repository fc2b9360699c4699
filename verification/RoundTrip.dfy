/**
 From the sender's packets to the receiver's telemetry and back: what comes through, what cannot, and two streams in
 which a complete valid frame is not reported.
 */
module RoundTrip {
  import opened Bytes
  import opened Crc
  import opened Codec
  import opened ReferenceParse
  import opened ParserMachine
  import opened Sequences
  import opened Wrappers

  /** The longest drone id whose payload the receiver accepts. */
  const MAX_ID: nat := 214

  // ----- one frame -----

  lemma FrameFields(payload: seq<byte>, crc: bv16, more: seq<byte>)
    requires |payload| < 0x1_0000
    ensures var s := FrameWith(payload, crc) + more;
            && HeaderAt(s) && LengthAt(s) == |payload| && |s| >= LengthAt(s) + 6
            && PayloadAt(s) == payload && s[..|payload| + 4] == Headed(payload)
            && s[|payload| + 4..|payload| + 6] == EncodeWord16(crc) && s[|payload| + 6..] == more
  {
    hide BigEndian16, Encode16, EncodeWord16;
    var s, n := FrameWith(payload, crc) + more, |payload|;
    var header, length := Encode16(PACKET_HEADER), Encode16(n);
    assert s[0] == header[0] && s[1] == header[1] && s[2] == length[0] && s[3] == length[1];
    assert s[4..4 + n] == payload;
    assert s[..n + 4] == Headed(payload);
    assert s[n + 4..n + 6] == EncodeWord16(crc);
  }

  lemma ChecksumOfFrame(payload: seq<byte>, crc: bv16, more: seq<byte>)
    requires |payload| < 0x1_0000
    ensures var s := FrameWith(payload, crc) + more;
            HeaderAt(s) && LengthAt(s) == |payload| && |s| >= LengthAt(s) + 6
              && (ChecksumAt(s) <==> crc == Crc16(Headed(payload)))
  {
    hide BigEndian16, Encode16, EncodeWord16, Crc16, Word16, Headed, FrameWith;
    FrameFields(payload, crc, more);
    Word16OfEncoded(crc);
    var s, n := FrameWith(payload, crc) + more, |payload| + 4;
    assert s[n] == s[n..n + 2][0] && s[n + 1] == s[n..n + 2][1];
  }

  /** A frame of a legal payload is taken, whatever follows it. */
  lemma FrameIsTaken(payload: seq<byte>, more: seq<byte>)
    requires 1 <= |payload| <= 256
    ensures Decide(Frame(payload) + more) == Some(Taken(payload))
    ensures Parse(Frame(payload) + more) == Scan([Taken(payload)] + Parse(more).events, Parse(more).rest)
  {
    hide Crc16, FrameWith, Taken, HeaderAt;
    var crc := Crc16(Headed(payload));
    FrameFields(payload, crc, more);
    ChecksumOfFrame(payload, crc, more);
  }

  /** A payload longer than the receiver allows is never taken: its header is dropped as garbage. */
  lemma LongFrameIsNotTaken(payload: seq<byte>, crc: bv16, more: seq<byte>)
    requires 256 < |payload| < 0x1_0000
    ensures Decide(FrameWith(payload, crc) + more) == Some(Garbage)
  {
    hide FrameWith, HeaderAt;
    FrameFields(payload, crc, more);
  }

  // ----- packets -----

  lemma CorruptionChanges(crc: bv16)
    ensures crc ^ CORRUPTION != crc
  {
  }

  /** A packet corrupted on purpose is rejected where it stands, and counted. */
  lemma CorruptPacketRejected(r: Report, more: seq<byte>)
    requires BuildPacket(r, true).Ok? && |r.drone_id| <= MAX_ID
    ensures Decide(BuildPacket(r, true).value + more) == Some(BadCrc)
  {
    hide Crc16, FrameWith, HeaderAt, Serialize, Headed, ChecksumAt, IsAscii, AsciiBytes;
    var payload := Serialize(TelemetryOf(r));
    var crc := Crc16(Headed(payload));
    CorruptionChanges(crc);
    FrameFields(payload, crc ^ CORRUPTION, more);
    ChecksumOfFrame(payload, crc ^ CORRUPTION, more);
  }

  /** The script builds a packet exactly when the id is ASCII and the payload length fits its field. */
  lemma PacketBuiltExactly(r: Report, corruptCrc: bool)
    ensures BuildPacket(r, corruptCrc).Ok? <==>
            (forall i :: 0 <= i < |r.drone_id| ==> r.drone_id[i] as int < 128) && |r.drone_id| <= 65493
  {
  }

  lemma PacketIsFrame(r: Report)
    requires BuildPacket(r, false).Ok?
    ensures IsAscii(r.drone_id) && |Serialize(TelemetryOf(r))| < 0x1_0000
    ensures BuildPacket(r, false).value == Frame(Serialize(TelemetryOf(r)))
  {
    hide Crc16, FrameWith, Serialize, Headed;
  }

  ghost predicate AllBuilt(reports: seq<Report>) {
    forall i :: 0 <= i < |reports| ==> BuildPacket(reports[i], false).Ok?
  }

  /** The packets of a list of reports, one after the other. */
  function Wire(reports: seq<Report>): seq<byte>
    requires forall i :: 0 <= i < |reports| ==> BuildPacket(reports[i], false).Ok?
    decreases |reports|
  {
    if |reports| == 0 then [] else BuildPacket(reports[0], false).value + Wire(reports[1..])
  }

  function Received(reports: seq<Report>): (ts: seq<Telemetry>)
    requires forall i :: 0 <= i < |reports| ==> IsAscii(reports[i].drone_id)
    ensures |ts| == |reports|
    ensures forall i :: 0 <= i < |reports| ==> ts[i] == TelemetryOf(reports[i])
  {
    seq(|reports|, i requires 0 <= i < |reports| => TelemetryOf(reports[i]))
  }

  lemma BuiltIsAscii(reports: seq<Report>)
    requires AllBuilt(reports)
    ensures forall i :: 0 <= i < |reports| ==> IsAscii(reports[i].drone_id)
  {
    forall i | 0 <= i < |reports| ensures IsAscii(reports[i].drone_id) {
      PacketBuiltExactly(reports[i], false);
    }
  }

  lemma PacketIsEmitted(r: Report, more: seq<byte>)
    requires BuildPacket(r, false).Ok? && |r.drone_id| <= MAX_ID
    ensures IsAscii(r.drone_id)
    ensures var payload := Serialize(TelemetryOf(r));
            Parse(BuildPacket(r, false).value + more) ==
            Scan([Emitted(payload, TelemetryOf(r))] + Parse(more).events, Parse(more).rest)
  {
    hide Frame, Serialize, Deserialize, Parse;
    PacketIsFrame(r);
    var payload := Serialize(TelemetryOf(r));
    FrameIsTaken(payload, more);
    DeserializeExact(payload, TelemetryOf(r));
  }

  lemma {:induction false} WireIsEmitted(reports: seq<Report>)
    requires AllBuilt(reports) && forall i :: 0 <= i < |reports| ==> |reports[i].drone_id| <= MAX_ID
    ensures forall i :: 0 <= i < |reports| ==> IsAscii(reports[i].drone_id)
    ensures var scan := Parse(Wire(reports));
            Telemetries(scan.events) == Received(reports) && Failures(scan.events) == 0 && scan.rest == []
    decreases |reports|
  {
    hide BuildPacket, IsAscii, Parse, Serialize, TelemetryOf;
    BuiltIsAscii(reports);
    if |reports| == 0 {
      EmptyScan();
    } else {
      var r := reports[0];
      PacketIsEmitted(r, Wire(reports[1..]));
      WireIsEmitted(reports[1..]);
      var later := Parse(Wire(reports[1..])).events;
      var e := Emitted(Serialize(TelemetryOf(r)), TelemetryOf(r));
      assert ([e] + later)[1..] == later;
      assert Received(reports) == [TelemetryOf(r)] + Received(reports[1..]);
    }
  }

  // ----- ids the receiver can never report -----

  lemma {:induction false} EmittedIdsAreShort(s: seq<byte>, i: nat)
    requires i < |Telemetries(Parse(s).events)|
    ensures |Telemetries(Parse(s).events)[i].drone_id| <= 214
    decreases |s|
  {
    hide Word16, BigEndian16, Crc16, ChecksumAt, HeaderAt;
    var e := Decide(s).value;
    assert Parse(s).events[1..] == Parse(s[e.Size()..]).events;
    if e.Emitted? {
      if i > 0 {
        EmittedIdsAreShort(s[e.Size()..], i - 1);
      }
    } else {
      EmittedIdsAreShort(s[e.Size()..], i);
    }
  }

  /** A record that carries what a report says: the same characters, and the same numbers. */
  ghost predicate Carries(t: Telemetry, r: Report) {
    && |t.drone_id| == |r.drone_id|
    && (forall k :: 0 <= k < |r.drone_id| ==> t.drone_id[k] as int == r.drone_id[k] as int)
    && t.latitude == r.latitude && t.longitude == r.longitude && t.altitude == r.altitude
    && t.speed == r.speed && t.timestamp == r.timestamp
  }

  ghost predicate CarriesAll(ts: seq<Telemetry>, reports: seq<Report>) {
    |ts| == |reports| && forall i :: 0 <= i < |ts| ==> Carries(ts[i], reports[i])
  }

  lemma CarriesExactly(t: Telemetry, r: Report)
    requires IsAscii(r.drone_id)
    ensures Carries(t, r) <==> t == TelemetryOf(r)
  {
    if Carries(t, r) {
      forall k | 0 <= k < |r.drone_id| ensures t.drone_id[k] == AsciiBytes(r.drone_id)[k] {
        assert t.drone_id[k] as int == r.drone_id[k] as int;
      }
      assert t.drone_id == AsciiBytes(r.drone_id);
    }
  }

  lemma CarriesAllExactly(ts: seq<Telemetry>, reports: seq<Report>)
    requires forall i :: 0 <= i < |reports| ==> IsAscii(reports[i].drone_id)
    ensures CarriesAll(ts, reports) <==> ts == Received(reports)
  {
    hide Carries, IsAscii, TelemetryOf;
    forall i | 0 <= i < |reports| && i < |ts| ensures Carries(ts[i], reports[i]) <==> ts[i] == Received(reports)[i] {
      CarriesExactly(ts[i], reports[i]);
    }
  }

  lemma SameIdSameDrone(t: Telemetry, r: Report, u: Telemetry, q: Report)
    requires Carries(t, r) && Carries(u, q) && t.drone_id == u.drone_id
    ensures r.drone_id == q.drone_id
  {
    forall k | 0 <= k < |r.drone_id| ensures r.drone_id[k] == q.drone_id[k] {
      assert t.drone_id[k] as int == r.drone_id[k] as int && u.drone_id[k] as int == q.drone_id[k] as int;
    }
  }

  /** Drones are not confused: two records have the same id if and only if the reports they carry do. */
  lemma DronesKeptApart(t: Telemetry, r: Report, u: Telemetry, q: Report)
    requires Carries(t, r) && Carries(u, q)
    ensures t.drone_id == u.drone_id <==> r.drone_id == q.drone_id
  {
    if t.drone_id == u.drone_id {
      SameIdSameDrone(t, r, u, q);
    } else if r.drone_id == q.drone_id {
      SameDroneSameId(t, r, u, q);
    }
  }

  lemma SameDroneSameId(t: Telemetry, r: Report, u: Telemetry, q: Report)
    requires Carries(t, r) && Carries(u, q) && r.drone_id == q.drone_id
    ensures t.drone_id == u.drone_id
  {
    forall k | 0 <= k < |t.drone_id| ensures t.drone_id[k] == u.drone_id[k] {
      assert t.drone_id[k] as int == r.drone_id[k] as int && u.drone_id[k] as int == q.drone_id[k] as int;
    }
  }

  /**
   The round trip: the packets of a list of reports, in any chunking, give a fresh client records that carry exactly
   these reports, in order, if and only if no drone id is longer than 214 characters. Longer ones build without
   complaint, up to the 65493 characters their length field allows, and are lost.
   */
  lemma StreamRoundTrip(reports: seq<Report>, chunks: seq<seq<byte>>)
    requires AllBuilt(reports) && Flatten(chunks) == Wire(reports)
    ensures CarriesAll(Telemetries(RunChunks(FRESH, chunks).events), reports) <==>
            forall i :: 0 <= i < |reports| ==> |reports[i].drone_id| <= 214
    ensures (forall i :: 0 <= i < |reports| ==> |reports[i].drone_id| <= 214) ==>
            Failures(RunChunks(FRESH, chunks).events) == 0 && RunChunks(FRESH, chunks).final.bytes == []
  {
    hide RunChunks, BuildPacket, IsAscii, Parse, Carries;
    BuiltIsAscii(reports);
    SessionIsScan(chunks);
    var ts := Telemetries(RunChunks(FRESH, chunks).events);
    if forall i :: 0 <= i < |reports| ==> |reports[i].drone_id| <= MAX_ID {
      WireIsEmitted(reports);
      CarriesAllExactly(ts, reports);
    } else if CarriesAll(ts, reports) {
      var i :| 0 <= i < |reports| && |reports[i].drone_id| > MAX_ID;
      CarriesAllExactly(ts, reports);
      EmittedIdsAreShort(Wire(reports), i);
    }
  }

  // ----- two valid frames that are not reported -----

  /**
   A frame whose payload is itself a packet: the checksum is right, so the whole is taken, its payload is malformed,
   and the valid packet inside is skipped.
   */
  lemma NestedPacketSkipped(r: Report)
    requires BuildPacket(r, false).Ok? && LegalLength(|BuildPacket(r, false).value|)
    ensures var inner := BuildPacket(r, false).value;
            && FrameAt(Frame(inner)[4..])
            && Parse(Frame(inner)) == Scan([Malformed(inner)], [])
  {
    hide Crc16, FrameWith, Serialize, Headed, FrameAt, Frame, HeaderAt, BuildPacket;
    var inner := BuildPacket(r, false).value;
    PacketIsFrame(r);
    var payload := Serialize(TelemetryOf(r));
    var crc := Crc16(Headed(inner));
    FrameIsTaken(inner, []);
    assert Frame(inner) + [] == Frame(inner);
    EmptyScan();
    PacketIsNoPayload(payload);
    assert [Malformed(inner)] + [] == [Malformed(inner)];
    InnerFrame(payload);
  }

  lemma PacketIsNoPayload(payload: seq<byte>)
    requires |payload| < 0x1_0000 && |Frame(payload)| <= MAX_PAYLOAD_SIZE
    ensures Taken(Frame(payload)) == Malformed(Frame(payload))
  {
    hide Crc16, FrameWith, Deserialize;
    var f := Frame(payload);
    FrameFields(payload, Crc16(Headed(payload)), []);
    assert f + [] == f;
    HeaderAsIdLength(f);
  }

  lemma HeaderAsIdLength(f: seq<byte>)
    requires HeaderAt(f) && |f| <= MAX_PAYLOAD_SIZE
    ensures Deserialize(f) == None
  {
  }

  /** The bytes of a framed packet from offset 4 on begin with that packet. */
  lemma InnerFrame(payload: seq<byte>)
    requires LegalLength(|payload|) && |Frame(payload)| <= MAX_PAYLOAD_SIZE
    ensures FrameAt(Frame(Frame(payload))[4..])
  {
    hide Crc16, FrameWith, Headed, HeaderAt, ChecksumAt, Frame;
    var inner := Frame(payload);
    assert Frame(inner)[4..] == inner + EncodeWord16(Crc16(Headed(inner))) by { OuterTail(inner); }
    FrameIsTakenAt(payload, EncodeWord16(Crc16(Headed(inner))));
  }

  lemma OuterTail(inner: seq<byte>)
    requires |inner| < 0x1_0000
    ensures Frame(inner)[4..] == inner + EncodeWord16(Crc16(Headed(inner)))
  {
    hide Crc16, EncodeWord16, Encode16;
  }

  lemma FrameIsTakenAt(payload: seq<byte>, more: seq<byte>)
    requires LegalLength(|payload|)
    ensures FrameAt(Frame(payload) + more)
  {
    hide Decide, FrameAt, Frame;
    FrameIsTaken(payload, more);
    DecisionAtFrame(Frame(payload) + more);
  }

  /**
   Four bytes that look like the start of a longest frame hold up every packet behind them until 262 bytes have
   arrived, although each of those packets is complete.
   */
  lemma StalledPackets(wire: seq<byte>)
    requires |wire| < 258
    ensures var s := [0xAA, 0x55, 0x01, 0x00] + wire; Parse(s) == Scan([], s)
  {
    hide ChecksumAt;
    var s := [0xAA, 0x55, 0x01, 0x00] + wire;
    assert s[0] == 0xAA && s[1] == 0x55 && s[2] == 0x01 && s[3] == 0x00;
  }

  lemma DroppedByte(s: seq<byte>, e: Event)
    requires Decide(s) == Some(e) && e.Size() == 1
    ensures Parse(s).events == [e] + Parse(s[1..]).events
  {
    hide Decide;
  }

  lemma HeadBytes(payload: seq<byte>, crc: bv16, more: seq<byte>)
    requires 2 <= |payload| < 0x1_0000 && payload[..2] == Encode16(PACKET_HEADER)
    ensures var s := FrameWith(payload, crc) + more;
            && |s| >= 8 && s[0] == 0xAA && s[1] == 0x55 && s[4] == 0xAA && s[5] == 0x55
            && [s[2], s[3]] == Encode16(|payload|)
  {
    hide EncodeWord16;
    var s := FrameWith(payload, crc) + more;
    var header, length := Encode16(PACKET_HEADER), Encode16(|payload|);
    assert s[0] == header[0] && s[1] == header[1] && s[2] == length[0] && s[3] == length[1];
    assert s[4] == payload[..2][0] && s[5] == payload[..2][1];
  }

  /** At the three bytes behind the front of such a frame no header begins, because its length is small. */
  lemma NoHeaderBehindHeader(payload: seq<byte>, crc: bv16, more: seq<byte>)
    requires 2 <= |payload| <= MAX_PAYLOAD_SIZE && payload[..2] == Encode16(PACKET_HEADER)
    ensures var s := FrameWith(payload, crc) + more;
            && |s| >= 8
            && Decide(s[1..]) == Some(Garbage) && Decide(s[2..]) == Some(Garbage) && Decide(s[3..]) == Some(Garbage)
  {
    hide FrameWith, ChecksumAt, Taken;
    HeadBytes(payload, crc, more);
  }

  lemma FrameBeginsWithHeader(payload: seq<byte>)
    requires |payload| < 0x1_0000
    ensures Frame(payload)[..2] == Encode16(PACKET_HEADER)
  {
    hide EncodeWord16, Encode16, Crc16;
  }

  lemma WrongChecksumRejected(payload: seq<byte>, crc: bv16, more: seq<byte>)
    requires LegalLength(|payload|) && crc != Crc16(Headed(payload))
    ensures Decide(FrameWith(payload, crc) + more) == Some(BadCrc)
  {
    hide Crc16, FrameWith, HeaderAt, Headed, ChecksumAt;
    FrameFields(payload, crc, more);
    ChecksumOfFrame(payload, crc, more);
  }

  lemma PayloadAndBehind(payload: seq<byte>, crc: bv16, more: seq<byte>)
    requires |payload| < 0x1_0000
    ensures (FrameWith(payload, crc) + more)[4..] == payload + (EncodeWord16(crc) + more)
  {
    hide EncodeWord16, Encode16;
  }

  /** The events of a rejected frame around a frame around a packet: the one in the middle is taken as a whole. */
  lemma EventsOfRejectedNest(inner: seq<byte>, crc: bv16, more: seq<byte>)
    requires LegalLength(|inner|) && LegalLength(|Frame(inner)|) && crc != Crc16(Headed(Frame(inner)))
    ensures var events := Parse(FrameWith(Frame(inner), crc) + more).events;
            [BadCrc, Garbage, Garbage, Garbage, Taken(inner)] <= events
  {
    hide Decide, Parse, Frame, FrameWith, Taken;
    var s := FrameWith(Frame(inner), crc) + more;
    WrongChecksumRejected(Frame(inner), crc, more);
    FrameBeginsWithHeader(inner);
    NoHeaderBehindHeader(Frame(inner), crc, more);
    DroppedByte(s, BadCrc);
    assert s[1..][1..] == s[2..] && s[2..][1..] == s[3..] && s[3..][1..] == s[4..];
    DroppedByte(s[1..], Garbage);
    DroppedByte(s[2..], Garbage);
    DroppedByte(s[3..], Garbage);
    PayloadAndBehind(Frame(inner), crc, more);
    FrameIsTaken(inner, EncodeWord16(crc) + more);
  }

  lemma FifthEvent(events: seq<Event>, e: Event)
    requires [BadCrc, Garbage, Garbage, Garbage, e] <= events
    ensures Offset(events, 4) == 4 && events[4] == e
  {
    var front := [BadCrc, Garbage, Garbage, Garbage];
    assert events[..4] == front;
    assert front[1..] == [Garbage, Garbage, Garbage] && front[1..][1..] == [Garbage, Garbage];
    assert front[1..][1..][1..] == [Garbage] && front[1..][1..][1..][1..] == [];
  }

  /**
   A frame whose checksum is wrong, around a frame whose checksum is right, around a packet: the scan goes back into
   the rejected frame, takes the one in the middle, and the valid packet, which begins within the payload of the
   rejected frame, is not reported, whatever follows.
   */
  lemma RejectedNestSkipped(payload: seq<byte>, crc: bv16, more: seq<byte>)
    requires LegalLength(|payload|) && |Frame(Frame(payload))| <= MAX_PAYLOAD_SIZE
    requires crc != Crc16(Headed(Frame(Frame(payload))))
    ensures var s := FrameWith(Frame(Frame(payload)), crc) + more;
            && Decide(s) == Some(BadCrc)
            && |s| > 8 && FrameAt(s[8..]) && !TakesFrameAt(s, 8)
  {
    hide Decide, Parse, Frame, FrameWith, FrameAt, Offset, Taken, Crc16, Headed;
    var inner := Frame(payload);
    var s := FrameWith(Frame(inner), crc) + more;
    WrongChecksumRejected(Frame(inner), crc, more);
    EventsOfRejectedNest(inner, crc, more);
    FifthEvent(Parse(s).events, Taken(inner));
    PayloadAndBehind(Frame(inner), crc, more);
    OuterTail(inner);
    var behind := EncodeWord16(Crc16(Headed(inner))) + (EncodeWord16(crc) + more);
    assert s[4..][4..] == s[8..];
    assert (Frame(inner) + (EncodeWord16(crc) + more))[4..] == Frame(inner)[4..] + (EncodeWord16(crc) + more);
    assert s[8..] == inner + behind;
    FrameIsTakenAt(payload, behind);
    assert InsideTakenFrame(s, 8) by { assert Taken(inner).Size() == |inner| + 6; }
    if TakesFrameAt(s, 8) {
      TakenNotInside(s, 8);
    }
  }
}
