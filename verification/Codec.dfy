/**
 The wire format: the sender's encoder, which may refuse a report, and the receiver's decoder, which may find a
 payload malformed. The four floating-point fields and the timestamp are 64-bit patterns.
 */
module Codec {
  import opened Bytes
  import opened Crc
  import opened Wrappers

  const PACKET_HEADER: nat := 0xAA55
  const HEADER_SIZE: nat := 2
  const LENGTH_SIZE: nat := 2
  const CRC_SIZE: nat := 2
  const MAX_PAYLOAD_SIZE: nat := 256

  /** The size of a payload with an empty drone id. */
  const FIXED_PAYLOAD: nat := 42

  datatype Telemetry = Telemetry(
    drone_id: seq<byte>,
    latitude: bv64,
    longitude: bv64,
    altitude: bv64,
    speed: bv64,
    timestamp: bv64)

  // ----- the receiver -----

  /** The five fixed fields, at `offset` in the payload. */
  function FixedFields(id: seq<byte>, p: seq<byte>, offset: nat): Telemetry
    requires offset + 40 <= |p|
  {
    Telemetry(id,
              Word64(p[offset..offset + 8]),
              Word64(p[offset + 8..offset + 16]),
              Word64(p[offset + 16..offset + 24]),
              Word64(p[offset + 24..offset + 32]),
              Word64(p[offset + 32..offset + 40]))
  }

  function Deserialize(p: seq<byte>): Option<Telemetry> {
    if |p| < 2 then None
    else
      var idLen := BigEndian16(p[0], p[1]);
      if |p| < FIXED_PAYLOAD + idLen then None
      else Some(FixedFields(p[2..2 + idLen], p, 2 + idLen))
  }

  /** Read a two-byte field and advance, unless fewer than two bytes are left. */
  method ReadField16(data: seq<byte>, len: nat, offset: nat) returns (ok: bool, field: nat, next: nat)
    requires len <= |data|
    ensures ok == (offset + 2 <= len)
    ensures ok ==> field == BigEndian16(data[offset], data[offset + 1]) && next == offset + 2
  {
    if offset + 2 > len {
      return false, 0, offset;
    }
    return true, BigEndian16(data[offset], data[offset + 1]), offset + 2;
  }

  /** Read an eight-byte field and advance, unless fewer than eight bytes are left. */
  method ReadField64(data: seq<byte>, len: nat, offset: nat) returns (ok: bool, field: bv64, next: nat)
    requires len <= |data|
    ensures ok == (offset + 8 <= len)
    ensures ok ==> field == Word64(data[offset..offset + 8]) && next == offset + 8
  {
    if offset + 8 > len {
      return false, 0, offset;
    }
    return true, Word64(data[offset..offset + 8]), offset + 8;
  }

  /** Decode the first `len` bytes of `data` field by field. */
  method DeserializePayload(data: seq<byte>, len: nat) returns (telemetry: Option<Telemetry>)
    requires len <= |data|
    ensures telemetry == Deserialize(data[..len])
  {
    hide Word64;
    var offset := 0;
    var ok, idLen;
    ok, idLen, offset := ReadField16(data, len, offset);
    if !ok {
      return None;
    }
    if offset + idLen > len {
      return None;
    }
    var droneId := data[offset..offset + idLen];
    offset := offset + idLen;
    ghost var fixed := offset;
    var latitude, longitude, altitude, speed, timestamp;
    ok, latitude, offset := ReadField64(data, len, offset);
    if !ok { return None; }
    ok, longitude, offset := ReadField64(data, len, offset);
    if !ok { return None; }
    ok, altitude, offset := ReadField64(data, len, offset);
    if !ok { return None; }
    ok, speed, offset := ReadField64(data, len, offset);
    if !ok { return None; }
    ok, timestamp, offset := ReadField64(data, len, offset);
    if !ok { return None; }
    assert data[..len][2..2 + idLen] == droneId;
    assert forall k {:trigger data[..len][k..k + 8]} :: fixed <= k && k + 8 <= len ==>
      data[..len][k..k + 8] == data[k..k + 8];
    return Some(Telemetry(droneId, latitude, longitude, altitude, speed, timestamp));
  }

  // ----- the sender -----

  function FixedPart(t: Telemetry): (p: seq<byte>)
    ensures |p| == 40
  {
    EncodeWord64(t.latitude) +
      (EncodeWord64(t.longitude) + (EncodeWord64(t.altitude) + (EncodeWord64(t.speed) + EncodeWord64(t.timestamp))))
  }

  function Serialize(t: Telemetry): (p: seq<byte>)
    requires |t.drone_id| < 0x1_0000
    ensures |p| == FIXED_PAYLOAD + |t.drone_id|
  {
    Encode16(|t.drone_id|) + (t.drone_id + FixedPart(t))
  }

  /** What the sender's script is given: the drone id is text. */
  datatype Report = Report(
    drone_id: string,
    latitude: bv64,
    longitude: bv64,
    altitude: bv64,
    speed: bv64,
    timestamp: bv64)

  /** The exceptions the script raises on an id it cannot encode, or cannot state the length of. */
  datatype PackError = UnicodeEncodeError | StructError

  predicate IsAscii(id: string) {
    forall i :: 0 <= i < |id| ==> id[i] as int < 128
  }

  function AsciiBytes(id: string): (b: seq<byte>)
    requires IsAscii(id)
    ensures |b| == |id|
  {
    seq(|id|, i requires 0 <= i < |id| => id[i] as int as byte)
  }

  /** What the receiver should make of a report. */
  function TelemetryOf(r: Report): (t: Telemetry)
    requires IsAscii(r.drone_id)
    ensures |t.drone_id| == |r.drone_id|
  {
    Telemetry(AsciiBytes(r.drone_id), r.latitude, r.longitude, r.altitude, r.speed, r.timestamp)
  }

  function SerializePayload(r: Report): Result<seq<byte>, PackError> {
    if !IsAscii(r.drone_id) then Err(UnicodeEncodeError)
    else if |r.drone_id| >= 0x1_0000 then Err(StructError)
    else Ok(Serialize(TelemetryOf(r)))
  }

  /** A payload behind its header and length, before the checksum. */
  function Headed(payload: seq<byte>): (raw: seq<byte>)
    requires |payload| < 0x1_0000
    ensures |raw| == 4 + |payload|
  {
    Encode16(PACKET_HEADER) + Encode16(|payload|) + payload
  }

  /** A payload framed with a given checksum. */
  function FrameWith(payload: seq<byte>, crc: bv16): (frame: seq<byte>)
    requires |payload| < 0x1_0000
    ensures |frame| == 6 + |payload|
  {
    Headed(payload) + EncodeWord16(crc)
  }

  function Frame(payload: seq<byte>): (frame: seq<byte>)
    requires |payload| < 0x1_0000
    ensures |frame| == 6 + |payload|
  {
    FrameWith(payload, Crc16(Headed(payload)))
  }

  /** What the script flips in the checksum of a packet it corrupts on purpose. */
  const CORRUPTION: bv16 := 0xBEEF

  function SentChecksum(crc: bv16, corruptCrc: bool): bv16 {
    if corruptCrc then crc ^ CORRUPTION else crc
  }

  function BuildPacket(r: Report, corruptCrc: bool): Result<seq<byte>, PackError> {
    match SerializePayload(r)
    case Err(e) => Err(e)
    case Ok(payload) =>
      if |payload| >= 0x1_0000 then Err(StructError)
      else
        var crc := Crc16(Headed(payload));
        Ok(FrameWith(payload, SentChecksum(crc, corruptCrc)))
  }

  // ----- decoding inverts encoding, exactly -----

  lemma Word64Roundtrips(t: Telemetry)
    ensures Word64(EncodeWord64(t.latitude)) == t.latitude && Word64(EncodeWord64(t.longitude)) == t.longitude
    ensures Word64(EncodeWord64(t.altitude)) == t.altitude && Word64(EncodeWord64(t.speed)) == t.speed
    ensures Word64(EncodeWord64(t.timestamp)) == t.timestamp
  {
    Word64OfEncoded(t.latitude);
    Word64OfEncoded(t.longitude);
    Word64OfEncoded(t.altitude);
    Word64OfEncoded(t.speed);
    Word64OfEncoded(t.timestamp);
  }

  /** A prefix of what lies behind offset `k` is a field there followed by a prefix of what lies behind the field. */
  lemma FieldAt(p: seq<byte>, k: nat, field: seq<byte>, rest: seq<byte>)
    requires k <= |p|
    ensures field + rest <= p[k..] <==>
            k + |field| <= |p| && p[k..k + |field|] == field && rest <= p[k + |field|..]
  {
    if field + rest <= p[k..] {
      assert p[k..][..|field|] == field;
      assert p[k..][|field|..|field| + |rest|] == rest;
    }
  }

  lemma FixedFieldsAt(t: Telemetry, p: seq<byte>, k: nat)
    requires k <= |p|
    ensures FixedPart(t) <= p[k..] <==>
            && k + 40 <= |p|
            && p[k..k + 8] == EncodeWord64(t.latitude) && p[k + 8..k + 16] == EncodeWord64(t.longitude)
            && p[k + 16..k + 24] == EncodeWord64(t.altitude) && p[k + 24..k + 32] == EncodeWord64(t.speed)
            && p[k + 32..k + 40] == EncodeWord64(t.timestamp)
  {
    hide EncodeWord64;
    var lat, lon, alt, speed, time := EncodeWord64(t.latitude), EncodeWord64(t.longitude), EncodeWord64(t.altitude),
      EncodeWord64(t.speed), EncodeWord64(t.timestamp);
    FieldAt(p, k, lat, lon + (alt + (speed + time)));
    if k + 40 <= |p| {
      FieldAt(p, k + 8, lon, alt + (speed + time));
      FieldAt(p, k + 16, alt, speed + time);
      FieldAt(p, k + 24, speed, time);
      FieldAt(p, k + 32, time, []);
      assert time + [] == time;
    }
  }

  lemma SerializedFields(t: Telemetry, p: seq<byte>)
    requires |t.drone_id| < 0x1_0000
    ensures Serialize(t) <= p <==>
            var n := |t.drone_id|;
            && 2 + n <= |p| && p[..2] == Encode16(n) && p[2..2 + n] == t.drone_id && FixedPart(t) <= p[2 + n..]
  {
    hide FixedPart, Encode16;
    assert p[0..] == p;
    FieldAt(p, 0, Encode16(|t.drone_id|), t.drone_id + FixedPart(t));
    if 2 <= |p| {
      FieldAt(p, 2, t.drone_id, FixedPart(t));
    }
  }

  lemma DecodeOfEncoded(t: Telemetry, p: seq<byte>)
    requires |t.drone_id| < 0x1_0000 && Serialize(t) <= p
    ensures Deserialize(p) == Some(t)
  {
    hide EncodeWord64, Word64, Serialize, BigEndian16, Encode16, FixedPart;
    var n := |t.drone_id|;
    SerializedFields(t, p);
    FixedFieldsAt(t, p, 2 + n);
    assert p[0] == p[..2][0] && p[1] == p[..2][1];
    Word64Roundtrips(t);
  }

  lemma EncodeOfDecoded(p: seq<byte>)
    requires Deserialize(p).Some?
    ensures var t := Deserialize(p).value; |t.drone_id| < 0x1_0000 && Serialize(t) <= p
  {
    hide EncodeWord64, Word64, BigEndian16, Encode16, Serialize, FixedPart;
    var n, t := BigEndian16(p[0], p[1]), Deserialize(p).value;
    BigEndian16Injective(Encode16(n), p[..2]);
    EncodedOfWord64(p[2 + n..10 + n]);
    EncodedOfWord64(p[10 + n..18 + n]);
    EncodedOfWord64(p[18 + n..26 + n]);
    EncodedOfWord64(p[26 + n..34 + n]);
    EncodedOfWord64(p[34 + n..42 + n]);
    FixedFieldsAt(t, p, 2 + n);
    SerializedFields(t, p);
  }

  /** A payload decodes to `t` exactly when the encoding of `t` is a prefix of it; bytes behind that are ignored. */
  lemma DeserializeExact(p: seq<byte>, t: Telemetry)
    ensures Deserialize(p) == Some(t) <==> |t.drone_id| < 0x1_0000 && Serialize(t) <= p
  {
    hide EncodeWord64, Word64, Serialize, Deserialize;
    if Deserialize(p) == Some(t) {
      EncodeOfDecoded(p);
    } else if |t.drone_id| < 0x1_0000 && Serialize(t) <= p {
      DecodeOfEncoded(t, p);
    }
  }
}
