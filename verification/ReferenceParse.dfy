/**
 The reference: a stateless scan of a whole byte stream from left to right. At every position it stops, drops one
 byte, or takes a frame.
 */
module ReferenceParse {
  import opened Bytes
  import opened Crc
  import opened Codec
  import opened Sequences
  import opened Wrappers

  /** What happens to the bytes at the front of a stream. */
  datatype Event =
    | Garbage                                              // one byte dropped: no header, or no legal length behind it
    | BadCrc                                               // one byte dropped: a complete frame with a wrong checksum
    | Malformed(payload: seq<byte>)                        // a frame taken whose payload does not decode
    | Emitted(payload: seq<byte>, telemetry: Telemetry)    // a frame taken and decoded
  {
    function Size(): (n: nat)
      ensures n > 0
    {
      match this
      case Garbage => 1
      case BadCrc => 1
      case Malformed(p) => |p| + 6
      case Emitted(p, t) => |p| + 6
    }

    predicate Takes() {
      Malformed? || Emitted?
    }

    predicate Fails() {
      BadCrc? || Malformed?
    }
  }

  predicate HeaderAt(s: seq<byte>) {
    |s| >= 2 && BigEndian16(s[0], s[1]) == PACKET_HEADER
  }

  function LengthAt(s: seq<byte>): nat
    requires |s| >= 4
  {
    BigEndian16(s[2], s[3])
  }

  predicate LegalLength(n: nat) {
    0 < n <= MAX_PAYLOAD_SIZE
  }

  /** The checksum a complete frame at the front of `s` carries is the one its other bytes have. */
  predicate ChecksumAt(s: seq<byte>)
    requires |s| >= 4 && |s| >= LengthAt(s) + 6
  {
    var n := LengthAt(s) + 4;
    Word16(s[n], s[n + 1]) == Crc16(s[..n])
  }

  function PayloadAt(s: seq<byte>): (p: seq<byte>)
    requires |s| >= 4 && |s| >= LengthAt(s) + 6
    ensures |p| == LengthAt(s)
  {
    s[4..4 + LengthAt(s)]
  }

  /** A complete valid frame stands at the front of `s`. */
  predicate FrameAt(s: seq<byte>) {
    HeaderAt(s) && |s| >= 4 && LegalLength(LengthAt(s)) && |s| >= LengthAt(s) + 6 && ChecksumAt(s)
  }

  function Taken(payload: seq<byte>): (e: Event)
    ensures e.Takes() && e.payload == payload
  {
    match Deserialize(payload)
    case None => Malformed(payload)
    case Some(t) => Emitted(payload, t)
  }

  /** The decision at the front of a stream, if the bytes there suffice for one. */
  function Decide(s: seq<byte>): (d: Option<Event>)
    ensures d.Some? ==> d.value.Size() <= |s|
  {
    if |s| < 2 then None
    else if !HeaderAt(s) then Some(Garbage)
    else if |s| < 4 then None
    else if !LegalLength(LengthAt(s)) then Some(Garbage)
    else if |s| < LengthAt(s) + 6 then None
    else if !ChecksumAt(s) then Some(BadCrc)
    else Some(Taken(PayloadAt(s)))
  }

  /** The events of a scan, and the bytes it leaves undecided. */
  datatype Scan = Scan(events: seq<Event>, rest: seq<byte>)

  function Parse(s: seq<byte>): Scan
    decreases |s|
  {
    match Decide(s)
    case None => Scan([], s)
    case Some(e) =>
      var later := Parse(s[e.Size()..]);
      Scan([e] + later.events, later.rest)
  }

  lemma EmptyScan()
    ensures Parse([]) == Scan([], [])
  {
  }

  // ----- chunking -----

  /** More bytes do not change a decision that has been made. */
  lemma DecideStable(s: seq<byte>, more: seq<byte>)
    requires Decide(s).Some?
    ensures Decide(s + more) == Decide(s)
  {
    hide Word16, BigEndian16, Deserialize, Crc16;
    var t := s + more;
    assert t[0] == s[0] && t[1] == s[1];
    if HeaderAt(s) {
      assert t[2] == s[2] && t[3] == s[3];
      if LegalLength(LengthAt(s)) {
        var n := LengthAt(s) + 4;
        assert t[..n] == s[..n] && t[n] == s[n] && t[n + 1] == s[n + 1];
        assert t[4..n] == s[4..n];
      }
    }
  }

  /** Parsing a stream is parsing its beginning, and then what that leaves together with the continuation. */
  lemma {:induction false} ParseResumes(s: seq<byte>, more: seq<byte>)
    ensures Parse(s + more) ==
            var first := Parse(s);
            var second := Parse(first.rest + more);
            Scan(first.events + second.events, second.rest)
    decreases |s|
  {
    hide Decide;
    match Decide(s)
    case None =>
      assert Parse(s).events + Parse(s + more).events == Parse(s + more).events;
    case Some(e) =>
      DecideStable(s, more);
      var n := e.Size();
      assert (s + more)[n..] == s[n..] + more;
      ParseResumes(s[n..], more);
      var first, second := Parse(s[n..]), Parse(Parse(s[n..]).rest + more);
      assert [e] + (first.events + second.events) == [e] + first.events + second.events;
  }

  /** The stateful discipline: keep what is undecided, append the next chunk, parse. */
  function ParseChunks(pending: seq<byte>, chunks: seq<seq<byte>>): Scan
    decreases |chunks|
  {
    if |chunks| == 0 then Scan([], pending)
    else
      var now := Parse(pending + chunks[0]);
      var later := ParseChunks(now.rest, chunks[1..]);
      Scan(now.events + later.events, later.rest)
  }

  /** However a stream is cut into chunks, the scan of the chunks is the scan of the stream. */
  lemma {:induction false} ChunkingIrrelevant(pending: seq<byte>, chunks: seq<seq<byte>>)
    requires Decide(pending).None?
    ensures ParseChunks(pending, chunks) == Parse(pending + Flatten(chunks))
    decreases |chunks|
  {
    hide Decide;
    if |chunks| == 0 {
      assert pending + [] == pending;
    } else {
      var now := Parse(pending + chunks[0]);
      ParseStops(pending + chunks[0]);
      ChunkingIrrelevant(now.rest, chunks[1..]);
      ParseResumes(pending + chunks[0], Flatten(chunks[1..]));
      assert pending + chunks[0] + Flatten(chunks[1..]) == pending + Flatten(chunks);
    }
  }

  lemma {:induction false} ParseStops(s: seq<byte>)
    ensures Decide(Parse(s).rest).None?
    ensures |Parse(s).rest| <= |s|
    decreases |s|
  {
    hide Decide;
    if Decide(s).Some? {
      ParseStops(s[Decide(s).value.Size()..]);
    }
  }

  /** What is left undecided is shorter than the longest frame. */
  lemma LeftoverBound(s: seq<byte>)
    ensures |Parse(s).rest| <= 261
  {
    hide ChecksumAt, HeaderAt;
    ParseStops(s);
  }

  // ----- counting, and the conservation of bytes -----

  function TotalSize(events: seq<Event>): nat
    decreases |events|
  {
    if |events| == 0 then 0 else events[0].Size() + TotalSize(events[1..])
  }

  /** How often each kind of event occurs, and the bytes that frames took up. */
  datatype Tally = Tally(garbage: nat, badCrc: nat, malformed: nat, emitted: nat, framed: nat)
  {
    function Add(e: Event): Tally {
      match e
      case Garbage => this.(garbage := garbage + 1)
      case BadCrc => this.(badCrc := badCrc + 1)
      case Malformed(_) => this.(malformed := malformed + 1, framed := framed + e.Size())
      case Emitted(_, _) => this.(emitted := emitted + 1, framed := framed + e.Size())
    }
  }

  function TallyOf(events: seq<Event>): Tally
    decreases |events|
  {
    if |events| == 0 then Tally(0, 0, 0, 0, 0) else TallyOf(events[1..]).Add(events[0])
  }

  /** The number of events the parser counts as checksum failures. */
  function Failures(events: seq<Event>): nat
    decreases |events|
  {
    if |events| == 0 then 0 else (if events[0].Fails() then 1 else 0) + Failures(events[1..])
  }

  /** The telemetry the events emit, in order. */
  function Telemetries(events: seq<Event>): (ts: seq<Telemetry>)
    decreases |events|
  {
    if |events| == 0 then [] else Output(events[0]) + Telemetries(events[1..])
  }

  function Output(e: Event): seq<Telemetry> {
    if e.Emitted? then [e.telemetry] else []
  }

  lemma {:induction false} TelemetriesConcat(a: seq<Event>, b: seq<Event>)
    ensures Telemetries(a + b) == Telemetries(a) + Telemetries(b)
    decreases |a|
  {
    hide Output;
    if |a| == 0 {
      assert a + b == b;
    } else {
      assert (a + b)[1..] == a[1..] + b;
      TelemetriesConcat(a[1..], b);
    }
  }

  lemma {:induction false} FailuresConcat(a: seq<Event>, b: seq<Event>)
    ensures Failures(a + b) == Failures(a) + Failures(b)
    decreases |a|
  {
    if |a| == 0 {
      assert a + b == b;
    } else {
      assert (a + b)[1..] == a[1..] + b;
      FailuresConcat(a[1..], b);
    }
  }

  lemma {:induction false} TotalSizeConcat(a: seq<Event>, b: seq<Event>)
    ensures TotalSize(a + b) == TotalSize(a) + TotalSize(b)
    decreases |a|
  {
    if |a| == 0 {
      assert a + b == b;
    } else {
      assert (a + b)[1..] == a[1..] + b;
      TotalSizeConcat(a[1..], b);
    }
  }

  /**
   Every byte of a stream is a dropped byte, part of a taken frame, or left over. A frame that decodes has at least
   48 bytes and one that does not at least 7, so the counts bound each other.
   */
  lemma {:induction false} BytesConserved(s: seq<byte>)
    ensures var r, n := Parse(s), TallyOf(Parse(s).events);
            && n.garbage + n.badCrc + n.framed + |r.rest| == |s|
            && n.framed >= 48 * n.emitted + 7 * n.malformed
            && Failures(r.events) == n.badCrc + n.malformed
            && |Telemetries(r.events)| == n.emitted
    decreases |s|
  {
    hide Word16, BigEndian16, Crc16, ChecksumAt;
    if Decide(s).Some? {
      var e := Decide(s).value;
      BytesConserved(s[e.Size()..]);
      assert Parse(s).events[1..] == Parse(s[e.Size()..]).events;
    }
  }

  // ----- which frames are taken -----

  /** The position in the stream at which event `i` was decided. */
  function Offset(events: seq<Event>, i: nat): nat
    requires i <= |events|
  {
    TotalSize(events[..i])
  }

  /** Event `i` is what the scan decides at its offset, and the scan of what lies behind it yields the later events. */
  lemma {:induction false} ScanFromEvent(s: seq<byte>, i: nat)
    requires i <= |Parse(s).events|
    ensures var r := Parse(s);
            && Offset(r.events, i) <= |s|
            && Parse(s[Offset(r.events, i)..]) == Scan(r.events[i..], r.rest)
    decreases i
  {
    hide Decide;
    var r := Parse(s);
    if i == 0 {
      assert r.events[..0] == [];
      assert s[0..] == s;
    } else {
      var n := Decide(s).value.Size();
      var later := Parse(s[n..]);
      ScanFromEvent(s[n..], i - 1);
      assert r.events[1..] == later.events;
      assert r.events[..i][1..] == later.events[..i - 1];
      assert s[n..][Offset(later.events, i - 1)..] == s[Offset(r.events, i)..];
    }
  }

  lemma EventDecided(s: seq<byte>, i: nat)
    requires i < |Parse(s).events|
    ensures Offset(Parse(s).events, i) <= |s|
    ensures Decide(s[Offset(Parse(s).events, i)..]) == Some(Parse(s).events[i])
  {
    hide Decide;
    ScanFromEvent(s, i);
  }

  /** The scan takes a frame at `k`. */
  ghost predicate TakesFrameAt(s: seq<byte>, k: nat) {
    exists i :: 0 <= i < |Parse(s).events| && Parse(s).events[i].Takes() && Offset(Parse(s).events, i) == k
  }

  /** Position `k` lies strictly inside a frame the scan takes. */
  ghost predicate InsideTakenFrame(s: seq<byte>, k: nat) {
    exists i :: 0 <= i < |Parse(s).events| && Parse(s).events[i].Takes() &&
      Offset(Parse(s).events, i) < k < Offset(Parse(s).events, i) + Parse(s).events[i].Size()
  }

  /** The events tile the decided part of the stream: each position in it belongs to exactly one of them. */
  lemma {:induction false} EventCovering(events: seq<Event>, k: nat) returns (i: nat)
    requires k < TotalSize(events)
    ensures i < |events| && Offset(events, i) <= k < Offset(events, i) + events[i].Size()
    decreases |events|
  {
    if k < events[0].Size() {
      i := 0;
      assert events[..0] == [];
    } else {
      var j := EventCovering(events[1..], k - events[0].Size());
      i := j + 1;
      assert events[..i][1..] == events[1..][..j];
    }
  }

  lemma {:induction false} OffsetsIncrease(events: seq<Event>, i: nat, j: nat)
    requires i < j <= |events|
    ensures Offset(events, i) + events[i].Size() <= Offset(events, j)
    decreases j
  {
    assert events[..j] == events[..j - 1] + [events[j - 1]];
    TotalSizeConcat(events[..j - 1], [events[j - 1]]);
    assert TotalSize([events[j - 1]]) == events[j - 1].Size() by { assert [events[j - 1]][1..] == []; }
    if i < j - 1 {
      OffsetsIncrease(events, i, j - 1);
    }
  }

  lemma DecidedPart(s: seq<byte>)
    ensures TotalSize(Parse(s).events) + |Parse(s).rest| == |s|
  {
    var r := Parse(s);
    ScanFromEvent(s, |r.events|);
    assert r.events[..|r.events|] == r.events;
    assert Parse(s[TotalSize(r.events)..]).events == [];
    NothingDecided(s[TotalSize(r.events)..]);
  }

  lemma NothingDecided(s: seq<byte>)
    requires Parse(s).events == []
    ensures Parse(s).rest == s
  {
    hide Decide;
  }

  lemma TakenNotInside(s: seq<byte>, k: nat)
    requires TakesFrameAt(s, k)
    ensures k <= |s| && FrameAt(s[k..]) && !InsideTakenFrame(s, k)
  {
    hide Decide, FrameAt, Offset;
    var events := Parse(s).events;
    var j :| 0 <= j < |events| && events[j].Takes() && Offset(events, j) == k;
    EventDecided(s, j);
    DecisionAtFrame(s[k..]);
    if InsideTakenFrame(s, k) {
      var m :| 0 <= m < |events| && events[m].Takes() && Offset(events, m) < k < Offset(events, m) + events[m].Size();
      if m < j {
        OffsetsIncrease(events, m, j);
      } else if j < m {
        OffsetsIncrease(events, j, m);
      }
    }
  }

  /**
   At a decided position a frame is taken exactly when a complete valid frame stands there and the position is not
   strictly inside a frame taken earlier.
   */
  lemma FramesTakenExactly(s: seq<byte>, k: nat)
    requires k < |s| - |Parse(s).rest|
    ensures TakesFrameAt(s, k) <==> FrameAt(s[k..]) && !InsideTakenFrame(s, k)
  {
    hide Decide, FrameAt, Offset;
    var events := Parse(s).events;
    DecidedPart(s);
    var i := EventCovering(events, k);
    EventDecided(s, i);
    DecisionAtFrame(s[Offset(events, i)..]);
    if TakesFrameAt(s, k) {
      TakenNotInside(s, k);
    }
  }

  lemma DecisionAtFrame(s: seq<byte>)
    ensures Decide(s).Some? ==> (Decide(s).value.Takes() <==> FrameAt(s))
    ensures Decide(s).Some? && !Decide(s).value.Takes() ==> Decide(s).value.Size() == 1
    ensures FrameAt(s) ==> Decide(s) == Some(Taken(PayloadAt(s)))
  {
  }

  lemma EventEndsInDecidedPart(s: seq<byte>, i: nat)
    requires i < |Parse(s).events|
    ensures Offset(Parse(s).events, i) + Parse(s).events[i].Size() <= |s| - |Parse(s).rest|
  {
    hide Decide;
    var events := Parse(s).events;
    OffsetsIncrease(events, i, |events|);
    assert events[..|events|] == events;
    DecidedPart(s);
  }

  /**
   A complete valid frame has been taken, or lies inside a valid frame taken before, exactly when the leftover of the
   scan is shorter than what the stream holds from the frame on: only an unfinished frame that begins earlier delays it.
   */
  lemma FrameReportedExactly(s: seq<byte>, k: nat)
    requires k <= |s| && FrameAt(s[k..])
    ensures TakesFrameAt(s, k) || InsideTakenFrame(s, k) <==> |Parse(s).rest| < |s| - k
  {
    hide FrameAt, Decide, Offset;
    var events := Parse(s).events;
    if |Parse(s).rest| < |s| - k {
      FramesTakenExactly(s, k);
    } else if TakesFrameAt(s, k) {
      var i :| 0 <= i < |events| && events[i].Takes() && Offset(events, i) == k;
      EventEndsInDecidedPart(s, i);
    } else if InsideTakenFrame(s, k) {
      var i :| 0 <= i < |events| && events[i].Takes() && Offset(events, i) < k < Offset(events, i) + events[i].Size();
      EventEndsInDecidedPart(s, i);
    }
  }

  /**
   Nothing valid is skipped: once 262 bytes from `k` on have arrived, a valid frame at `k` has been taken there or
   lies inside a valid frame taken before, whatever surrounds it.
   */
  lemma NoFrameSkipped(s: seq<byte>, k: nat)
    requires k + 262 <= |s| && FrameAt(s[k..])
    ensures TakesFrameAt(s, k) || InsideTakenFrame(s, k)
  {
    hide FrameAt, Decide, Parse, TakesFrameAt, InsideTakenFrame;
    LeftoverBound(s);
    FrameReportedExactly(s, k);
  }

  /** Whatever the scan takes is a valid frame, and no two of them overlap. */
  lemma TakenFramesValidAndDisjoint(s: seq<byte>, i: nat, j: nat)
    requires i < j < |Parse(s).events| && Parse(s).events[i].Takes() && Parse(s).events[j].Takes()
    ensures var events := Parse(s).events;
            && Offset(events, i) + events[i].Size() <= Offset(events, j) <= |s|
            && FrameAt(s[Offset(events, i)..]) && events[i] == Taken(PayloadAt(s[Offset(events, i)..]))
            && FrameAt(s[Offset(events, j)..]) && events[j] == Taken(PayloadAt(s[Offset(events, j)..]))
  {
    hide FrameAt, Decide, Taken;
    var events := Parse(s).events;
    EventDecided(s, i);
    EventDecided(s, j);
    DecisionAtFrame(s[Offset(events, i)..]);
    DecisionAtFrame(s[Offset(events, j)..]);
    OffsetsIncrease(events, i, j);
  }
}
