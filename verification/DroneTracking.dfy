/**
 The drone table: an entry per drone id holding its latest packet, a packet counter, threshold alerts, and reports of
 how many packets arrived since the last report. Clock readings, in nanoseconds, are inputs.
 */
module DroneTracking {
  import opened Bytes
  import opened Codec
  import opened Routing

  datatype Note =
    | LogicRunning
    | AltitudeAlert(id: seq<byte>, altitude: bv64)
    | SpeedAlert(id: seq<byte>, speed: bv64)
    | Throughput(interval: nat, total: nat, drones: nat)
    | LogicShuttingDown(total: nat, drones: nat)

  /** Five seconds. */
  const REPORT_INTERVAL: int := 5_000_000_000

  /** The patterns of 120.0, of 50.0 and of positive infinity. */
  const ALTITUDE_THRESHOLD: bv64 := 0x405E_0000_0000_0000
  const SPEED_THRESHOLD: bv64 := 0x4049_0000_0000_0000
  const INFINITY: bv64 := 0x7FF0_0000_0000_0000

  /**
   `>` against a positive threshold: positive patterns are ordered as their values, and above infinity is no number.
   */
  predicate Exceeds(pattern: bv64, threshold: bv64) {
    threshold < pattern <= INFINITY
  }

  /** What the tracker knows, and the notes it has logged. */
  datatype Tracker = Tracker(
    drones: map<seq<byte>, Telemetry>,
    processed: nat,
    atLastReport: nat,
    lastReport: int,
    notes: seq<Note>)
  {
    predicate Valid() {
      processed < COUNTER_RANGE && atLastReport < COUNTER_RANGE
    }

    function Say(more: seq<Note>): Tracker {
      this.(notes := notes + more)
    }

    /** The packets since the last report, in wrapping arithmetic. */
    function SinceLastReport(): nat {
      (processed - atLastReport) % COUNTER_RANGE
    }
  }

  function Alerts(t: Telemetry): seq<Note> {
    (if Exceeds(t.altitude, ALTITUDE_THRESHOLD) then [AltitudeAlert(t.drone_id, t.altitude)] else []) +
    (if Exceeds(t.speed, SPEED_THRESHOLD) then [SpeedAlert(t.drone_id, t.speed)] else [])
  }

  function Upsert(k: Tracker, t: Telemetry): Tracker {
    k.(drones := k.drones[t.drone_id := t], processed := (k.processed + 1) % COUNTER_RANGE)
  }

  function Reported(k: Tracker, now: int): Tracker {
    if now - k.lastReport < REPORT_INTERVAL then k
    else
      k.(lastReport := now, atLastReport := k.processed,
         notes := k.notes + [Throughput(k.SinceLastReport(), k.processed, |k.drones|)])
  }

  /** One packet, with the clock reading taken after it. */
  datatype Timed = Timed(packet: Telemetry, now: int)

  function Handle(k: Tracker, p: Timed): (k': Tracker)
    ensures k.Valid() ==> k'.Valid()
    ensures k.notes <= k'.notes
  {
    Reported(Upsert(k, p.packet).Say(Alerts(p.packet)), p.now)
  }

  function HandleAll(k: Tracker, ps: seq<Timed>): (k': Tracker)
    ensures k.Valid() ==> k'.Valid()
    decreases |ps|
  {
    if |ps| == 0 then k else Handle(HandleAll(k, ps[..|ps| - 1]), ps[|ps| - 1])
  }

  function Started(k: Tracker, now: int): Tracker {
    k.Say([LogicRunning]).(lastReport := now)
  }

  function RunTracker(k: Tracker, start: int, ps: seq<Timed>): Tracker {
    var done := HandleAll(Started(k, start), ps);
    done.Say([LogicShuttingDown(done.processed, |done.drones|)])
  }

  class BusinessLogic {
    var m_drones: map<seq<byte>, Telemetry>
    var m_packets_processed: nat
    var m_start_time: int
    var m_last_report_time: int
    var m_packets_at_last_report: nat
    var m_log_queue: seq<Note>

    ghost predicate Valid()
      reads this
    {
      View().Valid()
    }

    ghost function View(): Tracker
      reads this
    {
      Tracker(m_drones, m_packets_processed, m_packets_at_last_report, m_last_report_time, m_log_queue)
    }

    constructor ()
      ensures Valid() && View() == Tracker(map[], 0, 0, m_last_report_time, [])
    {
      m_drones, m_packets_processed, m_packets_at_last_report, m_log_queue := map[], 0, 0, [];
    }

    method ActiveDroneCount() returns (count: nat)
      ensures count == |View().drones|
    {
      return |m_drones|;
    }

    method CheckAlerts(telemetry: Telemetry)
      modifies `m_log_queue
      ensures View() == old(View()).Say(Alerts(telemetry))
    {
      if Exceeds(telemetry.altitude, ALTITUDE_THRESHOLD) {
        m_log_queue := m_log_queue + [AltitudeAlert(telemetry.drone_id, telemetry.altitude)];
      }
      if Exceeds(telemetry.speed, SPEED_THRESHOLD) {
        m_log_queue := m_log_queue + [SpeedAlert(telemetry.drone_id, telemetry.speed)];
      }
    }

    method ReportThroughput(now: int)
      requires Valid()
      modifies this
      ensures Valid() && View() == Reported(old(View()), now) && m_start_time == old(m_start_time)
    {
      if now - m_last_report_time < REPORT_INTERVAL {
        return;
      }
      var intervalPackets := (m_packets_processed - m_packets_at_last_report) % COUNTER_RANGE;
      m_log_queue := m_log_queue + [Throughput(intervalPackets, m_packets_processed, |m_drones|)];
      m_last_report_time := now;
      m_packets_at_last_report := m_packets_processed;
    }

    /** The body of the loop: upsert, count, alert, and perhaps report. */
    method HandlePacket(p: Timed)
      requires Valid()
      modifies this
      ensures Valid() && View() == Handle(old(View()), p) && m_start_time == old(m_start_time)
    {
      hide Alerts, Reported;
      var telemetry := p.packet;
      m_drones := m_drones[telemetry.drone_id := telemetry];
      m_packets_processed := (m_packets_processed + 1) % COUNTER_RANGE;
      CheckAlerts(telemetry);
      ReportThroughput(p.now);
    }

    /** The loop over the packets popped until a pop returns nothing or a stop is seen. */
    method Run(start: int, packets: seq<Timed>)
      requires Valid()
      modifies this
      ensures Valid() && View() == RunTracker(old(View()), start, packets)
    {
      hide Handle;
      m_log_queue := m_log_queue + [LogicRunning];
      m_start_time := start;
      m_last_report_time := m_start_time;
      ghost var started := View();
      for i := 0 to |packets|
        invariant Valid() && View() == HandleAll(started, packets[..i])
      {
        assert packets[..i + 1][..i] == packets[..i];
        HandlePacket(packets[i]);
      }
      assert packets[..|packets|] == packets;
      m_log_queue := m_log_queue + [LogicShuttingDown(m_packets_processed, |m_drones|)];
    }
  }

  // ----- the last packet of a drone wins -----

  function Packets(ps: seq<Timed>): (ts: seq<Telemetry>)
    ensures |ts| == |ps|
  {
    seq(|ps|, i requires 0 <= i < |ps| => ps[i].packet)
  }

  /** `ts[i]` is the latest packet of its drone. */
  ghost predicate Latest(ts: seq<Telemetry>, i: nat)
    requires i < |ts|
  {
    forall j :: i < j < |ts| ==> ts[j].drone_id != ts[i].drone_id
  }

  /** A table that holds, for every drone heard of, its latest packet, and nothing else. */
  ghost predicate HoldsLatest(drones: map<seq<byte>, Telemetry>, ts: seq<Telemetry>) {
    && (forall i :: 0 <= i < |ts| && Latest(ts, i) ==> ts[i].drone_id in drones && drones[ts[i].drone_id] == ts[i])
    && (forall id :: id in drones ==> exists i :: 0 <= i < |ts| && ts[i].drone_id == id)
  }

  lemma OneMorePacket(drones: map<seq<byte>, Telemetry>, ts: seq<Telemetry>, t: Telemetry)
    requires HoldsLatest(drones, ts)
    ensures HoldsLatest(drones[t.drone_id := t], ts + [t])
  {
    var more, table := ts + [t], drones[t.drone_id := t];
    forall i | 0 <= i < |more| && Latest(more, i)
      ensures more[i].drone_id in table && table[more[i].drone_id] == more[i]
    {
      if i < |ts| {
        assert more[|ts|].drone_id != more[i].drone_id;
        assert forall j :: i < j < |ts| ==> more[j] == ts[j];
        assert Latest(ts, i);
      }
    }
    forall id | id in table ensures exists i :: 0 <= i < |more| && more[i].drone_id == id {
      if id == t.drone_id {
        assert more[|ts|].drone_id == id;
      } else {
        var i :| 0 <= i < |ts| && ts[i].drone_id == id;
        assert more[i].drone_id == id;
      }
    }
  }

  /** From an empty table, the packets handled decide the table and the counter, whatever the clock showed. */
  lemma {:induction false} TableHoldsLatest(k: Tracker, ps: seq<Timed>)
    requires k.drones == map[] && k.processed == 0
    ensures var done := HandleAll(k, ps);
            && HoldsLatest(done.drones, Packets(ps)) && done.processed == |ps| % COUNTER_RANGE
            && (|ps| < 0x1_0000_0000_0000_0000 ==> done.processed == |ps|)
    decreases |ps|
  {
    hide HoldsLatest, Alerts, Reported;
    if |ps| == 0 {
      NothingHeld();
    } else {
      var before := ps[..|ps| - 1];
      TableHoldsLatest(k, before);
      HandleKeeps(HandleAll(k, before), ps[|ps| - 1]);
      OneMorePacket(HandleAll(k, before).drones, Packets(before), ps[|ps| - 1].packet);
      assert Packets(ps) == Packets(before) + [ps[|ps| - 1].packet];
      ModuloOfModulo(|before|, 1);
    }
  }

  lemma NothingHeld()
    ensures HoldsLatest(map[], Packets([]))
  {
  }

  /** Alerts and reports change neither the table nor the counter. */
  lemma HandleKeeps(k: Tracker, p: Timed)
    ensures Handle(k, p).drones == k.drones[p.packet.drone_id := p.packet]
    ensures Handle(k, p).processed == (k.processed + 1) % COUNTER_RANGE
  {
  }

  // ----- the intervals of the reports partition the packets -----

  function IntervalsOf(notes: seq<Note>): nat
    decreases |notes|
  {
    if |notes| == 0 then 0
    else
      var last := notes[|notes| - 1];
      IntervalsOf(notes[..|notes| - 1]) + if last.Throughput? then last.interval else 0
  }

  lemma {:induction false} IntervalsConcat(a: seq<Note>, b: seq<Note>)
    ensures IntervalsOf(a + b) == IntervalsOf(a) + IntervalsOf(b)
    decreases |b|
  {
    if |b| == 0 {
      assert a + b == a;
    } else {
      assert (a + b)[..|a + b| - 1] == a + b[..|b| - 1];
      IntervalsConcat(a, b[..|b| - 1]);
    }
  }

  ghost predicate IntervalsAgree(k: Tracker) {
    k.Valid() && IntervalsOf(k.notes) % COUNTER_RANGE == k.atLastReport
  }

  lemma NoIntervalInAlerts(t: Telemetry)
    ensures IntervalsOf(Alerts(t)) == 0
  {
    var altitude := if Exceeds(t.altitude, ALTITUDE_THRESHOLD) then [AltitudeAlert(t.drone_id, t.altitude)] else [];
    var speed := if Exceeds(t.speed, SPEED_THRESHOLD) then [SpeedAlert(t.drone_id, t.speed)] else [];
    IntervalsConcat(altitude, speed);
  }

  lemma DifferenceCompletes(sum: nat, reported: nat, processed: nat)
    requires sum % COUNTER_RANGE == reported && processed < COUNTER_RANGE
    ensures (sum + (processed - reported) % COUNTER_RANGE) % COUNTER_RANGE == processed
  {
    var d := (processed - reported) % COUNTER_RANGE;
    assert d == processed - reported || d == processed - reported + COUNTER_RANGE;
    ModuloOfModulo(sum, d);
  }

  lemma ReportAgrees(k: Tracker, now: int)
    requires IntervalsAgree(k)
    ensures IntervalsAgree(Reported(k, now))
  {
    if now - k.lastReport >= REPORT_INTERVAL {
      var note := Throughput(k.SinceLastReport(), k.processed, |k.drones|);
      assert [note][..0] == [];
      IntervalsConcat(k.notes, [note]);
      DifferenceCompletes(IntervalsOf(k.notes), k.atLastReport, k.processed);
    }
  }

  /** The intervals of all reports, and the packets since the last of them, add up to the packets handled. */
  lemma {:induction false} ReportsAddUp(start: int, ps: seq<Timed>)
    ensures var done := HandleAll(Started(Tracker(map[], 0, 0, 0, []), start), ps);
            (IntervalsOf(done.notes) + done.SinceLastReport()) % COUNTER_RANGE == |ps| % COUNTER_RANGE
    ensures IntervalsAgree(HandleAll(Started(Tracker(map[], 0, 0, 0, []), start), ps))
    decreases |ps|
  {
    hide Alerts, Reported, Upsert;
    var k := Started(Tracker(map[], 0, 0, 0, []), start);
    var done := HandleAll(k, ps);
    if |ps| == 0 {
      assert [LogicRunning][..0] == [];
    } else {
      ReportsAddUp(start, ps[..|ps| - 1]);
      StepAgrees(HandleAll(k, ps[..|ps| - 1]), ps[|ps| - 1]);
    }
    TableHoldsLatest(k, ps);
    DifferenceCompletes(IntervalsOf(done.notes), done.atLastReport, done.processed);
  }

  lemma StepAgrees(k: Tracker, p: Timed)
    requires IntervalsAgree(k)
    ensures IntervalsAgree(Handle(k, p))
  {
    hide Alerts, Reported;
    NoIntervalInAlerts(p.packet);
    IntervalsConcat(k.notes, Alerts(p.packet));
    ReportAgrees(Upsert(k, p.packet).Say(Alerts(p.packet)), p.now);
  }

  /**
   The whole of a run on a new table: it handles every packet, and its first and last notes say that it runs, and how
   many packets and drones there were when it ended.
   */
  lemma WholeTrackerRun(start: int, ps: seq<Timed>)
    ensures var done := RunTracker(Tracker(map[], 0, 0, 0, []), start, ps);
            && HoldsLatest(done.drones, Packets(ps)) && done.processed == |ps| % COUNTER_RANGE
            && |done.notes| >= 2 && done.notes[0] == LogicRunning
            && done.notes[|done.notes| - 1] == LogicShuttingDown(done.processed, |done.drones|)
  {
    hide HandleAll, HoldsLatest;
    var k := Started(Tracker(map[], 0, 0, 0, []), start);
    TableHoldsLatest(k, ps);
    NotesGrow(k, ps);
  }

  lemma {:induction false} NotesGrow(k: Tracker, ps: seq<Timed>)
    ensures k.notes <= HandleAll(k, ps).notes
    decreases |ps|
  {
    hide Handle;
    if |ps| > 0 {
      NotesGrow(k, ps[..|ps| - 1]);
    }
  }

  // ----- exactly when there is an alert or a report -----

  /**
   An alert is raised exactly on patterns above that of the threshold, and not above that of infinity: on no negative
   number and on nothing that is no number.
   */
  lemma AlertsExactly(t: Telemetry)
    ensures AltitudeAlert(t.drone_id, t.altitude) in Alerts(t) <==>
            0x405E_0000_0000_0000 < t.altitude <= 0x7FF0_0000_0000_0000
    ensures SpeedAlert(t.drone_id, t.speed) in Alerts(t) <==>
            0x4049_0000_0000_0000 < t.speed <= 0x7FF0_0000_0000_0000
    ensures forall note :: note in Alerts(t) ==>
              note == AltitudeAlert(t.drone_id, t.altitude) || note == SpeedAlert(t.drone_id, t.speed)
  {
  }

  /**
   A packet adds its alerts, and then a report if and only if at least five seconds have gone by since the last one;
   the report counts the packets since then, all packets and all drones, this packet included.
   */
  lemma NotesOfPacket(k: Tracker, p: Timed)
    requires k.Valid()
    ensures var after := Handle(k, p);
            after.notes == k.notes + Alerts(p.packet) +
              if p.now - k.lastReport >= 5_000_000_000
              then
                var interval := (after.processed - k.atLastReport) % 0x1_0000_0000_0000_0000;
                [Throughput(interval, after.processed, |after.drones|)]
              else []
    ensures p.now - k.lastReport >= 5_000_000_000 ==>
            Handle(k, p).lastReport == p.now && Handle(k, p).atLastReport == Handle(k, p).processed
    ensures p.now - k.lastReport < 5_000_000_000 ==>
            Handle(k, p).lastReport == k.lastReport && Handle(k, p).atLastReport == k.atLastReport
  {
    hide Alerts;
  }
}
