/**
 The three-state machine, one loop iteration at a time, and why it agrees with the reference: between iterations its
 state and cached length say only what the bytes still in the buffer say.
 */
module ParserMachine {
  import opened Bytes
  import opened Crc
  import opened Codec
  import opened ReferenceParse
  import opened Sequences
  import opened Wrappers

  datatype State = WaitHeader | WaitLength | WaitPayloadAndCrc
  {
    function Rank(): nat {
      match this
      case WaitHeader => 0
      case WaitLength => 1
      case WaitPayloadAndCrc => 2
    }
  }

  /** What one client's parser remembers between iterations. */
  datatype Machine = Machine(state: State, payloadLength: nat, bytes: seq<byte>)

  /** An iteration returns to the caller, or goes round with or without an event. */
  datatype Iteration = Return | Round(next: Machine, event: Option<Event>)

  function Advance(m: Machine): Iteration {
    match m.state
    case WaitHeader =>
      if |m.bytes| < HEADER_SIZE then Return
      else if BigEndian16(m.bytes[0], m.bytes[1]) != PACKET_HEADER then Round(m.(bytes := m.bytes[1..]), Some(Garbage))
      else Round(m.(state := WaitLength), None)
    case WaitLength =>
      if |m.bytes| < HEADER_SIZE + LENGTH_SIZE then Return
      else
        var length := BigEndian16(m.bytes[2], m.bytes[3]);
        if length == 0 || length > MAX_PAYLOAD_SIZE then Round(Machine(WaitHeader, length, m.bytes[1..]), Some(Garbage))
        else Round(Machine(WaitPayloadAndCrc, length, m.bytes), None)
    case WaitPayloadAndCrc =>
      var covered := HEADER_SIZE + LENGTH_SIZE + m.payloadLength;
      if |m.bytes| < covered + CRC_SIZE then Return
      else if Word16(m.bytes[covered], m.bytes[covered + 1]) != Crc16(m.bytes[..covered]) then
        Round(m.(state := WaitHeader, bytes := m.bytes[1..]), Some(BadCrc))
      else
        Round(m.(state := WaitHeader, bytes := m.bytes[covered + CRC_SIZE..]),
              Some(Taken(m.bytes[HEADER_SIZE + LENGTH_SIZE..covered])))
  }

  /** The invariant across iterations and across calls. */
  ghost predicate Consistent(m: Machine) {
    match m.state
    case WaitHeader => true
    case WaitLength => HeaderAt(m.bytes)
    case WaitPayloadAndCrc =>
      && HeaderAt(m.bytes) && |m.bytes| >= 4
      && LegalLength(LengthAt(m.bytes)) && m.payloadLength == LengthAt(m.bytes)
  }

  /** Each iteration keeps the invariant, decides what the reference decides, and uses up potential. */
  lemma IterationAgrees(m: Machine)
    requires Consistent(m)
    ensures match Advance(m)
            case Return => Decide(m.bytes) == None
            case Round(n, None) => Consistent(n) && n.bytes == m.bytes && n.state.Rank() == m.state.Rank() + 1
            case Round(n, Some(e)) =>
              Consistent(n) && n.state == WaitHeader && Decide(m.bytes) == Some(e) && n.bytes == m.bytes[e.Size()..]
  {
    hide Word16, BigEndian16, Crc16, Deserialize;
  }

  /** Appending a chunk keeps the invariant. */
  lemma AppendKeepsConsistent(m: Machine, more: seq<byte>)
    requires Consistent(m)
    ensures Consistent(m.(bytes := m.bytes + more))
  {
    hide BigEndian16;
  }

  /** Iterate until the machine returns: the final machine, the events, and the number of rounds. */
  datatype MachineRun = MachineRun(final: Machine, events: seq<Event>, rounds: nat)

  /** Three units per byte, less the states already climbed: every round uses up at least one. */
  function Potential(m: Machine): int {
    3 * |m.bytes| - m.state.Rank()
  }

  lemma RoundsCostPotential(m: Machine)
    requires Consistent(m) && Advance(m).Round?
    ensures 0 <= Potential(Advance(m).next) < Potential(m)
  {
    hide Word16, BigEndian16, Crc16, Deserialize, Decide;
    IterationAgrees(m);
  }

  function RunMachine(m: Machine): MachineRun
    requires Consistent(m)
    decreases Potential(m)
  {
    match Advance(m)
    case Return => MachineRun(m, [], 0)
    case Round(n, e) =>
      IterationAgrees(m);
      RoundsCostPotential(m);
      var later := RunMachine(n);
      MachineRun(later.final, (if e.Some? then [e.value] else []) + later.events, later.rounds + 1)
  }

  /** A run of the machine is the reference scan of its bytes, and takes at most three rounds a byte consumed. */
  lemma {:induction false} RunIsScan(m: Machine)
    requires Consistent(m)
    ensures var r := RunMachine(m);
            && Parse(m.bytes) == Scan(r.events, r.final.bytes)
            && Consistent(r.final) && Advance(r.final).Return?
            && r.rounds + Potential(r.final) <= Potential(m)
    decreases Potential(m)
  {
    hide Advance, Decide;
    IterationAgrees(m);
    if Advance(m).Round? {
      RoundsCostPotential(m);
      RunIsScan(Advance(m).next);
    }
  }

  /** A client of which nothing has been heard. */
  const FRESH: Machine := Machine(WaitHeader, 0, [])

  /** Feed chunks one after the other, running the machine after each. */
  function RunChunks(m: Machine, chunks: seq<seq<byte>>): MachineRun
    requires Consistent(m)
    decreases |chunks|
  {
    if |chunks| == 0 then MachineRun(m, [], 0)
    else
      AppendKeepsConsistent(m, chunks[0]);
      var fed := m.(bytes := m.bytes + chunks[0]);
      var now := RunMachine(fed);
      RunIsScan(fed);
      var later := RunChunks(now.final, chunks[1..]);
      MachineRun(later.final, now.events + later.events, now.rounds + later.rounds)
  }

  lemma {:induction false} RunChunksIsParseChunks(m: Machine, chunks: seq<seq<byte>>)
    requires Consistent(m)
    ensures var r := RunChunks(m, chunks);
            && ParseChunks(m.bytes, chunks) == Scan(r.events, r.final.bytes)
            && Consistent(r.final)
            && r.rounds + Potential(r.final) <= Potential(m) + 3 * |Flatten(chunks)|
    decreases |chunks|
  {
    if |chunks| > 0 {
      AppendKeepsConsistent(m, chunks[0]);
      var fed := m.(bytes := m.bytes + chunks[0]);
      RunIsScan(fed);
      RunChunksIsParseChunks(RunMachine(fed).final, chunks[1..]);
    }
  }

  /**
   A whole session: the stateful parser, fed any cut of a stream, yields the events and the leftover of the one-shot
   scan of that stream, within three loop rounds a byte.
   */
  lemma SessionIsScan(chunks: seq<seq<byte>>)
    ensures var r := RunChunks(FRESH, chunks);
            && Parse(Flatten(chunks)) == Scan(r.events, r.final.bytes)
            && r.rounds <= 3 * |Flatten(chunks)|
  {
    hide Advance;
    RunChunksIsParseChunks(FRESH, chunks);
    ChunkingIrrelevant([], chunks);
    assert [] + Flatten(chunks) == Flatten(chunks);
    PotentialNotNegative(RunChunks(FRESH, chunks).final);
  }

  lemma PotentialNotNegative(m: Machine)
    requires Consistent(m)
    ensures Potential(m) >= 0
  {
  }
}
