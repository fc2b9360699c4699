/**
 The streaming parser as the object it is: per-client ring buffers and machine states updated in place, a failure
 counter, and the queues it appends to.
 */
module StreamingParser {
  import opened Bytes
  import opened Crc
  import opened Codec
  import opened RingBuffers
  import opened ReferenceParse
  import opened ParserMachine
  import opened Routing
  import opened Wrappers

  class ClientState {
    var state: State
    const ring_buffer: RingBuffer
    var scratch_buf: seq<byte>
    var payload_length: nat

    ghost predicate Valid()
      reads `state, `payload_length, ring_buffer, ring_buffer.m_buf
    {
      && ring_buffer.Valid()
      && ring_buffer.m_capacity == DEFAULT_CAPACITY
      && Consistent(View())
    }

    /** The machine this object represents. */
    ghost function View(): Machine
      requires ring_buffer.Valid()
      reads `state, `payload_length, ring_buffer, ring_buffer.m_buf
    {
      Machine(state, payload_length, ring_buffer.Contents())
    }

    constructor ()
      ensures Valid() && View() == FRESH
      ensures fresh(ring_buffer) && fresh(ring_buffer.m_buf)
    {
      state := WaitHeader;
      ring_buffer := new RingBuffer(DEFAULT_CAPACITY);
      scratch_buf := [];
      payload_length := 0;
    }
  }

  function EventOf(e: Option<Event>): seq<Event> {
    if e.Some? then [e.value] else []
  }

  class Parser {
    var m_clients: map<int, ClientState>
    var m_crc_failures: nat
    var m_parsed_queue: seq<Telemetry>
    var m_log_queue: seq<LogMessage>
    ghost var Repr: set<object>

    constructor ()
      ensures Valid() && Repr == {} && View() == Router(map[], Book([], 0, []))
    {
      m_clients, m_crc_failures, m_parsed_queue, m_log_queue, Repr := map[], 0, [], [], {};
    }

    ghost function CurrentBook(): Book
      reads `m_crc_failures, `m_parsed_queue, `m_log_queue
    {
      Book(m_parsed_queue, m_crc_failures, m_log_queue)
    }

    /** The WAIT_HEADER case of the switch; `again` tells whether the loop goes round. */
    method WaitHeaderCase(client: ClientState) returns (again: bool, ghost event: Option<Event>)
      requires client.Valid() && client.state == WaitHeader
      modifies client, client.ring_buffer
      ensures client.ring_buffer.Valid()
      ensures Advance(old(client.View())) == if again then Round(client.View(), event) else Return
      ensures !again ==> client.View() == old(client.View()) && event == None
      ensures event == None || event == Some(Garbage)
    {
      hide BigEndian16, Unroll, Consistent;
      event := None;
      var size := client.ring_buffer.Size();
      if size < HEADER_SIZE {
        return false, None;
      }
      var header := new byte[HEADER_SIZE](_ => 0);
      var peeked := client.ring_buffer.Peek(header);
      assert peeked.Done?;
      assert header[..][0] == client.ring_buffer.Contents()[0] && header[..][1] == client.ring_buffer.Contents()[1];
      if BigEndian16(header[0], header[1]) != PACKET_HEADER {
        var consumed := client.ring_buffer.Consume(1);
        assert consumed.Done?;
        return true, Some(Garbage);
      }
      client.state := WaitLength;
      return true, None;
    }

    /** The WAIT_LENGTH case. */
    method WaitLengthCase(client: ClientState) returns (again: bool, ghost event: Option<Event>)
      requires client.Valid() && client.state == WaitLength
      modifies client, client.ring_buffer
      ensures client.ring_buffer.Valid()
      ensures Advance(old(client.View())) == if again then Round(client.View(), event) else Return
      ensures !again ==> client.View() == old(client.View()) && event == None
      ensures event == None || event == Some(Garbage)
    {
      hide BigEndian16, Unroll, Consistent;
      event := None;
      var size := client.ring_buffer.Size();
      if size < HEADER_SIZE + LENGTH_SIZE {
        return false, None;
      }
      var header := new byte[HEADER_SIZE + LENGTH_SIZE](_ => 0);
      var peeked := client.ring_buffer.Peek(header);
      assert peeked.Done?;
      assert header[..][2] == client.ring_buffer.Contents()[2] && header[..][3] == client.ring_buffer.Contents()[3];
      client.payload_length := BigEndian16(header[HEADER_SIZE], header[HEADER_SIZE + 1]);
      if client.payload_length == 0 || client.payload_length > MAX_PAYLOAD_SIZE {
        var consumed := client.ring_buffer.Consume(1);
        assert consumed.Done?;
        client.state := WaitHeader;
        return true, Some(Garbage);
      }
      client.state := WaitPayloadAndCrc;
      return true, None;
    }

    /** Decode a payload whose checksum was right: emit what it says, or count and log that it is malformed. */
    method DeliverPayload(payload: seq<byte>) returns (ghost event: Event)
      requires m_crc_failures < COUNTER_RANGE
      modifies `m_crc_failures, `m_parsed_queue, `m_log_queue
      ensures event == Taken(payload)
      ensures CurrentBook() == Record(old(CurrentBook()), [event])
    {
      hide Deserialize;
      event := Taken(payload);
      RecordOne(CurrentBook(), event);
      assert payload[..|payload|] == payload;
      var telemetry := DeserializePayload(payload, |payload|);
      if telemetry.Some? {
        m_parsed_queue := m_parsed_queue + [telemetry.value];
      } else {
        m_crc_failures := (m_crc_failures + 1) % COUNTER_RANGE;
        m_log_queue := m_log_queue + [MalformedPayload];
      }
    }

    /** Copy a whole frame into the client's scratch buffer. */
    method PeekFrame(client: ClientState, total: nat)
      requires client.ring_buffer.Valid() && total <= |client.ring_buffer.Contents()|
      modifies client`scratch_buf
      ensures client.scratch_buf == client.ring_buffer.Contents()[..total]
    {
      var scratch := new byte[total](_ => 0);
      var peeked := client.ring_buffer.Peek(scratch);
      assert peeked.Done?;
      client.scratch_buf := scratch[..];
    }

    /** A wrong checksum: count it, log it, drop one byte and hunt for a header again. */
    method RejectFrame(client: ClientState)
      requires client.ring_buffer.Valid() && client.ring_buffer.m_capacity == DEFAULT_CAPACITY
      requires |client.ring_buffer.Contents()| > 0 && m_crc_failures < COUNTER_RANGE
      modifies client`state, client.ring_buffer, `m_crc_failures, `m_log_queue
      ensures client.ring_buffer.Valid()
      ensures client.View() == old(client.View()).(state := WaitHeader, bytes := old(client.View()).bytes[1..])
      ensures CurrentBook() == Record(old(CurrentBook()), [BadCrc])
    {
      hide Unroll;
      RecordOne(CurrentBook(), BadCrc);
      m_crc_failures := (m_crc_failures + 1) % COUNTER_RANGE;
      m_log_queue := m_log_queue + [CrcMismatch];
      var dropped := client.ring_buffer.Consume(1);
      assert dropped.Done?;
      client.state := WaitHeader;
    }

    /** A right checksum: take the whole frame off the buffer and deliver its payload. */
    method TakeFrame(client: ClientState, total: nat) returns (ghost event: Event)
      requires client.ring_buffer.Valid() && client.ring_buffer.m_capacity == DEFAULT_CAPACITY
      requires total <= |client.ring_buffer.Contents()| && client.scratch_buf == client.ring_buffer.Contents()[..total]
      requires total == client.payload_length + 6 && m_crc_failures < COUNTER_RANGE
      modifies client`state, client.ring_buffer, `m_crc_failures, `m_parsed_queue, `m_log_queue
      ensures client.ring_buffer.Valid()
      ensures client.View() == old(client.View()).(state := WaitHeader, bytes := old(client.View()).bytes[total..])
      ensures event == Taken(old(client.View()).bytes[4..4 + client.payload_length])
      ensures CurrentBook() == Record(old(CurrentBook()), [event])
    {
      hide Unroll, Taken;
      ghost var bytes := client.ring_buffer.Contents();
      var consumed := client.ring_buffer.Consume(total);
      assert consumed.Done?;
      var payload := client.scratch_buf[HEADER_SIZE + LENGTH_SIZE..HEADER_SIZE + LENGTH_SIZE + client.payload_length];
      assert payload == bytes[4..4 + client.payload_length];
      event := DeliverPayload(payload);
      client.state := WaitHeader;
    }

    /** The WAIT_PAYLOAD_AND_CRC case: the only one that counts, logs and emits. */
    method WaitPayloadCase(client: ClientState) returns (again: bool, ghost event: Option<Event>)
      requires client.Valid() && client.state == WaitPayloadAndCrc && m_crc_failures < COUNTER_RANGE
      modifies client, client.ring_buffer, `m_crc_failures, `m_parsed_queue, `m_log_queue
      ensures client.ring_buffer.Valid()
      ensures Advance(old(client.View())) == if again then Round(client.View(), event) else Return
      ensures !again ==> client.View() == old(client.View()) && event == None
      ensures CurrentBook() == if event.Some? then Record(old(CurrentBook()), [event.value]) else old(CurrentBook())
    {
      hide Word16, Crc16, Taken, Unroll, Consistent;
      event := None;
      ghost var bytes := client.View().bytes;
      var covered := HEADER_SIZE + LENGTH_SIZE + client.payload_length;
      var total := covered + CRC_SIZE;
      var size := client.ring_buffer.Size();
      if size < total {
        return false, None;
      }
      PeekFrame(client, total);
      assert client.scratch_buf[..covered] == bytes[..covered];
      var computed := ComputeCrc16(client.scratch_buf, covered);
      var received := Word16(client.scratch_buf[covered], client.scratch_buf[covered + 1]);
      if received != computed {
        RejectFrame(client);
        return true, Some(BadCrc);
      }
      ghost var taken := TakeFrame(client, total);
      return true, Some(taken);
    }

    /** One pass through the switch. */
    method Iterate(client: ClientState) returns (again: bool, ghost event: Option<Event>)
      requires client.Valid() && m_crc_failures < COUNTER_RANGE
      modifies client, client.ring_buffer, `m_crc_failures, `m_parsed_queue, `m_log_queue
      ensures client.Valid()
      ensures Advance(old(client.View())) == if again then Round(client.View(), event) else Return
      ensures !again ==> client.View() == old(client.View()) && event == None
      ensures CurrentBook() == if event.Some? then Record(old(CurrentBook()), [event.value]) else old(CurrentBook())
    {
      hide Advance, Consistent, Decide, Record;
      IterationAgrees(client.View());
      RecordOne(CurrentBook(), Garbage);
      match client.state {
        case WaitHeader => again, event := WaitHeaderCase(client);
        case WaitLength => again, event := WaitLengthCase(client);
        case WaitPayloadAndCrc => again, event := WaitPayloadCase(client);
      }
    }

    /** Drive one client's machine until its buffer cannot satisfy the current state. */
    method ProcessClient(client: ClientState) returns (ghost rounds: nat)
      requires client.Valid() && m_crc_failures < COUNTER_RANGE
      modifies client, client.ring_buffer, `m_crc_failures, `m_parsed_queue, `m_log_queue
      ensures client.Valid()
      ensures var r := RunMachine(old(client.View()));
              client.View() == r.final && rounds == r.rounds && CurrentBook() == Record(old(CurrentBook()), r.events)
    {
      hide Advance, Consistent, RunMachine, Potential, Record, Unroll;
      ghost var start, done := client.View(), [];
      rounds := 0;
      RecordNothing(CurrentBook());
      assert done + RunMachine(start).events == RunMachine(start).events;
      while true
        invariant client.Valid() && m_crc_failures < COUNTER_RANGE
        invariant var r := RunMachine(client.View());
                  RunMachine(start) == MachineRun(r.final, done + r.events, rounds + r.rounds)
        invariant CurrentBook() == Record(old(CurrentBook()), done)
        decreases Potential(client.View())
      {
        ghost var m := client.View();
        RunUnfolds(m);
        var again;
        ghost var event;
        again, event := Iterate(client);
        if !again {
          assert done + [] == done;
          break;
        }
        RoundsCostPotential(m);
        ghost var step := EventOf(event);
        RecordConcat(old(CurrentBook()), done, step);
        RecordBounded(old(CurrentBook()), done + step);
        assert done + (step + RunMachine(client.View()).events) == (done + step) + RunMachine(client.View()).events;
        assert done + [] == done;
        done, rounds := done + step, rounds + 1;
      }
    }

    // ----- all clients -----

    ghost predicate Valid()
      reads `m_clients, `m_crc_failures, `Repr, Repr
    {
      && m_crc_failures < COUNTER_RANGE
      && this !in Repr
      && (forall fd :: fd in m_clients ==> Parts(m_clients[fd]) <= Repr && m_clients[fd].Valid())
      && (forall fd, other :: fd in m_clients && other in m_clients && fd != other ==>
         Apart(m_clients[fd], m_clients[other]))
    }

    ghost function Machines(): (machines: map<int, Machine>)
      requires Valid()
      reads `m_clients, `m_crc_failures, `Repr, Repr
    {
      map fd | fd in m_clients :: m_clients[fd].View()
    }

    /** The state of the parser thread: the machine of every client, and the book. */
    ghost function View(): (r: Router)
      requires Valid()
      reads this, Repr
      ensures AllConsistent(r.clients)
    {
      Router(Machines(), CurrentBook())
    }

    /** What happens to the objects of one client leaves all others as they were. */
    twostate lemma OnlyClientChanged(fd: int)
      requires old(Valid()) && m_clients == old(m_clients) && Repr == old(Repr) && fd in m_clients
      requires m_clients[fd].Valid() && m_crc_failures < COUNTER_RANGE
      requires forall o :: o in Repr && o !in Parts(m_clients[fd]) ==> unchanged(o)
      ensures Valid() && Machines() == old(Machines())[fd := m_clients[fd].View()]
    {
      hide Consistent, Unroll;
      forall other | other in m_clients && other != fd
        ensures m_clients[other].Valid() && m_clients[other].View() == old(m_clients[other].View())
      {
        assert Apart(m_clients[fd], m_clients[other]);
        assert Parts(m_clients[other]) <= Repr;
        var d := m_clients[other];
        assert d in Parts(d) && d.ring_buffer in Parts(d) && d.ring_buffer.m_buf in Parts(d);
        assert unchanged(d) && unchanged(d.ring_buffer) && unchanged(d.ring_buffer.m_buf);
      }
    }

    /** `m_log_queue.push`. */
    method PushLog(message: LogMessage)
      requires Valid()
      modifies `m_log_queue
      ensures Valid() && View() == Log(old(View()), message)
    {
      m_log_queue := m_log_queue + [message];
    }

    /** `m_clients.erase`. */
    method Erase(fd: int)
      requires Valid()
      modifies `m_clients
      ensures Valid() && Machines() == old(Machines()) - {fd}
    {
      hide Consistent, Unroll;
      m_clients := m_clients - {fd};
    }

    /** The clients that were there stay valid, with the same machines, when only others change. */
    twostate lemma OthersStay()
      requires old(Valid()) && forall o :: o in old(Repr) ==> unchanged(o)
      requires old(m_clients.Keys) <= m_clients.Keys
      requires forall fd :: fd in old(m_clients) ==> m_clients[fd] == old(m_clients[fd])
      ensures forall fd :: fd in old(m_clients) ==>
                && m_clients[fd].Valid() && m_clients[fd].View() == old(m_clients[fd].View())
                && Parts(m_clients[fd]) <= old(Repr)
    {
      hide Consistent, Unroll, Apart;
      forall fd | fd in old(m_clients)
        ensures m_clients[fd].Valid() && m_clients[fd].View() == old(m_clients[fd].View())
      {
        var d := m_clients[fd];
        assert Parts(d) <= old(Repr);
        assert d in Parts(d) && d.ring_buffer in Parts(d) && d.ring_buffer.m_buf in Parts(d);
        assert unchanged(d) && unchanged(d.ring_buffer) && unchanged(d.ring_buffer.m_buf);
      }
    }

    /** A client made of objects apart from all others joins them. */
    twostate lemma ClientJoined(fd: int)
      requires old(Valid()) && fd !in old(m_clients) && fd in m_clients
      requires m_clients == old(m_clients)[fd := m_clients[fd]] && Repr == old(Repr) + Parts(m_clients[fd])
      requires m_clients[fd].Valid() && Parts(m_clients[fd]) !! old(Repr) && this !in Repr
      requires m_crc_failures == old(m_crc_failures) && forall o :: o in old(Repr) ==> unchanged(o)
      ensures Valid()
    {
      hide Consistent, Unroll, Apart, Parts;
      OthersStay();
      forall other | other in old(m_clients)
        ensures Apart(m_clients[other], m_clients[fd]) && Apart(m_clients[fd], m_clients[other])
      {
        ApartFromOutside(m_clients[other], m_clients[fd], old(Repr));
      }
    }

    twostate lemma MachineJoined(fd: int)
      requires old(Valid()) && fd !in old(m_clients) && fd in m_clients
      requires m_clients == old(m_clients)[fd := m_clients[fd]]
      requires Valid() && forall o :: o in old(Repr) ==> unchanged(o)
      ensures Machines() == old(Machines())[fd := m_clients[fd].View()]
    {
      hide Consistent, Unroll, Apart, Parts;
      OthersStay();
      var after, before := Machines(), old(Machines())[fd := m_clients[fd].View()];
      assert after.Keys == before.Keys;
      forall other | other in after ensures after[other] == before[other] {
        if other != fd {
          assert other in old(m_clients);
        }
      }
    }

    method AddClient(fd: int)
      requires Valid() && fd !in m_clients
      modifies `m_clients, `Repr
      ensures Valid() && fresh(Repr - old(Repr))
      ensures fd in m_clients && Machines() == old(Machines())[fd := FRESH]
    {
      hide Consistent, Unroll, Valid, Machines;
      var newcomer := new ClientState();
      ParserApart();
      m_clients := m_clients[fd := newcomer];
      Repr := Repr + Parts(newcomer);
      ClientJoined(fd);
      MachineJoined(fd);
    }

    lemma MachineOfClient(fd: int)
      requires Valid()
      ensures fd in Machines() <==> fd in m_clients
      ensures fd in m_clients ==> m_clients[fd].Valid() && Machines()[fd] == m_clients[fd].View()
    {
      hide Consistent, Unroll;
    }

    lemma ParserApart()
      requires Valid()
      ensures this !in Repr
    {
    }

    /** `m_clients[fd]`, which makes a fresh client where there is none. */
    method ClientFor(fd: int) returns (client: ClientState)
      requires Valid()
      modifies `m_clients, `Repr
      ensures Valid() && fresh(Repr - old(Repr))
      ensures fd in m_clients && m_clients[fd] == client && client.View() == ClientOf(old(Machines()), fd)
      ensures Machines() == old(Machines())[fd := ClientOf(old(Machines()), fd)]
    {
      hide Consistent, Unroll, Valid, Machines;
      MachineOfClient(fd);
      if fd !in m_clients {
        AddClient(fd);
      }
      client := m_clients[fd];
      MachineOfClient(fd);
    }

    /** Push a chunk into a client's buffer and run its machine, unless the buffer would overflow. */
    method FeedClient(client: ClientState, data: seq<byte>) returns (fed: bool)
      requires client.Valid() && m_crc_failures < COUNTER_RANGE
      modifies client, client.ring_buffer, client.ring_buffer.m_buf, `m_crc_failures, `m_parsed_queue, `m_log_queue
      ensures client.Valid() && m_crc_failures < COUNTER_RANGE
      ensures var m := old(client.View());
              && fed == Fits(m, data)
              && client.View() == (if fed then RunOn(m, data).final else m)
              && CurrentBook() ==
                 (if fed then Record(old(CurrentBook()), RunOn(m, data).events) else old(CurrentBook()))
    {
      hide Unroll, RunMachine, Record, Consistent;
      AppendKeepsConsistent(client.View(), data);
      var pushed := client.ring_buffer.Push(data);
      if pushed.OverflowError? {
        return false;
      }
      RunIsScan(client.View());
      ghost var rounds := ProcessClient(client);
      RecordBounded(old(CurrentBook()), RunOn(old(client.View()), data).events);
      return true;
    }

    method Feed(fd: int, data: seq<byte>) returns (fed: bool)
      requires Valid() && fd in m_clients
      modifies Repr, `m_crc_failures, `m_parsed_queue, `m_log_queue
      ensures Valid() && Repr == old(Repr)
      ensures var m := old(Machines())[fd];
              && fed == Fits(m, data)
              && Machines() == old(Machines())[fd := if fed then RunOn(m, data).final else m]
              && CurrentBook() ==
                 (if fed then Record(old(CurrentBook()), RunOn(m, data).events) else old(CurrentBook()))
    {
      hide Unroll, RunOn, Record, Consistent;
      assert Parts(m_clients[fd]) <= Repr;
      fed := FeedClient(m_clients[fd], data);
      OnlyClientChanged(fd);
    }

    /** The body of the loop in `run`: an empty chunk erases a client, any other is routed to its machine. */
    method HandleChunk(chunk: DataChunk)
      requires Valid()
      modifies this, Repr
      ensures Valid() && fresh(Repr - old(Repr))
      ensures View() == Deliver(old(View()), chunk)
    {
      hide Record, RunOn, Consistent, Valid, Machines;
      var fd := chunk.client_id;
      if |chunk.data| == 0 {
        Erase(fd);
        PushLog(CleanedUp(fd));
        return;
      }
      ghost var before := View();
      var client := ClientFor(fd);
      var fed := Feed(fd, chunk.data);
      if !fed {
        PushLog(DroppedOnOverflow(fd));
        Erase(fd);
        assert before.clients[fd := ClientOf(before.clients, fd)] - {fd} == before.clients - {fd};
      }
    }

    /** The loop of `run`, over the chunks it pops until a pop returns nothing or a stop is seen. */
    method Run(chunks: seq<DataChunk>)
      requires Valid()
      modifies this, Repr
      ensures Valid() && fresh(Repr - old(Repr))
      ensures View() == RunRouter(old(View()), chunks)
    {
      hide Deliver, Valid, Machines;
      PushLog(Running);
      ghost var started := View();
      for i := 0 to |chunks|
        invariant Valid() && fresh(Repr - old(Repr))
        invariant View() == DeliverAll(started, chunks[..i])
      {
        assert chunks[..i + 1][..i] == chunks[..i];
        HandleChunk(chunks[i]);
      }
      assert chunks[..|chunks|] == chunks;
      PushLog(ShuttingDown(m_crc_failures));
    }
  }

  /** The objects that make up one client. */
  ghost function Parts(c: ClientState): set<object> {
    {c, c.ring_buffer, c.ring_buffer.m_buf}
  }

  ghost predicate Apart(c: ClientState, d: ClientState) {
    Parts(c) !! Parts(d)
  }

  lemma ApartFromOutside(c: ClientState, d: ClientState, repr: set<object>)
    requires Parts(c) <= repr && Parts(d) !! repr
    ensures Apart(c, d) && Apart(d, c)
  {
    hide Parts;
  }

  lemma RecordOne(b: Book, e: Event)
    requires b.failures < COUNTER_RANGE
    ensures Record(b, [e]) ==
            Book(b.parsed + Output(e),
                 if e.Fails() then (b.failures + 1) % COUNTER_RANGE else b.failures,
                 b.log + Message(e))
  {
    hide Output, Message;
    assert [e][1..] == [];
    assert Telemetries([e]) == Output(e) + Telemetries([]) == Output(e);
    assert Messages([e]) == Message(e) + Messages([]) == Message(e);
    assert Failures([e]) == (if e.Fails() then 1 else 0) + Failures([]);
  }

  lemma RecordBounded(b: Book, events: seq<Event>)
    ensures Record(b, events).failures < COUNTER_RANGE
  {
  }

  lemma RunUnfolds(m: Machine)
    requires Consistent(m)
    ensures Advance(m).Return? ==> RunMachine(m) == MachineRun(m, [], 0)
    ensures Advance(m).Round? ==>
              var n := Advance(m).next;
              && Consistent(n)
              && RunMachine(m) ==
                 MachineRun(RunMachine(n).final,
                            EventOf(Advance(m).event) + RunMachine(n).events,
                            RunMachine(n).rounds + 1)
  {
    hide Advance, Consistent;
    IterationAgrees(m);
  }
}
