/**
 The parser thread as a function of the chunks it takes off the raw queue: which client's machine runs, what is
 emitted, counted and logged, and when a client's state is discarded.
 */
module Routing {
  import opened Bytes
  import opened Codec
  import opened ReferenceParse
  import opened ParserMachine

  /** A chunk of received bytes, tagged with its socket; an empty one says that the client is gone. */
  datatype DataChunk = DataChunk(client_id: int, data: seq<byte>)

  datatype LogMessage =
    | Running
    | CleanedUp(client_id: int)
    | DroppedOnOverflow(client_id: int)
    | CrcMismatch
    | MalformedPayload
    | ShuttingDown(failures: nat)

  /** The default capacity of a client's ring buffer. */
  const DEFAULT_CAPACITY: nat := 65536

  /** Counters are unsigned and 64 bits wide. */
  const COUNTER_RANGE: nat := 0x1_0000_0000_0000_0000

  function Messages(events: seq<Event>): seq<LogMessage>
    decreases |events|
  {
    if |events| == 0 then [] else Message(events[0]) + Messages(events[1..])
  }

  function Message(e: Event): seq<LogMessage> {
    match e
    case Garbage => []
    case BadCrc => [CrcMismatch]
    case Malformed(_) => [MalformedPayload]
    case Emitted(_, _) => []
  }

  lemma {:induction false} MessagesConcat(a: seq<Event>, b: seq<Event>)
    ensures Messages(a + b) == Messages(a) + Messages(b)
    decreases |a|
  {
    hide Message;
    if |a| == 0 {
      assert a + b == b;
    } else {
      assert (a + b)[1..] == a[1..] + b;
      MessagesConcat(a[1..], b);
    }
  }

  /** What the parser has emitted, counted and logged. */
  datatype Book = Book(parsed: seq<Telemetry>, failures: nat, log: seq<LogMessage>)

  /** Enter a run of events. */
  function Record(b: Book, events: seq<Event>): Book {
    Book(b.parsed + Telemetries(events), (b.failures + Failures(events)) % COUNTER_RANGE, b.log + Messages(events))
  }

  lemma RecordNothing(b: Book)
    requires b.failures < COUNTER_RANGE
    ensures Record(b, []) == b
  {
  }

  lemma ModuloOfModulo(n: nat, k: nat)
    ensures (n % COUNTER_RANGE + k) % COUNTER_RANGE == (n + k) % COUNTER_RANGE
  {
  }

  /** Entering two runs is entering their concatenation. */
  lemma RecordConcat(b: Book, first: seq<Event>, second: seq<Event>)
    ensures Record(Record(b, first), second) == Record(b, first + second)
  {
    hide Telemetries, Messages, Failures;
    TelemetriesConcat(first, second);
    MessagesConcat(first, second);
    FailuresConcat(first, second);
    ModuloOfModulo(b.failures + Failures(first), Failures(second));
  }

  datatype Router = Router(clients: map<int, Machine>, book: Book)

  ghost predicate AllConsistent(clients: map<int, Machine>) {
    forall fd :: fd in clients ==> Consistent(clients[fd])
  }

  function ClientOf(clients: map<int, Machine>, fd: int): Machine {
    if fd in clients then clients[fd] else FRESH
  }

  /** Whether a chunk fits into what is free of the client's buffer. */
  predicate Fits(m: Machine, data: seq<byte>) {
    |data| <= DEFAULT_CAPACITY - |m.bytes|
  }

  /** The run of the machine that a chunk which fits sets off. */
  function RunOn(m: Machine, data: seq<byte>): (r: MachineRun)
    requires Consistent(m)
    ensures Consistent(r.final)
  {
    AppendKeepsConsistent(m, data);
    RunIsScan(m.(bytes := m.bytes + data));
    RunMachine(m.(bytes := m.bytes + data))
  }

  function Deliver(r: Router, chunk: DataChunk): (r': Router)
    requires AllConsistent(r.clients)
    ensures AllConsistent(r'.clients)
  {
    var fd := chunk.client_id;
    if |chunk.data| == 0 then
      Router(r.clients - {fd}, r.book.(log := r.book.log + [CleanedUp(fd)]))
    else
      var m := ClientOf(r.clients, fd);
      if !Fits(m, chunk.data) then
        Router(r.clients - {fd}, r.book.(log := r.book.log + [DroppedOnOverflow(fd)]))
      else
        var run := RunOn(m, chunk.data);
        Router(r.clients[fd := run.final], Record(r.book, run.events))
  }

  function DeliverAll(r: Router, chunks: seq<DataChunk>): (r': Router)
    requires AllConsistent(r.clients)
    ensures AllConsistent(r'.clients)
    decreases |chunks|
  {
    if |chunks| == 0 then r else Deliver(DeliverAll(r, chunks[..|chunks| - 1]), chunks[|chunks| - 1])
  }

  function Log(r: Router, message: LogMessage): Router {
    r.(book := r.book.(log := r.book.log + [message]))
  }

  /** The whole of `run`: its first and last messages, and the chunks in between. */
  function RunRouter(r: Router, chunks: seq<DataChunk>): Router
    requires AllConsistent(r.clients)
  {
    var done := DeliverAll(Log(r, Running), chunks);
    Log(done, ShuttingDown(done.book.failures))
  }
}
