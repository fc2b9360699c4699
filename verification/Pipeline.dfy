/**
 The four threads and the main thread as an interleaving of their queue operations: the listener, the parser, the
 drone table and the logger, and the order in which main stops and joins them. Every queue is kept as the history of
 all that was pushed onto it, with a count of what was popped.
 */
module Pipeline {
  import opened Codec
  import opened ReferenceParse
  import opened Routing
  import opened Sessions
  import opened DroneTracking
  import opened Listener

  datatype Entry = FromListener(l: ListenerNote) | FromParser(p: LogMessage) | FromLogic(n: Note)

  /** One push by the parser thread. */
  datatype Push = Emit(t: Telemetry) | Say(m: LogMessage)

  /** Where the parser thread is; `todo` is what it has yet to push for the chunk it has taken. */
  datatype ParserPc =
    | ParserStarting
    | ParserHead
    | ParserPopping
    | ParserSending(todo: seq<Push>)
    | ParserFinishing
    | ParserExited

  datatype LogicPc =
    | LogicStarting
    | LogicHead
    | LogicPopping
    | LogicSending(todo: seq<Note>)
    | LogicFinishing
    | LogicExited

  datatype LoggerPc =
    | LoggerHead
    | LoggerPopping
    | LoggerWriting(e: Entry, draining: bool)
    | LoggerDraining
    | LoggerExited

  /** What main is doing; a thread has been asked to stop from the moment main waits to join it. */
  datatype MainPc = Waiting | JoiningListener | JoiningParser | JoiningLogic | JoiningLogger | Done
  {
    function Rank(): nat {
      match this
      case Waiting => 0
      case JoiningListener => 1
      case JoiningParser => 2
      case JoiningLogic => 3
      case JoiningLogger => 4
      case Done => 5
    }
  }

  datatype State = State(
    main: MainPc,
    net: Net,                    // the listener's, with the history of the raw queue
    listenerExited: bool,
    parser: ParserPc,
    router: Router,
    rawTaken: nat,
    parsed: seq<Telemetry>,      // the history of the parsed queue
    logic: LogicPc,
    tracker: Tracker,
    parsedTaken: nat,
    log: seq<Entry>,             // the history of the log queue
    logger: LoggerPc,
    logTaken: nat,
    written: seq<Entry>)
  {
    predicate ParserStopped() {
      main.Rank() >= 2
    }

    predicate LogicStopped() {
      main.Rank() >= 3
    }

    predicate LoggerStopped() {
      main.Rank() >= 4
    }
  }

  const BEGINNING: State := State(
    Waiting, IDLE, false, ParserStarting, START, 0, [], LogicStarting, Tracker(map[], 0, 0, 0, []), 0, [],
    LoggerHead, 0, [])

  datatype Action =
    | Interrupt               // the signal handler sets the flag, and main asks the listener to stop
    | Join                    // main joins the thread it waits for and asks the next one to stop
    | ListenerStep(op: NetOp)
    | ListenerExit
    | ParserStep
    | LogicStep(now: int)
    | LoggerStep

  // ----- the parser -----

  function PushesOf(events: seq<Event>): seq<Push>
    decreases |events|
  {
    if |events| == 0 then [] else PushOf(events[0]) + PushesOf(events[1..])
  }

  function PushOf(e: Event): seq<Push> {
    match e
    case Garbage => []
    case BadCrc => [Say(CrcMismatch)]
    case Malformed(_) => [Say(MalformedPayload)]
    case Emitted(_, t) => [Emit(t)]
  }

  /** What the parser pushes for a chunk, in order. */
  function Pushes(r: Router, chunk: DataChunk): seq<Push>
    requires AllConsistent(r.clients)
  {
    if |chunk.data| == 0 then [Say(CleanedUp(chunk.client_id))]
    else if !Fits(ClientOf(r.clients, chunk.client_id), chunk.data) then [Say(DroppedOnOverflow(chunk.client_id))]
    else PushesOf(EventsOf(r, chunk))
  }

  function Pending(pc: ParserPc): seq<Push> {
    if pc.ParserSending? then pc.todo else []
  }

  function ParserRound(s: State): State
    requires AllConsistent(s.router.clients) && s.rawTaken < |s.net.raw|
  {
    var chunk := s.net.raw[s.rawTaken];
    s.(parser := ParserSending(Pushes(s.router, chunk)), router := Deliver(s.router, chunk), rawTaken := s.rawTaken + 1)
  }

  function ParserSends(s: State, todo: seq<Push>): State
    requires |todo| > 0
  {
    var n := s.(parser := ParserSending(todo[1..]));
    match todo[0]
    case Emit(t) => n.(parsed := s.parsed + [t])
    case Say(m) => n.(log := s.log + [FromParser(m)])
  }

  /** A pop blocks while the queue is empty and no stop has been asked for. */
  predicate ParserReady(s: State) {
    && (s.parser.ParserPopping? ==> s.ParserStopped() || s.rawTaken < |s.net.raw|)
    && !s.parser.ParserExited?
  }

  function ParserNext(s: State): State
    requires AllConsistent(s.router.clients) && ParserReady(s)
  {
    match s.parser
    case ParserStarting => s.(parser := ParserHead, log := s.log + [FromParser(Running)])
    case ParserHead => s.(parser := if s.ParserStopped() then ParserFinishing else ParserPopping)
    case ParserPopping => if s.rawTaken < |s.net.raw| then ParserRound(s) else s.(parser := ParserFinishing)
    case ParserSending(todo) => if |todo| == 0 then s.(parser := ParserHead) else ParserSends(s, todo)
    case ParserFinishing =>
      s.(parser := ParserExited, log := s.log + [FromParser(ShuttingDown(s.router.book.failures))])
    case ParserExited => s
  }

  // ----- the drone table -----

  /** Take a packet into the table; the notes it gives rise to are pushed one by one afterwards. */
  function LogicRound(s: State, now: int): State
    requires s.parsedTaken < |s.parsed|
  {
    var k := Handle(s.tracker, Timed(s.parsed[s.parsedTaken], now));
    s.(logic := LogicSending(k.notes[|s.tracker.notes|..]), tracker := k, parsedTaken := s.parsedTaken + 1)
  }

  predicate LogicReady(s: State) {
    && (s.logic.LogicPopping? ==> s.LogicStopped() || s.parsedTaken < |s.parsed|)
    && !s.logic.LogicExited?
  }

  function LogicNext(s: State, now: int): State
    requires LogicReady(s)
  {
    match s.logic
    case LogicStarting =>
      s.(logic := LogicHead, tracker := Started(s.tracker, now), log := s.log + [FromLogic(LogicRunning)])
    case LogicHead => s.(logic := if s.LogicStopped() then LogicFinishing else LogicPopping)
    case LogicPopping => if s.parsedTaken < |s.parsed| then LogicRound(s, now) else s.(logic := LogicFinishing)
    case LogicSending(todo) =>
      if |todo| == 0 then s.(logic := LogicHead)
      else s.(logic := LogicSending(todo[1..]), log := s.log + [FromLogic(todo[0])])
    case LogicFinishing =>
      var note := LogicShuttingDown(s.tracker.processed, |s.tracker.drones|);
      s.(logic := LogicExited, tracker := s.tracker.Say([note]), log := s.log + [FromLogic(note)])
    case LogicExited => s
  }

  // ----- the logger -----

  predicate LoggerReady(s: State) {
    && (s.logger.LoggerPopping? ==> s.LoggerStopped() || s.logTaken < |s.log|)
    && !s.logger.LoggerExited?
  }

  function LoggerNext(s: State): State
    requires LoggerReady(s)
  {
    match s.logger
    case LoggerHead => s.(logger := if s.LoggerStopped() then LoggerDraining else LoggerPopping)
    case LoggerPopping =>
      if s.logTaken < |s.log| then s.(logger := LoggerWriting(s.log[s.logTaken], false), logTaken := s.logTaken + 1)
      else s.(logger := LoggerDraining)
    case LoggerWriting(e, draining) =>
      s.(logger := if draining then LoggerDraining else LoggerHead, written := s.written + [e])
    case LoggerDraining =>
      if s.logTaken < |s.log| then s.(logger := LoggerWriting(s.log[s.logTaken], true), logTaken := s.logTaken + 1)
      else s.(logger := LoggerExited)
    case LoggerExited => s
  }

  // ----- main -----

  predicate Joinable(s: State) {
    match s.main
    case Waiting => false
    case JoiningListener => s.listenerExited
    case JoiningParser => s.parser.ParserExited?
    case JoiningLogic => s.logic.LogicExited?
    case JoiningLogger => s.logger.LoggerExited?
    case Done => false
  }

  function Joined(m: MainPc): MainPc {
    match m
    case Waiting => Waiting
    case JoiningListener => JoiningParser
    case JoiningParser => JoiningLogic
    case JoiningLogic => JoiningLogger
    case JoiningLogger => Done
    case Done => Done
  }

  predicate Enabled(s: State, a: Action) {
    match a
    case Interrupt => s.main.Waiting?
    case Join => Joinable(s)
    case ListenerStep(op) => !s.listenerExited && NetEnabled(s.net, op)
    case ListenerExit => !s.listenerExited
    case ParserStep => ParserReady(s)
    case LogicStep(_) => LogicReady(s)
    case LoggerStep => LoggerReady(s)
  }

  function ListenerNext(s: State, op: NetOp): State
    requires NetEnabled(s.net, op)
  {
    var n := NetAfter(s.net, op);
    s.(net := n, log := if op.OpSay? then s.log + [FromListener(op.note)] else s.log)
  }

  function Next(s: State, a: Action): State
    requires AllConsistent(s.router.clients) && Enabled(s, a)
  {
    match a
    case Interrupt => s.(main := JoiningListener)
    case Join => s.(main := Joined(s.main))
    case ListenerStep(op) => ListenerNext(s, op)
    case ListenerExit => s.(listenerExited := true)
    case ParserStep => ParserNext(s)
    case LogicStep(now) => LogicNext(s, now)
    case LoggerStep => LoggerNext(s)
  }

  // ----- what every step keeps -----

  function TelemetryIn(pushes: seq<Push>): seq<Telemetry>
    decreases |pushes|
  {
    if |pushes| == 0 then []
    else Sent(pushes[0]) + TelemetryIn(pushes[1..])
  }

  function Sent(p: Push): seq<Telemetry> {
    if p.Emit? then [p.t] else []
  }

  function MessagesIn(pushes: seq<Push>): seq<LogMessage>
    decreases |pushes|
  {
    if |pushes| == 0 then [] else Said(pushes[0]) + MessagesIn(pushes[1..])
  }

  function Said(p: Push): seq<LogMessage> {
    if p.Say? then [p.m] else []
  }

  ghost predicate NoDrop(pushes: seq<Push>) {
    forall fd :: Say(DroppedOnOverflow(fd)) !in pushes
  }

  lemma {:induction false} TelemetryInConcat(a: seq<Push>, b: seq<Push>)
    ensures TelemetryIn(a + b) == TelemetryIn(a) + TelemetryIn(b)
    decreases |a|
  {
    hide Sent;
    if |a| == 0 {
      assert a + b == b;
    } else {
      assert (a + b)[1..] == a[1..] + b;
      TelemetryInConcat(a[1..], b);
    }
  }

  lemma {:induction false} MessagesInConcat(a: seq<Push>, b: seq<Push>)
    ensures MessagesIn(a + b) == MessagesIn(a) + MessagesIn(b)
    decreases |a|
  {
    hide Said;
    if |a| == 0 {
      assert a + b == b;
    } else {
      assert (a + b)[1..] == a[1..] + b;
      MessagesInConcat(a[1..], b);
    }
  }

  lemma {:induction false} PushesOfEvents(events: seq<Event>)
    ensures TelemetryIn(PushesOf(events)) == Telemetries(events) && NoDrop(PushesOf(events))
    ensures MessagesIn(PushesOf(events)) == Messages(events)
    decreases |events|
  {
    hide Message;
    if |events| > 0 {
      PushesOfEvents(events[1..]);
      TelemetryInConcat(PushOf(events[0]), PushesOf(events[1..]));
      MessagesInConcat(PushOf(events[0]), PushesOf(events[1..]));
      OnePush(events[0]);
    }
  }

  lemma OnePush(e: Event)
    ensures TelemetryIn(PushOf(e)) == Output(e) && NoDrop(PushOf(e)) && MessagesIn(PushOf(e)) == Message(e)
  {
    var o := PushOf(e);
    assert |o| == 1 ==> o[1..] == [];
  }

  /** The parser is where its chunks lead, and what it owes the parsed queue is what it has yet to push. */
  ghost predicate ParserSound(s: State) {
    && s.rawTaken <= |s.net.raw|
    && s.router == After(s.net.raw[..s.rawTaken])
    && s.parsed + TelemetryIn(Pending(s.parser)) == s.router.book.parsed
    && NoDrop(Pending(s.parser))
    && (forall fd :: FromParser(DroppedOnOverflow(fd)) !in s.log)
  }

  /** The table and the counter reflect the packets taken. */
  ghost predicate LogicSound(s: State) {
    && s.parsedTaken <= |s.parsed|
    && HoldsLatest(s.tracker.drones, s.parsed[..s.parsedTaken])
    && s.tracker.processed == s.parsedTaken % COUNTER_RANGE
  }

  function InHand(pc: LoggerPc): seq<Entry> {
    if pc.LoggerWriting? then [pc.e] else []
  }

  predicate Draining(pc: LoggerPc) {
    pc.LoggerDraining? || pc.LoggerExited? || (pc.LoggerWriting? && pc.draining)
  }

  /** What was written, and the message in hand, are the messages taken; draining begins after the stop. */
  ghost predicate LoggerSound(s: State) {
    && s.logTaken <= |s.log|
    && s.written + InHand(s.logger) == s.log[..s.logTaken]
    && (Draining(s.logger) ==> s.LoggerStopped())
    && (s.logger.LoggerExited? ==> s.logTaken == |s.log|)
  }

  /** Main goes past a join only when the thread has ended. */
  ghost predicate MainSound(s: State) {
    && (s.main.Rank() >= 2 ==> s.listenerExited)
    && (s.main.Rank() >= 3 ==> s.parser.ParserExited?)
    && (s.main.Rank() >= 4 ==> s.logic.LogicExited?)
    && (s.main.Rank() >= 5 ==> s.logger.LoggerExited?)
  }

  ghost predicate Sound(s: State) {
    Disciplined(s.net) && ParserSound(s) && LogicSound(s) && LoggerSound(s) && MainSound(s)
  }

  lemma BeginningSound()
    ensures Sound(BEGINNING)
  {
    hide Disciplined, HoldsLatest;
    IdleDisciplined();
    NothingHeld();
    assert Packets([]) == [];
  }

  lemma ConsistentIfSound(s: State)
    requires ParserSound(s)
    ensures AllConsistent(s.router.clients)
  {
    hide AllConsistent;
  }

  /** A message pushed by a thread that has not ended does not disturb the logger. */
  lemma LogGrows(s: State, n: State, e: Entry)
    requires LoggerSound(s) && MainSound(s) && n.log == s.log + [e] && n.main == s.main
    requires n.logger == s.logger && n.logTaken == s.logTaken && n.written == s.written
    requires !s.listenerExited || !s.parser.ParserExited? || !s.logic.LogicExited?
    ensures LoggerSound(n)
  {
    assert n.log[..n.logTaken] == s.log[..s.logTaken];
  }

  /**
   What is pushed for a chunk, one by one, is what handling the chunk emits and logs; a client is dropped exactly when
   the chunk does not fit.
   */
  lemma PushesFollowBook(r: Router, chunk: DataChunk)
    requires AllConsistent(r.clients)
    ensures Deliver(r, chunk).book.parsed == r.book.parsed + TelemetryIn(Pushes(r, chunk))
    ensures Deliver(r, chunk).book.log == r.book.log + MessagesIn(Pushes(r, chunk))
    ensures NoDrop(Pushes(r, chunk)) <==> |chunk.data| == 0 || Fits(ClientOf(r.clients, chunk.client_id), chunk.data)
  {
    hide RunOn, Fits, Telemetries, Failures, Messages, PushesOf, TelemetryIn, MessagesIn, AllConsistent;
    if |chunk.data| == 0 {
      OneSaid(CleanedUp(chunk.client_id));
      assert r.book.parsed + [] == r.book.parsed;
    } else if !Fits(ClientOf(r.clients, chunk.client_id), chunk.data) {
      OneSaid(DroppedOnOverflow(chunk.client_id));
      assert r.book.parsed + [] == r.book.parsed;
      assert Say(DroppedOnOverflow(chunk.client_id)) in Pushes(r, chunk);
    } else {
      PushesOfEvents(EventsOf(r, chunk));
    }
  }

  lemma NothingSent()
    ensures TelemetryIn([]) == []
  {
  }

  lemma OneSaid(m: LogMessage)
    ensures TelemetryIn([Say(m)]) == [] && MessagesIn([Say(m)]) == [m]
  {
    assert [Say(m)][1..] == [];
  }

  /** The listener's chunks fit. */
  lemma ChunkTakenFits(net: Net, k: nat)
    requires Disciplined(net) && k < |net.raw|
    ensures var fd, data := net.raw[k].client_id, net.raw[k].data;
            Fits(ClientOf(After(net.raw[..k]).clients, fd), data)
  {
    hide After, SessionsOf, Parse, FollowsSession;
    var fd := net.raw[k].client_id;
    BoundedIfDisciplined(net);
    BoundedNeverOverflows(net.raw[..k]);
    ClientsFollowSessions(net.raw[..k], fd);
    LeftoverBound(OpenSession(net.raw[..k], fd));
    FitsExactly(ClientOf(After(net.raw[..k]).clients, fd), OpenSession(net.raw[..k], fd), net.raw[k].data);
  }

  lemma ParserRoundSound(s: State)
    requires Disciplined(s.net) && ParserSound(s) && s.parser.ParserPopping? && s.rawTaken < |s.net.raw|
    ensures AllConsistent(s.router.clients) && ParserSound(ParserRound(s))
  {
    hide Deliver, Pushes, AllConsistent, TelemetryIn, NoDrop;
    ConsistentIfSound(s);
    var history, chunk := s.net.raw[..s.rawTaken], s.net.raw[s.rawTaken];
    PushesFollowBook(s.router, chunk);
    ChunkTakenFits(s.net, s.rawTaken);
    NothingSent();
    var longer := s.net.raw[..s.rawTaken + 1];
    assert longer[..|longer| - 1] == history;
  }

  lemma RestOfPushes(todo: seq<Push>)
    requires |todo| > 0 && NoDrop(todo)
    ensures NoDrop(todo[1..]) && (forall fd :: todo[0] != Say(DroppedOnOverflow(fd)))
    ensures TelemetryIn(todo) == Sent(todo[0]) + TelemetryIn(todo[1..])
  {
    assert todo[0] in todo;
    assert forall p :: p in todo[1..] ==> p in todo;
  }

  lemma ParserSendsSound(s: State)
    requires ParserSound(s) && s.parser.ParserSending? && |s.parser.todo| > 0
    ensures ParserSound(ParserSends(s, s.parser.todo))
  {
    hide After, TelemetryIn, NoDrop;
    var todo := s.parser.todo;
    RestOfPushes(todo);
    assert s.parsed + Sent(todo[0]) + TelemetryIn(todo[1..]) == s.parsed + TelemetryIn(todo);
    if todo[0].Say? {
      assert s.parsed + [] == s.parsed;
    }
  }

  /** A message is not one about a dropped client. */
  ghost predicate Harmless(e: Entry) {
    e.FromParser? ==> !e.p.DroppedOnOverflow?
  }

  lemma ParserStaysSound(s: State, n: State, e: Entry)
    requires ParserSound(s) && Harmless(e) && n.log == s.log + [e]
    requires n.net == s.net && n.router == s.router && n.rawTaken == s.rawTaken && n.parsed == s.parsed
             && Pending(n.parser) == Pending(s.parser)
    ensures ParserSound(n)
  {
    hide After, TelemetryIn, NoDrop;
  }

  lemma ParserStepSound(s: State)
    requires Sound(s) && ParserReady(s)
    ensures AllConsistent(s.router.clients) && ParserSound(ParserNext(s))
  {
    hide Disciplined, LogicSound, LoggerSound, MainSound, After, AllConsistent, ParserRound, ParserSends,
      TelemetryIn, NoDrop;
    ConsistentIfSound(s);
    if s.parser.ParserPopping? && s.rawTaken < |s.net.raw| {
      ParserRoundSound(s);
    } else if s.parser.ParserSending? && |s.parser.todo| > 0 {
      ParserSendsSound(s);
    } else if s.parser.ParserStarting? {
      ParserStaysSound(s, ParserNext(s), FromParser(Running));
    } else if s.parser.ParserFinishing? {
      ParserStaysSound(s, ParserNext(s), FromParser(ShuttingDown(s.router.book.failures)));
    }
  }

  /** The parser's other effects: it only appends to the parsed queue and to the log. */
  lemma ParserStepElsewhere(s: State)
    requires Sound(s) && ParserReady(s) && AllConsistent(s.router.clients)
    ensures LogicSound(ParserNext(s)) && LoggerSound(ParserNext(s)) && MainSound(ParserNext(s))
    ensures ParserNext(s).net == s.net
  {
    hide Disciplined, ParserSound, HoldsLatest, Pushes, Deliver, AllConsistent, InHand, LoggerSound;
    var n := ParserNext(s);
    assert n.parsed[..n.parsedTaken] == s.parsed[..s.parsedTaken];
    assert !s.parser.ParserExited?;
    if n.log == s.log {
      SameLogger(s, n);
    } else {
      LogGrows(s, n, n.log[|s.log|]);
    }
  }

  lemma SameLogger(s: State, n: State)
    requires LoggerSound(s) && n.log == s.log && n.logger == s.logger && n.logTaken == s.logTaken
             && n.written == s.written
    requires n.main.Rank() >= s.main.Rank()
    ensures LoggerSound(n)
  {
  }

  lemma LogicRoundSound(s: State, now: int)
    requires LogicSound(s) && s.parsedTaken < |s.parsed|
    ensures LogicSound(LogicRound(s, now))
  {
    hide HoldsLatest, Handle;
    var k, t := s.tracker, s.parsed[s.parsedTaken];
    HandleKeeps(k, Timed(t, now));
    OneMorePacket(k.drones, s.parsed[..s.parsedTaken], t);
    assert s.parsed[..s.parsedTaken + 1] == s.parsed[..s.parsedTaken] + [t];
    ModuloOfModulo(s.parsedTaken, 1);
  }

  lemma LogicStepSound(s: State, now: int)
    requires Sound(s) && LogicReady(s)
    ensures Sound(LogicNext(s, now))
  {
    hide Disciplined, ParserSound, HoldsLatest, Handle, LoggerSound, LogicRound;
    var n := LogicNext(s, now);
    if s.logic.LogicPopping? && s.parsedTaken < |s.parsed| {
      LogicRoundSound(s, now);
      LogicRoundElsewhere(s, now);
      SameLogger(s, n);
      ParserUntouched(s, n);
    } else if n.log == s.log {
      SameLogger(s, n);
      ParserUntouched(s, n);
    } else {
      LogGrows(s, n, n.log[|s.log|]);
      ParserStaysSound(s, n, n.log[|s.log|]);
    }
  }

  lemma LogicRoundElsewhere(s: State, now: int)
    requires s.parsedTaken < |s.parsed|
    ensures var n := LogicRound(s, now);
            n == s.(logic := n.logic, tracker := n.tracker, parsedTaken := n.parsedTaken) && n.logic.LogicSending?
  {
    hide Handle;
  }

  lemma ParserUntouched(s: State, n: State)
    requires ParserSound(s) && n.log == s.log && n.net == s.net && n.router == s.router
    requires n.rawTaken == s.rawTaken && n.parsed == s.parsed && n.parser == s.parser
    ensures ParserSound(n)
  {
    hide After, TelemetryIn, NoDrop;
  }

  lemma LoggerStepSound(s: State)
    requires Sound(s) && LoggerReady(s)
    ensures Sound(LoggerNext(s))
  {
    hide Disciplined, ParserSound, LogicSound;
    var n := LoggerNext(s);
    ParserUntouched(s, n);
    assert LogicSound(n) by { LogicUntouched(s, n); }
    if s.logTaken < |s.log| {
      assert s.log[..s.logTaken + 1] == s.log[..s.logTaken] + [s.log[s.logTaken]];
    }
  }

  lemma LogicUntouched(s: State, n: State)
    requires LogicSound(s) && n.tracker == s.tracker && n.parsedTaken == s.parsedTaken && n.parsed == s.parsed
    ensures LogicSound(n)
  {
  }

  lemma ListenerStepSound(s: State, op: NetOp)
    requires Sound(s) && !s.listenerExited && NetEnabled(s.net, op)
    ensures Sound(ListenerNext(s, op))
  {
    hide Disciplined, NetAfter, LogicSound, LoggerSound, After, TelemetryIn, NoDrop;
    var n := ListenerNext(s, op);
    NetStepDisciplined(s.net, op);
    LogicUntouched(s, n);
    assert n.net.raw[..n.rawTaken] == s.net.raw[..s.rawTaken];
    if op.OpSay? {
      LogGrows(s, n, FromListener(op.note));
    } else {
      SameLogger(s, n);
    }
  }

  lemma MainStepSound(s: State, a: Action)
    requires Sound(s) && Enabled(s, a) && (a.Interrupt? || a.Join? || a.ListenerExit?)
             && AllConsistent(s.router.clients)
    ensures Sound(Next(s, a))
  {
    hide Disciplined, LogicSound, LoggerSound, ParserSound, AllConsistent;
    var n := Next(s, a);
    LogicUntouched(s, n);
    ParserUntouched(s, n);
    SameLogger(s, n);
  }

  /** The state in which main has started the threads. */
  ghost function Beginning(): (s: State)
    ensures Sound(s)
  {
    BeginningSound();
    BEGINNING
  }

  lemma SoundStep(s: State, a: Action)
    requires Sound(s) && Enabled(s, a)
    ensures AllConsistent(s.router.clients) && Sound(Next(s, a))
  {
    hide Disciplined, LogicSound, LoggerSound, ParserSound, MainSound, AllConsistent;
    hide ParserNext, LogicNext, LoggerNext, ListenerNext, NetEnabled, ParserReady, LogicReady, LoggerReady;
    ConsistentIfSound(s);
    match a
    case ParserStep =>
      ParserStepSound(s);
      ParserStepElsewhere(s);
    case LogicStep(now) => LogicStepSound(s, now);
    case LoggerStep => LoggerStepSound(s);
    case ListenerStep(op) => ListenerStepSound(s, op);
    case _ => MainStepSound(s, a);
  }

  // ----- whole runs -----

  ghost predicate IsRun(s: State, actions: seq<Action>)
    requires Sound(s)
    decreases |actions|
  {
    |actions| == 0 || (Enabled(s, actions[0]) && (SoundStep(s, actions[0]); IsRun(Next(s, actions[0]), actions[1..])))
  }

  ghost function AfterRun(s: State, actions: seq<Action>): (n: State)
    requires Sound(s) && IsRun(s, actions)
    ensures Sound(n)
    decreases |actions|
  {
    if |actions| == 0 then s
    else
      SoundStep(s, actions[0]);
      AfterRun(Next(s, actions[0]), actions[1..])
  }

  lemma BoundedIfDisciplined(net: Net)
    requires Disciplined(net)
    ensures Bounded(net.raw)
  {
  }

  /** The difference of two counts, added to the smaller one in wrapping arithmetic. */
  lemma CountsAddUp(taken: nat, all: nat)
    requires taken <= all
    ensures (taken % COUNTER_RANGE + (all - taken)) % COUNTER_RANGE == all % COUNTER_RANGE
  {
    ModuloOfModulo(taken, all - taken);
  }

  /**
   End to end, after any run: what the parser has emitted and has yet to push is the telemetry of the tagged events of
   the chunks it has taken; the table holds the latest packet of every drone among the packets taken from what was
   emitted; the counter and the queue length add up to what was emitted; and no client was ever dropped.
   */
  lemma EndToEnd(actions: seq<Action>)
    requires IsRun(Beginning(), actions)
    ensures var s := AfterRun(Beginning(), actions);
            && s.rawTaken <= |s.net.raw| && s.parsedTaken <= |s.parsed|
            && s.parsed + TelemetryIn(Pending(s.parser)) == Telemetries(Untag(TaggedEvents(s.net.raw[..s.rawTaken])))
            && s.router.book.failures == Failures(Untag(TaggedEvents(s.net.raw[..s.rawTaken]))) % COUNTER_RANGE
            && HoldsLatest(s.tracker.drones, s.parsed[..s.parsedTaken])
            && (s.tracker.processed + (|s.parsed| - s.parsedTaken)) % COUNTER_RANGE == |s.parsed| % COUNTER_RANGE
            && (|s.parsed| < 0x1_0000_0000_0000_0000 ==> s.tracker.processed == s.parsedTaken)
            && (forall fd :: FromParser(DroppedOnOverflow(fd)) !in s.log)
  {
    hide IsRun, AfterRun, Beginning, Disciplined, After, TelemetryIn, Telemetries, Failures, TaggedEvents,
      HoldsLatest, LoggerSound, MainSound;
    var s := AfterRun(Beginning(), actions);
    BookOfEvents(s.net.raw[..s.rawTaken]);
    CountsAddUp(s.parsedTaken, |s.parsed|);
  }

  /**
   Every connection by itself, after any run: the events the parser has yielded for it are a beginning of the
   reference scan of the bytes received on it, and all of that scan once the raw queue is used up.
   */
  lemma ConnectionScanned(actions: seq<Action>, c: nat)
    requires IsRun(Beginning(), actions) && c < |AfterRun(Beginning(), actions).net.fds|
    ensures var s := AfterRun(Beginning(), actions);
            var net, fd := s.net, s.net.fds[c];
            && |net.received| == |net.fds| && s.rawTaken <= |net.raw|
            && var events := EventsIn(TaggedEvents(net.raw[..s.rawTaken]), fd, Turn(net.fds, c));
               && events <= Parse(net.received[c]).events
               && (s.rawTaken == |net.raw| ==> events == Parse(net.received[c]).events)
  {
    hide IsRun, AfterRun, Beginning, After, TelemetryIn, TaggedEvents, EventsIn, SessionsOf, Parse, Turn, LogicSound,
      LoggerSound, MainSound;
    var s := AfterRun(Beginning(), actions);
    BoundedIfDisciplined(s.net);
    BoundedNeverOverflows(s.net.raw);
    assert SessionIsConnection(s.net, c);
    YieldedSoFar(s.net.raw, s.rawTaken, s.net.fds[c], Turn(s.net.fds, c));
    if s.rawTaken == |s.net.raw| {
      assert s.net.raw[..s.rawTaken] == s.net.raw;
      SessionIsolated(s.net.raw, s.net.fds[c], Turn(s.net.fds, c));
    }
  }

  /** The connection that a tagged event belongs to. */
  ghost predicate Owns(net: Net, c: nat, e: Tagged)
    requires c < |net.fds|
  {
    net.fds[c] == e.fd && Turn(net.fds, c) == e.session
  }

  /** A tagged event is among those of its session. */
  lemma {:induction false} EventIsIn(tagged: seq<Tagged>, i: nat)
    requires i < |tagged|
    ensures EventsIn(tagged, tagged[i].fd, tagged[i].session) != []
    decreases |tagged|
  {
    if i < |tagged| - 1 {
      EventIsIn(tagged[..|tagged| - 1], i);
    }
  }

  /** The session of a tagged event is that of a connection: sessions to come have no events. */
  lemma EventOwned(net: Net, k: nat, i: nat) returns (c: nat)
    requires Disciplined(net) && k <= |net.raw| && i < |TaggedEvents(net.raw[..k])|
    ensures c < |net.fds| && Owns(net, c, TaggedEvents(net.raw[..k])[i])
  {
    hide TaggedEvents, EventsIn, SessionsOf, Parse, Turn, Count;
    var e := TaggedEvents(net.raw[..k])[i];
    EventIsIn(TaggedEvents(net.raw[..k]), i);
    BoundedIfDisciplined(net);
    BoundedNeverOverflows(net.raw);
    assert SessionsCounted(net, e.fd);
    if e.session >= |SessionsOf(net.raw[..k], e.fd)| {
      NoLaterEvents(net.raw[..k], e.fd, e.session);
    }
    SessionsGrow(net.raw, k, e.fd, e.session);
    YieldedSoFar(net.raw, k, e.fd, e.session);
    EmptyScan();
    c := ConnectionWithTurn(net.fds, e.fd, e.session);
  }

  /**
   So what was yielded is an interleaving of the connections' scans: after any run, every event so far belongs to
   exactly one connection, and the events of that connection, in their order, are a beginning of its scan.
   */
  lemma YieldInterleavesScans(actions: seq<Action>, i: nat) returns (c: nat)
    requires IsRun(Beginning(), actions)
    requires var s := AfterRun(Beginning(), actions);
             s.rawTaken <= |s.net.raw| && i < |TaggedEvents(s.net.raw[..s.rawTaken])|
    ensures var net, tagged := AfterRun(Beginning(), actions).net, TakenEvents(AfterRun(Beginning(), actions));
            && |net.received| == |net.fds| && c < |net.fds| && i < |tagged|
            && Owns(net, c, tagged[i])
            && (forall d: nat :: d < |net.fds| && Owns(net, d, tagged[i]) ==> d == c)
            && EventsIn(tagged, net.fds[c], Turn(net.fds, c)) <= Parse(net.received[c]).events
  {
    hide IsRun, AfterRun, Beginning, TaggedEvents, EventsIn, SessionsOf, Parse, Turn, Count;
    hide ParserSound, LogicSound, LoggerSound, MainSound;
    var s := AfterRun(Beginning(), actions);
    c := EventOwned(s.net, s.rawTaken, i);
    ConnectionScanned(actions, c);
    forall d: nat | d < |s.net.fds| && Owns(s.net, d, TakenEvents(s)[i]) ensures d == c {
      if d != c {
        TurnsDiffer(s.net.fds, if c < d then c else d, if c < d then d else c);
      }
    }
  }

  /** The tagged events of the chunks taken so far. */
  ghost function TakenEvents(s: State): seq<Tagged>
    requires s.rawTaken <= |s.net.raw|
  {
    TaggedEvents(s.net.raw[..s.rawTaken])
  }

  /** The logger, after any run: it has written a beginning of all messages, in order, and all of them when it ends. */
  lemma LoggerLosesNothing(actions: seq<Action>)
    requires IsRun(Beginning(), actions)
    ensures var s := AfterRun(Beginning(), actions);
            && s.written + InHand(s.logger) <= s.log
            && (s.logger.LoggerExited? ==> s.written == s.log)
  {
    hide IsRun, AfterRun, Beginning, Disciplined, ParserSound, LogicSound;
    var s := AfterRun(Beginning(), actions);
    assert s.log[..|s.log|] == s.log;
  }

  // ----- shutting down comes to an end -----

  function ParserRank(pc: ParserPc): nat {
    match pc
    case ParserStarting => 5
    case ParserSending(_) => 4
    case ParserHead => 3
    case ParserPopping => 2
    case ParserFinishing => 1
    case ParserExited => 0
  }

  function LogicRank(pc: LogicPc): nat {
    match pc
    case LogicStarting => 5
    case LogicSending(_) => 4
    case LogicHead => 3
    case LogicPopping => 2
    case LogicFinishing => 1
    case LogicExited => 0
  }

  function LoggerRank(pc: LoggerPc): nat {
    match pc
    case LoggerWriting(_, draining) => if draining then 2 else 5
    case LoggerHead => 4
    case LoggerPopping => 3
    case LoggerDraining => 1
    case LoggerExited => 0
  }

  function NotesDue(pc: LogicPc): nat {
    if pc.LogicSending? then |pc.todo| else 0
  }

  /** The work left for main, for the parser, for the drone table and for the logger, in this order of weight. */
  datatype Work = Work(
    main: nat,
    raw: nat, sends: nat, parser: nat,
    packets: nat, notes: nat, logic: nat,
    entries: nat, logger: nat)

  function WorkLeft(s: State): Work
    requires s.rawTaken <= |s.net.raw| && s.parsedTaken <= |s.parsed| && s.logTaken <= |s.log|
  {
    Work(5 - s.main.Rank(),
         |s.net.raw| - s.rawTaken, |Pending(s.parser)|, ParserRank(s.parser),
         |s.parsed| - s.parsedTaken, NotesDue(s.logic), LogicRank(s.logic),
         |s.log| - s.logTaken, LoggerRank(s.logger))
  }

  predicate LogLess(a: Work, b: Work) {
    a.entries < b.entries || (a.entries == b.entries && a.logger < b.logger)
  }

  predicate LogicLess(a: Work, b: Work) {
    || a.packets < b.packets
    || (a.packets == b.packets && a.notes < b.notes)
    || (a.packets == b.packets && a.notes == b.notes && a.logic < b.logic)
    || (a.packets == b.packets && a.notes == b.notes && a.logic == b.logic && LogLess(a, b))
  }

  predicate ParserLess(a: Work, b: Work) {
    || a.raw < b.raw
    || (a.raw == b.raw && a.sends < b.sends)
    || (a.raw == b.raw && a.sends == b.sends && a.parser < b.parser)
    || (a.raw == b.raw && a.sends == b.sends && a.parser == b.parser && LogicLess(a, b))
  }

  /** The lexicographic order, which has no infinite descent. */
  predicate Less(a: Work, b: Work) {
    a.main < b.main || (a.main == b.main && ParserLess(a, b))
  }

  lemma Measured(s: State)
    requires Sound(s)
    ensures AllConsistent(s.router.clients)
    ensures s.rawTaken <= |s.net.raw| && s.parsedTaken <= |s.parsed| && s.logTaken <= |s.log|
  {
    hide Disciplined, After, HoldsLatest, TelemetryIn;
    ConsistentIfSound(s);
  }

  lemma ParserWorks(s: State)
    requires ParserReady(s) && AllConsistent(s.router.clients)
    requires s.rawTaken <= |s.net.raw| && s.parsedTaken <= |s.parsed| && s.logTaken <= |s.log|
    ensures var n := ParserNext(s);
            && n.rawTaken <= |n.net.raw| && n.parsedTaken <= |n.parsed| && n.logTaken <= |n.log|
            && Less(WorkLeft(n), WorkLeft(s))
  {
    hide AllConsistent, Deliver, Pushes, LogicLess;
  }

  lemma LogicWorks(s: State, now: int)
    requires LogicReady(s)
    requires s.rawTaken <= |s.net.raw| && s.parsedTaken <= |s.parsed| && s.logTaken <= |s.log|
    ensures var n := LogicNext(s, now);
            && n.rawTaken <= |n.net.raw| && n.parsedTaken <= |n.parsed| && n.logTaken <= |n.log|
            && Less(WorkLeft(n), WorkLeft(s))
  {
    hide Handle, LogLess;
  }

  lemma LoggerWorks(s: State)
    requires LoggerReady(s)
    requires s.rawTaken <= |s.net.raw| && s.parsedTaken <= |s.parsed| && s.logTaken <= |s.log|
    ensures var n := LoggerNext(s);
            && n.rawTaken <= |n.net.raw| && n.parsedTaken <= |n.parsed| && n.logTaken <= |n.log|
            && Less(WorkLeft(n), WorkLeft(s))
  {
  }

  /** Once the listener has ended, every step of any thread leaves less work, whoever is scheduled. */
  lemma EveryStepWorks(s: State, a: Action)
    requires Sound(s) && s.listenerExited && Enabled(s, a)
    ensures AllConsistent(s.router.clients) && Sound(Next(s, a)) && Next(s, a).listenerExited
    ensures !s.main.Waiting? ==> !Next(s, a).main.Waiting?
    ensures s.rawTaken <= |s.net.raw| && s.parsedTaken <= |s.parsed| && s.logTaken <= |s.log|
    ensures var n := Next(s, a);
            && n.rawTaken <= |n.net.raw| && n.parsedTaken <= |n.parsed| && n.logTaken <= |n.log|
            && Less(WorkLeft(n), WorkLeft(s))
  {
    hide Sound, AllConsistent, ParserLess, ParserReady, LogicReady, LoggerReady, ParserNext, LogicNext, LoggerNext;
    SoundStep(s, a);
    Measured(s);
    match a
    case ParserStep =>
      ParserWorks(s);
      StepsLeaveMain(s, a);
    case LogicStep(now) =>
      LogicWorks(s, now);
      StepsLeaveMain(s, a);
    case LoggerStep =>
      LoggerWorks(s);
      StepsLeaveMain(s, a);
    case _ =>
  }

  lemma StepsLeaveMain(s: State, a: Action)
    requires AllConsistent(s.router.clients) && Enabled(s, a) && (a.ParserStep? || a.LogicStep? || a.LoggerStep?)
    ensures Next(s, a).main == s.main && Next(s, a).listenerExited == s.listenerExited
  {
    hide AllConsistent, Deliver, Pushes, Handle;
  }

  /** A schedule: the thread that main waits for takes the next step. */
  ghost function Awaited(time: nat, s: State): Action {
    match s.main
    case Waiting => Interrupt
    case JoiningListener => Join
    case JoiningParser => if s.parser.ParserExited? then Join else ParserStep
    case JoiningLogic => if s.logic.LogicExited? then Join else LogicStep(time)
    case JoiningLogger => if s.logger.LoggerExited? then Join else LoggerStep
    case Done => Join
  }

  /** What is chosen at each moment can happen, until main is done. */
  ghost predicate Schedule(choose: (nat, State) -> Action) {
    forall time, s :: Sound(s) && s.listenerExited && !s.main.Waiting? && !s.main.Done? ==> Enabled(s, choose(time, s))
  }

  /** While main waits to join a thread, either that thread can take a step or it has ended and can be joined. */
  lemma NeverStuck(time: nat, s: State)
    requires Sound(s) && s.listenerExited && !s.main.Done?
    ensures Enabled(s, Awaited(time, s)) && (s.main.Waiting? <==> Awaited(time, s).Interrupt?)
  {
    hide Sound;
  }

  /** So there are schedules. */
  lemma AwaitedIsSchedule()
    ensures Schedule(Awaited)
  {
    hide Sound, Enabled, Awaited;
    forall time, s | Sound(s) && s.listenerExited && !s.main.Waiting? && !s.main.Done?
      ensures Enabled(s, Awaited(time, s))
    {
      NeverStuck(time, s);
    }
  }

  ghost predicate Follows(s: State, actions: seq<Action>, choose: (nat, State) -> Action, time: nat)
    requires Sound(s) && IsRun(s, actions)
    decreases |actions|
  {
    |actions| == 0 ||
    (&& actions[0] == choose(time, s)
     && (SoundStep(s, actions[0]); Follows(Next(s, actions[0]), actions[1..], choose, time + 1)))
  }

  /**
   After the interrupt and the end of the listener, every schedule of the other threads brings main to its end, and by
   then the logger has written every message ever pushed.
   */
  lemma {:induction false} ShutdownCompletes(s: State, choose: (nat, State) -> Action, time: nat)
    returns (actions: seq<Action>)
    requires Sound(s) && s.listenerExited && !s.main.Waiting? && Schedule(choose)
    ensures IsRun(s, actions) && Follows(s, actions, choose, time)
    ensures var n := AfterRun(s, actions); n.main.Done? && n.written == n.log
    decreases
      WorkLeftOf(s).main, WorkLeftOf(s).raw, WorkLeftOf(s).sends, WorkLeftOf(s).parser, WorkLeftOf(s).packets,
      WorkLeftOf(s).notes, WorkLeftOf(s).logic, WorkLeftOf(s).entries, WorkLeftOf(s).logger
  {
    hide Sound, WorkLeft, Next, Enabled, AllConsistent;
    if s.main.Done? {
      actions := [];
      AllWritten(s);
    } else {
      var a := choose(time, s);
      EveryStepWorks(s, a);
      var rest := ShutdownCompletes(Next(s, a), choose, time + 1);
      actions := [a] + rest;
      assert actions[1..] == rest;
    }
  }

  ghost function WorkLeftOf(s: State): Work
    requires Sound(s)
  {
    Measured(s);
    WorkLeft(s)
  }

  lemma AllWritten(s: State)
    requires Sound(s) && s.main.Done?
    ensures s.written == s.log
  {
    hide Disciplined, ParserSound, LogicSound;
    assert s.log[..|s.log|] == s.log;
  }
}
