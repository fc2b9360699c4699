/**
 Further facts about all runs of the pipeline: threads end in the order in which main stops them and not before, the
 log holds what every thread has logged, and while nobody interrupts, everything received can be brought to its end.
 */
module Delivery {
  import opened Codec
  import opened ReferenceParse
  import opened Routing
  import opened Sessions
  import opened DroneTracking
  import opened Listener
  import opened Pipeline
  import opened RoundTrip
  import opened Wrappers
  import opened Bytes

  // ----- the order in which threads end -----

  /** No thread but the listener ends before main has joined the one before it. */
  ghost predicate EndsInOrder(s: State) {
    && (s.parser.ParserFinishing? || s.parser.ParserExited? ==>
          s.listenerExited && s.main != Waiting && s.main != JoiningListener)
    && (s.logic.LogicFinishing? || s.logic.LogicExited? ==>
          s.parser.ParserExited? && s.main != Waiting && s.main != JoiningListener && s.main != JoiningParser)
    && (s.logger.LoggerDraining? || s.logger.LoggerExited? || (s.logger.LoggerWriting? && s.logger.draining) ==>
          s.parser.ParserExited? && s.logic.LogicExited? && (s.main == JoiningLogger || s.main == Done))
  }

  lemma ParserEndsInOrder(s: State)
    requires MainSound(s) && EndsInOrder(s) && ParserReady(s) && AllConsistent(s.router.clients)
    ensures EndsInOrder(ParserNext(s))
  {
    hide AllConsistent, Deliver, Pushes;
  }

  lemma LogicEndsInOrder(s: State, now: int)
    requires MainSound(s) && EndsInOrder(s) && LogicReady(s)
    ensures EndsInOrder(LogicNext(s, now))
  {
    hide Handle;
  }

  lemma LoggerEndsInOrder(s: State)
    requires MainSound(s) && EndsInOrder(s) && LoggerReady(s)
    ensures EndsInOrder(LoggerNext(s))
  {
  }

  lemma EndsInOrderStep(s: State, a: Action)
    requires Sound(s) && EndsInOrder(s) && Enabled(s, a)
    ensures AllConsistent(s.router.clients) && EndsInOrder(Next(s, a))
  {
    hide Disciplined, LogicSound, LoggerSound, ParserSound, AllConsistent, NetAfter, NetEnabled;
    hide ParserNext, LogicNext, LoggerNext, ParserReady, LogicReady, LoggerReady;
    ConsistentIfSound(s);
    match a
    case ParserStep => ParserEndsInOrder(s);
    case LogicStep(now) => LogicEndsInOrder(s, now);
    case LoggerStep => LoggerEndsInOrder(s);
    case _ =>
  }

  /** In every run, threads end in order. */
  lemma {:induction false} EndsInOrderAlways(s: State, actions: seq<Action>)
    requires Sound(s) && EndsInOrder(s) && IsRun(s, actions)
    ensures EndsInOrder(AfterRun(s, actions))
    decreases |actions|
  {
    hide Sound, EndsInOrder, Next, Enabled, AllConsistent;
    if |actions| > 0 {
      SoundStep(s, actions[0]);
      EndsInOrderStep(s, actions[0]);
      EndsInOrderAlways(Next(s, actions[0]), actions[1..]);
    }
  }

  /** As long as main waits for the interrupt, the parser, the drone table and the logger go on. */
  lemma NobodyEndsEarly(actions: seq<Action>)
    requires IsRun(Beginning(), actions)
    ensures EndsInOrder(AfterRun(Beginning(), actions))
    ensures AfterRun(Beginning(), actions).main == Waiting ==>
              var s := AfterRun(Beginning(), actions);
              && !s.parser.ParserFinishing? && !s.parser.ParserExited?
              && !s.logic.LogicFinishing? && !s.logic.LogicExited?
              && !s.logger.LoggerDraining? && !s.logger.LoggerExited?
  {
    hide Sound, IsRun, AfterRun;
    EndsInOrderAlways(Beginning(), actions);
  }

  /**
   The loops: at its head, a thread goes on to pop unless main has come to stop it; a pop takes what there is, stopped
   or not, ends the loop if there is nothing and the thread is stopped, and blocks otherwise.
   */
  lemma ParserLoop(s: State)
    requires AllConsistent(s.router.clients)
    ensures var stopped := s.main != Waiting && s.main != JoiningListener;
            && (s.parser == ParserHead ==>
                  ParserReady(s) && ParserNext(s) == s.(parser := if stopped then ParserFinishing else ParserPopping))
            && (s.parser == ParserPopping ==>
                  && (ParserReady(s) <==> s.rawTaken < |s.net.raw| || stopped)
                  && (s.rawTaken < |s.net.raw| ==>
                        ParserNext(s).rawTaken == s.rawTaken + 1 && ParserNext(s).parser.ParserSending?)
                  && (s.rawTaken >= |s.net.raw| && stopped ==> ParserNext(s) == s.(parser := ParserFinishing)))
  {
    hide AllConsistent, Deliver, Pushes;
  }

  lemma LogicLoop(s: State, now: int)
    ensures var stopped := s.main == JoiningLogic || s.main == JoiningLogger || s.main == Done;
            && (s.logic == LogicHead ==>
                  LogicReady(s) && LogicNext(s, now) == s.(logic := if stopped then LogicFinishing else LogicPopping))
            && (s.logic == LogicPopping ==>
                  && (LogicReady(s) <==> s.parsedTaken < |s.parsed| || stopped)
                  && (s.parsedTaken < |s.parsed| ==>
                        LogicNext(s, now).parsedTaken == s.parsedTaken + 1 && LogicNext(s, now).logic.LogicSending?)
                  && (s.parsedTaken >= |s.parsed| && stopped ==> LogicNext(s, now) == s.(logic := LogicFinishing)))
  {
    hide Handle;
  }

  lemma LoggerLoop(s: State)
    ensures var stopped := s.main == JoiningLogger || s.main == Done;
            && (s.logger == LoggerHead ==>
                  LoggerReady(s) && LoggerNext(s) == s.(logger := if stopped then LoggerDraining else LoggerPopping))
            && (s.logger == LoggerPopping ==>
                  && (LoggerReady(s) <==> s.logTaken < |s.log| || stopped)
                  && (s.logTaken < |s.log| ==> LoggerNext(s).logTaken == s.logTaken + 1)
                  && (s.logTaken >= |s.log| && stopped ==> LoggerNext(s) == s.(logger := LoggerDraining)))
            && (s.logger == LoggerDraining ==>
                  && LoggerReady(s)
                  && (s.logTaken < |s.log| ==> LoggerNext(s).logTaken == s.logTaken + 1)
                  && (s.logTaken >= |s.log| ==> LoggerNext(s) == s.(logger := LoggerExited)))
  {
  }

  // ----- while nobody interrupts, everything can be brought to its end -----

  lemma {:induction false} RunConcat(s: State, first: seq<Action>, second: seq<Action>)
    requires Sound(s) && IsRun(s, first) && IsRun(AfterRun(s, first), second)
    ensures IsRun(s, first + second) && AfterRun(s, first + second) == AfterRun(AfterRun(s, first), second)
    decreases |first|
  {
    hide Sound, Next, Enabled, AllConsistent;
    if |first| == 0 {
      assert first + second == second;
    } else {
      SoundStep(s, first[0]);
      assert (first + second)[1..] == first[1..] + second;
      RunConcat(Next(s, first[0]), first[1..], second);
    }
  }

  lemma RunOne(s: State, a: Action, rest: seq<Action>)
    requires Sound(s) && Enabled(s, a) && AllConsistent(s.router.clients)
    requires Sound(Next(s, a)) && IsRun(Next(s, a), rest)
    ensures IsRun(s, [a] + rest) && AfterRun(s, [a] + rest) == AfterRun(Next(s, a), rest)
  {
    hide Sound, Next, Enabled, AllConsistent;
    assert ([a] + rest)[1..] == rest;
  }

  ghost predicate ParserAlive(s: State) {
    s.main == Waiting && !s.parser.ParserFinishing? && !s.parser.ParserExited?
  }

  /** The parser has taken and pushed everything, and waits for more. */
  predicate ParserIdle(s: State) {
    s.parser == ParserPopping && s.rawTaken >= |s.net.raw|
  }

  /** What a step of the parser leaves as it is. */
  ghost predicate ParserStepsOnly(s: State, n: State) {
    && n.net == s.net && n.main == s.main && n.logic == s.logic && n.parsedTaken == s.parsedTaken
    && n.tracker == s.tracker && n.logger == s.logger && n.listenerExited == s.listenerExited
  }

  lemma ParserGoesOn(s: State)
    requires Sound(s) && ParserAlive(s) && !ParserIdle(s)
    ensures AllConsistent(s.router.clients) && Enabled(s, ParserStep)
    ensures var n := Next(s, ParserStep); Sound(n) && ParserAlive(n) && ParserStepsOnly(s, n)
    ensures Less(WorkLeftOf(Next(s, ParserStep)), WorkLeftOf(s))
  {
    hide Sound, AllConsistent, Deliver, Pushes, Less;
    Measured(s);
    SoundStep(s, ParserStep);
    ParserWorks(s);
  }

  /** From any state before the interrupt, steps of the parser alone take and push everything received so far. */
  lemma {:induction false} ParserCatchesUp(s: State) returns (actions: seq<Action>)
    requires Sound(s) && ParserAlive(s)
    ensures IsRun(s, actions) && forall i :: 0 <= i < |actions| ==> actions[i] == ParserStep
    ensures var n := AfterRun(s, actions);
            && n.rawTaken == |n.net.raw| && n.parser == ParserPopping && ParserStepsOnly(s, n)
    decreases
      WorkLeftOf(s).main, WorkLeftOf(s).raw, WorkLeftOf(s).sends, WorkLeftOf(s).parser, WorkLeftOf(s).packets,
      WorkLeftOf(s).notes, WorkLeftOf(s).logic, WorkLeftOf(s).entries, WorkLeftOf(s).logger
  {
    hide Sound, WorkLeft, Next, Enabled, AllConsistent;
    Measured(s);
    if ParserIdle(s) {
      actions := [];
    } else {
      ParserGoesOn(s);
      var rest := ParserCatchesUp(Next(s, ParserStep));
      actions := [ParserStep] + rest;
      RunOne(s, ParserStep, rest);
    }
  }

  ghost predicate LogicAlive(s: State) {
    s.main == Waiting && !s.logic.LogicFinishing? && !s.logic.LogicExited?
  }

  predicate LogicIdle(s: State) {
    s.logic == LogicPopping && s.parsedTaken >= |s.parsed|
  }

  ghost predicate LogicStepsOnly(s: State, n: State) {
    && n.net == s.net && n.main == s.main && n.parser == s.parser && n.router == s.router && n.rawTaken == s.rawTaken
    && n.parsed == s.parsed && n.logger == s.logger && n.listenerExited == s.listenerExited
  }

  lemma LogicGoesOn(s: State, now: int)
    requires Sound(s) && LogicAlive(s) && !LogicIdle(s)
    ensures AllConsistent(s.router.clients) && Enabled(s, LogicStep(now))
    ensures var n := Next(s, LogicStep(now)); Sound(n) && LogicAlive(n) && LogicStepsOnly(s, n)
    ensures Less(WorkLeftOf(Next(s, LogicStep(now))), WorkLeftOf(s))
  {
    hide Sound, AllConsistent, Handle, Less;
    Measured(s);
    SoundStep(s, LogicStep(now));
    LogicWorks(s, now);
  }

  /** Likewise the drone table takes every packet pushed so far. */
  lemma {:induction false} LogicCatchesUp(s: State, now: int) returns (actions: seq<Action>)
    requires Sound(s) && LogicAlive(s)
    ensures IsRun(s, actions) && forall i :: 0 <= i < |actions| ==> actions[i] == LogicStep(now)
    ensures var n := AfterRun(s, actions);
            n.parsedTaken == |n.parsed| && n.logic == LogicPopping && LogicStepsOnly(s, n)
    decreases
      WorkLeftOf(s).main, WorkLeftOf(s).raw, WorkLeftOf(s).sends, WorkLeftOf(s).parser, WorkLeftOf(s).packets,
      WorkLeftOf(s).notes, WorkLeftOf(s).logic, WorkLeftOf(s).entries, WorkLeftOf(s).logger
  {
    hide Sound, WorkLeft, Next, Enabled, AllConsistent;
    Measured(s);
    if LogicIdle(s) {
      actions := [];
    } else {
      LogicGoesOn(s, now);
      var rest := LogicCatchesUp(Next(s, LogicStep(now)), now);
      actions := [LogicStep(now)] + rest;
      RunOne(s, LogicStep(now), rest);
    }
  }

  ghost predicate LoggerAlive(s: State) {
    && s.main == Waiting
    && (s.logger.LoggerHead? || s.logger.LoggerPopping? || (s.logger.LoggerWriting? && !s.logger.draining))
  }

  predicate LoggerIdle(s: State) {
    s.logger == LoggerPopping && s.logTaken >= |s.log|
  }

  /** Steps of the logger leave everything as it is but the logger. */
  ghost predicate LoggerStepsOnly(s: State, n: State) {
    n == s.(logger := n.logger, logTaken := n.logTaken, written := n.written)
  }

  lemma LoggerGoesOn(s: State)
    requires Sound(s) && LoggerAlive(s) && !LoggerIdle(s)
    ensures AllConsistent(s.router.clients) && Enabled(s, LoggerStep)
    ensures var n := Next(s, LoggerStep); Sound(n) && LoggerAlive(n) && LoggerStepsOnly(s, n)
    ensures Less(WorkLeftOf(Next(s, LoggerStep)), WorkLeftOf(s))
  {
    hide Sound, AllConsistent, Less;
    Measured(s);
    SoundStep(s, LoggerStep);
    LoggerWorks(s);
  }

  lemma WrittenWhenIdle(s: State)
    requires Sound(s) && LoggerIdle(s)
    ensures s.written == s.log
  {
    hide Disciplined, ParserSound, LogicSound, MainSound;
    assert s.log[..s.logTaken] == s.log;
  }

  /** Likewise the logger writes every message pushed so far. */
  lemma {:induction false} LoggerCatchesUp(s: State) returns (actions: seq<Action>)
    requires Sound(s) && LoggerAlive(s)
    ensures IsRun(s, actions) && forall i :: 0 <= i < |actions| ==> actions[i] == LoggerStep
    ensures var n := AfterRun(s, actions); n.written == n.log && LoggerStepsOnly(s, n)
    decreases
      WorkLeftOf(s).main, WorkLeftOf(s).raw, WorkLeftOf(s).sends, WorkLeftOf(s).parser, WorkLeftOf(s).packets,
      WorkLeftOf(s).notes, WorkLeftOf(s).logic, WorkLeftOf(s).entries, WorkLeftOf(s).logger
  {
    hide Sound, WorkLeft, Next, Enabled, AllConsistent;
    if LoggerIdle(s) {
      actions := [];
      WrittenWhenIdle(s);
    } else {
      LoggerGoesOn(s);
      var rest := LoggerCatchesUp(Next(s, LoggerStep));
      actions := [LoggerStep] + rest;
      RunOne(s, LoggerStep, rest);
    }
  }

  predicate WorkerStep(a: Action) {
    a.ParserStep? || a.LogicStep? || a.LoggerStep?
  }

  /** The parser, then the drone table, then the logger. */
  lemma WorkersCatchUp(s: State, now: int) returns (actions: seq<Action>)
    requires Sound(s) && EndsInOrder(s) && s.main == Waiting
    ensures IsRun(s, actions) && forall i :: 0 <= i < |actions| ==> WorkerStep(actions[i])
    ensures var n := AfterRun(s, actions);
            && n.net == s.net && n.rawTaken == |n.net.raw| && n.parser == ParserPopping
            && n.parsedTaken == |n.parsed| && n.written == n.log
  {
    hide Sound, IsRun, AfterRun;
    var first := ParserCatchesUp(s);
    var parsed := AfterRun(s, first);
    var second := LogicCatchesUp(parsed, now);
    var tracked := AfterRun(parsed, second);
    var third := LoggerCatchesUp(tracked);
    RunConcat(parsed, second, third);
    RunConcat(s, first, second + third);
    actions := first + (second + third);
  }

  /**
   Delivery: from any state that the program reaches before it is interrupted, and whatever has been received so far,
   the parser, the drone table and the logger can go on by themselves to a state in which the table holds the latest
   packet of every drone in the reference scans of all sessions, and every message has been written.
   */
  lemma EverythingReceivedIsDelivered(past: seq<Action>, now: int) returns (actions: seq<Action>)
    requires IsRun(Beginning(), past) && AfterRun(Beginning(), past).main == Waiting
    ensures forall i :: 0 <= i < |actions| ==> WorkerStep(actions[i])
    ensures var s := AfterRun(Beginning(), past);
            && IsRun(s, actions)
            && var n := AfterRun(s, actions);
               && n.net == s.net
               && HoldsLatest(n.tracker.drones, Telemetries(Untag(TaggedEvents(s.net.raw))))
               && n.written == n.log
  {
    hide IsRun, AfterRun, Sound, HoldsLatest, Telemetries, TaggedEvents, Untag;
    var s := AfterRun(Beginning(), past);
    EndsInOrderAlways(Beginning(), past);
    actions := WorkersCatchUp(s, now);
    DeliveredWhenIdle(AfterRun(s, actions));
  }

  lemma DeliveredWhenIdle(n: State)
    requires Sound(n) && n.rawTaken == |n.net.raw| && n.parser == ParserPopping && n.parsedTaken == |n.parsed|
    ensures HoldsLatest(n.tracker.drones, Telemetries(Untag(TaggedEvents(n.net.raw))))
  {
    hide Disciplined, LoggerSound, MainSound, After, TelemetryIn, Telemetries, TaggedEvents, Untag, HoldsLatest;
    assert n.net.raw[..n.rawTaken] == n.net.raw && n.parsed[..n.parsedTaken] == n.parsed;
    BookOfEvents(n.net.raw);
    NothingSent();
    assert n.parsed + [] == n.parsed;
  }

  // ----- a packet that was received is in the table -----

  /** The chunk of a packet on its own yields the packet. */
  lemma PacketChunk(fd: int, payload: seq<byte>, t: Telemetry)
    requires 1 <= |payload| <= 256 && Deserialize(payload) == Some(t)
    ensures var frame := Frame(payload);
            && 1 <= |frame| <= 4096
            && Telemetries(Untag(TaggedEvents([DataChunk(fd, frame)]))) == [t]
  {
    hide Deserialize, Frame, After, EventsOf, Parse, SessionsOf, TaggedEvents, Untag, Telemetries;
    var frame := Frame(payload);
    var chunk := DataChunk(fd, frame);
    FrameIsTaken(payload, []);
    assert frame + [] == frame;
    EmptyScan();
    var e := Emitted(payload, t);
    assert [e] + [] == [e];
    assert [] + [chunk] == [chunk];
    UntagOneMore([], chunk);
    NothingYet(fd);
    LeftoverBound([]);
    assert NoOverflow([]) && FitsSession(OpenSession([], fd), frame);
    EventsContinue([], chunk);
    assert [] + frame == frame;
    OneEmitted(e);
  }

  lemma OneEmitted(e: Event)
    ensures Telemetries([e]) == if e.Emitted? then [e.telemetry] else []
    ensures [] + [e] == [e] && Untag([]) == []
  {
    assert [e][1..] == [];
  }

  /**
   From the beginning: one connection, on any socket, on which one packet is received. The threads can go on so that
   the table holds the packet, and nothing else.
   */
  lemma PacketReachesTable(fd: int, payload: seq<byte>, t: Telemetry, now: int) returns (actions: seq<Action>)
    requires 1 <= |payload| <= 256 && Deserialize(payload) == Some(t)
    ensures IsRun(Beginning(), actions)
    ensures AfterRun(Beginning(), actions).tracker.drones == map[t.drone_id := t]
  {
    hide Deserialize, Frame, IsRun, AfterRun, Sound, Telemetries, Untag, TaggedEvents, HoldsLatest;
    PacketChunk(fd, payload, t);
    var accept, receive := ListenerStep(OpAccept(fd)), ListenerStep(OpReceive(fd, Frame(payload)));
    var past := ReceiveOne(fd, Frame(payload));
    var later := EverythingReceivedIsDelivered(past, now);
    RunConcat(Beginning(), past, later);
    actions := past + later;
    OnlyOneDrone(AfterRun(Beginning(), actions).tracker.drones, t);
  }

  lemma OnlyOneDrone(drones: map<seq<byte>, Telemetry>, t: Telemetry)
    requires HoldsLatest(drones, [t])
    ensures drones == map[t.drone_id := t]
  {
    assert Latest([t], 0);
    assert [t][0].drone_id in drones;
  }

  /** A connection is accepted and some bytes are received on it. */
  lemma ReceiveOne(fd: int, data: seq<byte>) returns (actions: seq<Action>)
    requires 1 <= |data| <= 4096
    ensures IsRun(Beginning(), actions)
    ensures var s := AfterRun(Beginning(), actions); s.main == Waiting && s.net.raw == [DataChunk(fd, data)]
  {
    hide Sound, IsRun, AfterRun;
    var s0 := Beginning();
    var accept, receive := ListenerStep(OpAccept(fd)), ListenerStep(OpReceive(fd, data));
    SoundStep(s0, accept);
    var s1 := Next(s0, accept);
    SoundStep(s1, receive);
    var s2 := Next(s1, receive);
    NoActions(s2);
    RunOne(s1, receive, []);
    RunOne(s0, accept, [receive] + []);
    actions := [accept] + ([receive] + []);
  }

  lemma NoActions(s: State)
    requires Sound(s)
    ensures IsRun(s, []) && AfterRun(s, []) == s
  {
    hide Sound;
  }

  // ----- the log holds what every thread has logged -----

  function ListenerPart(log: seq<Entry>): seq<ListenerNote>
    decreases |log|
  {
    if |log| == 0 then []
    else
      var last := log[|log| - 1];
      ListenerPart(log[..|log| - 1]) + if last.FromListener? then [last.l] else []
  }

  function ParserPart(log: seq<Entry>): seq<LogMessage>
    decreases |log|
  {
    if |log| == 0 then []
    else
      var last := log[|log| - 1];
      ParserPart(log[..|log| - 1]) + if last.FromParser? then [last.p] else []
  }

  function LogicPart(log: seq<Entry>): seq<Note>
    decreases |log|
  {
    if |log| == 0 then []
    else
      var last := log[|log| - 1];
      LogicPart(log[..|log| - 1]) + if last.FromLogic? then [last.n] else []
  }

  lemma OneMoreEntry(log: seq<Entry>, e: Entry)
    ensures ListenerPart(log + [e]) == ListenerPart(log) + if e.FromListener? then [e.l] else []
    ensures ParserPart(log + [e]) == ParserPart(log) + if e.FromParser? then [e.p] else []
    ensures LogicPart(log + [e]) == LogicPart(log) + if e.FromLogic? then [e.n] else []
  {
    assert (log + [e])[..|log|] == log;
  }

  function NotesDueOf(pc: LogicPc): seq<Note> {
    if pc.LogicSending? then pc.todo else []
  }

  /** What the parser thread logs up to where it is: its first message, those of its chunks, and its last message. */
  function ParserSays(pc: ParserPc, book: Book): seq<LogMessage> {
    (if pc.ParserStarting? then [] else [Running]) + book.log +
    (if pc.ParserExited? then [ShuttingDown(book.failures)] else [])
  }

  ghost predicate ParserLogged(s: State) {
    ParserPart(s.log) + MessagesIn(Pending(s.parser)) == ParserSays(s.parser, s.router.book)
  }

  ghost predicate LogicLogged(s: State) {
    LogicPart(s.log) + NotesDueOf(s.logic) == s.tracker.notes
  }

  /** The log, and what is about to be pushed onto it, is what the listener, the parser and the drone table logged. */
  ghost predicate AllLogged(s: State) {
    ListenerPart(s.log) == s.net.notes && ParserLogged(s) && LogicLogged(s)
  }

  lemma ParserRoundLogged(s: State)
    requires ParserLogged(s) && s.parser.ParserPopping? && s.rawTaken < |s.net.raw| && AllConsistent(s.router.clients)
    ensures ParserLogged(ParserRound(s)) && ParserRound(s).log == s.log
  {
    hide Deliver, Pushes, AllConsistent, ParserPart, MessagesIn;
    NothingSaid();
    assert ParserPart(s.log) + [] == ParserPart(s.log);
    PushesFollowBook(s.router, s.net.raw[s.rawTaken]);
    var book, said := s.router.book.log, MessagesIn(Pushes(s.router, s.net.raw[s.rawTaken]));
    assert [Running] + (book + said) + [] == ([Running] + book + []) + said;
  }

  lemma ParserSendsLogged(s: State)
    requires ParserLogged(s) && s.parser.ParserSending? && |s.parser.todo| > 0
    ensures ParserLogged(ParserSends(s, s.parser.todo))
    ensures ListenerPart(ParserSends(s, s.parser.todo).log) == ListenerPart(s.log)
    ensures LogicPart(ParserSends(s, s.parser.todo).log) == LogicPart(s.log)
  {
    hide ListenerPart, ParserPart, LogicPart, MessagesIn;
    var p, todo := ParserPart(s.log), s.parser.todo;
    FirstSaid(todo);
    if todo[0].Say? {
      OneMoreEntry(s.log, FromParser(todo[0].m));
      assert (p + [todo[0].m]) + MessagesIn(todo[1..]) == p + ([todo[0].m] + MessagesIn(todo[1..]));
    } else {
      assert [] + MessagesIn(todo[1..]) == MessagesIn(todo[1..]);
    }
  }

  lemma ParserStepLogged(s: State)
    requires ParserLogged(s) && ParserReady(s) && AllConsistent(s.router.clients)
    requires s.parser.ParserStarting? ==> s.router.book.log == []
    ensures ParserLogged(ParserNext(s))
    ensures ListenerPart(ParserNext(s).log) == ListenerPart(s.log) && LogicPart(ParserNext(s).log) == LogicPart(s.log)
  {
    hide ParserRound, ParserSends, AllConsistent, ListenerPart, ParserPart, LogicPart, MessagesIn;
    NothingSaid();
    assert ParserPart(s.log) + [] == ParserPart(s.log);
    if s.parser.ParserStarting? {
      OneMoreEntry(s.log, FromParser(Running));
    } else if s.parser.ParserPopping? && s.rawTaken < |s.net.raw| {
      ParserRoundLogged(s);
    } else if s.parser.ParserSending? && |s.parser.todo| > 0 {
      ParserSendsLogged(s);
    } else if s.parser.ParserFinishing? {
      OneMoreEntry(s.log, FromParser(ShuttingDown(s.router.book.failures)));
    }
  }

  lemma NothingSaid()
    ensures MessagesIn([]) == []
  {
  }

  lemma FirstSaid(todo: seq<Push>)
    requires |todo| > 0
    ensures MessagesIn(todo) == (if todo[0].Say? then [todo[0].m] else []) + MessagesIn(todo[1..])
  {
  }

  lemma LogicStepLogged(s: State, now: int)
    requires LogicLogged(s) && LogicReady(s) && s.parsedTaken <= |s.parsed|
    ensures LogicLogged(LogicNext(s, now))
    ensures ListenerPart(LogicNext(s, now).log) == ListenerPart(s.log)
    ensures ParserPart(LogicNext(s, now).log) == ParserPart(s.log)
  {
    hide Handle, ListenerPart, ParserPart, LogicPart;
    var log, l := s.log, LogicPart(s.log);
    assert l + [] == l;
    match s.logic
    case LogicStarting => OneMoreEntry(log, FromLogic(LogicRunning));
    case LogicHead =>
    case LogicPopping =>
      if s.parsedTaken < |s.parsed| {
        var k := Handle(s.tracker, Timed(s.parsed[s.parsedTaken], now));
        assert k.notes == s.tracker.notes + k.notes[|s.tracker.notes|..];
      }
    case LogicSending(todo) =>
      if |todo| > 0 {
        OneMoreEntry(log, FromLogic(todo[0]));
        assert (l + [todo[0]]) + todo[1..] == l + todo;
      }
    case LogicFinishing => OneMoreEntry(log, FromLogic(LogicShuttingDown(s.tracker.processed, |s.tracker.drones|)));
    case LogicExited =>
  }

  lemma ListenerStepLogged(s: State, op: NetOp)
    requires NetEnabled(s.net, op) && ListenerPart(s.log) == s.net.notes
    ensures var n := ListenerNext(s, op);
            && ListenerPart(n.log) == n.net.notes && ParserPart(n.log) == ParserPart(s.log)
            && LogicPart(n.log) == LogicPart(s.log)
  {
    hide ListenerPart, ParserPart, LogicPart;
    if op.OpSay? {
      OneMoreEntry(s.log, FromListener(op.note));
    }
  }

  /** Before the parser has begun, it has no book. */
  ghost predicate BookBegins(s: State) {
    s.parser.ParserStarting? ==> s.rawTaken == 0
  }

  lemma AllLoggedStep(s: State, a: Action)
    requires Sound(s) && AllLogged(s) && BookBegins(s) && Enabled(s, a)
    ensures AllConsistent(s.router.clients) && AllLogged(Next(s, a)) && BookBegins(Next(s, a))
  {
    hide Sound, AllConsistent, ListenerPart, ParserPart, LogicPart, MessagesIn, ParserSays, BookBegins;
    hide ParserReady, LogicReady, LoggerReady, NetEnabled, ParserNext, LogicNext, ListenerNext;
    Measured(s);
    BookBeginsStep(s, a);
    match a
    case ParserStep =>
      FreshBook(s);
      ParserStepLogged(s);
      ParserLeaves(s);
    case LogicStep(now) =>
      LogicStepLogged(s, now);
      LogicLeaves(s, now);
    case ListenerStep(op) =>
      ListenerStepLogged(s, op);
      ListenerLeaves(s, op);
    case _ =>
  }

  lemma BookBeginsStep(s: State, a: Action)
    requires BookBegins(s) && Enabled(s, a) && AllConsistent(s.router.clients)
    ensures BookBegins(Next(s, a))
  {
    hide AllConsistent, Deliver, Pushes, Handle, NetAfter, NetEnabled;
  }

  lemma ParserLeaves(s: State)
    requires ParserReady(s) && AllConsistent(s.router.clients)
    ensures var n := ParserNext(s); n.net == s.net && n.logic == s.logic && n.tracker == s.tracker
  {
    hide AllConsistent, Deliver, Pushes;
  }

  lemma LogicLeaves(s: State, now: int)
    requires LogicReady(s)
    ensures var n := LogicNext(s, now); n.net == s.net && n.parser == s.parser && n.router == s.router
  {
    hide Handle;
  }

  lemma ListenerLeaves(s: State, op: NetOp)
    requires NetEnabled(s.net, op)
    ensures var n := ListenerNext(s, op);
            n.parser == s.parser && n.router == s.router && n.logic == s.logic && n.tracker == s.tracker
  {
    hide NetAfter;
  }

  lemma FreshBook(s: State)
    requires Sound(s) && BookBegins(s)
    ensures s.parser.ParserStarting? ==> s.router.book.log == []
  {
    hide Disciplined, LogicSound, LoggerSound, MainSound, TelemetryIn, NoDrop, After;
    NothingYet(0);
    if s.parser.ParserStarting? {
      assert s.net.raw[..s.rawTaken] == [];
    }
  }

  lemma {:induction false} AllLoggedAlways(s: State, actions: seq<Action>)
    requires Sound(s) && AllLogged(s) && BookBegins(s) && IsRun(s, actions)
    ensures AllLogged(AfterRun(s, actions))
    decreases |actions|
  {
    hide Sound, AllLogged, BookBegins, Next, Enabled, AllConsistent;
    if |actions| > 0 {
      SoundStep(s, actions[0]);
      AllLoggedStep(s, actions[0]);
      AllLoggedAlways(Next(s, actions[0]), actions[1..]);
    }
  }

  /**
   The whole log, after any run in which main has come to its end: what was written holds, in order, every message of
   the listener, of the parser from its first to its last, and of the drone table.
   */
  lemma FinalLog(actions: seq<Action>)
    requires IsRun(Beginning(), actions) && AfterRun(Beginning(), actions).main == Done
    ensures var s := AfterRun(Beginning(), actions);
            && ListenerPart(s.written) == s.net.notes
            && ParserPart(s.written) == [Running] + s.router.book.log + [ShuttingDown(s.router.book.failures)]
            && LogicPart(s.written) == s.tracker.notes
  {
    hide IsRun, AfterRun, Sound, ListenerPart, ParserPart, LogicPart;
    NothingLogged();
    AllLoggedAlways(Beginning(), actions);
    var s := AfterRun(Beginning(), actions);
    AllWritten(s);
    AllEnded(s);
    NothingSaid();
    assert ParserPart(s.log) + [] == ParserPart(s.log);
    assert LogicPart(s.log) + [] == LogicPart(s.log);
  }

  lemma NothingLogged()
    ensures AllLogged(BEGINNING) && BookBegins(BEGINNING)
  {
  }

  lemma AllEnded(s: State)
    requires Sound(s) && s.main == Done
    ensures s.parser == ParserExited && s.logic == LogicExited
  {
    hide Disciplined, ParserSound, LogicSound, LoggerSound;
  }
}
