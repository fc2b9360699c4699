/**
 The network listener: what accepting, receiving and disconnecting put on the raw queue. What the kernel returns is
 input. Each accepted connection keeps its own record of the bytes received on it, so that sessions, which are cut out
 of the queue by socket number, can be compared with connections even when a socket number is used again.
 */
module Listener {
  import opened Bytes
  import opened Routing
  import opened Sequences
  import opened Sessions

  /** The size of the receive buffer, hence of the longest chunk. */
  const RECV_BUF_SIZE: nat := 4096

  datatype ListenerNote =
    | Listening
    | AcceptFailed
    | NonblockingFailed(fd: int)
    | RegistrationFailed(fd: int)
    | Connected(fd: int)
    | ReceiveFailed(fd: int)
    | Disconnected(fd: int)
    | WaitFailed
    | ListenerShuttingDown

  /**
   Connections in the order of their acceptance: their socket numbers, and the bytes received on each; which of them
   is open on a socket; and everything pushed onto the raw queue and the log queue so far.
   */
  datatype Net = Net(
    fds: seq<int>,
    received: seq<seq<byte>>,
    open: map<int, nat>,
    raw: seq<DataChunk>,
    notes: seq<ListenerNote>)
  {
    function Say(note: ListenerNote): Net {
      this.(notes := notes + [note])
    }

    predicate Wellformed() {
      && |fds| == |received|
      && (forall fd :: fd in open ==> open[fd] < |fds| && fds[open[fd]] == fd)
    }
  }

  const IDLE: Net := Net([], [], map[], [], [])

  function Accept(net: Net, fd: int): Net {
    net.(fds := net.fds + [fd], received := net.received + [[]], open := net.open[fd := |net.fds|])
  }

  function Receive(net: Net, fd: int, data: seq<byte>): Net
    requires net.Wellformed() && fd in net.open
  {
    var c := net.open[fd];
    net.(received := net.received[c := net.received[c] + data], raw := net.raw + [DataChunk(fd, data)])
  }

  function Disconnect(net: Net, fd: int): Net {
    net.(open := net.open - {fd}, raw := net.raw + [DataChunk(fd, [])])
  }

  // ----- sessions are connections -----

  /** How many of these sockets are `fd`. */
  function Count(fds: seq<int>, fd: int): nat
    decreases |fds|
  {
    if |fds| == 0 then 0 else Count(fds[..|fds| - 1], fd) + if fds[|fds| - 1] == fd then 1 else 0
  }

  /** The number of connection `c` among those of its socket. */
  function Turn(fds: seq<int>, c: nat): nat
    requires c < |fds|
  {
    Count(fds[..c], fds[c])
  }

  lemma {:induction false} CountOfPrefix(fds: seq<int>, n: nat, fd: int)
    requires n <= |fds|
    ensures Count(fds[..n], fd) <= Count(fds, fd)
    ensures n < |fds| && fds[n] == fd ==> Count(fds[..n], fd) < Count(fds, fd)
    decreases |fds|
  {
    if n < |fds| {
      var shorter := fds[..|fds| - 1];
      assert shorter[..n] == fds[..n];
      CountOfPrefix(shorter, n, fd);
    } else {
      assert fds[..n] == fds;
    }
  }

  /** Every number below the count belongs to a connection. */
  lemma {:induction false} ConnectionWithTurn(fds: seq<int>, fd: int, n: nat) returns (c: nat)
    requires n < Count(fds, fd)
    ensures c < |fds| && fds[c] == fd && Turn(fds, c) == n
    decreases |fds|
  {
    var last := |fds| - 1;
    if n < Count(fds[..last], fd) {
      c := ConnectionWithTurn(fds[..last], fd, n);
      assert fds[..last][..c] == fds[..c];
    } else {
      c := last;
    }
  }

  /** Connections of one socket have different numbers. */
  lemma TurnsDiffer(fds: seq<int>, c: nat, d: nat)
    requires c < d < |fds| && fds[c] == fds[d]
    ensures Turn(fds, c) < Turn(fds, d)
  {
    assert fds[..d][..c] == fds[..c];
    CountOfPrefix(fds[..d], c, fds[c]);
  }

  lemma CountOneMore(fds: seq<int>, fd: int, other: int)
    ensures Count(fds + [fd], other) == Count(fds, other) + if fd == other then 1 else 0
  {
    assert (fds + [fd])[..|fds|] == fds;
  }

  /** The sessions of `fd` are its connections so far, and an empty one to come if none is open. */
  ghost predicate SessionsCounted(net: Net, fd: int) {
    var sessions := SessionsOf(net.raw, fd);
    && |sessions| == Count(net.fds, fd) + (if fd in net.open then 0 else 1)
    && (fd !in net.open ==> sessions[|sessions| - 1] == [])
  }

  /** Session number `Turn` of its socket is what was received on connection `c`. */
  ghost predicate SessionIsConnection(net: Net, c: nat)
    requires c < |net.fds| == |net.received|
  {
    var sessions := SessionsOf(net.raw, net.fds[c]);
    Turn(net.fds, c) < |sessions| && sessions[Turn(net.fds, c)] == net.received[c]
  }

  ghost predicate Disciplined(net: Net) {
    && net.Wellformed()
    && (forall fd :: fd in net.open ==> Turn(net.fds, net.open[fd]) + 1 == Count(net.fds, fd))
    && (forall fd :: SessionsCounted(net, fd))
    && (forall c :: 0 <= c < |net.fds| ==> SessionIsConnection(net, c))
    && (forall i :: 0 <= i < |net.raw| ==> |net.raw[i].data| <= RECV_BUF_SIZE)
  }

  lemma IdleDisciplined()
    ensures Disciplined(IDLE)
  {
  }

  lemma AcceptDisciplined(net: Net, fd: int)
    requires Disciplined(net) && fd !in net.open
    ensures Disciplined(Accept(net, fd))
  {
    hide SessionsOf, Count;
    var n := Accept(net, fd);
    forall other ensures SessionsCounted(n, other) {
      assert SessionsCounted(net, other);
      CountOneMore(net.fds, fd, other);
    }
    forall c | 0 <= c <= |net.fds| ensures n.fds[..c] == net.fds[..c] {
    }
    assert SessionsCounted(net, fd);
    forall c | 0 <= c < |n.fds| ensures SessionIsConnection(n, c) {
      if c < |net.fds| {
        assert SessionIsConnection(net, c);
      }
    }
    forall other | other in n.open ensures Turn(n.fds, n.open[other]) + 1 == Count(n.fds, other) {
      CountOneMore(net.fds, fd, other);
    }
  }

  lemma ReceiveDisciplined(net: Net, fd: int, data: seq<byte>)
    requires Disciplined(net) && fd in net.open && 1 <= |data| <= RECV_BUF_SIZE
    ensures Disciplined(Receive(net, fd, data))
  {
    hide SessionsOf, Count, Turn;
    var n, open := Receive(net, fd, data), net.open[fd];
    forall other ensures SessionsCounted(n, other) {
      assert SessionsCounted(net, other);
      OneMoreChunk(net.raw, DataChunk(fd, data), other);
    }
    assert SessionsCounted(net, fd);
    forall c | 0 <= c < |n.fds| ensures SessionIsConnection(n, c) {
      assert SessionIsConnection(net, c);
      OneMoreChunk(net.raw, DataChunk(fd, data), net.fds[c]);
      if net.fds[c] == fd && c != open {
        TurnsDiffer(net.fds, if c < open then c else open, if c < open then open else c);
      }
    }
  }

  lemma DisconnectDisciplined(net: Net, fd: int)
    requires Disciplined(net) && fd in net.open
    ensures Disciplined(Disconnect(net, fd))
  {
    hide SessionsOf, Count, Turn;
    var n := Disconnect(net, fd);
    forall other ensures SessionsCounted(n, other) {
      assert SessionsCounted(net, other);
      OneMoreChunk(net.raw, DataChunk(fd, []), other);
    }
    forall c | 0 <= c < |n.fds| ensures SessionIsConnection(n, c) {
      assert SessionIsConnection(net, c);
      OneMoreChunk(net.raw, DataChunk(fd, []), net.fds[c]);
    }
  }

  // ----- the listener's operations -----

  /** What `accept` returned, and whether the socket could be made non-blocking and registered. */
  datatype Arrival = Arrival(fd: int, nonblocking: bool, registered: bool)

  /** How reading a socket ended. */
  datatype ReadEnd = Drained | PeerClosed | ReadError

  /** One ready event: flags, and what the calls it leads to return. */
  datatype ReadyEvent =
    | Shutdown
    | Incoming(arrivals: seq<Arrival>, failed: bool)
    | Client(fd: int, hangup: bool, readable: bool, pieces: seq<seq<byte>>, end: ReadEnd)

  /** One return of the wait for events. */
  datatype Wait = Interrupted | WaitError | Batch(events: seq<ReadyEvent>)

  function AcceptOne(net: Net, a: Arrival): Net {
    if !a.nonblocking then net.Say(NonblockingFailed(a.fd))
    else if !a.registered then net.Say(RegistrationFailed(a.fd))
    else Accept(net, a.fd).Say(Connected(a.fd))
  }

  function AcceptAll(net: Net, arrivals: seq<Arrival>): Net
    decreases |arrivals|
  {
    if |arrivals| == 0 then net
    else AcceptOne(AcceptAll(net, arrivals[..|arrivals| - 1]), arrivals[|arrivals| - 1])
  }

  function AcceptUntil(net: Net, arrivals: seq<Arrival>, failed: bool): Net {
    if failed then AcceptAll(net, arrivals).Say(AcceptFailed) else AcceptAll(net, arrivals)
  }

  /** The kernel does not hand out a socket number that is still open here. */
  ghost predicate FreshArrivals(net: Net, arrivals: seq<Arrival>) {
    forall i :: 0 <= i < |arrivals| ==> arrivals[i].fd !in AcceptAll(net, arrivals[..i]).open
  }

  lemma NotesDoNotMatter(net: Net, note: ListenerNote)
    requires Disciplined(net)
    ensures Disciplined(net.Say(note))
  {
    hide SessionsOf, Count;
    var n := net.Say(note);
    forall fd ensures SessionsCounted(n, fd) {
      assert SessionsCounted(net, fd);
    }
    forall c | 0 <= c < |n.fds| ensures SessionIsConnection(n, c) {
      assert SessionIsConnection(net, c);
    }
  }

  lemma AcceptOneDisciplined(net: Net, a: Arrival)
    requires Disciplined(net) && a.fd !in net.open
    ensures Disciplined(AcceptOne(net, a)) && net.open.Keys <= AcceptOne(net, a).open.Keys
  {
    hide Disciplined;
    AcceptDisciplined(net, a.fd);
    NotesDoNotMatter(net, NonblockingFailed(a.fd));
    NotesDoNotMatter(net, RegistrationFailed(a.fd));
    NotesDoNotMatter(Accept(net, a.fd), Connected(a.fd));
  }

  lemma {:induction false} AcceptAllDisciplined(net: Net, arrivals: seq<Arrival>)
    requires Disciplined(net) && FreshArrivals(net, arrivals)
    ensures Disciplined(AcceptAll(net, arrivals)) && net.open.Keys <= AcceptAll(net, arrivals).open.Keys
    decreases |arrivals|
  {
    hide Disciplined, AcceptOne;
    if |arrivals| > 0 {
      var before, last := arrivals[..|arrivals| - 1], arrivals[|arrivals| - 1];
      forall i | 0 <= i < |before| ensures before[i].fd !in AcceptAll(net, before[..i]).open {
        assert before[..i] == arrivals[..i] && before[i] == arrivals[i];
      }
      AcceptAllDisciplined(net, before);
      assert last.fd !in AcceptAll(net, before).open;
      AcceptOneDisciplined(AcceptAll(net, before), last);
    }
  }

  /** A receive buffer holds at least one byte of what was read, and no more than fit. */
  predicate FitReceiveBuffer(pieces: seq<seq<byte>>) {
    forall i :: 0 <= i < |pieces| ==> 1 <= |pieces[i]| <= RECV_BUF_SIZE
  }

  function ReceiveAll(net: Net, fd: int, pieces: seq<seq<byte>>): (n: Net)
    requires net.Wellformed() && fd in net.open
    ensures n.Wellformed() && n.open == net.open && n.fds == net.fds
    decreases |pieces|
  {
    if |pieces| == 0 then net
    else Receive(ReceiveAll(net, fd, pieces[..|pieces| - 1]), fd, pieces[|pieces| - 1])
  }

  lemma {:induction false} ReceiveAllDisciplined(net: Net, fd: int, pieces: seq<seq<byte>>)
    requires Disciplined(net) && fd in net.open && FitReceiveBuffer(pieces)
    ensures Disciplined(ReceiveAll(net, fd, pieces))
    decreases |pieces|
  {
    if |pieces| > 0 {
      var before := pieces[..|pieces| - 1];
      ReceiveAllDisciplined(net, fd, before);
      ReceiveDisciplined(ReceiveAll(net, fd, before), fd, pieces[|before|]);
    }
  }

  function Read(net: Net, fd: int, pieces: seq<seq<byte>>, end: ReadEnd): Net
    requires net.Wellformed() && fd in net.open
  {
    var done := ReceiveAll(net, fd, pieces);
    if end.ReadError? then done.Say(ReceiveFailed(fd)) else done
  }

  function Dropped(net: Net, fd: int): Net {
    Disconnect(net, fd).Say(Disconnected(fd))
  }

  /** The events of one wait are possible: sockets reported at most once, among those `waiting`, and fresh arrivals. */
  ghost predicate Possible(net: Net, waiting: set<int>, e: ReadyEvent) {
    match e
    case Shutdown => true
    case Incoming(arrivals, failed) => FreshArrivals(net, arrivals)
    case Client(fd, _, _, pieces, _) => fd in waiting && FitReceiveBuffer(pieces)
  }

  ghost function StillWaiting(waiting: set<int>, e: ReadyEvent): set<int> {
    if e.Client? then waiting - {e.fd} else waiting
  }

  function Dispatch(net: Net, e: ReadyEvent): Net
    requires net.Wellformed() && (e.Client? ==> e.fd in net.open)
  {
    match e
    case Shutdown => net.Say(ListenerShuttingDown)
    case Incoming(arrivals, failed) => AcceptUntil(net, arrivals, failed)
    case Client(fd, hangup, readable, pieces, end) =>
      if hangup then Dropped(net, fd)
      else if !readable then net
      else
        var n := Read(net, fd, pieces, end);
        if end.Drained? then n else Dropped(n, fd)
  }

  lemma DispatchDisciplined(net: Net, waiting: set<int>, e: ReadyEvent)
    requires Disciplined(net) && waiting <= net.open.Keys && Possible(net, waiting, e)
    ensures Disciplined(Dispatch(net, e)) && StillWaiting(waiting, e) <= Dispatch(net, e).open.Keys
  {
    hide SessionsCounted, SessionIsConnection, Turn, FreshArrivals, AcceptAll, ReceiveAll;
    match e
    case Shutdown => NotesDoNotMatter(net, ListenerShuttingDown);
    case Incoming(arrivals, failed) =>
      AcceptAllDisciplined(net, arrivals);
      NotesDoNotMatter(AcceptAll(net, arrivals), AcceptFailed);
    case Client(fd, hangup, readable, pieces, end) =>
      ReceiveAllDisciplined(net, fd, pieces);
      NotesDoNotMatter(ReceiveAll(net, fd, pieces), ReceiveFailed(fd));
      var n := Read(net, fd, pieces, end);
      DroppedDisciplined(net, fd);
      DroppedDisciplined(n, fd);
  }

  lemma DroppedDisciplined(net: Net, fd: int)
    requires Disciplined(net) && fd in net.open
    ensures Disciplined(Dropped(net, fd)) && Dropped(net, fd).open == net.open - {fd}
  {
    hide Disciplined;
    DisconnectDisciplined(net, fd);
    NotesDoNotMatter(Disconnect(net, fd), Disconnected(fd));
  }

  /** A batch is possible if each of its events is, in the state its predecessors lead to. */
  ghost predicate BatchPossible(net: Net, waiting: set<int>, events: seq<ReadyEvent>)
    requires Disciplined(net) && waiting <= net.open.Keys
    decreases |events|
  {
    |events| == 0 ||
    (&& Possible(net, waiting, events[0])
     && (events[0].Shutdown? ||
         (DispatchDisciplined(net, waiting, events[0]);
          BatchPossible(Dispatch(net, events[0]), StillWaiting(waiting, events[0]), events[1..]))))
  }

  /** The loop over a batch, which a shutdown event leaves; `running` tells whether the listener goes on. */
  datatype Progress = Progress(net: Net, running: bool)

  ghost function DispatchAll(net: Net, waiting: set<int>, events: seq<ReadyEvent>): (p: Progress)
    requires Disciplined(net) && waiting <= net.open.Keys && BatchPossible(net, waiting, events)
    ensures Disciplined(p.net)
    decreases |events|
  {
    if |events| == 0 then Progress(net, true)
    else
      DispatchDisciplined(net, waiting, events[0]);
      var n := Dispatch(net, events[0]);
      if events[0].Shutdown? then Progress(n, false)
      else DispatchAll(n, StillWaiting(waiting, events[0]), events[1..])
  }

  /** Every wait reports sockets that are open when it returns. */
  ghost predicate WaitsPossible(net: Net, waits: seq<Wait>)
    requires Disciplined(net)
    decreases |waits|
  {
    |waits| == 0 ||
    (match waits[0]
     case Interrupted => WaitsPossible(net, waits[1..])
     case WaitError => true
     case Batch(events) =>
       && BatchPossible(net, net.open.Keys, events)
       && var p := DispatchAll(net, net.open.Keys, events);
          p.running ==> WaitsPossible(p.net, waits[1..]))
  }

  ghost function RunListener(net: Net, waits: seq<Wait>): (n: Net)
    requires Disciplined(net) && WaitsPossible(net, waits)
    ensures Disciplined(n)
    decreases |waits|
  {
    if |waits| == 0 then net
    else
      match waits[0]
      case Interrupted => RunListener(net, waits[1..])
      case WaitError => NotesDoNotMatter(net, WaitFailed); net.Say(WaitFailed)
      case Batch(events) =>
        var p := DispatchAll(net, net.open.Keys, events);
        if p.running then RunListener(p.net, waits[1..]) else p.net
  }

  /** The server socket listens. */
  ghost function Opened(net: Net): (n: Net)
    requires Disciplined(net)
    ensures Disciplined(n) && n.open == net.open && n.raw == net.raw
  {
    NotesDoNotMatter(net, Listening);
    net.Say(Listening)
  }

  class NetworkListener {
    var m_clients: set<int>          // the sockets it owns
    const m_recv_buf: array<byte>
    var m_queue: seq<DataChunk>
    var m_log_queue: seq<ListenerNote>
    ghost var net: Net

    ghost predicate Valid()
      reads this
    {
      && Disciplined(net)
      && m_clients == net.open.Keys && m_queue == net.raw && m_log_queue == net.notes
      && m_recv_buf.Length == RECV_BUF_SIZE
    }

    constructor ()
      ensures Valid() && net == IDLE && fresh(m_recv_buf)
    {
      m_clients, m_queue, m_log_queue, net := {}, [], [], IDLE;
      m_recv_buf := new byte[RECV_BUF_SIZE](_ => 0);
      IdleDisciplined();
    }

    method PushLog(note: ListenerNote)
      requires Valid()
      modifies `m_log_queue, `net
      ensures Valid() && net == old(net).Say(note)
    {
      NotesDoNotMatter(net, note);
      m_log_queue := m_log_queue + [note];
      net := net.Say(note);
    }

    /** Accept until there is nothing more to accept. */
    method HandleAccept(arrivals: seq<Arrival>, failed: bool)
      requires Valid() && FreshArrivals(net, arrivals)
      modifies this
      ensures Valid() && net == AcceptUntil(old(net), arrivals, failed)
    {
      hide Disciplined;
      for i := 0 to |arrivals|
        invariant Valid() && net == AcceptAll(old(net), arrivals[..i])
      {
        assert arrivals[..i + 1][..i] == arrivals[..i];
        var a := arrivals[i];
        assert a.fd !in net.open;
        if !a.nonblocking {
          PushLog(NonblockingFailed(a.fd));
          continue;
        }
        if !a.registered {
          PushLog(RegistrationFailed(a.fd));
          continue;
        }
        AcceptDisciplined(net, a.fd);
        m_clients := m_clients + {a.fd};
        net := Accept(net, a.fd);
        PushLog(Connected(a.fd));
      }
      assert arrivals[..|arrivals|] == arrivals;
      if failed {
        PushLog(AcceptFailed);
      }
    }

    /** Read until nothing is left, pushing each piece; `alive` tells whether the socket remains open. */
    method HandleClientData(fd: int, pieces: seq<seq<byte>>, end: ReadEnd) returns (alive: bool)
      requires Valid() && fd in m_clients && FitReceiveBuffer(pieces)
      modifies this, m_recv_buf
      ensures Valid() && net == Read(old(net), fd, pieces, end) && alive == end.Drained?
    {
      hide Disciplined;
      WellformedIfDisciplined(net);
      for i := 0 to |pieces|
        invariant Valid() && net == ReceiveAll(old(net), fd, pieces[..i])
      {
        assert pieces[..i + 1][..i] == pieces[..i];
        var received := |pieces[i]|;
        forall k | 0 <= k < received {
          m_recv_buf[k] := pieces[i][k];
        }
        var chunk := m_recv_buf[..received];
        assert chunk == pieces[i];
        ReceiveDisciplined(net, fd, chunk);
        m_queue := m_queue + [DataChunk(fd, chunk)];
        net := Receive(net, fd, chunk);
      }
      assert pieces[..|pieces|] == pieces;
      if end.ReadError? {
        PushLog(ReceiveFailed(fd));
      }
      return end.Drained?;
    }

    method DisconnectClient(fd: int)
      requires Valid() && fd in m_clients
      modifies this
      ensures Valid() && net == Dropped(old(net), fd)
    {
      hide Disciplined;
      DisconnectDisciplined(net, fd);
      m_clients := m_clients - {fd};
      m_queue := m_queue + [DataChunk(fd, [])];
      net := Disconnect(net, fd);
      PushLog(Disconnected(fd));
    }

    /** The body of the loop over a batch. */
    method HandleEvent(e: ReadyEvent, ghost waiting: set<int>)
      requires Valid() && waiting <= net.open.Keys && Possible(net, waiting, e)
      modifies this, m_recv_buf
      ensures Valid() && net == Dispatch(old(net), e)
    {
      hide Disciplined, FreshArrivals;
      WellformedIfDisciplined(net);
      match e {
        case Shutdown => PushLog(ListenerShuttingDown);
        case Incoming(arrivals, failed) => HandleAccept(arrivals, failed);
        case Client(fd, hangup, readable, pieces, end) =>
          if hangup {
            DisconnectClient(fd);
          } else if readable {
            var alive := HandleClientData(fd, pieces, end);
            if !alive {
              DisconnectClient(fd);
            }
          }
      }
    }

    method HandleBatch(events: seq<ReadyEvent>) returns (running: bool)
      requires Valid() && BatchPossible(net, net.open.Keys, events)
      modifies this, m_recv_buf
      ensures Valid() && DispatchAll(old(net), old(net).open.Keys, events) == Progress(net, running)
    {
      hide Disciplined, Dispatch, Possible;
      ghost var waiting := net.open.Keys;
      for i := 0 to |events|
        invariant Valid() && waiting <= net.open.Keys && BatchPossible(net, waiting, events[i..])
        invariant DispatchAll(old(net), old(net).open.Keys, events) == DispatchAll(net, waiting, events[i..])
      {
        ghost var before := net;
        DispatchDisciplined(before, waiting, events[i]);
        HandleEvent(events[i], waiting);
        if events[i].Shutdown? {
          return false;
        }
        waiting := StillWaiting(waiting, events[i]);
        assert events[i..][1..] == events[i + 1..];
      }
      return true;
    }

    /** The loop over the waits, until a shutdown event, an error, or a stop seen between two of them. */
    method Run(waits: seq<Wait>)
      requires Valid() && WaitsPossible(Opened(net), waits)
      modifies this, m_recv_buf
      ensures Valid() && net == RunListener(Opened(old(net)), waits)
    {
      hide Disciplined, BatchPossible, DispatchAll;
      PushLog(Listening);
      for i := 0 to |waits|
        invariant Valid() && WaitsPossible(net, waits[i..])
        invariant RunListener(Opened(old(net)), waits) == RunListener(net, waits[i..])
      {
        assert waits[i..][1..] == waits[i + 1..];
        match waits[i] {
          case Interrupted =>
          case WaitError =>
            PushLog(WaitFailed);
            return;
          case Batch(events) =>
            var running := HandleBatch(events);
            if !running {
              return;
            }
        }
      }
    }
  }

  lemma WellformedIfDisciplined(net: Net)
    requires Disciplined(net)
    ensures net.Wellformed()
  {
  }

  /**
   The discipline, after any run of the listener: session number `Turn` of a connection's socket is exactly what was
   received on that connection, no socket has more sessions than connections, apart from the one to come, and chunks
   are no longer than the receive buffer.
   */
  lemma SessionsAreConnections(start: Net, waits: seq<Wait>, c: nat)
    requires Disciplined(start) && WaitsPossible(start, waits) && c < |RunListener(start, waits).fds|
    ensures var net := RunListener(start, waits);
            && |net.received| == |net.fds| && Turn(net.fds, c) < |SessionsOf(net.raw, net.fds[c])|
            && SessionsOf(net.raw, net.fds[c])[Turn(net.fds, c)] == net.received[c]
            && |SessionsOf(net.raw, net.fds[c])| ==
               Count(net.fds, net.fds[c]) + (if net.fds[c] in net.open then 0 else 1)
            && (forall i :: 0 <= i < |net.raw| ==> |net.raw[i].data| <= 4096)
  {
    hide WaitsPossible, RunListener, SessionsOf, Turn, Count;
    var net := RunListener(start, waits);
    assert SessionIsConnection(net, c) && SessionsCounted(net, net.fds[c]);
  }

  // ----- the listener as a sequence of single operations -----

  /** The listener's operations, one push at most each. */
  datatype NetOp =
    | OpAccept(fd: int)
    | OpReceive(fd: int, data: seq<byte>)
    | OpDisconnect(fd: int)
    | OpSay(note: ListenerNote)

  predicate NetEnabled(net: Net, op: NetOp) {
    match op
    case OpAccept(fd) => fd !in net.open
    case OpReceive(fd, data) => net.Wellformed() && fd in net.open && 1 <= |data| <= RECV_BUF_SIZE
    case OpDisconnect(fd) => fd in net.open
    case OpSay(_) => true
  }

  function NetAfter(net: Net, op: NetOp): Net
    requires NetEnabled(net, op)
  {
    match op
    case OpAccept(fd) => Accept(net, fd)
    case OpReceive(fd, data) => Receive(net, fd, data)
    case OpDisconnect(fd) => Disconnect(net, fd)
    case OpSay(note) => net.Say(note)
  }

  lemma NetStepDisciplined(net: Net, op: NetOp)
    requires Disciplined(net) && NetEnabled(net, op)
    ensures Disciplined(NetAfter(net, op)) && net.raw <= NetAfter(net, op).raw
  {
    hide Disciplined;
    match op
    case OpAccept(fd) => AcceptDisciplined(net, fd);
    case OpReceive(fd, data) => ReceiveDisciplined(net, fd, data);
    case OpDisconnect(fd) => DisconnectDisciplined(net, fd);
    case OpSay(note) => NotesDoNotMatter(net, note);
  }

  ghost predicate OpsPossible(net: Net, ops: seq<NetOp>)
    decreases |ops|
  {
    |ops| == 0 || (NetEnabled(net, ops[0]) && OpsPossible(NetAfter(net, ops[0]), ops[1..]))
  }

  ghost function AfterOps(net: Net, ops: seq<NetOp>): Net
    requires OpsPossible(net, ops)
    decreases |ops|
  {
    if |ops| == 0 then net else AfterOps(NetAfter(net, ops[0]), ops[1..])
  }

  /** Some operations, all possible, lead from one state to the other. */
  ghost predicate Leads(net: Net, n: Net) {
    exists ops :: OpsPossible(net, ops) && AfterOps(net, ops) == n
  }

  lemma LeadsNowhere(net: Net)
    ensures Leads(net, net)
  {
    assert OpsPossible(net, []) && AfterOps(net, []) == net;
  }

  lemma LeadsByOne(net: Net, op: NetOp)
    requires NetEnabled(net, op)
    ensures Leads(net, NetAfter(net, op))
  {
    hide NetEnabled, NetAfter;
    var n := NetAfter(net, op);
    assert [op][1..] == [];
    assert OpsPossible(n, []) && AfterOps(n, []) == n;
    assert OpsPossible(net, [op]) && AfterOps(net, [op]) == n;
  }

  lemma {:induction false} OpsConcat(net: Net, first: seq<NetOp>, second: seq<NetOp>)
    requires OpsPossible(net, first) && OpsPossible(AfterOps(net, first), second)
    ensures OpsPossible(net, first + second) && AfterOps(net, first + second) == AfterOps(AfterOps(net, first), second)
    decreases |first|
  {
    hide NetEnabled, NetAfter;
    if |first| == 0 {
      assert first + second == second;
    } else {
      assert (first + second)[1..] == first[1..] + second;
      OpsConcat(NetAfter(net, first[0]), first[1..], second);
    }
  }

  lemma LeadsOn(net: Net, middle: Net, n: Net)
    requires Leads(net, middle) && Leads(middle, n)
    ensures Leads(net, n)
  {
    hide OpsPossible, AfterOps;
    var first :| OpsPossible(net, first) && AfterOps(net, first) == middle;
    var second :| OpsPossible(middle, second) && AfterOps(middle, second) == n;
    OpsConcat(net, first, second);
  }

  lemma {:induction false} AcceptAllLeads(net: Net, arrivals: seq<Arrival>)
    requires FreshArrivals(net, arrivals)
    ensures Leads(net, AcceptAll(net, arrivals))
    decreases |arrivals|
  {
    hide Leads;
    if |arrivals| == 0 {
      LeadsNowhere(net);
    } else {
      var before, a := arrivals[..|arrivals| - 1], arrivals[|arrivals| - 1];
      forall i | 0 <= i < |before| ensures before[i].fd !in AcceptAll(net, before[..i]).open {
        assert before[..i] == arrivals[..i] && before[i] == arrivals[i];
      }
      AcceptAllLeads(net, before);
      var n := AcceptAll(net, before);
      assert a.fd !in n.open;
      if !a.nonblocking {
        LeadsByOne(n, OpSay(NonblockingFailed(a.fd)));
      } else if !a.registered {
        LeadsByOne(n, OpSay(RegistrationFailed(a.fd)));
      } else {
        LeadsByOne(n, OpAccept(a.fd));
        LeadsByOne(Accept(n, a.fd), OpSay(Connected(a.fd)));
        LeadsOn(n, Accept(n, a.fd), AcceptOne(n, a));
      }
      LeadsOn(net, n, AcceptOne(n, a));
    }
  }

  lemma {:induction false} ReceiveAllLeads(net: Net, fd: int, pieces: seq<seq<byte>>)
    requires net.Wellformed() && fd in net.open && FitReceiveBuffer(pieces)
    ensures Leads(net, ReceiveAll(net, fd, pieces))
    decreases |pieces|
  {
    hide Leads;
    if |pieces| == 0 {
      LeadsNowhere(net);
    } else {
      var before := pieces[..|pieces| - 1];
      ReceiveAllLeads(net, fd, before);
      var n := ReceiveAll(net, fd, before);
      LeadsByOne(n, OpReceive(fd, pieces[|before|]));
      LeadsOn(net, n, ReceiveAll(net, fd, pieces));
    }
  }

  lemma DroppedLeads(net: Net, fd: int)
    requires fd in net.open
    ensures Leads(net, Dropped(net, fd))
  {
    hide Leads;
    LeadsByOne(net, OpDisconnect(fd));
    LeadsByOne(Disconnect(net, fd), OpSay(Disconnected(fd)));
    LeadsOn(net, Disconnect(net, fd), Dropped(net, fd));
  }

  lemma ReadLeads(net: Net, fd: int, pieces: seq<seq<byte>>, end: ReadEnd)
    requires net.Wellformed() && fd in net.open && FitReceiveBuffer(pieces)
    ensures Leads(net, Read(net, fd, pieces, end))
  {
    hide Leads, FitReceiveBuffer;
    ReceiveAllLeads(net, fd, pieces);
    var n := ReceiveAll(net, fd, pieces);
    LeadsByOne(n, OpSay(ReceiveFailed(fd)));
    if end.ReadError? {
      LeadsOn(net, n, n.Say(ReceiveFailed(fd)));
    }
  }

  lemma DispatchLeads(net: Net, waiting: set<int>, e: ReadyEvent)
    requires net.Wellformed() && waiting <= net.open.Keys && Possible(net, waiting, e)
    ensures Leads(net, Dispatch(net, e))
  {
    hide Leads, FreshArrivals, FitReceiveBuffer, ReceiveAll, AcceptAll;
    match e
    case Shutdown => LeadsByOne(net, OpSay(ListenerShuttingDown));
    case Incoming(arrivals, failed) =>
      AcceptAllLeads(net, arrivals);
      var n := AcceptAll(net, arrivals);
      LeadsByOne(n, OpSay(AcceptFailed));
      if failed {
        LeadsOn(net, n, n.Say(AcceptFailed));
      }
    case Client(fd, hangup, readable, pieces, end) =>
      LeadsNowhere(net);
      DroppedLeads(net, fd);
      ReadLeads(net, fd, pieces, end);
      var n := Read(net, fd, pieces, end);
      DroppedLeads(n, fd);
      if !hangup && readable && !end.Drained? {
        LeadsOn(net, n, Dropped(n, fd));
      }
  }

  lemma {:induction false} DispatchAllLeads(net: Net, waiting: set<int>, events: seq<ReadyEvent>)
    requires Disciplined(net) && waiting <= net.open.Keys && BatchPossible(net, waiting, events)
    ensures Leads(net, DispatchAll(net, waiting, events).net)
    decreases |events|
  {
    hide Leads, Dispatch, FreshArrivals, Disciplined;
    LeadsNowhere(net);
    if |events| > 0 {
      WellformedIfDisciplined(net);
      DispatchDisciplined(net, waiting, events[0]);
      DispatchLeads(net, waiting, events[0]);
      if !events[0].Shutdown? {
        var n := Dispatch(net, events[0]);
        DispatchAllLeads(n, StillWaiting(waiting, events[0]), events[1..]);
        LeadsOn(net, n, DispatchAll(net, waiting, events).net);
      }
    }
  }

  /** Whatever the listener does is a sequence of single operations, each with at most one push. */
  lemma {:induction false} RunLeads(net: Net, waits: seq<Wait>)
    requires Disciplined(net) && WaitsPossible(net, waits)
    ensures Leads(net, RunListener(net, waits))
    decreases |waits|
  {
    hide Leads, Disciplined, BatchPossible, DispatchAll;
    LeadsNowhere(net);
    LeadsByOne(net, OpSay(WaitFailed));
    if |waits| > 0 {
      match waits[0]
      case Interrupted => RunLeads(net, waits[1..]);
      case WaitError =>
      case Batch(events) =>
        DispatchAllLeads(net, net.open.Keys, events);
        var p := DispatchAll(net, net.open.Keys, events);
        if p.running {
          RunLeads(p.net, waits[1..]);
          LeadsOn(net, p.net, RunListener(net, waits));
        }
    }
  }

  // ----- what an event does to its socket -----

  function Chunks(fd: int, pieces: seq<seq<byte>>): seq<DataChunk> {
    seq(|pieces|, i requires 0 <= i < |pieces| => DataChunk(fd, pieces[i]))
  }

  lemma {:induction false} ReceiveAllEffect(net: Net, fd: int, pieces: seq<seq<byte>>)
    requires net.Wellformed() && fd in net.open
    ensures var n, c := ReceiveAll(net, fd, pieces), net.open[fd];
            && n.received == net.received[c := net.received[c] + Flatten(pieces)]
            && n.raw == net.raw + Chunks(fd, pieces)
    decreases |pieces|
  {
    if |pieces| == 0 {
      assert net.received[net.open[fd]] + [] == net.received[net.open[fd]];
    } else {
      var k := |pieces| - 1;
      ReceiveAllEffect(net, fd, pieces[..k]);
      FlattenOneMore(pieces, k);
      assert pieces[..k + 1] == pieces;
      var before := net.received[net.open[fd]];
      assert (before + Flatten(pieces[..k])) + pieces[k] == before + Flatten(pieces);
      assert Chunks(fd, pieces) == Chunks(fd, pieces[..k]) + [DataChunk(fd, pieces[k])];
    }
  }

  /**
   An event on a client's socket: the socket stays open if and only if there was no hang-up and reading, if there was
   anything to read, drained it; unless there was a hang-up, all that was read joins the connection and goes to the raw
   queue, piece by piece; an empty chunk follows exactly if the socket is closed; no other socket is concerned.
   */
  lemma ClientEventEffect(net: Net, fd: int, hangup: bool, readable: bool, pieces: seq<seq<byte>>, end: ReadEnd)
    requires net.Wellformed() && fd in net.open
    ensures var n, c := Dispatch(net, Client(fd, hangup, readable, pieces, end)), net.open[fd];
            var taken := if !hangup && readable then pieces else [];
            && (fd in n.open <==> !hangup && (readable ==> end == Drained))
            && n.open - {fd} == net.open - {fd} && n.fds == net.fds
            && n.received == net.received[c := net.received[c] + Flatten(taken)]
            && n.raw == net.raw + Chunks(fd, taken) + if fd in n.open then [] else [DataChunk(fd, [])]
  {
    ReceiveAllEffect(net, fd, pieces);
    assert net.received[net.open[fd]] + [] == net.received[net.open[fd]];
    assert net.raw + Chunks(fd, []) + [] == net.raw;
    assert net.raw + Chunks(fd, pieces) + [] == net.raw + Chunks(fd, pieces);
  }

  /** The arrivals that could be set up. */
  function SetUp(arrivals: seq<Arrival>): seq<int>
    decreases |arrivals|
  {
    if |arrivals| == 0 then []
    else
      var last := arrivals[|arrivals| - 1];
      SetUp(arrivals[..|arrivals| - 1]) + if last.nonblocking && last.registered then [last.fd] else []
  }

  /** New connections: those that could be set up, each with nothing received yet, and no others; nothing is pushed. */
  lemma {:induction false} IncomingEffect(net: Net, arrivals: seq<Arrival>, failed: bool)
    ensures var n := AcceptUntil(net, arrivals, failed);
            && n.fds == net.fds + SetUp(arrivals) && n.raw == net.raw
            && n.received == net.received + seq(|SetUp(arrivals)|, _ => [])
            && (forall fd :: fd in n.open <==> fd in net.open || fd in SetUp(arrivals))
    decreases |arrivals|
  {
    if |arrivals| > 0 {
      IncomingEffect(net, arrivals[..|arrivals| - 1], failed);
    }
  }

  // ----- every event is served -----

  /** The events of a list, served one after the other, as long as they are about open sockets. */
  ghost function Served(net: Net, events: seq<ReadyEvent>): Net
    decreases |events|
  {
    if |events| == 0 then net
    else if net.Wellformed() && (events[0].Client? ==> events[0].fd in net.open) then
      Served(Dispatch(net, events[0]), events[1..])
    else net
  }

  ghost predicate NoShutdown(events: seq<ReadyEvent>) {
    forall i :: 0 <= i < |events| ==> !events[i].Shutdown?
  }

  lemma {:induction false} ServedConcat(net: Net, first: seq<ReadyEvent>, second: seq<ReadyEvent>, waiting: set<int>)
    requires Disciplined(net) && waiting <= net.open.Keys && BatchPossible(net, waiting, first) && NoShutdown(first)
    ensures Served(net, first + second) == Served(DispatchAll(net, waiting, first).net, second)
    ensures DispatchAll(net, waiting, first).running
    decreases |first|
  {
    hide Dispatch, Possible, Disciplined;
    if |first| == 0 {
      assert first + second == second;
    } else {
      WellformedIfDisciplined(net);
      DispatchDisciplined(net, waiting, first[0]);
      assert (first + second)[1..] == first[1..] + second;
      assert first[0].Client? ==> first[0].fd in waiting by { SocketWaiting(net, waiting, first[0]); }
      ServedConcat(Dispatch(net, first[0]), first[1..], second, StillWaiting(waiting, first[0]));
    }
  }

  lemma SocketWaiting(net: Net, waiting: set<int>, e: ReadyEvent)
    requires Possible(net, waiting, e)
    ensures e.Client? ==> e.fd in waiting
  {
  }

  /** The events of all waits, in order; an interrupted wait has none. */
  function AllEvents(waits: seq<Wait>): seq<ReadyEvent>
    decreases |waits|
  {
    if |waits| == 0 then []
    else (if waits[0].Batch? then waits[0].events else []) + AllEvents(waits[1..])
  }

  /** While no wait fails and nobody asks for a shutdown, every event of every wait is served, in order. */
  lemma {:induction false} RunServesEveryEvent(net: Net, waits: seq<Wait>)
    requires Disciplined(net) && WaitsPossible(net, waits) && NoShutdown(AllEvents(waits))
    requires forall i :: 0 <= i < |waits| ==> !waits[i].WaitError?
    ensures RunListener(net, waits) == Served(net, AllEvents(waits))
    decreases |waits|
  {
    hide Disciplined, BatchPossible, DispatchAll, Served;
    if |waits| == 0 {
      NothingServed(net);
    } else {
      var rest := AllEvents(waits[1..]);
      match waits[0]
      case Interrupted =>
        assert [] + rest == rest;
        RunServesEveryEvent(net, waits[1..]);
      case WaitError =>
      case Batch(events) =>
        BatchesWithoutShutdown(events, rest);
        ServedConcat(net, events, rest, net.open.Keys);
        RunServesEveryEvent(DispatchAll(net, net.open.Keys, events).net, waits[1..]);
    }
  }

  lemma NothingServed(net: Net)
    ensures Served(net, []) == net
  {
  }

  lemma BatchesWithoutShutdown(first: seq<ReadyEvent>, second: seq<ReadyEvent>)
    requires NoShutdown(first + second)
    ensures NoShutdown(first) && NoShutdown(second)
  {
    forall i | 0 <= i < |first| ensures !first[i].Shutdown? {
      assert (first + second)[i] == first[i];
    }
    forall i | 0 <= i < |second| ensures !second[i].Shutdown? {
      assert (first + second)[|first| + i] == second[i];
    }
  }

  lemma FirstBatch(net: Net, e: ReadyEvent, rest: seq<Wait>)
    requires Disciplined(net) && Possible(net, net.open.Keys, e) && !e.Shutdown? && net.Wellformed()
    requires Disciplined(Dispatch(net, e)) && WaitsPossible(Dispatch(net, e), rest)
    ensures WaitsPossible(net, [Batch([e])] + rest)
    ensures RunListener(net, [Batch([e])] + rest) == RunListener(Dispatch(net, e), rest)
  {
    hide Disciplined, Dispatch, Possible, BatchPossible, DispatchAll;
    BatchOfOne(net, net.open.Keys, e);
    assert ([Batch([e])] + rest)[1..] == rest;
  }

  lemma NoWaits(net: Net)
    requires Disciplined(net)
    ensures WaitsPossible(net, []) && RunListener(net, []) == net
  {
  }

  lemma OneArrival(fd: int)
    ensures FreshArrivals(IDLE, [Arrival(fd, true, true)])
    ensures AcceptAll(IDLE, [Arrival(fd, true, true)]) == Accept(IDLE, fd).Say(Connected(fd))
  {
    assert [Arrival(fd, true, true)][..0] == [];
  }

  /** One connection, from its acceptance to its end, for any socket and any bytes: it is possible, and it is served. */
  lemma OneConnectionServed(fd: int, pieces: seq<seq<byte>>)
    requires forall i :: 0 <= i < |pieces| ==> 1 <= |pieces[i]| <= 4096
    ensures Disciplined(IDLE)
    ensures var arrived := Batch([Incoming([Arrival(fd, true, true)], false)]);
            var read := Batch([Client(fd, false, true, pieces, PeerClosed)]);
            && WaitsPossible(IDLE, [arrived] + [read])
            && var n := RunListener(IDLE, [arrived] + [read]);
               && n.fds == [fd] && n.received == [Flatten(pieces)] && n.open == map[]
               && n.raw == Chunks(fd, pieces) + [DataChunk(fd, [])]
  {
    hide Disciplined, ReceiveAll, Chunks, RunListener, WaitsPossible;
    var accepted, read := Incoming([Arrival(fd, true, true)], false), Client(fd, false, true, pieces, PeerClosed);
    IdleDisciplined();
    OneArrival(fd);
    var net := Dispatch(IDLE, accepted);
    assert net == Accept(IDLE, fd).Say(Connected(fd));
    DispatchDisciplined(IDLE, {}, accepted);
    assert net.open.Keys == {fd};
    DispatchDisciplined(net, {fd}, read);
    NoWaits(Dispatch(net, read));
    FirstBatch(net, read, []);
    assert [Batch([read])] + [] == [Batch([read])];
    FirstBatch(IDLE, accepted, [Batch([read])]);
    ClientEventEffect(net, fd, false, true, pieces, PeerClosed);
    assert net.received == [[]] && [] + Flatten(pieces) == Flatten(pieces);
  }

  lemma BatchOfOne(net: Net, waiting: set<int>, e: ReadyEvent)
    requires Disciplined(net) && waiting <= net.open.Keys && Possible(net, waiting, e) && !e.Shutdown?
    ensures BatchPossible(net, waiting, [e])
    ensures DispatchAll(net, waiting, [e]) == Progress(Dispatch(net, e), true)
  {
    hide Disciplined, Dispatch, Possible;
    assert [e][1..] == [];
    DispatchDisciplined(net, waiting, e);
  }
}
