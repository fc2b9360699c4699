/**
 Clients do not mix. A session of a socket is what arrives for it between two empty chunks; whatever the
 interleaving, and however often a socket number is used again, each session yields the reference scan of its own
 bytes.
 */
module Sessions {
  import opened Bytes
  import opened ReferenceParse
  import opened ParserMachine
  import opened Routing

  /** The byte streams of the sessions of `fd`; the last of them is still open. */
  function SessionsOf(history: seq<DataChunk>, fd: int): (sessions: seq<seq<byte>>)
    ensures |sessions| > 0
    decreases |history|
  {
    if |history| == 0 then [[]]
    else
      var earlier := SessionsOf(history[..|history| - 1], fd);
      var chunk := history[|history| - 1];
      if chunk.client_id != fd then earlier
      else if |chunk.data| == 0 then earlier + [[]]
      else earlier[|earlier| - 1 := earlier[|earlier| - 1] + chunk.data]
  }

  function OpenSession(history: seq<DataChunk>, fd: int): seq<byte> {
    var sessions := SessionsOf(history, fd);
    sessions[|sessions| - 1]
  }

  /** An event, with the session it belongs to. */
  datatype Tagged = Tagged(fd: int, session: nat, event: Event)

  const START: Router := Router(map[], Book([], 0, []))

  /** The parser thread after it has taken `history` off the raw queue. */
  function After(history: seq<DataChunk>): (r: Router)
    ensures AllConsistent(r.clients)
  {
    DeliverAll(START, history)
  }

  /** The events that the next chunk sets off. */
  function EventsOf(r: Router, chunk: DataChunk): seq<Event>
    requires AllConsistent(r.clients)
  {
    var m := ClientOf(r.clients, chunk.client_id);
    if |chunk.data| == 0 || !Fits(m, chunk.data) then [] else RunOn(m, chunk.data).events
  }

  function Tag(fd: int, session: nat, events: seq<Event>): seq<Tagged> {
    seq(|events|, i requires 0 <= i < |events| => Tagged(fd, session, events[i]))
  }

  /** All events so far, in the order in which they happened. */
  function TaggedEvents(history: seq<DataChunk>): seq<Tagged>
    decreases |history|
  {
    if |history| == 0 then []
    else
      var earlier, chunk := history[..|history| - 1], history[|history| - 1];
      TaggedEvents(earlier) +
      Tag(chunk.client_id, |SessionsOf(earlier, chunk.client_id)| - 1, EventsOf(After(earlier), chunk))
  }

  function Untag(tagged: seq<Tagged>): (events: seq<Event>)
    ensures |events| == |tagged|
  {
    seq(|tagged|, i requires 0 <= i < |tagged| => tagged[i].event)
  }

  /** The events of one session. */
  function EventsIn(tagged: seq<Tagged>, fd: int, session: nat): seq<Event>
    decreases |tagged|
  {
    if |tagged| == 0 then []
    else
      var last := tagged[|tagged| - 1];
      EventsIn(tagged[..|tagged| - 1], fd, session) +
      if last.fd == fd && last.session == session then [last.event] else []
  }

  // ----- one more chunk -----

  /** A chunk is seen by the sessions of its socket only. */
  lemma OneMoreChunk(history: seq<DataChunk>, chunk: DataChunk, fd: int)
    ensures var sessions, more := SessionsOf(history, fd), SessionsOf(history + [chunk], fd);
            more == if chunk.client_id != fd then sessions
                    else if chunk.data == [] then sessions + [[]]
                    else sessions[|sessions| - 1 := sessions[|sessions| - 1] + chunk.data]
  {
    assert (history + [chunk])[..|history|] == history;
  }

  lemma AfterOneMore(history: seq<DataChunk>, chunk: DataChunk)
    ensures After(history + [chunk]) == Deliver(After(history), chunk)
  {
    hide Deliver;
    assert (history + [chunk])[..|history|] == history;
  }

  lemma TaggedOneMore(history: seq<DataChunk>, chunk: DataChunk)
    ensures var fd := chunk.client_id;
            TaggedEvents(history + [chunk]) ==
            TaggedEvents(history) + Tag(fd, |SessionsOf(history, fd)| - 1, EventsOf(After(history), chunk))
  {
    hide SessionsOf, EventsOf, After, Tag;
    assert (history + [chunk])[..|history|] == history;
  }

  lemma LastChunk(history: seq<DataChunk>) returns (earlier: seq<DataChunk>, chunk: DataChunk)
    requires |history| > 0
    ensures earlier == history[..|history| - 1] && chunk == history[|history| - 1] && history == earlier + [chunk]
  {
    earlier, chunk := history[..|history| - 1], history[|history| - 1];
  }

  // ----- when nothing overflows -----

  /** A chunk fits beside what the scan of its session leaves over. */
  predicate FitsSession(session: seq<byte>, data: seq<byte>) {
    |data| <= 65536 - |Parse(session).rest|
  }

  /** Every chunk fits beside what the scan of its session so far leaves over. */
  ghost predicate NoOverflow(history: seq<DataChunk>)
    decreases |history|
  {
    |history| == 0 ||
    var earlier, chunk := history[..|history| - 1], history[|history| - 1];
    NoOverflow(earlier) && FitsSession(OpenSession(earlier, chunk.client_id), chunk.data)
  }

  /** The longest chunk that fits beside any leftover. The listener's are at most 4096 bytes long. */
  const LARGEST_CHUNK: nat := 65275

  ghost predicate Bounded(history: seq<DataChunk>) {
    forall i :: 0 <= i < |history| ==> |history[i].data| <= LARGEST_CHUNK
  }

  /** Chunks of at most 65275 bytes never overflow. */
  lemma {:induction false} BoundedNeverOverflows(history: seq<DataChunk>)
    requires Bounded(history)
    ensures NoOverflow(history)
    decreases |history|
  {
    hide OpenSession, Parse;
    if |history| > 0 {
      var earlier, chunk := LastChunk(history);
      BoundedNeverOverflows(earlier);
      LeftoverBound(OpenSession(earlier, chunk.client_id));
    }
  }

  lemma {:induction false} NoOverflowBefore(history: seq<DataChunk>, k: nat)
    requires NoOverflow(history) && k <= |history|
    ensures NoOverflow(history[..k])
    decreases |history|
  {
    hide FitsSession, OpenSession;
    if k < |history| {
      assert history[..|history| - 1][..k] == history[..k];
      NoOverflowBefore(history[..|history| - 1], k);
    } else {
      assert history[..k] == history;
    }
  }

  // ----- the state of a client is the scan of its open session -----

  ghost predicate FollowsSession(m: Machine, session: seq<byte>) {
    Consistent(m) && m.bytes == Parse(session).rest
  }

  lemma FreshFollows()
    ensures FollowsSession(FRESH, [])
  {
  }

  lemma FitsExactly(m: Machine, session: seq<byte>, data: seq<byte>)
    requires FollowsSession(m, session)
    ensures Fits(m, data) <==> FitsSession(session, data)
  {
    hide Consistent, Parse;
  }

  /** A chunk that fits: its events and leftover continue the scan of the session. */
  lemma ChunkFollows(m: Machine, session: seq<byte>, data: seq<byte>)
    requires FollowsSession(m, session) && FitsSession(session, data)
    ensures Fits(m, data)
    ensures FollowsSession(RunOn(m, data).final, session + data)
    ensures Parse(session + data).events == Parse(session).events + RunOn(m, data).events
  {
    hide Decide, RunMachine, Consistent;
    AppendKeepsConsistent(m, data);
    RunIsScan(m.(bytes := m.bytes + data));
    ParseResumes(session, data);
  }

  /** The client of `fd` after one more chunk. */
  lemma ClientAfter(r: Router, chunk: DataChunk, fd: int)
    requires AllConsistent(r.clients)
    ensures var m := ClientOf(r.clients, fd);
            ClientOf(Deliver(r, chunk).clients, fd) ==
              if chunk.client_id != fd then m
              else if |chunk.data| == 0 || !Fits(m, chunk.data) then FRESH
              else RunOn(m, chunk.data).final
  {
    hide RunOn, Record, Fits;
  }

  lemma {:induction false} ClientsFollowSessions(history: seq<DataChunk>, fd: int)
    requires NoOverflow(history)
    ensures FollowsSession(ClientOf(After(history).clients, fd), OpenSession(history, fd))
    decreases |history|
  {
    hide RunOn, Deliver, SessionsOf, FollowsSession, FitsSession, After, Fits;
    FreshFollows();
    if |history| == 0 {
      NothingYet(fd);
    } else {
      var earlier, chunk := LastChunk(history);
      ClientsFollowSessions(earlier, fd);
      AfterOneMore(earlier, chunk);
      OneMoreChunk(earlier, chunk, fd);
      ClientAfter(After(earlier), chunk, fd);
      if chunk.client_id == fd && |chunk.data| > 0 {
        ChunkFollows(ClientOf(After(earlier).clients, fd), OpenSession(earlier, fd), chunk.data);
      }
    }
  }

  lemma NothingYet(fd: int)
    ensures ClientOf(After([]).clients, fd) == FRESH && SessionsOf([], fd) == [[]] && TaggedEvents([]) == []
    ensures After([]) == START
  {
  }

  /** The events that a chunk which fits sets off continue the scan of its session. */
  lemma EventsContinue(history: seq<DataChunk>, chunk: DataChunk)
    requires NoOverflow(history) && FitsSession(OpenSession(history, chunk.client_id), chunk.data)
    ensures var session := OpenSession(history, chunk.client_id);
            Parse(session + chunk.data).events == Parse(session).events + EventsOf(After(history), chunk)
  {
    hide RunOn, SessionsOf, FollowsSession, FitsSession, After, Fits, Parse;
    var session := OpenSession(history, chunk.client_id);
    ClientsFollowSessions(history, chunk.client_id);
    ChunkFollows(ClientOf(After(history).clients, chunk.client_id), session, chunk.data);
    if |chunk.data| == 0 {
      assert session + chunk.data == session;
    }
  }

  // ----- the events of a session are the scan of its bytes -----

  lemma {:induction false} EventsInConcat(a: seq<Tagged>, b: seq<Tagged>, fd: int, session: nat)
    ensures EventsIn(a + b, fd, session) == EventsIn(a, fd, session) + EventsIn(b, fd, session)
    decreases |b|
  {
    if |b| == 0 {
      assert a + b == a;
    } else {
      assert (a + b)[..|a + b| - 1] == a + b[..|b| - 1];
      EventsInConcat(a, b[..|b| - 1], fd, session);
    }
  }

  lemma {:induction false} EventsInTag(fd: int, session: nat, events: seq<Event>, fd': int, session': nat)
    ensures EventsIn(Tag(fd, session, events), fd', session') == if fd == fd' && session == session' then events else []
    decreases |events|
  {
    if |events| > 0 {
      var n := |events| - 1;
      assert Tag(fd, session, events)[..n] == Tag(fd, session, events[..n]);
      EventsInTag(fd, session, events[..n], fd', session');
    }
  }

  /** One more chunk adds its events to those of its own session. */
  lemma EventsInOneMore(history: seq<DataChunk>, chunk: DataChunk, fd: int, n: nat)
    ensures EventsIn(TaggedEvents(history + [chunk]), fd, n) ==
            EventsIn(TaggedEvents(history), fd, n) +
            if chunk.client_id == fd && n == |SessionsOf(history, fd)| - 1 then EventsOf(After(history), chunk) else []
  {
    hide TaggedEvents, SessionsOf, EventsIn, EventsOf, After, Tag;
    var open, now := |SessionsOf(history, chunk.client_id)| - 1, EventsOf(After(history), chunk);
    TaggedOneMore(history, chunk);
    EventsInConcat(TaggedEvents(history), Tag(chunk.client_id, open, now), fd, n);
    EventsInTag(chunk.client_id, open, now, fd, n);
  }

  /**
   Isolation: whatever the chunks of other clients and the disconnections in between, every session yields exactly
   the reference scan of its own bytes.
   */
  lemma {:induction false} SessionIsolated(history: seq<DataChunk>, fd: int, n: nat)
    requires NoOverflow(history) && n < |SessionsOf(history, fd)|
    ensures EventsIn(TaggedEvents(history), fd, n) == Parse(SessionsOf(history, fd)[n]).events
    decreases |history|
  {
    hide TaggedEvents, SessionsOf, EventsIn, EventsOf, After, Parse, FitsSession;
    if |history| == 0 {
      NothingYet(fd);
      EmptyScan();
      NoEventsIn(fd, n);
    } else {
      var earlier, chunk := LastChunk(history);
      OneMoreChunk(earlier, chunk, fd);
      EventsInOneMore(earlier, chunk, fd, n);
      if n == |SessionsOf(earlier, fd)| {
        NoLaterEvents(earlier, fd, n);
        EmptyScan();
      } else {
        SessionIsolated(earlier, fd, n);
        SessionContinues(earlier, chunk, fd, n);
      }
    }
  }

  lemma NoEventsIn(fd: int, n: nat)
    ensures EventsIn([], fd, n) == []
  {
  }

  /** A session that has begun: the scan of its bytes grows by the events of the chunk, if the chunk is its own. */
  lemma SessionContinues(history: seq<DataChunk>, chunk: DataChunk, fd: int, n: nat)
    requires NoOverflow(history) && FitsSession(OpenSession(history, chunk.client_id), chunk.data)
    requires n < |SessionsOf(history, fd)| <= |SessionsOf(history + [chunk], fd)|
    ensures Parse(SessionsOf(history + [chunk], fd)[n]).events ==
            Parse(SessionsOf(history, fd)[n]).events +
            if chunk.client_id == fd && n == |SessionsOf(history, fd)| - 1 then EventsOf(After(history), chunk) else []
  {
    hide SessionsOf, EventsOf, After, Parse, FitsSession, NoOverflow;
    OneMoreChunk(history, chunk, fd);
    if chunk.client_id == fd && n == |SessionsOf(history, fd)| - 1 {
      EventsContinue(history, chunk);
      if |chunk.data| == 0 {
        assert SessionsOf(history, fd)[n] + chunk.data == SessionsOf(history, fd)[n];
      }
    }
  }

  /** Sessions that have not begun have no events. */
  lemma {:induction false} NoLaterEvents(history: seq<DataChunk>, fd: int, n: nat)
    requires n >= |SessionsOf(history, fd)|
    ensures EventsIn(TaggedEvents(history), fd, n) == []
    decreases |history|
  {
    hide TaggedEvents, SessionsOf, EventsIn, EventsOf, After;
    if |history| == 0 {
      NothingYet(fd);
      NoEventsIn(fd, n);
    } else {
      var earlier, chunk := LastChunk(history);
      OneMoreChunk(earlier, chunk, fd);
      EventsInOneMore(earlier, chunk, fd, n);
      NoLaterEvents(earlier, fd, n);
    }
  }

  // ----- the book is the book of all events -----

  lemma UntagConcat(a: seq<Tagged>, fd: int, session: nat, events: seq<Event>)
    ensures Untag(a + Tag(fd, session, events)) == Untag(a) + events
  {
  }

  lemma UntagOneMore(history: seq<DataChunk>, chunk: DataChunk)
    ensures Untag(TaggedEvents(history + [chunk])) == Untag(TaggedEvents(history)) + EventsOf(After(history), chunk)
  {
    hide TaggedEvents, SessionsOf, EventsOf, After, Tag, Untag;
    TaggedOneMore(history, chunk);
    UntagConcat(TaggedEvents(history), chunk.client_id, |SessionsOf(history, chunk.client_id)| - 1,
                EventsOf(After(history), chunk));
  }

  lemma NothingRecorded()
    ensures Telemetries([]) == [] && Failures([]) == 0
  {
  }

  /** Every chunk enters exactly its events, dropped clients or not. */
  lemma BookAfter(r: Router, chunk: DataChunk)
    requires AllConsistent(r.clients) && r.book.failures < COUNTER_RANGE
    ensures var b, now := Deliver(r, chunk).book, EventsOf(r, chunk);
            && b.parsed == r.book.parsed + Telemetries(now)
            && b.failures == (r.book.failures + Failures(now)) % COUNTER_RANGE
  {
    hide RunOn, Fits, Telemetries, Failures, Messages;
    NothingRecorded();
  }

  /** What was emitted and counted is what the events of all sessions emit and count, dropped clients or not. */
  lemma {:induction false} BookOfEvents(history: seq<DataChunk>)
    ensures var b, events := After(history).book, Untag(TaggedEvents(history));
            && b.parsed == Telemetries(events)
            && b.failures == Failures(events) % COUNTER_RANGE
    decreases |history|
  {
    hide After, TaggedEvents, EventsOf, Telemetries, Failures, Deliver;
    NothingRecorded();
    if |history| == 0 {
      NothingYet(0);
    } else {
      var earlier, chunk := LastChunk(history);
      var events, now := Untag(TaggedEvents(earlier)), EventsOf(After(earlier), chunk);
      BookOfEvents(earlier);
      AfterOneMore(earlier, chunk);
      BookAfter(After(earlier), chunk);
      UntagOneMore(earlier, chunk);
      TelemetriesConcat(events, now);
      FailuresConcat(events, now);
      ModuloOfModulo(Failures(events), Failures(now));
    }
  }

  // ----- who is dropped -----

  ghost predicate SomeClientDropped(log: seq<LogMessage>) {
    exists fd :: DroppedOnOverflow(fd) in log
  }

  lemma {:induction false} NoDropInMessages(events: seq<Event>)
    ensures !SomeClientDropped(Messages(events))
    decreases |events|
  {
    if |events| > 0 {
      NoDropInMessages(events[1..]);
    }
  }

  /** The parser drops the client of a chunk exactly when the chunk does not fit into its buffer. */
  lemma DroppedBy(r: Router, chunk: DataChunk)
    requires AllConsistent(r.clients)
    ensures SomeClientDropped(Deliver(r, chunk).book.log) <==>
            || SomeClientDropped(r.book.log)
            || (|chunk.data| > 0 && !Fits(ClientOf(r.clients, chunk.client_id), chunk.data))
  {
    hide RunOn, Telemetries, Failures, Messages;
    var fd, log := chunk.client_id, r.book.log;
    var m := ClientOf(r.clients, fd);
    if |chunk.data| == 0 {
      LogsJoined(log, [CleanedUp(fd)]);
    } else if !Fits(m, chunk.data) {
      LogsJoined(log, [DroppedOnOverflow(fd)]);
      assert DroppedOnOverflow(fd) in [DroppedOnOverflow(fd)];
    } else {
      LogsJoined(log, Messages(RunOn(m, chunk.data).events));
      NoDropInMessages(RunOn(m, chunk.data).events);
    }
  }

  lemma LogsJoined(a: seq<LogMessage>, b: seq<LogMessage>)
    ensures SomeClientDropped(a + b) <==> SomeClientDropped(a) || SomeClientDropped(b)
  {
  }

  /** A client is dropped in a history if and only if some chunk does not fit beside the leftover of its session. */
  lemma {:induction false} DroppedExactly(history: seq<DataChunk>)
    ensures SomeClientDropped(After(history).book.log) <==> !NoOverflow(history)
    decreases |history|
  {
    hide After, Deliver, SomeClientDropped, FollowsSession, FitsSession, Fits, OpenSession;
    if |history| == 0 {
      NothingYet(0);
      NobodyDroppedYet();
    } else {
      var earlier, chunk := LastChunk(history);
      DroppedExactly(earlier);
      AfterOneMore(earlier, chunk);
      DroppedBy(After(earlier), chunk);
      if NoOverflow(earlier) {
        var m, session := ClientOf(After(earlier).clients, chunk.client_id), OpenSession(earlier, chunk.client_id);
        ClientsFollowSessions(earlier, chunk.client_id);
        FitsExactly(m, session, chunk.data);
        if |chunk.data| == 0 {
          NothingFits(session, chunk.data);
        }
      }
    }
  }

  lemma NobodyDroppedYet()
    ensures !SomeClientDropped([])
  {
  }

  lemma NothingFits(session: seq<byte>, data: seq<byte>)
    requires |data| == 0
    ensures FitsSession(session, data)
  {
    hide Parse;
    LeftoverBound(session);
  }

  // ----- the failure counter is the sum over all sessions of all sockets -----

  function FailuresOfSessions(sessions: seq<seq<byte>>): nat
    decreases |sessions|
  {
    if |sessions| == 0 then 0
    else FailuresOfSessions(sessions[..|sessions| - 1]) + Failures(Parse(sessions[|sessions| - 1]).events)
  }

  function FailuresOfSockets(history: seq<DataChunk>, fds: seq<int>): nat
    decreases |fds|
  {
    if |fds| == 0 then 0
    else FailuresOfSessions(SessionsOf(history, fds[0])) + FailuresOfSockets(history, fds[1..])
  }

  ghost predicate Distinct(fds: seq<int>) {
    forall i, j :: 0 <= i < j < |fds| ==> fds[i] != fds[j]
  }

  lemma FailuresOfOneMoreChunk(history: seq<DataChunk>, chunk: DataChunk)
    requires NoOverflow(history) && FitsSession(OpenSession(history, chunk.client_id), chunk.data)
    ensures var fd := chunk.client_id;
            FailuresOfSessions(SessionsOf(history + [chunk], fd)) ==
            FailuresOfSessions(SessionsOf(history, fd)) + Failures(EventsOf(After(history), chunk))
  {
    hide RunOn, SessionsOf, EventsOf, Fits, After, Parse, Failures, FitsSession, NoOverflow;
    var fd := chunk.client_id;
    var before, after := SessionsOf(history, fd), SessionsOf(history + [chunk], fd);
    OneMoreChunk(history, chunk, fd);
    NothingRecorded();
    EventsContinue(history, chunk);
    FailuresConcat(Parse(OpenSession(history, fd)).events, EventsOf(After(history), chunk));
    if |chunk.data| == 0 {
      assert after[..|after| - 1] == before;
      EmptyScan();
      NoEventsOfNothing(After(history), chunk);
    } else {
      assert after[..|after| - 1] == before[..|before| - 1];
    }
  }

  lemma NoEventsOfNothing(r: Router, chunk: DataChunk)
    requires AllConsistent(r.clients) && |chunk.data| == 0
    ensures EventsOf(r, chunk) == []
  {
  }

  lemma {:induction false} FailuresSpread(history: seq<DataChunk>, chunk: DataChunk, fds: seq<int>)
    requires NoOverflow(history) && FitsSession(OpenSession(history, chunk.client_id), chunk.data) && Distinct(fds)
    ensures FailuresOfSockets(history + [chunk], fds) ==
            FailuresOfSockets(history, fds) +
            if chunk.client_id in fds then Failures(EventsOf(After(history), chunk)) else 0
    decreases |fds|
  {
    hide SessionsOf, After, Failures, FailuresOfSessions, EventsOf, FitsSession, NoOverflow;
    if |fds| > 0 {
      FailuresSpread(history, chunk, fds[1..]);
      OneMoreChunk(history, chunk, fds[0]);
      if fds[0] == chunk.client_id {
        FailuresOfOneMoreChunk(history, chunk);
      }
      assert chunk.client_id in fds <==> chunk.client_id == fds[0] || chunk.client_id in fds[1..];
      assert chunk.client_id == fds[0] ==> chunk.client_id !in fds[1..];
    }
  }

  lemma {:induction false} FailuresAddUp(history: seq<DataChunk>, fds: seq<int>)
    requires NoOverflow(history) && Distinct(fds)
    requires forall i :: 0 <= i < |history| ==> history[i].client_id in fds
    ensures Failures(Untag(TaggedEvents(history))) == FailuresOfSockets(history, fds)
    decreases |history|
  {
    hide SessionsOf, TaggedEvents, Untag, After, Failures, FailuresOfSockets, EventsOf, FitsSession;
    NothingRecorded();
    if |history| == 0 {
      NothingYet(0);
      NoFailuresYet(fds);
    } else {
      var earlier, chunk := LastChunk(history);
      FailuresAddUp(earlier, fds);
      FailuresSpread(earlier, chunk, fds);
      UntagOneMore(earlier, chunk);
      FailuresConcat(Untag(TaggedEvents(earlier)), EventsOf(After(earlier), chunk));
    }
  }

  lemma {:induction false} NoFailuresYet(fds: seq<int>)
    ensures FailuresOfSockets([], fds) == 0
    decreases |fds|
  {
    if |fds| > 0 {
      hide Parse, Failures;
      EmptyScan();
      NothingRecorded();
      var sessions := SessionsOf([], fds[0]);
      assert FailuresOfSessions(sessions) == FailuresOfSessions(sessions[..0]) + Failures(Parse(sessions[0]).events);
      NoFailuresYet(fds[1..]);
    }
  }

  /** The counter shows the failures of all sessions of all sockets, taken modulo its width. */
  lemma CounterIsSumOverSessions(history: seq<DataChunk>, fds: seq<int>)
    requires NoOverflow(history) && Distinct(fds)
    requires forall i :: 0 <= i < |history| ==> history[i].client_id in fds
    ensures After(history).book.failures == FailuresOfSockets(history, fds) % COUNTER_RANGE
  {
    hide After;
    BookOfEvents(history);
    FailuresAddUp(history, fds);
  }

  /** Below the width, the counter is the sum. */
  lemma CounterBelowWidth(history: seq<DataChunk>, fds: seq<int>)
    requires NoOverflow(history) && Distinct(fds)
    requires forall i :: 0 <= i < |history| ==> history[i].client_id in fds
    requires FailuresOfSockets(history, fds) < 0x1_0000_0000_0000_0000
    ensures After(history).book.failures == FailuresOfSockets(history, fds)
  {
    hide After, FailuresOfSockets, NoOverflow, Distinct;
    CounterIsSumOverSessions(history, fds);
    BelowWidth(FailuresOfSockets(history, fds));
  }

  lemma BelowWidth(n: nat)
    requires n < 0x1_0000_0000_0000_0000
    ensures n % COUNTER_RANGE == n
  {}

  // ----- what is logged -----

  function CountOf(log: seq<LogMessage>, m: LogMessage): nat
    decreases |log|
  {
    if |log| == 0 then 0 else (if log[0] == m then 1 else 0) + CountOf(log[1..], m)
  }

  lemma {:induction false} CountOfConcat(a: seq<LogMessage>, b: seq<LogMessage>, m: LogMessage)
    ensures CountOf(a + b, m) == CountOf(a, m) + CountOf(b, m)
    decreases |a|
  {
    if |a| == 0 {
      assert a + b == b;
    } else {
      assert (a + b)[1..] == a[1..] + b;
      CountOfConcat(a[1..], b, m);
    }
  }

  lemma CountOfOne(m: LogMessage, n: LogMessage)
    ensures CountOf([m], n) == if m == n then 1 else 0
  {
    assert [m][1..] == [];
  }

  /** Each checksum mismatch and each malformed payload is logged once, and nothing else is for events. */
  lemma {:induction false} MessagesCounted(events: seq<Event>)
    ensures CountOf(Messages(events), CrcMismatch) == TallyOf(events).badCrc
    ensures CountOf(Messages(events), MalformedPayload) == TallyOf(events).malformed
    ensures |Messages(events)| == TallyOf(events).badCrc + TallyOf(events).malformed
    decreases |events|
  {
    hide CountOf;
    if |events| == 0 {
      NoneCounted(CrcMismatch);
      NoneCounted(MalformedPayload);
    } else {
      var first, rest := Message(events[0]), Messages(events[1..]);
      MessagesCounted(events[1..]);
      CountOfConcat(first, rest, CrcMismatch);
      CountOfConcat(first, rest, MalformedPayload);
      NoneCounted(CrcMismatch);
      NoneCounted(MalformedPayload);
      CountOfOne(CrcMismatch, CrcMismatch);
      CountOfOne(CrcMismatch, MalformedPayload);
      CountOfOne(MalformedPayload, CrcMismatch);
      CountOfOne(MalformedPayload, MalformedPayload);
    }
  }

  lemma NoneCounted(m: LogMessage)
    ensures CountOf([], m) == 0
  {
  }

  lemma {:induction false} NoCleanUpInMessages(events: seq<Event>, fd: int)
    ensures CountOf(Messages(events), CleanedUp(fd)) == 0
    decreases |events|
  {
    if |events| > 0 {
      NoCleanUpInMessages(events[1..], fd);
      CountOfConcat(Message(events[0]), Messages(events[1..]), CleanedUp(fd));
    }
  }

  lemma CleanUpsAfter(r: Router, chunk: DataChunk, fd: int)
    requires AllConsistent(r.clients)
    ensures CountOf(Deliver(r, chunk).book.log, CleanedUp(fd)) ==
            CountOf(r.book.log, CleanedUp(fd)) + if |chunk.data| == 0 && chunk.client_id == fd then 1 else 0
  {
    hide RunOn, Fits, Telemetries, Failures, Messages, CountOf;
    var log := r.book.log;
    var m := ClientOf(r.clients, chunk.client_id);
    if |chunk.data| == 0 {
      CountOfConcat(log, [CleanedUp(chunk.client_id)], CleanedUp(fd));
      CountOfOne(CleanedUp(chunk.client_id), CleanedUp(fd));
    } else if !Fits(m, chunk.data) {
      CountOfConcat(log, [DroppedOnOverflow(chunk.client_id)], CleanedUp(fd));
      CountOfOne(DroppedOnOverflow(chunk.client_id), CleanedUp(fd));
    } else {
      CountOfConcat(log, Messages(RunOn(m, chunk.data).events), CleanedUp(fd));
      NoCleanUpInMessages(RunOn(m, chunk.data).events, fd);
    }
  }

  /** Every session that has ended is logged as cleaned up, once. */
  lemma {:induction false} CleanUpsLogged(history: seq<DataChunk>, fd: int)
    ensures CountOf(After(history).book.log, CleanedUp(fd)) == |SessionsOf(history, fd)| - 1
    decreases |history|
  {
    hide After, Deliver, SessionsOf, CountOf;
    if |history| == 0 {
      NothingYet(fd);
      NoneCounted(CleanedUp(fd));
    } else {
      var earlier, chunk := LastChunk(history);
      CleanUpsLogged(earlier, fd);
      AfterOneMore(earlier, chunk);
      OneMoreChunk(earlier, chunk, fd);
      CleanUpsAfter(After(earlier), chunk, fd);
    }
  }

  /** Whatever was logged before, a chunk has the same effect. */
  lemma LogDoesNotMatter(clients: map<int, Machine>, book: Book, log: seq<LogMessage>, chunk: DataChunk)
    requires AllConsistent(clients)
    ensures var r, n := Router(clients, book), Router(clients, book.(log := log + book.log));
            var after := Deliver(r, chunk);
            Deliver(n, chunk) == after.(book := after.book.(log := log + after.book.log))
  {
    hide RunOn, Fits, Telemetries, Failures, Messages, AllConsistent;
  }

  lemma {:induction false} RunAfterMessage(history: seq<DataChunk>)
    ensures var r := DeliverAll(Log(START, Running), history);
            r == After(history).(book := After(history).book.(log := [Running] + After(history).book.log))
    decreases |history|
  {
    hide Deliver, After;
    if |history| == 0 {
      NothingYet(0);
    } else {
      var earlier, chunk := LastChunk(history);
      RunAfterMessage(earlier);
      AfterOneMore(earlier, chunk);
      LogDoesNotMatter(After(earlier).clients, After(earlier).book, [Running], chunk);
    }
  }

  /** The whole of a run of the parser: it handles every chunk, between its first message and its last. */
  lemma WholeRun(history: seq<DataChunk>)
    ensures var r, n := After(history), RunRouter(START, history);
            && n.clients == r.clients && n.book.parsed == r.book.parsed && n.book.failures == r.book.failures
            && n.book.log == [Running] + r.book.log + [ShuttingDown(r.book.failures)]
  {
    hide DeliverAll, After;
    RunAfterMessage(history);
  }

  // ----- what was yielded so far is a beginning of what will have been -----

  /** Later chunks only extend sessions. */
  lemma {:induction false} SessionsGrow(history: seq<DataChunk>, k: nat, fd: int, n: nat)
    requires k <= |history| && n < |SessionsOf(history[..k], fd)|
    ensures n < |SessionsOf(history, fd)| && SessionsOf(history[..k], fd)[n] <= SessionsOf(history, fd)[n]
    decreases |history|
  {
    if k == |history| {
      assert history[..k] == history;
    } else {
      var shorter := history[..|history| - 1];
      assert shorter[..k] == history[..k];
      SessionsGrow(shorter, k, fd, n);
    }
  }

  lemma ParseGrows(s: seq<byte>, t: seq<byte>)
    requires s <= t
    ensures Parse(s).events <= Parse(t).events
  {
    hide Parse;
    assert t == s + t[|s|..];
    ParseResumes(s, t[|s|..]);
  }

  /** Having taken only a part of the history, the parser has yielded a beginning of every session's scan. */
  lemma YieldedSoFar(history: seq<DataChunk>, k: nat, fd: int, n: nat)
    requires NoOverflow(history) && k <= |history| && n < |SessionsOf(history, fd)|
    ensures EventsIn(TaggedEvents(history[..k]), fd, n) <= Parse(SessionsOf(history, fd)[n]).events
  {
    hide Parse, EventsIn, TaggedEvents, SessionsOf;
    if n < |SessionsOf(history[..k], fd)| {
      SessionsGrow(history, k, fd, n);
      NoOverflowBefore(history, k);
      SessionIsolated(history[..k], fd, n);
      ParseGrows(SessionsOf(history[..k], fd)[n], SessionsOf(history, fd)[n]);
    } else {
      NoLaterEvents(history[..k], fd, n);
    }
  }
}
