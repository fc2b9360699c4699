/**
 The bounded blocking queue as an interleaving of the steps of any number of producers and consumers: a mutex, two
 condition variables with sleeping and woken threads, spurious wake-ups, and stop tokens that may fire at any moment.
 */
module QueueProtocol {
  import opened Wrappers

  /** Where a thread is. `Passed` threads hold the mutex: their wait has returned true. */
  datatype Phase<T> =
    | Idle
    | PushCalled(item: T)     // wants the mutex
    | PushAsleep(item: T)     // released the mutex, sleeps on "not full"
    | PushWoken(item: T)      // notified, wants the mutex back to look again
    | PushPassed(item: T)
    | PopCalled
    | PopAsleep
    | PopWoken
    | PopPassed

  /** What a call returned to its thread. */
  datatype Answer<T> =
    | PushAnswer(thread: int, item: T, accepted: bool)
    | PopAnswer(thread: int, value: Option<T>)

  function PhaseIn<T>(threads: map<int, Phase<T>>, t: int): Phase<T> {
    if t in threads then threads[t] else Idle
  }

  lemma PhasesAfterUpdate<T>(threads: map<int, Phase<T>>, t: int, p: Phase<T>)
    ensures forall u {:trigger PhaseIn(threads[t := p], u)} ::
            PhaseIn(threads[t := p], u) == if u == t then p else PhaseIn(threads, u)
  {
  }

  datatype Queue<T> = Queue(
    maxSize: nat,                    // zero means unbounded
    items: seq<T>,
    holder: Option<int>,             // the thread that holds the mutex between two of its steps
    threads: map<int, Phase<T>>,
    stopped: set<int>,               // the threads whose current token has been asked to stop
    answers: seq<Answer<T>>)         // every answer given so far
  {
    function PhaseOf(t: int): Phase<T> {
      PhaseIn(threads, t)
    }

    function Set(t: int, p: Phase<T>): Queue<T> {
      this.(threads := threads[t := p])
    }

    predicate Full() {
      maxSize > 0 && |items| >= maxSize
    }
  }

  /** Producers wait for "not full", consumers for "not empty". */
  datatype Role = Producer | Consumer

  predicate Sleeping<T>(role: Role, p: Phase<T>) {
    if role.Producer? then p.PushAsleep? else p.PopAsleep?
  }

  /** A thread that will look at the queue without being notified again, or that has just seen what it waits for. */
  predicate Ready<T>(role: Role, p: Phase<T>) {
    if role.Producer? then p.PushWoken? || p.PushPassed? else p.PopWoken? || p.PopPassed?
  }

  function SleepersIn<T>(threads: map<int, Phase<T>>, role: Role): set<int> {
    set t | t in threads && Sleeping(role, threads[t])
  }

  function ReadyIn<T>(threads: map<int, Phase<T>>, role: Role): set<int> {
    set t | t in threads && Ready(role, threads[t])
  }

  function Initial<T>(maxSize: nat): Queue<T> {
    Queue(maxSize, [], None, map[], {}, [])
  }

  datatype Action<T> =
    | CallPush(t: int, item: T, preStopped: bool)
    | CallPop(t: int, preStopped: bool)
    | Enter(t: int)                       // take the mutex and go once round the wait loop
    | Commit(t: int, notified: Option<int>)  // add or remove an item, notify one, release the mutex
    | Abandon(t: int)                     // a push whose wait succeeded finds its token stopped after all
    | Stop(ts: set<int>)                  // a token shared by these threads is asked to stop
    | Spurious(t: int)

  /** A wake-up that condition variables permit: one sleeper if there is any, none otherwise. */
  predicate Wakes(sleepers: set<int>, notified: Option<int>) {
    if sleepers == {} then notified == None else notified.Some? && notified.value in sleepers
  }

  predicate Enabled<T>(q: Queue<T>, a: Action<T>) {
    match a
    case CallPush(t, _, _) => q.PhaseOf(t).Idle?
    case CallPop(t, _) => q.PhaseOf(t).Idle?
    case Enter(t) =>
      var p := q.PhaseOf(t);
      q.holder == None && (p.PushCalled? || p.PushWoken? || p.PopCalled? || p.PopWoken?)
    case Commit(t, notified) =>
      var p := q.PhaseOf(t);
      || (p.PushPassed? && t !in q.stopped && Wakes(SleepersIn(q.threads, Consumer), notified))
      || (p.PopPassed? && |q.items| > 0 && Wakes(SleepersIn(q.threads, Producer), notified))
    case Abandon(t) => q.PhaseOf(t).PushPassed? && t in q.stopped
    case Stop(ts) => true
    case Spurious(t) => q.PhaseOf(t).PushAsleep? || q.PhaseOf(t).PopAsleep?
  }

  function Awakened<T>(p: Phase<T>): Phase<T> {
    match p
    case PushAsleep(item) => PushWoken(item)
    case PopAsleep => PopWoken
    case _ => p
  }

  function Notify<T>(q: Queue<T>, notified: Option<int>): Queue<T> {
    if notified.Some? then q.Set(notified.value, Awakened(q.PhaseOf(notified.value))) else q
  }

  function SetStopped(stopped: set<int>, t: int, flag: bool): set<int> {
    if flag then stopped + {t} else stopped - {t}
  }

  /** One round of `wait(lock, token, predicate)` on "not full", skipped by unbounded queues. */
  function EnterPush<T>(q: Queue<T>, t: int, item: T): Queue<T> {
    if !q.Full() then q.Set(t, PushPassed(item)).(holder := Some(t))
    else if t in q.stopped then q.Set(t, Idle).(answers := q.answers + [PushAnswer(t, item, false)])
    else q.Set(t, PushAsleep(item))
  }

  function EnterPop<T>(q: Queue<T>, t: int): Queue<T> {
    if |q.items| > 0 then q.Set(t, PopPassed).(holder := Some(t))
    else if t in q.stopped then q.Set(t, Idle).(answers := q.answers + [PopAnswer(t, None)])
    else q.Set(t, PopAsleep)
  }

  function CommitPush<T>(q: Queue<T>, t: int, item: T): Queue<T> {
    q.Set(t, Idle).(holder := None, items := q.items + [item], answers := q.answers + [PushAnswer(t, item, true)])
  }

  function CommitPop<T>(q: Queue<T>, t: int): Queue<T>
    requires |q.items| > 0
  {
    q.Set(t, Idle).(holder := None, items := q.items[1..], answers := q.answers + [PopAnswer(t, Some(q.items[0]))])
  }

  /** Whether one of these threads is inside a wait on "not empty", where its stop callback is registered. */
  predicate WaitingToPop<T>(q: Queue<T>, ts: set<int>) {
    exists t :: t in ts && (q.PhaseOf(t).PopAsleep? || q.PhaseOf(t).PopWoken?)
  }

  predicate WaitingToPush<T>(q: Queue<T>, ts: set<int>) {
    exists t :: t in ts && (q.PhaseOf(t).PushAsleep? || q.PhaseOf(t).PushWoken?)
  }

  /** Stopping sets the flag; the callbacks notify everybody on each condition variable on which one of them waits. */
  function StopThreads<T>(q: Queue<T>, ts: set<int>): Queue<T> {
    q.(stopped := q.stopped + ts,
       threads := map t | t in q.threads ::
         if (q.threads[t].PopAsleep? && WaitingToPop(q, ts)) || (q.threads[t].PushAsleep? && WaitingToPush(q, ts))
         then Awakened(q.threads[t]) else q.threads[t])
  }

  function Apply<T>(q: Queue<T>, a: Action<T>): Queue<T>
    requires Enabled(q, a)
  {
    match a
    case CallPush(t, item, preStopped) => q.Set(t, PushCalled(item)).(stopped := SetStopped(q.stopped, t, preStopped))
    case CallPop(t, preStopped) => q.Set(t, PopCalled).(stopped := SetStopped(q.stopped, t, preStopped))
    case Enter(t) =>
      (match q.PhaseOf(t)
       case PushCalled(item) => EnterPush(q, t, item)
       case PushWoken(item) => EnterPush(q, t, item)
       case _ => EnterPop(q, t))
    case Commit(t, notified) =>
      (match q.PhaseOf(t)
       case PushPassed(item) => Notify(CommitPush(q, t, item), notified)
       case _ => Notify(CommitPop(q, t), notified))
    case Abandon(t) =>
      q.Set(t, Idle).(holder := None, answers := q.answers + [PushAnswer(t, q.PhaseOf(t).item, false)])
    case Stop(ts) => StopThreads(q, ts)
    case Spurious(t) => q.Set(t, Awakened(q.PhaseOf(t)))
  }

  /** Every action of a run is enabled when it happens. */
  ghost predicate IsRun<T>(q: Queue<T>, actions: seq<Action<T>>)
    decreases |actions|
  {
    |actions| == 0 || (Enabled(q, actions[0]) && IsRun(Apply(q, actions[0]), actions[1..]))
  }

  ghost function AfterRun<T>(q: Queue<T>, actions: seq<Action<T>>): Queue<T>
    requires IsRun(q, actions)
    decreases |actions|
  {
    if |actions| == 0 then q else AfterRun(Apply(q, actions[0]), actions[1..])
  }

  // ----- what the answers say -----

  /** The items whose push was answered with true, in the order of the answers. */
  function Accepted<T>(answers: seq<Answer<T>>): seq<T>
    decreases |answers|
  {
    if |answers| == 0 then []
    else
      var last := answers[|answers| - 1];
      Accepted(answers[..|answers| - 1]) + if last.PushAnswer? && last.accepted then [last.item] else []
  }

  /** The items that pops have returned, in the order of the answers. */
  function Returned<T>(answers: seq<Answer<T>>): seq<T>
    decreases |answers|
  {
    if |answers| == 0 then []
    else
      var last := answers[|answers| - 1];
      Returned(answers[..|answers| - 1]) + if last.PopAnswer? && last.value.Some? then [last.value.value] else []
  }

  lemma OneMoreAnswer<T>(answers: seq<Answer<T>>, last: Answer<T>)
    ensures Accepted(answers + [last]) ==
            Accepted(answers) + if last.PushAnswer? && last.accepted then [last.item] else []
    ensures Returned(answers + [last]) ==
            Returned(answers) + if last.PopAnswer? && last.value.Some? then [last.value.value] else []
  {
    assert (answers + [last])[..|answers|] == answers;
  }

  // ----- safety: order, conservation, the bound, mutual exclusion -----

  /** First in, first out: what pops have returned, followed by what is queued, is what was accepted. */
  ghost predicate Fifo<T>(q: Queue<T>) {
    Accepted(q.answers) == Returned(q.answers) + q.items
  }

  /** At most one thread has passed its wait, it holds the mutex, and what it saw is still true. */
  ghost predicate Exclusive<T>(q: Queue<T>) {
    && (forall t :: PhaseIn(q.threads, t).PushPassed? || PhaseIn(q.threads, t).PopPassed? <==> q.holder == Some(t))
    && (forall t :: PhaseIn(q.threads, t).PushPassed? ==> !q.Full())
    && (forall t :: PhaseIn(q.threads, t).PopPassed? ==> |q.items| > 0)
  }

  ghost predicate WithinBound<T>(q: Queue<T>) {
    q.maxSize > 0 ==> |q.items| <= q.maxSize
  }

  ghost predicate Safe<T>(q: Queue<T>) {
    Fifo(q) && Exclusive(q) && WithinBound(q)
  }

  lemma NotifyKeeps<T>(q: Queue<T>, notified: Option<int>)
    requires Exclusive(q)
    ensures Exclusive(Notify(q, notified))
    ensures var n := Notify(q, notified); n.items == q.items && n.answers == q.answers && n.maxSize == q.maxSize
  {
    hide PhaseIn;
    if notified.Some? {
      PhasesAfterUpdate(q.threads, notified.value, Awakened(q.PhaseOf(notified.value)));
    }
  }

  lemma EnterPushSafe<T>(q: Queue<T>, t: int, item: T)
    requires Safe(q) && q.holder == None
    ensures Safe(EnterPush(q, t, item))
  {
    hide Accepted, Returned, PhaseIn;
    PhasesAfterUpdate(q.threads, t, PushPassed(item));
    PhasesAfterUpdate(q.threads, t, Idle);
    PhasesAfterUpdate(q.threads, t, PushAsleep(item));
    OneMoreAnswer(q.answers, PushAnswer(t, item, false));
    assert Accepted(q.answers) + [] == Accepted(q.answers);
    assert Returned(q.answers) + [] == Returned(q.answers);
  }

  lemma EnterPopSafe<T>(q: Queue<T>, t: int)
    requires Safe(q) && q.holder == None
    ensures Safe(EnterPop(q, t))
  {
    hide Accepted, Returned, PhaseIn;
    PhasesAfterUpdate(q.threads, t, PopPassed);
    PhasesAfterUpdate(q.threads, t, Idle);
    PhasesAfterUpdate(q.threads, t, PopAsleep);
    OneMoreAnswer(q.answers, PopAnswer(t, None));
    assert Accepted(q.answers) + [] == Accepted(q.answers);
    assert Returned(q.answers) + [] == Returned(q.answers);
  }

  lemma CommitPushSafe<T>(q: Queue<T>, t: int, item: T)
    requires Safe(q) && q.PhaseOf(t).PushPassed?
    ensures Safe(CommitPush(q, t, item))
  {
    hide Accepted, Returned, PhaseIn;
    PhasesAfterUpdate(q.threads, t, Idle);
    OneMoreAnswer(q.answers, PushAnswer(t, item, true));
    assert Returned(q.answers) + (q.items + [item]) == (Returned(q.answers) + q.items) + [item];
  }

  lemma CommitPopSafe<T>(q: Queue<T>, t: int)
    requires Safe(q) && q.PhaseOf(t).PopPassed?
    ensures Safe(CommitPop(q, t))
  {
    hide Accepted, Returned, PhaseIn;
    PhasesAfterUpdate(q.threads, t, Idle);
    OneMoreAnswer(q.answers, PopAnswer(t, Some(q.items[0])));
    assert Returned(q.answers) + q.items == (Returned(q.answers) + [q.items[0]]) + q.items[1..];
  }

  lemma AbandonSafe<T>(q: Queue<T>, t: int)
    requires Safe(q) && Enabled(q, Abandon(t))
    ensures Safe(Apply(q, Abandon(t)))
  {
    hide Accepted, Returned, PhaseIn;
    PhasesAfterUpdate(q.threads, t, Idle);
    OneMoreAnswer(q.answers, PushAnswer(t, q.PhaseOf(t).item, false));
  }

  lemma PhasesAfterStop<T>(q: Queue<T>, ts: set<int>)
    ensures forall u {:trigger PhaseIn(StopThreads(q, ts).threads, u)} ::
      var p := PhaseIn(q.threads, u);
      PhaseIn(StopThreads(q, ts).threads, u) ==
        if (p.PopAsleep? && WaitingToPop(q, ts)) || (p.PushAsleep? && WaitingToPush(q, ts)) then Awakened(p) else p
  {
    hide WaitingToPop, WaitingToPush;
  }

  lemma StopSafe<T>(q: Queue<T>, ts: set<int>)
    requires Safe(q)
    ensures Safe(StopThreads(q, ts))
  {
    hide Accepted, Returned, PhaseIn, WaitingToPop, WaitingToPush;
    PhasesAfterStop(q, ts);
  }

  lemma CallSafe<T>(q: Queue<T>, a: Action<T>)
    requires Safe(q) && Enabled(q, a) && (a.CallPush? || a.CallPop? || a.Spurious?)
    ensures Safe(Apply(q, a))
  {
    hide Accepted, Returned, PhaseIn;
    match a
    case CallPush(t, item, s) => PhasesAfterUpdate(q.threads, t, PushCalled(item));
    case CallPop(t, s) => PhasesAfterUpdate(q.threads, t, PopCalled);
    case Spurious(t) => PhasesAfterUpdate(q.threads, t, Awakened(q.PhaseOf(t)));
    case _ =>
  }

  lemma SafeStep<T>(q: Queue<T>, a: Action<T>)
    requires Safe(q) && Enabled(q, a)
    ensures Safe(Apply(q, a)) && Apply(q, a).maxSize == q.maxSize
  {
    hide Accepted, Returned, Exclusive, EnterPush, EnterPop, CommitPush, CommitPop, StopThreads, Notify;
    match a
    case CallPush(t, item, s) => CallSafe(q, a);
    case CallPop(t, s) => CallSafe(q, a);
    case Spurious(t) => CallSafe(q, a);
    case Abandon(t) => AbandonSafe(q, t);
    case Stop(ts) =>
      StopSafe(q, ts);
      SizeUnchanged(q, 0, ts);
    case Enter(t) =>
      SizeUnchanged(q, t, {});
      var p := q.PhaseOf(t);
      if p.PushCalled? || p.PushWoken? {
        EnterPushSafe(q, t, p.item);
      } else {
        EnterPopSafe(q, t);
      }
    case Commit(t, notified) =>
      SizeUnchanged(q, t, {});
      var p := q.PhaseOf(t);
      if p.PushPassed? {
        CommitPushSafe(q, t, p.item);
        NotifyKeeps(CommitPush(q, t, p.item), notified);
      } else {
        CommitPopSafe(q, t);
        NotifyKeeps(CommitPop(q, t), notified);
      }
  }

  lemma SizeUnchanged<T>(q: Queue<T>, t: int, ts: set<int>)
    ensures StopThreads(q, ts).maxSize == q.maxSize
    ensures forall item :: EnterPush(q, t, item).maxSize == q.maxSize && CommitPush(q, t, item).maxSize == q.maxSize
    ensures EnterPop(q, t).maxSize == q.maxSize && (|q.items| > 0 ==> CommitPop(q, t).maxSize == q.maxSize)
  {
  }

  // ----- no lost wake-ups -----

  /** What a role waits for: queued items, or free places in a bounded queue. */
  function Demand<T>(q: Queue<T>, role: Role): int {
    if role.Consumer? then |q.items| else if q.maxSize == 0 then 0 else q.maxSize - |q.items|
  }

  /** If anybody sleeps, everything there is to be had is spoken for by threads that are awake. */
  ghost predicate NothingMissed<T>(q: Queue<T>, role: Role) {
    && (SleepersIn(q.threads, role) != {} ==> Demand(q, role) <= |ReadyIn(q.threads, role)|)
    && (role.Producer? && q.maxSize == 0 ==> SleepersIn(q.threads, role) == {})
  }

  lemma SetsAfterUpdate<T>(threads: map<int, Phase<T>>, t: int, p: Phase<T>, role: Role)
    ensures SleepersIn(threads[t := p], role) ==
            if Sleeping(role, p) then SleepersIn(threads, role) + {t} else SleepersIn(threads, role) - {t}
    ensures ReadyIn(threads[t := p], role) ==
            if Ready(role, p) then ReadyIn(threads, role) + {t} else ReadyIn(threads, role) - {t}
    ensures t in SleepersIn(threads, role) <==> Sleeping(role, PhaseIn(threads, t))
    ensures t in ReadyIn(threads, role) <==> Ready(role, PhaseIn(threads, t))
  {
  }

  /** A change between phases that have nothing to do with a role's waiting. */
  lemma UninvolvedUpdate<T>(q: Queue<T>, n: Queue<T>, t: int, p: Phase<T>, role: Role)
    requires NothingMissed(q, role) && n.threads == q.threads[t := p] && n.maxSize == q.maxSize
             && Demand(n, role) == Demand(q, role)
    requires !Sleeping(role, q.PhaseOf(t)) && !Ready(role, q.PhaseOf(t)) && !Sleeping(role, p) && !Ready(role, p)
    ensures NothingMissed(n, role)
  {
    hide SleepersIn, ReadyIn, PhaseIn;
    SetsAfterUpdate(q.threads, t, p, role);
  }

  /** A thread that becomes ready, without changing the demand. */
  lemma BecomesReady<T>(q: Queue<T>, n: Queue<T>, t: int, p: Phase<T>, role: Role)
    requires NothingMissed(q, role) && n.threads == q.threads[t := p] && n.maxSize == q.maxSize
             && Demand(n, role) == Demand(q, role)
    requires Ready(role, p)
    ensures NothingMissed(n, role)
  {
    hide SleepersIn, ReadyIn, PhaseIn, Demand;
    SetsAfterUpdate(q.threads, t, p, role);
    var ready := ReadyIn(q.threads, role);
    if t in ready {
      assert ready + {t} == ready;
    } else {
      assert |ready + {t}| == |ready| + 1;
    }
  }

  lemma NothingToMiss<T>(q: Queue<T>, role: Role)
    requires Demand(q, role) <= 0 && (role.Producer? ==> q.maxSize > 0)
    ensures NothingMissed(q, role)
  {
  }

  lemma EnterPushAwake<T>(q: Queue<T>, t: int, item: T, role: Role)
    requires WithinBound(q) && NothingMissed(q, role)
             && (q.PhaseOf(t) == PushCalled(item) || q.PhaseOf(t) == PushWoken(item))
    ensures NothingMissed(EnterPush(q, t, item), role)
  {
    hide SleepersIn, ReadyIn, PhaseIn, NothingMissed;
    var n := EnterPush(q, t, item);
    if role.Consumer? {
      var p := if !q.Full() then PushPassed(item) else if t in q.stopped then Idle else PushAsleep(item);
      UninvolvedUpdate(q, n, t, p, role);
    } else if !q.Full() {
      BecomesReady(q, n, t, PushPassed(item), role);
    } else {
      NothingToMiss(n, role);
    }
  }

  lemma EnterPopAwake<T>(q: Queue<T>, t: int, role: Role)
    requires NothingMissed(q, role) && (q.PhaseOf(t).PopCalled? || q.PhaseOf(t).PopWoken?)
    ensures NothingMissed(EnterPop(q, t), role)
  {
    hide SleepersIn, ReadyIn, PhaseIn, NothingMissed;
    var n := EnterPop(q, t);
    if role.Producer? {
      UninvolvedUpdate(q, n, t, if |q.items| > 0 then PopPassed else if t in q.stopped then Idle else PopAsleep, role);
    } else if |q.items| > 0 {
      BecomesReady(q, n, t, PopPassed, role);
    } else {
      NothingToMiss(n, role);
    }
  }

  /** A commit uses up one unit of its own role's demand, and its thread stops being ready. */
  lemma CommitOwnRole<T>(q: Queue<T>, n: Queue<T>, t: int, role: Role)
    requires NothingMissed(q, role) && Ready(role, q.PhaseOf(t))
    requires n.threads == q.threads[t := Idle]
             && Demand(n, role) == (if q.maxSize == 0 && role.Producer? then 0 else Demand(q, role) - 1)
    requires n.maxSize == q.maxSize
    ensures NothingMissed(n, role)
  {
    hide SleepersIn, ReadyIn, PhaseIn, Demand;
    SetsAfterUpdate(q.threads, t, Idle, role);
    assert |ReadyIn(q.threads, role) - {t}| == |ReadyIn(q.threads, role)| - 1;
  }

  /** A sleeper that is woken counts among the ready. */
  lemma WakeOne<T>(q: Queue<T>, u: int, role: Role)
    requires u in SleepersIn(q.threads, role)
    ensures var n := q.Set(u, Awakened(q.PhaseOf(u)));
            && SleepersIn(n.threads, role) == SleepersIn(q.threads, role) - {u}
            && |ReadyIn(n.threads, role)| == |ReadyIn(q.threads, role)| + 1
  {
    hide SleepersIn, ReadyIn, PhaseIn;
    SetsAfterUpdate(q.threads, u, Awakened(q.PhaseOf(u)), role);
    assert u !in ReadyIn(q.threads, role);
    assert |ReadyIn(q.threads, role) + {u}| == |ReadyIn(q.threads, role)| + 1;
  }

  /** It adds one unit to the other role's demand, and wakes a sleeper of that role if there is one. */
  lemma CommitOtherRole<T>(q: Queue<T>, n: Queue<T>, t: int, notified: Option<int>, role: Role)
    requires NothingMissed(q, role) && !Ready(role, q.PhaseOf(t)) && !Sleeping(role, q.PhaseOf(t))
    requires n.threads == q.threads[t := Idle] && n.maxSize == q.maxSize && Demand(n, role) <= Demand(q, role) + 1
    requires Wakes(SleepersIn(q.threads, role), notified)
    ensures NothingMissed(Notify(n, notified), role)
  {
    hide SleepersIn, ReadyIn, PhaseIn, Awakened;
    SetsAfterUpdate(q.threads, t, Idle, role);
    if notified.Some? {
      WakeOne(n, notified.value, role);
    }
  }

  /** Waking a thread of one role does not concern the other. */
  lemma NotifyOtherRole<T>(q: Queue<T>, notified: Option<int>, role: Role, other: Role)
    requires NothingMissed(q, role) && role != other
    requires notified.Some? ==> Sleeping(other, q.PhaseOf(notified.value))
    ensures NothingMissed(Notify(q, notified), role)
  {
    hide SleepersIn, ReadyIn, PhaseIn, NothingMissed;
    if notified.Some? {
      UninvolvedUpdate(q, Notify(q, notified), notified.value, Awakened(q.PhaseOf(notified.value)), role);
    }
  }

  lemma SleeperStaysAsleep<T>(q: Queue<T>, t: int, u: int, other: Role)
    requires u in SleepersIn(q.threads, other) && !Sleeping(other, q.PhaseOf(t))
    ensures Sleeping(other, PhaseIn(q.threads[t := Idle], u))
  {
  }

  lemma CommitPushAwake<T>(q: Queue<T>, t: int, notified: Option<int>, role: Role)
    requires NothingMissed(q, role) && q.PhaseOf(t).PushPassed? && Wakes(SleepersIn(q.threads, Consumer), notified)
    ensures NothingMissed(Notify(CommitPush(q, t, q.PhaseOf(t).item), notified), role)
  {
    hide SleepersIn, ReadyIn, PhaseIn, NothingMissed, Notify;
    var n := CommitPush(q, t, q.PhaseOf(t).item);
    if role.Producer? {
      CommitOwnRole(q, n, t, role);
      if notified.Some? {
        SleeperStaysAsleep(q, t, notified.value, Consumer);
      }
      NotifyOtherRole(n, notified, role, Consumer);
    } else {
      CommitOtherRole(q, n, t, notified, role);
    }
  }

  lemma CommitPopAwake<T>(q: Queue<T>, t: int, notified: Option<int>, role: Role)
    requires NothingMissed(q, role) && q.PhaseOf(t).PopPassed? && |q.items| > 0
             && Wakes(SleepersIn(q.threads, Producer), notified)
    ensures NothingMissed(Notify(CommitPop(q, t), notified), role)
  {
    hide SleepersIn, ReadyIn, PhaseIn, NothingMissed, Notify;
    var n := CommitPop(q, t);
    if role.Consumer? {
      CommitOwnRole(q, n, t, role);
      if notified.Some? {
        SleeperStaysAsleep(q, t, notified.value, Producer);
      }
      NotifyOtherRole(n, notified, role, Producer);
    } else {
      CommitOtherRole(q, n, t, notified, role);
    }
  }

  lemma StopAwake<T>(q: Queue<T>, ts: set<int>, role: Role)
    requires NothingMissed(q, role)
    ensures NothingMissed(StopThreads(q, ts), role)
  {
    hide WaitingToPop, WaitingToPush;
    var n := StopThreads(q, ts);
    var woken := if role.Consumer? then WaitingToPop(q, ts) else WaitingToPush(q, ts);
    forall t ensures t in SleepersIn(n.threads, role) <==> t in SleepersIn(q.threads, role) && !woken {
    }
    if !woken {
      assert SleepersIn(n.threads, role) == SleepersIn(q.threads, role);
      forall t ensures t in ReadyIn(n.threads, role) <==> t in ReadyIn(q.threads, role) {
      }
      assert ReadyIn(n.threads, role) == ReadyIn(q.threads, role);
    } else {
      assert SleepersIn(n.threads, role) == {};
    }
  }

  lemma SpuriousAwake<T>(q: Queue<T>, t: int, role: Role)
    requires NothingMissed(q, role) && Enabled(q, Spurious(t))
    ensures NothingMissed(Apply(q, Spurious(t)), role)
  {
    hide SleepersIn, ReadyIn, PhaseIn;
    SetsAfterUpdate(q.threads, t, Awakened(q.PhaseOf(t)), role);
  }

  lemma OthersAwake<T>(q: Queue<T>, a: Action<T>, role: Role)
    requires NothingMissed(q, role) && Enabled(q, a)
    requires a.CallPush? || a.CallPop? || a.Spurious? || (a.Abandon? && role.Consumer?)
    ensures NothingMissed(Apply(q, a), role)
  {
    hide SleepersIn, ReadyIn, PhaseIn, NothingMissed;
    match a
    case CallPush(t, item, s) => UninvolvedUpdate(q, Apply(q, a), t, PushCalled(item), role);
    case CallPop(t, s) => UninvolvedUpdate(q, Apply(q, a), t, PopCalled, role);
    case Spurious(t) => SpuriousAwake(q, t, role);
    case Abandon(t) => UninvolvedUpdate(q, Apply(q, a), t, Idle, role);
    case _ =>
  }

  /** Every step keeps this for consumers, and every step but an abandoned push keeps it for producers. */
  lemma AwakeStep<T>(q: Queue<T>, a: Action<T>, role: Role)
    requires WithinBound(q) && NothingMissed(q, role) && Enabled(q, a)
    requires role.Consumer? || !a.Abandon?
    ensures NothingMissed(Apply(q, a), role)
  {
    hide NothingMissed, EnterPush, EnterPop, CommitPush, CommitPop, StopThreads, Notify;
    match a
    case Enter(t) =>
      var p := q.PhaseOf(t);
      if p.PushCalled? || p.PushWoken? {
        EnterPushAwake(q, t, p.item, role);
      } else {
        EnterPopAwake(q, t, role);
      }
    case Commit(t, notified) =>
      if q.PhaseOf(t).PushPassed? {
        CommitPushAwake(q, t, notified, role);
      } else {
        CommitPopAwake(q, t, notified, role);
      }
    case Stop(ts) => StopAwake(q, ts, role);
    case _ => OthersAwake(q, a, role);
  }

  /** An abandoned push makes producers miss a wake-up unless none sleeps or others are awake for all free places. */
  lemma AbandonAwakeExactly<T>(q: Queue<T>, t: int)
    requires NothingMissed(q, Producer) && Enabled(q, Abandon(t))
    ensures NothingMissed(Apply(q, Abandon(t)), Producer) <==>
            SleepersIn(q.threads, Producer) == {} || Demand(q, Producer) < |ReadyIn(q.threads, Producer)|
  {
    hide SleepersIn, ReadyIn, PhaseIn;
    SetsAfterUpdate(q.threads, t, Idle, Producer);
    assert |ReadyIn(q.threads, Producer) - {t}| == |ReadyIn(q.threads, Producer)| - 1;
  }

  /** No thread sleeps whose token has been asked to stop. */
  ghost predicate StoppedAreAwake<T>(q: Queue<T>) {
    forall t :: PhaseIn(q.threads, t).PushAsleep? || PhaseIn(q.threads, t).PopAsleep? ==> t !in q.stopped
  }

  lemma StoppedAwakeStep<T>(q: Queue<T>, a: Action<T>)
    requires StoppedAreAwake(q) && Enabled(q, a)
    ensures StoppedAreAwake(Apply(q, a))
  {
    hide PhaseIn;
    match a
    case CallPush(t, item, s) => PhasesAfterUpdate(q.threads, t, PushCalled(item));
    case CallPop(t, s) => PhasesAfterUpdate(q.threads, t, PopCalled);
    case Enter(t) =>
      PhasesAfterUpdate(q.threads, t, Idle);
      PhasesAfterUpdate(q.threads, t, PopPassed);
      PhasesAfterUpdate(q.threads, t, PopAsleep);
      var p := q.PhaseOf(t);
      if p.PushCalled? || p.PushWoken? {
        PhasesAfterUpdate(q.threads, t, PushPassed(p.item));
        PhasesAfterUpdate(q.threads, t, PushAsleep(p.item));
      }
    case Commit(t, notified) =>
      PhasesAfterUpdate(q.threads, t, Idle);
      if notified.Some? {
        var u := notified.value;
        PhasesAfterUpdate(q.threads[t := Idle], u, Awakened(PhaseIn(q.threads[t := Idle], u)));
      }
    case Abandon(t) => PhasesAfterUpdate(q.threads, t, Idle);
    case Spurious(t) => PhasesAfterUpdate(q.threads, t, Awakened(q.PhaseOf(t)));
    case Stop(ts) => PhasesAfterStop(q, ts);
  }

  // ----- whole runs -----

  /** From a fresh queue, everything that is safe stays safe, for any number of threads and any interleaving. */
  ghost predicate Sound<T>(q: Queue<T>) {
    Safe(q) && NothingMissed(q, Consumer) && StoppedAreAwake(q)
  }

  lemma InitialSound<T>(maxSize: nat)
    ensures Sound(Initial<T>(maxSize)) && NothingMissed(Initial<T>(maxSize), Producer)
  {
  }

  lemma {:induction false} RunSound<T>(q: Queue<T>, actions: seq<Action<T>>)
    requires Sound(q) && IsRun(q, actions)
    ensures Sound(AfterRun(q, actions)) && AfterRun(q, actions).maxSize == q.maxSize
    decreases |actions|
  {
    hide Safe, NothingMissed, StoppedAreAwake, Apply;
    if |actions| > 0 {
      assert WithinBound(q) by { SafeIsBounded(q); }
      SafeStep(q, actions[0]);
      AwakeStep(q, actions[0], Consumer);
      StoppedAwakeStep(q, actions[0]);
      RunSound(Apply(q, actions[0]), actions[1..]);
    }
  }

  lemma SafeIsBounded<T>(q: Queue<T>)
    requires Safe(q)
    ensures WithinBound(q)
  {
  }

  /**
   The queue, after any run of any number of producers and consumers: pops have returned a prefix of what was
   accepted, in order, and the rest is queued; a bound is respected; if a consumer sleeps, there are at least as many
   consumers awake and about to take an item as there are items; and no thread sleeps on a stopped token.
   */
  lemma QueueTheorem<T>(maxSize: nat, actions: seq<Action<T>>)
    requires IsRun(Initial<T>(maxSize), actions)
    ensures var q := AfterRun(Initial<T>(maxSize), actions);
            && Accepted(q.answers) == Returned(q.answers) + q.items
            && Returned(q.answers) <= Accepted(q.answers)
            && (maxSize > 0 ==> |q.items| <= maxSize)
            && (SleepersIn(q.threads, Consumer) != {} ==> |q.items| <= |ReadyIn(q.threads, Consumer)|)
            && (forall t :: PhaseIn(q.threads, t).PushAsleep? || PhaseIn(q.threads, t).PopAsleep? ==> t !in q.stopped)
  {
    hide Accepted, Returned, SleepersIn, ReadyIn, PhaseIn, IsRun, AfterRun;
    InitialSound<T>(maxSize);
    RunSound(Initial<T>(maxSize), actions);
  }

  /**
   What a step does to the queue as a whole: a commit accepts one item at the back or returns the one at the front,
   and no other step accepts, returns or moves anything.
   */
  lemma StepIsAtomic<T>(q: Queue<T>, a: Action<T>)
    requires Enabled(q, a)
    ensures var n := Apply(q, a);
            if a.Commit? && q.PhaseOf(a.t).PushPassed? then
              && n.items == q.items + [q.PhaseOf(a.t).item]
              && Accepted(n.answers) == Accepted(q.answers) + [q.PhaseOf(a.t).item]
              && Returned(n.answers) == Returned(q.answers)
            else if a.Commit? then
              && |q.items| > 0 && n.items == q.items[1..]
              && Accepted(n.answers) == Accepted(q.answers)
              && Returned(n.answers) == Returned(q.answers) + [q.items[0]]
            else
              && n.items == q.items
              && Accepted(n.answers) == Accepted(q.answers)
              && Returned(n.answers) == Returned(q.answers)
  {
    hide Accepted, Returned, PhaseIn, SleepersIn, WaitingToPop, WaitingToPush;
    assert Accepted(q.answers) + [] == Accepted(q.answers);
    assert Returned(q.answers) + [] == Returned(q.answers);
    match a
    case Enter(t) =>
      OneMoreAnswer(q.answers, PopAnswer(t, None));
      if q.PhaseOf(t).PushCalled? || q.PhaseOf(t).PushWoken? {
        OneMoreAnswer(q.answers, PushAnswer(t, q.PhaseOf(t).item, false));
      }
    case Commit(t, notified) =>
      if q.PhaseOf(t).PushPassed? {
        OneMoreAnswer(q.answers, PushAnswer(t, q.PhaseOf(t).item, true));
      } else {
        OneMoreAnswer(q.answers, PopAnswer(t, Some(q.items[0])));
      }
    case Abandon(t) => OneMoreAnswer(q.answers, PushAnswer(t, q.PhaseOf(t).item, false));
    case _ =>
  }

  /**
   A consumer that sleeps in any run, while no other consumer is awake, does so for the one reason that a pop may
   block: the queue is empty and its token has not been asked to stop.
   */
  lemma SleepsOnlyIfBlocked<T>(maxSize: nat, actions: seq<Action<T>>, t: int)
    requires IsRun(Initial<T>(maxSize), actions)
    requires var q := AfterRun(Initial<T>(maxSize), actions);
             q.PhaseOf(t).PopAsleep? && ReadyIn(q.threads, Consumer) == {}
    ensures var q := AfterRun(Initial<T>(maxSize), actions); q.items == [] && t !in q.stopped
  {
    hide Accepted, Returned, ReadyIn, IsRun, AfterRun;
    QueueTheorem<T>(maxSize, actions);
    assert t in SleepersIn(AfterRun(Initial<T>(maxSize), actions).threads, Consumer);
  }

  /** A pop is answered with nothing only by a step that finds its token stopped and the queue empty. */
  lemma EmptyAnswerExactly<T>(q: Queue<T>, a: Action<T>, t: int)
    requires Enabled(q, a)
    ensures Apply(q, a).answers == q.answers + [PopAnswer(t, None)] <==>
            a == Enter(t) && (q.PhaseOf(t).PopCalled? || q.PhaseOf(t).PopWoken?) && t in q.stopped && q.items == []
  {
    hide PhaseIn, SleepersIn, WaitingToPop, WaitingToPush;
    var grown := q.answers + [PopAnswer(t, None)];
    assert grown[|q.answers|] == PopAnswer(t, None);
    assert |grown| == |q.answers| + 1;
    match a
    case Enter(u) =>
      if q.PhaseOf(u).PushCalled? || q.PhaseOf(u).PushWoken? {
        assert (q.answers + [PushAnswer(u, q.PhaseOf(u).item, false)])[|q.answers|].PushAnswer?;
      } else {
        assert (q.answers + [PopAnswer(u, None)])[|q.answers|] == PopAnswer(u, None);
      }
    case Commit(u, notified) =>
      if q.PhaseOf(u).PushPassed? {
        assert (q.answers + [PushAnswer(u, q.PhaseOf(u).item, true)])[|q.answers|].PushAnswer?;
      } else {
        assert (q.answers + [PopAnswer(u, Some(q.items[0]))])[|q.answers|] == PopAnswer(u, Some(q.items[0]));
      }
    case Abandon(u) => assert (q.answers + [PushAnswer(u, q.PhaseOf(u).item, false)])[|q.answers|].PushAnswer?;
    case _ =>
  }

  // ----- producers can miss a wake-up, but only through an abandoned push -----

  ghost predicate NoAbandon<T>(actions: seq<Action<T>>) {
    forall i :: 0 <= i < |actions| ==> !actions[i].Abandon?
  }

  lemma {:induction false} ProducersMissNothing<T>(q: Queue<T>, actions: seq<Action<T>>)
    requires Sound(q) && NothingMissed(q, Producer) && IsRun(q, actions) && NoAbandon(actions)
    ensures NothingMissed(AfterRun(q, actions), Producer)
    decreases |actions|
  {
    hide Safe, NothingMissed, StoppedAreAwake, Apply;
    if |actions| > 0 {
      assert WithinBound(q) by { SafeIsBounded(q); }
      SafeStep(q, actions[0]);
      AwakeStep(q, actions[0], Consumer);
      AwakeStep(q, actions[0], Producer);
      StoppedAwakeStep(q, actions[0]);
      ProducersMissNothing(Apply(q, actions[0]), actions[1..]);
    }
  }

  lemma Step<T>(q: Queue<T>, a: Action<T>, n: Queue<T>, rest: seq<Action<T>>)
    requires Enabled(q, a) && Apply(q, a) == n && IsRun(n, rest)
    ensures IsRun(q, [a] + rest) && AfterRun(q, [a] + rest) == AfterRun(n, rest)
  {
    hide Apply, Enabled;
    assert ([a] + rest)[1..] == rest;
  }

  /**
   A push is answered with false only by a step that finds its token stopped: in the wait, on a full queue, or after
   the wait has succeeded.
   */
  lemma RefusedExactly<T>(q: Queue<T>, a: Action<T>, t: int, item: T)
    requires Enabled(q, a)
    ensures Apply(q, a).answers == q.answers + [PushAnswer(t, item, false)] <==>
            || (&& a == Enter(t) && (q.PhaseOf(t) == PushCalled(item) || q.PhaseOf(t) == PushWoken(item))
                && q.maxSize > 0 && |q.items| >= q.maxSize && t in q.stopped)
            || (a == Abandon(t) && q.PhaseOf(t) == PushPassed(item) && t in q.stopped)
  {
    hide PhaseIn, SleepersIn, WaitingToPop, WaitingToPush;
    var grown, n := q.answers + [PushAnswer(t, item, false)], Apply(q, a).answers;
    assert grown[|q.answers|] == PushAnswer(t, item, false);
    assert n == q.answers || (|n| == |q.answers| + 1 && n == q.answers + [n[|q.answers|]]) by {
      OneAnswerAtMost(q, a);
    }
    LastAnswer(q, a);
  }

  lemma OneAnswerAtMost<T>(q: Queue<T>, a: Action<T>)
    requires Enabled(q, a)
    ensures var n := Apply(q, a).answers;
            n == q.answers || (|n| == |q.answers| + 1 && n == q.answers + [n[|q.answers|]])
  {
    hide PhaseIn, SleepersIn, WaitingToPop, WaitingToPush;
  }

  /** Which answer a step gives, if any. */
  lemma LastAnswer<T>(q: Queue<T>, a: Action<T>)
    requires Enabled(q, a)
    ensures var n := Apply(q, a).answers;
            |n| > |q.answers| ==>
              match a
              case Enter(t) =>
                && t in q.stopped
                && (if q.PhaseOf(t).PushCalled? || q.PhaseOf(t).PushWoken?
                    then q.Full() && n[|q.answers|] == PushAnswer(t, q.PhaseOf(t).item, false)
                    else n[|q.answers|] == PopAnswer(t, None))
              case Commit(t, _) => n[|q.answers|].PopAnswer? || n[|q.answers|].accepted
              case Abandon(t) => t in q.stopped && n[|q.answers|] == PushAnswer(t, q.PhaseOf(t).item, false)
              case _ => false
  {
    hide PhaseIn, SleepersIn, WaitingToPop, WaitingToPush;
  }

  /** Stopping wakes the consumers asleep if and only if one of the threads it is about waits to pop, and likewise. */
  lemma StopWakesExactly<T>(q: Queue<T>, ts: set<int>, u: int)
    ensures q.PhaseOf(u).PopAsleep? ==>
              (Apply(q, Stop(ts)).PhaseOf(u).PopAsleep? <==>
               forall t :: t in ts ==> !q.PhaseOf(t).PopAsleep? && !q.PhaseOf(t).PopWoken?)
    ensures q.PhaseOf(u).PushAsleep? ==>
              (Apply(q, Stop(ts)).PhaseOf(u).PushAsleep? <==>
               forall t :: t in ts ==> !q.PhaseOf(t).PushAsleep? && !q.PhaseOf(t).PushWoken?)
    ensures !q.PhaseOf(u).PopAsleep? && !q.PhaseOf(u).PushAsleep? ==> Apply(q, Stop(ts)).PhaseOf(u) == q.PhaseOf(u)
  {
    hide PhaseIn;
    PhasesAfterStop(q, ts);
  }

  // ----- what one call does, from beginning to end -----

  /** A call brings its token, stopped or not; stopping marks the threads it is about; nothing else changes a token. */
  lemma TokensExactly<T>(q: Queue<T>, a: Action<T>, u: int)
    requires Enabled(q, a)
    ensures u in Apply(q, a).stopped <==>
            match a
            case CallPush(t, _, preStopped) => if u == t then preStopped else u in q.stopped
            case CallPop(t, preStopped) => if u == t then preStopped else u in q.stopped
            case Stop(ts) => u in q.stopped || u in ts
            case _ => u in q.stopped
  {
    hide PhaseIn, SleepersIn, WaitingToPop, WaitingToPush;
  }

  /**
   A pop on a free queue: it takes the front item if there is one, whether or not its token is stopped; if there is
   none, it answers at once with nothing if its token is stopped, and sleeps if not.
   */
  lemma PopFromBeginningToEnd<T>(q: Queue<T>, t: int, preStopped: bool)
    requires q.PhaseOf(t).Idle? && q.holder == None
    ensures Enabled(q, CallPop(t, preStopped)) && Enabled(Apply(q, CallPop(t, preStopped)), Enter(t))
    ensures var entered := Apply(Apply(q, CallPop(t, preStopped)), Enter(t));
            if |q.items| > 0 then
              forall notified :: Wakes(SleepersIn(entered.threads, Producer), notified) ==>
                && Enabled(entered, Commit(t, notified))
                && var n := Apply(entered, Commit(t, notified));
                   && n.answers == q.answers + [PopAnswer(t, Some(q.items[0]))] && n.items == q.items[1..]
                   && n.holder == None
            else if preStopped then
              entered.answers == q.answers + [PopAnswer(t, None)] && entered.PhaseOf(t).Idle? && entered.items == []
            else
              entered.answers == q.answers && entered.PhaseOf(t).PopAsleep? && entered.items == []
  {
    hide SleepersIn;
  }

  /**
   A push on a free queue: if there is room, its item is queued last and it answers true, unless its token is stopped;
   if there is none, it answers false if its token is stopped, and sleeps if not.
   */
  lemma PushFromBeginningToEnd<T>(q: Queue<T>, t: int, item: T, preStopped: bool)
    requires q.PhaseOf(t).Idle? && q.holder == None
    ensures Enabled(q, CallPush(t, item, preStopped)) && Enabled(Apply(q, CallPush(t, item, preStopped)), Enter(t))
    ensures var entered := Apply(Apply(q, CallPush(t, item, preStopped)), Enter(t));
            if (q.maxSize == 0 || |q.items| < q.maxSize) && preStopped then
              && Enabled(entered, Abandon(t)) && (forall notified :: !Enabled(entered, Commit(t, notified)))
              && var n := Apply(entered, Abandon(t));
                 n.answers == q.answers + [PushAnswer(t, item, false)] && n.items == q.items && n.holder == None
            else if q.maxSize == 0 || |q.items| < q.maxSize then
              forall notified :: Wakes(SleepersIn(entered.threads, Consumer), notified) ==>
                && Enabled(entered, Commit(t, notified))
                && var n := Apply(entered, Commit(t, notified));
                   && n.answers == q.answers + [PushAnswer(t, item, true)] && n.items == q.items + [item]
                   && n.holder == None
            else if preStopped then
              && entered.answers == q.answers + [PushAnswer(t, item, false)] && entered.PhaseOf(t).Idle?
              && entered.items == q.items
            else
              entered.answers == q.answers && entered.PhaseOf(t).PushAsleep? && entered.items == q.items
  {
    hide SleepersIn;
  }

  /** A sleeping thread may wake for no reason at any time, and any threads may be asked to stop at any time. */
  lemma SleepersMayWake<T>(q: Queue<T>, t: int, ts: set<int>)
    requires q.PhaseOf(t).PopAsleep? || q.PhaseOf(t).PushAsleep?
    ensures Enabled(q, Spurious(t)) && Enabled(q, Stop(ts))
    ensures !Apply(q, Spurious(t)).PhaseOf(t).PopAsleep? && !Apply(q, Spurious(t)).PhaseOf(t).PushAsleep?
  {
    hide SleepersIn, WaitingToPop, WaitingToPush;
  }

  // ----- the queue does not get stuck -----

  /** A thread inside a call that is not asleep. */
  predicate Busy<T>(p: Phase<T>) {
    !p.Idle? && !p.PushAsleep? && !p.PopAsleep?
  }

  lemma SomeoneToWake<T>(q: Queue<T>, role: Role) returns (notified: Option<int>)
    ensures Wakes(SleepersIn(q.threads, role), notified)
  {
    hide SleepersIn;
    var sleepers := SleepersIn(q.threads, role);
    notified := None;
    if exists u :: u in sleepers {
      var u :| u in sleepers;
      notified := Some(u);
    } else {
      assert sleepers == {};
    }
  }

  /** While a thread is busy, one can go on: the holder of the mutex if there is one, or else any busy thread. */
  lemma NeverStuck<T>(q: Queue<T>, t: int) returns (a: Action<T>)
    requires Safe(q) && Busy(q.PhaseOf(t))
    ensures Enabled(q, a) && (a.Enter? || a.Commit? || a.Abandon?)
    ensures Busy(q.PhaseOf(a.t))
  {
    hide SleepersIn, Accepted, Returned, PhaseIn, Wakes;
    if q.holder == None {
      a := Enter(t);
    } else {
      var h := q.holder.value;
      assert q.PhaseOf(h).PushPassed? || q.PhaseOf(h).PopPassed?;
      var notified := SomeoneToWake(q, if q.PhaseOf(h).PushPassed? then Consumer else Producer);
      a := if q.PhaseOf(h).PushPassed? && h in q.stopped then Abandon(h) else Commit(h, notified);
    }
  }

  // ----- only a bounded queue is bounded -----

  /** The queue after thread `t`, idle before, has pushed `item`. */
  function Grown<T>(q: Queue<T>, t: int, item: T): Queue<T> {
    Queue(q.maxSize, q.items + [item], None, q.threads[t := Idle], q.stopped - {t},
          q.answers + [PushAnswer(t, item, true)])
  }

  ghost predicate Quiet<T>(q: Queue<T>) {
    q.maxSize == 0 && q.holder == None && forall t :: t in q.threads ==> q.threads[t].Idle?
  }

  lemma PushOne<T>(q: Queue<T>, t: int, item: T, rest: seq<Action<T>>) returns (actions: seq<Action<T>>)
    requires Quiet(q) && IsRun(Grown(q, t, item), rest)
    ensures IsRun(q, actions) && AfterRun(q, actions) == AfterRun(Grown(q, t, item), rest)
  {
    hide IsRun, AfterRun;
    var called := q.Set(t, PushCalled(item)).(stopped := q.stopped - {t});
    var passed := called.Set(t, PushPassed(item)).(holder := Some(t));
    assert passed.threads[t := Idle] == q.threads[t := Idle];
    assert forall u :: u in passed.threads ==> !Sleeping(Consumer, passed.threads[u]);
    assert SleepersIn(passed.threads, Consumer) == {};
    Step(passed, Commit(t, None), Grown(q, t, item), rest);
    actions := [Commit(t, None)] + rest;
    assert called.threads[t := PushPassed(item)] == passed.threads;
    Step(called, Enter(t), passed, actions);
    actions := [Enter(t)] + actions;
    Step(q, CallPush(t, item, false), called, actions);
    actions := [CallPush(t, item, false)] + actions;
  }

  /** An unbounded queue can grow by any number of items. */
  lemma {:induction false} Grow<T>(q: Queue<T>, item: T, n: nat) returns (actions: seq<Action<T>>)
    requires Quiet(q)
    ensures IsRun(q, actions) && |AfterRun(q, actions).items| == |q.items| + n
    decreases n
  {
    if n == 0 {
      actions := [];
    } else {
      var rest := Grow(Grown(q, 0, item), item, n - 1);
      actions := PushOne(q, 0, item, rest);
    }
  }

  ghost predicate NeverExceeds<T(!new)>(maxSize: nat, bound: nat) {
    forall actions: seq<Action<T>> ::
      IsRun(Initial<T>(maxSize), actions) ==> |AfterRun(Initial<T>(maxSize), actions).items| <= bound
  }

  /** Some number of items is never exceeded, in any run, if and only if the queue was given a maximum. */
  lemma BoundedExactly<T(!new)>(maxSize: nat, item: T)
    ensures (exists bound: nat :: NeverExceeds<T>(maxSize, bound)) <==> maxSize > 0
  {
    hide IsRun, AfterRun, Accepted, Returned;
    if maxSize > 0 {
      forall actions: seq<Action<T>> | IsRun(Initial<T>(maxSize), actions)
        ensures |AfterRun(Initial<T>(maxSize), actions).items| <= maxSize
      {
        QueueTheorem<T>(maxSize, actions);
      }
      assert NeverExceeds<T>(maxSize, maxSize);
    } else if exists bound: nat :: NeverExceeds<T>(maxSize, bound) {
      var bound: nat :| NeverExceeds<T>(maxSize, bound);
      var actions := Grow(Initial<T>(maxSize), item, bound + 1);
    }
  }

  // ----- a run that misses a wake-up -----

  function OneQueued(): Queue<int> {
    Queue(1, [10], None, map[1 := Idle], {}, [PushAnswer(1, 10, true)])
  }

  function TwoAsleep(): Queue<int> {
    Queue(1, [10], None, map[1 := Idle, 2 := PushAsleep(20), 3 := PushAsleep(30)], {}, [PushAnswer(1, 10, true)])
  }

  function OneNotified(): Queue<int> {
    Queue(1, [], None, map[1 := Idle, 2 := PushWoken(20), 3 := PushAsleep(30), 4 := Idle], {},
          [PushAnswer(1, 10, true), PopAnswer(4, Some(10))])
  }

  function OneForgotten(): Queue<int> {
    Queue(1, [], None, map[1 := Idle, 2 := Idle, 3 := PushAsleep(30), 4 := Idle], {2},
          [PushAnswer(1, 10, true), PopAnswer(4, Some(10)), PushAnswer(2, 20, false)])
  }

  lemma FillQueue(rest: seq<Action<int>>) returns (actions: seq<Action<int>>)
    requires IsRun(OneQueued(), rest)
    ensures IsRun(Initial<int>(1), actions) && AfterRun(Initial<int>(1), actions) == AfterRun(OneQueued(), rest)
  {
    hide IsRun, AfterRun;
    var q0 := Initial<int>(1);
    var q1: Queue<int> := Queue(1, [], None, map[1 := PushCalled(10)], {}, []);
    var q2: Queue<int> := Queue(1, [], Some(1), map[1 := PushPassed(10)], {}, []);
    var q3: Queue<int> := OneQueued();
    actions := rest;
    Step(q2, Commit(1, None), q3, actions);
    actions := [Commit(1, None)] + actions;
    Step(q1, Enter(1), q2, actions);
    actions := [Enter(1)] + actions;
    Step(q0, CallPush(1, 10, false), q1, actions);
    actions := [CallPush(1, 10, false)] + actions;
  }

  lemma FallAsleep(rest: seq<Action<int>>) returns (actions: seq<Action<int>>)
    requires IsRun(TwoAsleep(), rest)
    ensures IsRun(OneQueued(), actions) && AfterRun(OneQueued(), actions) == AfterRun(TwoAsleep(), rest)
  {
    hide IsRun, AfterRun;
    var q3 := OneQueued();
    var q4: Queue<int> := OneQueued().Set(2, PushCalled(20));
    var q5: Queue<int> := OneQueued().Set(2, PushAsleep(20));
    var q6: Queue<int> := OneQueued().Set(2, PushAsleep(20)).Set(3, PushCalled(30));
    var q7: Queue<int> := TwoAsleep();
    actions := rest;
    Step(q6, Enter(3), q7, actions);
    actions := [Enter(3)] + actions;
    Step(q5, CallPush(3, 30, false), q6, actions);
    actions := [CallPush(3, 30, false)] + actions;
    Step(q4, Enter(2), q5, actions);
    actions := [Enter(2)] + actions;
    Step(q3, CallPush(2, 20, false), q4, actions);
    actions := [CallPush(2, 20, false)] + actions;
  }

  function FourPopping(): Queue<int> {
    TwoAsleep().Set(4, PopPassed).(holder := Some(4))
  }

  lemma PopCommitted(rest: seq<Action<int>>)
    requires IsRun(OneNotified(), rest)
    ensures IsRun(FourPopping(), [Commit(4, Some(2))] + rest)
    ensures AfterRun(FourPopping(), [Commit(4, Some(2))] + rest) == AfterRun(OneNotified(), rest)
  {
    hide IsRun, AfterRun;
    assert 2 in SleepersIn(FourPopping().threads, Producer);
    Step(FourPopping(), Commit(4, Some(2)), OneNotified(), rest);
  }

  lemma PopAndNotify(rest: seq<Action<int>>) returns (actions: seq<Action<int>>)
    requires IsRun(OneNotified(), rest)
    ensures IsRun(TwoAsleep(), actions) && AfterRun(TwoAsleep(), actions) == AfterRun(OneNotified(), rest)
  {
    hide IsRun, AfterRun;
    PopCommitted(rest);
    actions := [Commit(4, Some(2))] + rest;
    var called: Queue<int> := TwoAsleep().Set(4, PopCalled);
    Step(called, Enter(4), FourPopping(), actions);
    actions := [Enter(4)] + actions;
    Step(TwoAsleep(), CallPop(4, false), called, actions);
    actions := [CallPop(4, false)] + actions;
  }

  lemma GiveUp(rest: seq<Action<int>>) returns (actions: seq<Action<int>>)
    requires IsRun(OneForgotten(), rest)
    ensures IsRun(OneNotified(), actions) && AfterRun(OneNotified(), actions) == AfterRun(OneForgotten(), rest)
  {
    hide IsRun, AfterRun;
    var q10 := OneNotified();
    var q11: Queue<int> := OneNotified().Set(2, PushPassed(20)).(holder := Some(2));
    var q12: Queue<int> := OneNotified().Set(2, PushPassed(20)).(holder := Some(2), stopped := {2});
    var q13: Queue<int> := OneForgotten();
    actions := rest;
    Step(q12, Abandon(2), q13, actions);
    actions := [Abandon(2)] + actions;
    Step(q11, Stop({2}), q12, actions);
    actions := [Stop({2})] + actions;
    Step(q10, Enter(2), q11, actions);
    actions := [Enter(2)] + actions;
  }

  /**
   A run in which a wake-up is missed: of two producers asleep on a full queue of one place, the one that a pop
   notifies gives up because its token is stopped between its wait and its check, and the other sleeps on beside a
   free place.
   */
  lemma MissedWakeUp() returns (actions: seq<Action<int>>)
    ensures IsRun(Initial<int>(1), actions)
    ensures !NothingMissed(AfterRun(Initial<int>(1), actions), Producer)
  {
    actions := GiveUp([]);
    actions := PopAndNotify(actions);
    actions := FallAsleep(actions);
    actions := FillQueue(actions);
    assert AfterRun(OneForgotten(), []) == OneForgotten();
    assert 3 in SleepersIn(OneForgotten().threads, Producer);
    assert ReadyIn(OneForgotten().threads, Producer) == {};
  }
}
