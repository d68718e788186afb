/**
The asynchronous metric recorder: counters behind a mutex, a bounded queue, one worker, and shutdown.
Recording threads, the flush of the counters, the worker and Close interleave freely; `Do` is one atomic action.
*/
module MetricRecorder {
  import opened Options

  datatype Kind = JobStart | JobEnd | StepStart | StepEnd | ItemRead | ItemProcess | ItemWrite | ItemSkip | ItemRetry
                | ChunkCommit | RecordDuration | ExecutionError

  /** The kinds that are added up in a counter and sent as one event when a step ends. */
  predicate IsCounted(k: Kind) {
    k.ItemRead? || k.ItemProcess? || k.ItemWrite? || k.ChunkCommit?
  }

  datatype Event = Event(kind: Kind, count: int)

  /** The holder of the mutex is flushing: `todo` are the kinds to go, `sent` the kind whose counter is about to be reset. */
  datatype Lock = Free | Flushing(todo: set<Kind>, sent: Option<Kind>)

  datatype Worker = Waiting | Handling(event: Event) | Draining(left: nat) | DrainHandling(event: Event, left: nat) | Exited

  /** The event channel, and what sends did: accepted or dropped, each drop recorded directly as an error. */
  datatype Queue = Queue(capacity: nat, events: seq<Event>, accepted: seq<Event>, dropped: seq<Event>, errors: seq<Kind>)

  /** The counters behind the mutex; `recorded` is the history of what was added to them. */
  datatype Counters = Counters(values: map<Kind, int>, lock: Lock, recorded: map<Kind, int>)

  /** `beforeStop` are the events accepted when the stop channel was closed. */
  datatype Shutdown = Shutdown(stopping: bool, closed: bool, beforeStop: seq<Event>)

  datatype State = State(queue: Queue, counters: Counters, worker: Worker, delivered: seq<Event>, shutdown: Shutdown)

  datatype Action =
    | Record(kind: Kind, n: int)     // one of the counting methods
    | Send(event: Event)             // one of the other recording methods
    | FlushBegin | FlushSend(kind: Kind) | FlushReset | FlushEnd
    | Receive | Deliver | SeeStop | DrainReceive | DrainDeliver | Exit
    | Stop | CloseReturns

  function Get(m: map<Kind, int>, k: Kind): int {
    if k in m then m[k] else 0
  }

  /** The buffer size that the constructor uses. */
  function BufferSize(requested: int): nat {
    if requested <= 0 then 100 else requested
  }

  function Init(requested: int): State {
    State(Queue(BufferSize(requested), [], [], [], []), Counters(map[], Free, map[]), Waiting, [], Shutdown(false, false, []))
  }

  /** sendEvent: never blocks; a full queue loses the event and records one error directly. */
  function Push(q: Queue, e: Event): Queue {
    if |q.events| < q.capacity then q.(events := q.events + [e], accepted := q.accepted + [e])
    else q.(errors := q.errors + [e.kind], dropped := q.dropped + [e])
  }

  function Pop(q: Queue): Queue
    requires q.events != []
  {
    q.(events := q.events[1..])
  }

  predicate Enabled(s: State, a: Action) {
    var lock := s.counters.lock;
    match a
    case Record(k, _) => lock.Free? && IsCounted(k)
    case Send(e) => !IsCounted(e.kind)
    case FlushBegin => lock.Free?
    case FlushSend(k) => lock.Flushing? && lock.sent.None? && k in lock.todo
    case FlushReset => lock.Flushing? && lock.sent.Some?
    case FlushEnd => lock.Flushing? && lock.sent.None? && lock.todo == {}
    case Receive => s.worker.Waiting? && s.queue.events != []
    case Deliver => s.worker.Handling?
    case SeeStop => s.worker.Waiting? && s.shutdown.stopping
    case DrainReceive => s.worker.Draining? && s.worker.left > 0 && s.queue.events != []
    case DrainDeliver => s.worker.DrainHandling?
    case Exit => s.worker == Draining(0)
    case Stop => !s.shutdown.stopping
    case CloseReturns => s.shutdown.stopping && s.worker.Exited?
  }

  function Do(s: State, a: Action): State
    requires Enabled(s, a)
  {
    match a
    case Record(k, n) => s.(counters := Count(s.counters, k, n))
    case Send(e) => s.(queue := Push(s.queue, e))
    case FlushBegin => s.(counters := s.counters.(lock := Flushing(s.counters.values.Keys, None)))
    case FlushSend(k) =>
      var n := Get(s.counters.values, k);
      s.(queue := if n > 0 then Push(s.queue, Event(k, n)) else s.queue, counters := FlushOne(s.counters, k))
    case FlushReset => s.(counters := Reset(s.counters))
    case FlushEnd => s.(counters := s.counters.(lock := Free))
    case Receive => s.(worker := Handling(s.queue.events[0]), queue := Pop(s.queue))
    case Deliver => s.(worker := Waiting, delivered := s.delivered + [s.worker.event])
    case SeeStop => s.(worker := Draining(|s.queue.events|))
    case DrainReceive => s.(worker := DrainHandling(s.queue.events[0], s.worker.left - 1), queue := Pop(s.queue))
    case DrainDeliver => s.(worker := Draining(s.worker.left), delivered := s.delivered + [s.worker.event])
    case Exit => s.(worker := Exited)
    case Stop => s.(shutdown := s.shutdown.(stopping := true, beforeStop := s.queue.accepted))
    case CloseReturns => s.(shutdown := s.shutdown.(closed := true))
  }

  function Count(c: Counters, k: Kind, n: int): Counters {
    c.(values := c.values[k := Get(c.values, k) + n], recorded := c.recorded[k := Get(c.recorded, k) + n])
  }

  function FlushOne(c: Counters, k: Kind): Counters
    requires c.lock.Flushing?
  {
    if Get(c.values, k) > 0 then c.(lock := Flushing(c.lock.todo, Some(k))) else c.(lock := Flushing(c.lock.todo - {k}, None))
  }

  function Reset(c: Counters): Counters
    requires c.lock.Flushing? && c.lock.sent.Some?
  {
    c.(values := c.values[c.lock.sent.value := 0], lock := Flushing(c.lock.todo - {c.lock.sent.value}, None))
  }

  /** The state after a schedule; an action that is not enabled when its turn comes waits and changes nothing. */
  function After(s: State, schedule: seq<Action>): State {
    if schedule == [] then s
    else
      var t := After(s, schedule[..|schedule| - 1]);
      var a := schedule[|schedule| - 1];
      if Enabled(t, a) then Do(t, a) else t
  }

  // ---------- The queue ----------

  /** The event that the worker has taken from the queue and not delivered yet. */
  function InHand(w: Worker): seq<Event> {
    if w.Handling? || w.DrainHandling? then [w.event] else []
  }

  predicate IsDraining(w: Worker) {
    w.Draining? || w.DrainHandling? || w.Exited?
  }

  /** How many of the events in the queue the worker has undertaken to drain. */
  function Promised(w: Worker): nat {
    if w.Draining? || w.DrainHandling? then w.left else 0
  }

  ghost predicate QueueSound(q: Queue) {
    && |q.events| <= q.capacity
    && |q.errors| == |q.dropped|
    && forall i :: 0 <= i < |q.errors| ==> q.errors[i] == q.dropped[i].kind
  }

  ghost predicate Ordered(s: State) {
    && s.queue.accepted == s.delivered + InHand(s.worker) + s.queue.events
    && Promised(s.worker) <= |s.queue.events|
    && (s.shutdown.stopping ==> s.shutdown.beforeStop <= s.queue.accepted)
    && (IsDraining(s.worker) ==>
          s.shutdown.stopping
          && |s.shutdown.beforeStop| <= |s.delivered| + |InHand(s.worker)| + Promised(s.worker))
    && (s.shutdown.closed ==> s.worker.Exited?)
  }

  lemma OrderedPush(s: State, e: Event, t: State)
    requires Ordered(s) && t == s.(queue := Push(s.queue, e), counters := t.counters)
    ensures Ordered(t)
  {
  }

  lemma OrderedDo(s: State, a: Action)
    requires Ordered(s) && QueueSound(s.queue) && Enabled(s, a)
    ensures Ordered(Do(s, a)) && QueueSound(Do(s, a).queue) && Do(s, a).queue.capacity == s.queue.capacity
  {
    hide Count, FlushOne, Reset;
    match a {
      case Send(e) => OrderedPush(s, e, Do(s, a));
      case FlushSend(k) =>
        if Get(s.counters.values, k) > 0 {
          OrderedPush(s, Event(k, Get(s.counters.values, k)), Do(s, a));
        }
      case _ =>
    }
  }

  // ---------- Conservation ----------

  function Total(es: seq<Event>, k: Kind): int {
    if es == [] then 0 else Total(es[..|es| - 1], k) + (if es[|es| - 1].kind == k then es[|es| - 1].count else 0)
  }

  lemma {:induction false} TotalConcat(a: seq<Event>, b: seq<Event>, k: Kind)
    ensures Total(a + b, k) == Total(a, k) + Total(b, k)
    decreases |b|
  {
    if b == [] {
      assert a + b == a;
    } else {
      assert (a + b)[..|a + b| - 1] == a + b[..|b| - 1];
      TotalConcat(a, b[..|b| - 1], k);
    }
  }

  lemma TotalOne(e: Event, k: Kind)
    ensures Total([e], k) == if e.kind == k then e.count else 0
  {
    assert [e][..0] == [];
  }

  /** A counter whose event has just been sent no longer counts. */
  function Pending(c: Counters, k: Kind): int {
    if c.lock.Flushing? && c.lock.sent == Some(k) then 0 else Get(c.values, k)
  }

  ghost predicate Conserved(q: Queue, c: Counters) {
    forall k :: IsCounted(k) ==> Get(c.recorded, k) == Total(q.accepted, k) + Pending(c, k) + Total(q.dropped, k)
  }

  lemma PushTotals(q: Queue, e: Event, k: Kind)
    ensures var t := Push(q, e);
            Total(t.accepted, k) + Total(t.dropped, k)
            == Total(q.accepted, k) + Total(q.dropped, k) + (if e.kind == k then e.count else 0)
  {
    TotalConcat(q.accepted, [e], k);
    TotalConcat(q.dropped, [e], k);
    TotalOne(e, k);
  }

  lemma ConservedDo(s: State, a: Action)
    requires Conserved(s.queue, s.counters) && Enabled(s, a)
    ensures Conserved(Do(s, a).queue, Do(s, a).counters)
  {
    hide Total;
    var t := Do(s, a);
    forall k | IsCounted(k)
      ensures Get(t.counters.recorded, k) == Total(t.queue.accepted, k) + Pending(t.counters, k) + Total(t.queue.dropped, k)
    {
      match a {
        case Send(e) => PushTotals(s.queue, e, k);
        case FlushSend(j) => PushTotals(s.queue, Event(j, Get(s.counters.values, j)), k);
        case _ =>
      }
    }
  }

  lemma {:induction false} InvariantsHold(requested: int, schedule: seq<Action>)
    ensures var s := After(Init(requested), schedule);
            && Ordered(s) && QueueSound(s.queue) && s.queue.capacity == BufferSize(requested)
            && Conserved(s.queue, s.counters)
  {
    hide Ordered, QueueSound, Conserved, Do, Enabled;
    if schedule == [] {
      InitSound(requested);
    } else {
      InvariantsHold(requested, schedule[..|schedule| - 1]);
      var s := After(Init(requested), schedule[..|schedule| - 1]);
      var a := schedule[|schedule| - 1];
      if Enabled(s, a) {
        OrderedDo(s, a);
        ConservedDo(s, a);
      }
    }
  }

  lemma InitSound(requested: int)
    ensures var s := Init(requested); Ordered(s) && QueueSound(s.queue) && Conserved(s.queue, s.counters)
  {
  }

  // ---------- Main results ----------

  /** Some interleaving leads to the state. */
  ghost predicate Reachable(requested: int, s: State) {
    exists schedule :: After(Init(requested), schedule) == s
  }

  /**
  Conservation in every interleaving: what was recorded of a counted kind has been delivered, is in the worker's hand,
  in the queue or in the counter, or was dropped; and every dropped event left exactly one error of its kind.
  */
  lemma MetricConservation(requested: int, s: State, k: Kind)
    requires Reachable(requested, s) && IsCounted(k)
    ensures Get(s.counters.recorded, k) == Total(s.delivered, k) + Total(InHand(s.worker), k) + Total(s.queue.events, k)
                                           + Pending(s.counters, k) + Total(s.queue.dropped, k)
    ensures |s.queue.errors| == |s.queue.dropped|
    ensures forall i :: 0 <= i < |s.queue.errors| ==> s.queue.errors[i] == s.queue.dropped[i].kind
  {
    hide After, Total;
    var schedule :| After(Init(requested), schedule) == s;
    InvariantsHold(requested, schedule);
    TotalConcat(s.delivered + InHand(s.worker), s.queue.events, k);
    TotalConcat(s.delivered, InHand(s.worker), k);
  }

  /**
  Order and shutdown in every interleaving: delivered, in hand and queue are the accepted events in order, the queue
  respects its bound, the drain loop always finds the events it counted on, and when Close returns every event accepted
  before the stop signal has been delivered, once and in order.
  */
  lemma MetricShutdown(requested: int, s: State)
    requires Reachable(requested, s)
    ensures && s.delivered + InHand(s.worker) + s.queue.events == s.queue.accepted
            && |s.queue.events| <= BufferSize(requested)
            && (s.worker.Draining? && s.worker.left > 0 ==> Enabled(s, DrainReceive))
            && (s.shutdown.closed ==> s.shutdown.beforeStop <= s.delivered <= s.queue.accepted)
  {
    hide After;
    var schedule :| After(Init(requested), schedule) == s;
    InvariantsHold(requested, schedule);
  }

  /** The event that the action sends. */
  function Sent(s: State, a: Action): Option<Event> {
    match a
    case Send(e) => Some(e)
    case FlushSend(k) => if Get(s.counters.values, k) > 0 then Some(Event(k, Get(s.counters.values, k))) else None
    case _ => None
  }

  /** An event is dropped if and only if it is sent while the queue is full; otherwise it is the last one of the queue. */
  lemma DroppedIffFull(requested: int, s: State, a: Action, t: State)
    requires Reachable(requested, s) && Enabled(s, a) && t == Do(s, a)
    ensures match Sent(s, a)
            case None => t.queue.dropped == s.queue.dropped && t.queue.accepted == s.queue.accepted
            case Some(e) =>
              if |s.queue.events| == (if requested <= 0 then 100 else requested) then
                && t.queue.dropped == s.queue.dropped + [e] && t.queue.errors == s.queue.errors + [e.kind]
                && t.queue.events == s.queue.events && t.queue.accepted == s.queue.accepted
              else
                && t.queue.events == s.queue.events + [e] && t.queue.accepted == s.queue.accepted + [e]
                && t.queue.dropped == s.queue.dropped && t.queue.errors == s.queue.errors
  {
    hide After;
    var schedule :| After(Init(requested), schedule) == s;
    InvariantsHold(requested, schedule);
  }

  /** The action at turn `i` finds the queue full and sends an event all the same. */
  predicate SendsIntoFull(requested: int, schedule: seq<Action>, i: nat)
    requires i < |schedule|
  {
    var s := After(Init(requested), schedule[..i]);
    Enabled(s, schedule[i]) && Sent(s, schedule[i]).Some? && |s.queue.events| == BufferSize(requested)
  }

  /** A schedule drops nothing if and only if it never sends into a full queue. */
  lemma {:induction false} NothingDroppedIff(requested: int, schedule: seq<Action>)
    ensures After(Init(requested), schedule).queue.dropped == [] <==> forall i :: 0 <= i < |schedule| ==> !SendsIntoFull(requested, schedule, i)
    decreases |schedule|
  {
    hide Do, Enabled, Sent;
    if schedule != [] {
      var last := schedule[..|schedule| - 1];
      var s, a := After(Init(requested), last), schedule[|schedule| - 1];
      NothingDroppedIff(requested, last);
      if Enabled(s, a) {
        DroppedIffFull(requested, s, a, Do(s, a));
      }
      forall i | 0 <= i < |last| ensures SendsIntoFull(requested, last, i) <==> SendsIntoFull(requested, schedule, i) {
        assert last[..i] == schedule[..i];
      }
      assert SendsIntoFull(requested, schedule, |last|) || forall i :: 0 <= i < |schedule| && SendsIntoFull(requested, schedule, i) ==> i < |last|;
    }
  }

  /** Once the worker has exited nothing is delivered any more: an event accepted later stays in the queue for good. */
  lemma {:induction false} NothingAfterExit(s: State, schedule: seq<Action>)
    requires s.worker.Exited?
    ensures var t := After(s, schedule);
            t.worker.Exited? && t.delivered == s.delivered && s.queue.events <= t.queue.events
  {
    hide Count, FlushOne, Reset;
    if schedule != [] {
      NothingAfterExit(s, schedule[..|schedule| - 1]);
    }
  }

  // ---------- Events that are lost ----------

  /** What the worker still delivers was fixed when it saw the stop signal, in state `s`. */
  ghost predicate Fixed(s: State, t: State) {
    && IsDraining(t.worker) && s.queue.accepted <= t.queue.accepted
    && |t.delivered| + |InHand(t.worker)| + Promised(t.worker) == |s.queue.accepted|
  }

  lemma FixedDo(s: State, t: State, a: Action)
    requires Fixed(s, t) && Enabled(t, a)
    ensures Fixed(s, Do(t, a))
  {
    hide Count, FlushOne, Reset;
  }

  lemma {:induction false} FixedSince(requested: int, schedule: seq<Action>, k: nat)
    requires k < |schedule| && schedule[k] == SeeStop && Enabled(After(Init(requested), schedule[..k]), SeeStop)
    ensures Fixed(After(Init(requested), schedule[..k]), After(Init(requested), schedule))
    decreases |schedule|
  {
    hide Fixed;
    var last := schedule[..|schedule| - 1];
    var s, t := After(Init(requested), schedule[..k]), After(Init(requested), last);
    if k == |schedule| - 1 {
      InvariantsHold(requested, last);
      FixedAtFirst(s);
    } else {
      assert last[..k] == schedule[..k];
      FixedSince(requested, last, k);
      if Enabled(t, schedule[|schedule| - 1]) {
        FixedDo(s, t, schedule[|schedule| - 1]);
      }
    }
  }

  lemma FixedAtFirst(s: State)
    requires Ordered(s) && Enabled(s, SeeStop)
    ensures Fixed(s, Do(s, SeeStop))
  {
  }

  /** A worker that drains or has exited has seen the stop signal. */
  lemma {:induction false} StopWasSeen(requested: int, schedule: seq<Action>)
    requires IsDraining(After(Init(requested), schedule).worker)
    ensures exists k :: 0 <= k < |schedule| && schedule[k] == SeeStop && Enabled(After(Init(requested), schedule[..k]), SeeStop)
    decreases |schedule|
  {
    hide Count, FlushOne, Reset, Push;
    var last := schedule[..|schedule| - 1];
    if IsDraining(After(Init(requested), last).worker) {
      StopWasSeen(requested, last);
      var k :| 0 <= k < |last| && last[k] == SeeStop && Enabled(After(Init(requested), last[..k]), SeeStop);
      assert last[..k] == schedule[..k] && schedule[k] == SeeStop;
    } else {
      assert schedule[..|schedule| - 1] == last;
    }
  }

  /**
  Exactly the events accepted before the worker sees the stop signal are delivered: it takes the length of the queue then,
  so those accepted while it drains stay in the queue when it exits, as do those accepted later.
  */
  lemma DeliveredExactly(requested: int, schedule: seq<Action>, k: nat, s: State, t: State)
    requires k < |schedule| && schedule[k] == SeeStop && Enabled(s, SeeStop)
    requires s == After(Init(requested), schedule[..k]) && t == After(Init(requested), schedule)
    ensures s.queue.accepted <= t.queue.accepted
    ensures t.worker.Exited? ==> t.delivered == s.queue.accepted && t.queue.events == t.queue.accepted[|s.queue.accepted|..]
  {
    hide After;
    FixedSince(requested, schedule, k);
    InvariantsHold(requested, schedule);
  }

  /** So every delivery ends with a moment at which the signal was seen. */
  lemma ExitedDelivered(requested: int, schedule: seq<Action>, t: State)
    requires t == After(Init(requested), schedule) && t.worker.Exited?
    ensures exists k :: 0 <= k < |schedule| && schedule[k] == SeeStop
                        && t.delivered == After(Init(requested), schedule[..k]).queue.accepted
  {
    hide After;
    StopWasSeen(requested, schedule);
    var k :| 0 <= k < |schedule| && schedule[k] == SeeStop && Enabled(After(Init(requested), schedule[..k]), SeeStop);
    DeliveredExactly(requested, schedule, k, After(Init(requested), schedule[..k]), t);
  }

  /** Any event can be lost: accepted while the worker drains, it is not delivered when Close returns. */
  lemma LostWhileDraining(requested: int, e: Event)
    requires !IsCounted(e.kind)
    ensures exists t :: Reachable(requested, t) && t.shutdown.closed && t.delivered == [] && t.queue.accepted == [e]
  {
    hide After;
    var s := Init(requested);
    AfterNothing(s);
    AfterNext(s, [], Stop);
    AfterNext(s, [] + [Stop], SeeStop);
    AfterNext(s, [] + [Stop] + [SeeStop], Send(e));
    AfterNext(s, [] + [Stop] + [SeeStop] + [Send(e)], Exit);
    AfterNext(s, [] + [Stop] + [SeeStop] + [Send(e)] + [Exit], CloseReturns);
    var t := After(s, [] + [Stop] + [SeeStop] + [Send(e)] + [Exit] + [CloseReturns]);
    assert Reachable(requested, t) && [] + [e] == [e];
  }

  lemma AfterNext(s: State, schedule: seq<Action>, a: Action)
    requires Enabled(After(s, schedule), a)
    ensures After(s, schedule + [a]) == Do(After(s, schedule), a)
  {
    assert (schedule + [a])[..|schedule|] == schedule;
  }

  lemma AfterNothing(s: State)
    ensures After(s, []) == s
  {
  }

  // ---------- The recorder's own methods ----------

  predicate IsFlush(a: Action) {
    a.FlushBegin? || a.FlushSend? || a.FlushReset? || a.FlushEnd?
  }

  ghost predicate OnlyFlushes(schedule: seq<Action>) {
    forall i :: 0 <= i < |schedule| ==> IsFlush(schedule[i])
  }

  predicate IsDrain(a: Action) {
    a.SeeStop? || a.DrainReceive? || a.DrainDeliver? || a.Exit?
  }

  /**
  The methods in place, run one at a time: each is proved to be actions of the machine. The ghost fields are the machine's
  worker, shutdown and histories.
  */
  class AsyncMetricRecorder {
    const bufferSize: nat
    var eventQueue: seq<Event>
    var counters: map<Kind, int>
    var errors: seq<Kind>
    var delivered: seq<Event>
    ghost var accepted: seq<Event>
    ghost var dropped: seq<Event>
    ghost var recorded: map<Kind, int>
    ghost var worker: Worker
    ghost var shutdown: Shutdown

    constructor (requested: int)
      ensures View() == Init(requested)
    {
      bufferSize := if requested <= 0 then 100 else requested;
      eventQueue, counters, errors, delivered := [], map[], [], [];
      accepted, dropped, recorded, worker, shutdown := [], [], map[], Waiting, Shutdown(false, false, []);
    }

    ghost function ViewQueue(): Queue
      reads this
    {
      Queue(bufferSize, eventQueue, accepted, dropped, errors)
    }

    /** The state of the machine while nobody holds the mutex. */
    ghost function View(): State
      reads this
    {
      State(ViewQueue(), Counters(counters, Free, recorded), worker, delivered, shutdown)
    }

    method Send(event: Event)
      modifies `eventQueue, `errors, `accepted, `dropped
      ensures ViewQueue() == Push(old(ViewQueue()), event)
    {
      if |eventQueue| < bufferSize {
        eventQueue, accepted := eventQueue + [event], accepted + [event];
      } else {
        errors, dropped := errors + [event.kind], dropped + [event];
      }
    }

    method IncrementCounter(kind: Kind, count: int)
      requires IsCounted(kind)
      modifies `counters, `recorded
      ensures View() == Do(old(View()), Record(kind, count))
    {
      var before := if kind in counters then counters[kind] else 0;
      counters := counters[kind := before + count];
      recorded := recorded[kind := Get(recorded, kind) + count];
    }

    /** flushCounters is a series of flush actions under the mutex, one or two a counter, in any order of the map. */
    method FlushCounters() returns (ghost flush: seq<Action>)
      modifies `eventQueue, `errors, `accepted, `dropped, `counters
      ensures OnlyFlushes(flush) && View() == After(old(View()), flush)
      ensures counters.Keys == old(counters).Keys
      ensures forall k :: k in counters ==> counters[k] == if old(counters)[k] > 0 then 0 else old(counters)[k]
    {
      hide After;
      ghost var s := View();
      AfterNothing(s);
      AfterNext(s, [], FlushBegin);
      flush := [] + [FlushBegin];
      var todo := counters.Keys;
      while todo != {}
        invariant todo <= counters.Keys == old(counters).Keys && OnlyFlushes(flush)
        invariant After(s, flush) == View().(counters := Counters(counters, Flushing(todo, None), recorded))
        invariant forall k :: k in counters ==> counters[k] == if k in todo || old(counters)[k] <= 0 then old(counters)[k] else 0
        decreases todo
      {
        var kind :| kind in todo;
        var count := counters[kind];
        AfterNext(s, flush, FlushSend(kind));
        flush := flush + [FlushSend(kind)];
        if count > 0 {
          Send(Event(kind, count));
          counters := counters[kind := 0];
          AfterNext(s, flush, FlushReset);
          flush := flush + [FlushReset];
        }
        todo := todo - {kind};
      }
      AfterNext(s, flush, FlushEnd);
      flush := flush + [FlushEnd];
    }

    /** RecordStepEnd flushes the counters and then sends the step's own event, so no positive count is left behind it. */
    method RecordStepEnd() returns (ghost flush: seq<Action>)
      modifies this
      ensures OnlyFlushes(flush) && View() == Do(After(old(View()), flush), Action.Send(Event(StepEnd, 0)))
      ensures forall k :: k in counters ==> counters[k] <= 0
    {
      flush := FlushCounters();
      Send(Event(StepEnd, 0));
    }

    /** One turn of the drain loop. */
    method DeliverNext()
      requires worker.Draining? && worker.left > 0 && eventQueue != []
      modifies `eventQueue, `delivered, `worker
      ensures View() == Do(Do(old(View()), DrainReceive), DrainDeliver)
      ensures eventQueue == old(eventQueue)[1..] && delivered == old(delivered) + [old(eventQueue)[0]]
      ensures worker == Draining(old(worker).left - 1)
    {
      var event := eventQueue[0];
      eventQueue := eventQueue[1..];
      delivered := delivered + [event];
      worker := Draining(worker.left - 1);
    }

    /** The worker sees the stop signal: it delivers what is in the queue then, in order, and exits. */
    method Drain() returns (ghost drain: seq<Action>)
      requires worker.Waiting? && shutdown.stopping
      modifies `eventQueue, `delivered, `worker
      ensures (forall i :: 0 <= i < |drain| ==> IsDrain(drain[i])) && View() == After(old(View()), drain)
      ensures delivered == old(delivered) + old(eventQueue) && eventQueue == [] && worker == Exited
    {
      hide After, Push, Count, FlushOne, Reset, Get;
      ghost var s, q := View(), eventQueue;
      AfterNothing(s);
      AfterNext(s, [], SeeStop);
      drain := [] + [SeeStop];
      var remainingEvents := |eventQueue|;
      worker := Draining(remainingEvents);
      for i := 0 to remainingEvents
        invariant eventQueue == q[i..] && delivered == old(delivered) + q[..i] && worker == Draining(remainingEvents - i)
        invariant (forall j :: 0 <= j < |drain| ==> IsDrain(drain[j])) && View() == After(s, drain)
      {
        AfterNext(s, drain, DrainReceive);
        AfterNext(s, drain + [DrainReceive], DrainDeliver);
        drain := drain + [DrainReceive] + [DrainDeliver];
        assert q[..i + 1] == q[..i] + [eventQueue[0]];
        DeliverNext();
      }
      AfterNext(s, drain, Exit);
      drain := drain + [Exit];
      worker := Exited;
    }
  }
}
