/** Records that the reader's mapper rejects: what becomes of them, and which of them no skip counter shows. */
module ChunkRejected {
  import opened Options
  import opened Upsert
  import opened ChunkModel
  import opened ChunkStatistics

  function Rejected(fs: seq<Fate>): nat {
    if fs == [] then 0 else (if fs[0].Undelivered? then 1 else 0) + Rejected(fs[1..])
  }

  /** Read errors of one execution, by what the engine did about them. */
  datatype ReadLog = ReadLog(
    skipped: nat,      // rejected records that were skipped
    retried: nat,      // rejected records whose read was retried, which delivers the next record
    fatal: nat,        // rejected records that ended the execution
    empty: nat)        // skips of failing reads that consumed no record

  const NO_ERRORS := ReadLog(0, 0, 0, 0)

  /** The call reads a record that the mapper rejects. */
  predicate Rejects(c: Config, s: State, a: Answer) {
    s.phase.Reading? && a.ok && s.r.next < |c.source| && c.source[s.r.next].Malformed?
  }

  function Logged(c: Config, s: State, a: Answer, log: ReadLog): ReadLog {
    if Rejects(c, s, a) then
      if SkipsRead(c, s, a) then log.(skipped := log.skipped + 1)
      else if Step(c, s, a).phase == Closing(true) then log.(fatal := log.fatal + 1)
      else log.(retried := log.retried + 1)
    else if SkipsRead(c, s, a) then log.(empty := log.empty + 1)
    else log
  }

  /** The read errors of the execution in progress, or of the last one. */
  function ReadErrors(c: Config, ms: seq<Move>): ReadLog {
    if ms == [] then NO_ERRORS
    else
      var before := ms[..|ms| - 1];
      var s := Run(c, FRESH, before);
      match ms[|ms| - 1]
      case Call(a) => Logged(c, s, a, ReadErrors(c, before))
      case Crashes => ReadErrors(c, before)
      case Starts => if s.phase == Down || s.phase == Done(true) then NO_ERRORS else ReadErrors(c, before)
  }

  lemma {:induction false} RejectedConcat(a: seq<Fate>, b: seq<Fate>)
    ensures Rejected(a + b) == Rejected(a) + Rejected(b)
  {
    if a == [] {
      assert [] + b == b;
    } else {
      assert (a + b)[1..] == a[1..] + b;
      RejectedConcat(a[1..], b);
    }
  }

  lemma {:induction false} RejectedMarked(fs: seq<Fate>)
    ensures Rejected(MarkWritten(fs)) == Rejected(fs)
  {
    if fs != [] {
      RejectedMarked(fs[1..]);
      assert MarkWritten(fs)[1..] == MarkWritten(fs[1..]);
    }
  }

  function RejectedIn(h: History): nat {
    Rejected(h.settled) + Rejected(h.pending)
  }

  lemma RejectedSettled(h: History, fs: seq<Fate>, rest: seq<Fate>)
    ensures RejectedIn(Settle(h, fs, rest)) == Rejected(h.settled) + Rejected(fs) + Rejected(rest)
  {
    RejectedConcat(h.settled, fs);
  }

  lemma RejectedPending(h: History, f: Fate)
    ensures RejectedIn(Pend(h, f)) == RejectedIn(h) + (if f.Undelivered? then 1 else 0)
  {
    RejectedConcat(h.pending, [f]);
  }

  lemma {:induction false} FirstQueuedIsQueued(fs: seq<Fate>)
    ensures FirstQueued(fs) <= |fs| && (FirstQueued(fs) < |fs| ==> fs[FirstQueued(fs)].Queued?)
  {
    if fs != [] {
      FirstQueuedIsQueued(fs[1..]);
    }
  }

  lemma RejectedHead(h: History, f: Fate)
    requires !f.Undelivered?
    ensures RejectedIn(SettleHead(h, f)) == RejectedIn(h)
  {
    var p, i := h.pending, FirstQueued(h.pending);
    FirstQueuedIsQueued(p);
    if i < |p| {
      RejectedSettled(h, p[..i] + [f], p[i + 1..]);
      RejectedConcat(p[..i], [f]);
      RejectedConcat(p[..i], p[i..]);
      assert p[..i] + p[i..] == p && p[i..][1..] == p[i + 1..];
    }
  }

  lemma RejectedAll(h: History)
    ensures RejectedIn(SettleChunk(h)) == RejectedIn(h) && RejectedIn(Settle(h, h.pending, [])) == RejectedIn(h)
  {
    RejectedMarked(h.pending);
    RejectedSettled(h, MarkWritten(h.pending), []);
    RejectedSettled(h, h.pending, []);
  }

  /** Every rejected record of the execution, and every read skip that it has counted. */
  ghost predicate Accounted(s: State, log: ReadLog) {
    !s.phase.Down? && !s.r.aliased ==>
      && RejectedIn(s.h) == log.skipped + log.retried + log.fatal
      && s.n.step.skipRead == s.t.base.skipRead + log.skipped + log.empty
      && (log.fatal > 0 ==> log.fatal == 1 && (s.phase == Closing(true) || s.phase == Done(true)))
  }

  lemma AccountedRead(c: Config, s: State, a: Answer, log: ReadLog)
    requires Accounted(s, log) && s.phase.Reading?
    ensures Accounted(OnRead(c, s, s.phase.attempts, a), Logged(c, s, a, log))
  {
    hide Settle, Pend, RejectedIn;
    RejectedPending(s.h, Undelivered);
    RejectedAll(s.h);
    RejectedAll(Pend(s.h, Undelivered));
  }

  lemma AccountedProcess(c: Config, s: State, a: Answer, log: ReadLog)
    requires Accounted(s, log) && s.phase.Processing?
    ensures Accounted(OnProcess(c, s, s.phase.attempts, a), Logged(c, s, a, log))
  {
    hide Settle, Pend, RejectedIn;
    forall f: Fate | !f.Undelivered? ensures RejectedIn(Pend(s.h, f)) == RejectedIn(s.h) {
      RejectedPending(s.h, f);
    }
    forall h: History ensures RejectedIn(Settle(h, h.pending, [])) == RejectedIn(h) {
      RejectedAll(h);
    }
  }

  lemma AccountedSplit(c: Config, s: State, a: Answer, log: ReadLog)
    requires Accounted(s, log) && (s.phase.SplitWriting? || s.phase.SplitCommitting?)
    ensures Accounted(Step(c, s, a), Logged(c, s, a, log))
  {
    hide Settle, SettleHead, RejectedIn;
    forall f: Fate | !f.Undelivered? ensures RejectedIn(SettleHead(s.h, f)) == RejectedIn(s.h) {
      RejectedHead(s.h, f);
    }
    forall h: History ensures RejectedIn(Settle(h, h.pending, [])) == RejectedIn(h) {
      RejectedAll(h);
    }
  }

  lemma AccountedStep(c: Config, s: State, a: Answer, log: ReadLog)
    requires Accounted(s, log)
    ensures Accounted(Step(c, s, a), Logged(c, s, a, log))
  {
    hide OnRead, OnProcess, OnSplitWrite, OnSplitCommit, SettleChunk, Settle, RejectedIn;
    match s.phase {
      case Reading(_) => AccountedRead(c, s, a, log);
      case Processing(_) => AccountedProcess(c, s, a, log);
      case SplitWriting => AccountedSplit(c, s, a, log);
      case SplitCommitting => AccountedSplit(c, s, a, log);
      case _ => RejectedAll(s.h);
    }
  }

  lemma {:induction false} AccountedRun(c: Config, ms: seq<Move>)
    ensures Accounted(Run(c, FRESH, ms), ReadErrors(c, ms))
    decreases |ms|
  {
    hide Step, Logged;
    if ms != [] {
      var before := ms[..|ms| - 1];
      AccountedRun(c, before);
      match ms[|ms| - 1] {
        case Call(a) => AccountedStep(c, Run(c, FRESH, before), a, ReadErrors(c, before));
        case _ =>
      }
    }
  }

  /** Some run leads to the state, and its last execution has had these read errors. */
  ghost predicate ReachableWith(c: Config, s: State, log: ReadLog) {
    exists ms :: Run(c, FRESH, ms) == s && ReadErrors(c, ms) == log
  }

  /**
  Every rejected record of an execution without a write retry was skipped, passed over by a read retry, or fatal; the read-skip
  counter shows the skipped ones, together with the skips of reads that consumed nothing.
  */
  lemma RejectedAccounting(c: Config, s: State, log: ReadLog)
    requires ReachableWith(c, s, log) && !s.phase.Down? && !s.r.aliased
    ensures Rejected(s.h.settled) + Rejected(s.h.pending) == log.skipped + log.retried + log.fatal
    ensures s.n.step.skipRead == s.t.base.skipRead + log.skipped + log.empty
    ensures log.fatal > 0 ==> log.fatal == 1 && (s.phase == Closing(true) || s.phase == Done(true))
  {
    hide Run, ReadErrors;
    var ms :| Run(c, FRESH, ms) == s && ReadErrors(c, ms) == log;
    AccountedRun(c, ms);
  }

  // ---------- Rejected records that no counter shows ----------

  const TRY_AGAIN := Answer(true, true, false, false, false, false, 0)

  ghost predicate AllRejected(c: Config) {
    forall i :: 0 <= i < |c.source| ==> c.source[i].Malformed?
  }

  lemma FirstRead(c: Config) returns (ms: seq<Move>)
    requires c.chunkSize > 0
    ensures var s := Run(c, FRESH, ms);
            && s.phase == Reading(0) && s.r.next == 0 == Rejected(s.h.pending) && s.h.settled == [] && s.k == EMPTY_CHUNK
            && s.n == FRESH.n && s.db.committed == []
  {
    ms := NextMove(c, [], Starts);
    ms := NextMove(c, ms, Call(OK));
  }

  /** Each rejected record is one more read attempt. */
  lemma {:induction false} RetryRejected(c: Config, n: nat) returns (ms: seq<Move>)
    requires AllRejected(c) && n <= |c.source| <= c.maxAttempts && c.chunkSize > 0
    ensures var s := Run(c, FRESH, ms);
            && s.phase == Reading(n) && s.r.next == n == Rejected(s.h.pending) && s.h.settled == [] && s.k == EMPTY_CHUNK
            && s.n == FRESH.n && s.db.committed == []
  {
    hide Run, Rejected;
    if n == 0 {
      ms := FirstRead(c);
    } else {
      ms := RetryRejected(c, n - 1);
      var s := Run(c, FRESH, ms);
      RejectedPending(s.h, Undelivered);
      ms := NextMove(c, ms, Call(TRY_AGAIN));
    }
  }

  /** A source of rejected records only, no more of them than read retries: COMPLETED with nothing read and no skip counted. */
  lemma AllRejectedUncounted(c: Config) returns (s: State)
    requires AllRejected(c) && |c.source| <= c.maxAttempts && c.chunkSize > 0
    ensures Reachable(c, s) && s.phase == Done(false)
    ensures Rejected(s.h.settled) == |c.source| && s.n.step == NO_STATS && s.db.committed == []
  {
    hide Run, Rejected;
    var ms := RetryRejected(c, |c.source|);
    RejectedAll(Run(c, FRESH, ms).h);
    ms := NextMove(c, ms, Call(OK));
    ms := NextMove(c, ms, Call(OK));
    s := Run(c, FRESH, ms);
  }
}
