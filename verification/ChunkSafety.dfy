/** Invariants of the chunk engine over every list of moves: transactions, skip budgets, accounting and call bounds. */
module ChunkSafety {
  import opened Options
  import opened Upsert
  import opened ChunkModel

  // ---------- Transactions ----------

  const IDLE_TX := Some(Tx([], false))

  /** Which transaction is open in which phase, and what has been written into it. */
  ghost predicate Transactional(s: State) {
    && s.db.sound
    && match s.phase {
      case Down => s.db.open.None?
      case Top => s.db.open.None? && s.k.items == []
      case Reading(_) => s.db.open == IDLE_TX
      case Processing(_) => s.db.open == IDLE_TX
      case Writing => s.db.open == IDLE_TX && s.k.items != []
      case Committing => s.db.open == Some(Tx(s.k.items, s.k.items != []))
      case Saving => s.db.open.None? && s.k.items == []
      case SplitTop => s.db.open.None? && s.k.items != []
      case SplitWriting => s.db.open == IDLE_TX && s.k.items != []
      case SplitCommitting => s.k.items != [] && s.db.open == Some(Tx([s.k.items[0]], true))
      case Closing(f) => (s.db.open.None? || s.db.open == IDLE_TX) && (f || s.k.items == [])
      case Done(f) => (s.db.open.None? || s.db.open == IDLE_TX) && (f || s.k.items == [])
    }
  }

  lemma TransactionalTop(c: Config, s: State, a: Answer)
    requires Transactional(s) && s.phase.Top?
    ensures Transactional(OnTop(c, s, a))
  {
  }

  lemma TransactionalRead(c: Config, s: State, a: Answer)
    requires Transactional(s) && s.phase.Reading?
    ensures Transactional(OnRead(c, s, s.phase.attempts, a))
  {
  }

  lemma TransactionalProcess(c: Config, s: State, a: Answer)
    requires Transactional(s) && s.phase.Processing?
    ensures Transactional(OnProcess(c, s, s.phase.attempts, a))
  {
  }

  lemma TransactionalWrite(c: Config, s: State, a: Answer)
    requires Transactional(s) && s.phase.Writing?
    ensures Transactional(OnWrite(c, s, a))
  {
    assert [] + s.k.items == s.k.items;
  }

  lemma TransactionalSplit(c: Config, s: State, a: Answer)
    requires Transactional(s) && (s.phase.SplitTop? || s.phase.SplitWriting? || s.phase.SplitCommitting?)
    ensures Transactional(Step(c, s, a))
  {
    assert [] + [s.k.items[0]] == [s.k.items[0]];
  }

  lemma TransactionalStep(c: Config, s: State, a: Answer)
    requires Transactional(s)
    ensures Transactional(Step(c, s, a))
  {
    match s.phase {
      case Top => TransactionalTop(c, s, a);
      case Reading(_) => TransactionalRead(c, s, a);
      case Processing(_) => TransactionalProcess(c, s, a);
      case Writing => TransactionalWrite(c, s, a);
      case SplitTop => TransactionalSplit(c, s, a);
      case SplitWriting => TransactionalSplit(c, s, a);
      case SplitCommitting => TransactionalSplit(c, s, a);
      case _ =>
    }
  }

  lemma {:induction false} TransactionalRun(c: Config, ms: seq<Move>)
    ensures Transactional(Run(c, FRESH, ms))
    decreases |ms|
  {
    if ms != [] {
      var s := Run(c, FRESH, ms[..|ms| - 1]);
      TransactionalRun(c, ms[..|ms| - 1]);
      match ms[|ms| - 1] {
        case Call(a) => TransactionalStep(c, s, a);
        case _ =>
      }
    }
  }

  /**
  Transaction discipline on every path, write retry, splitting and crashes included: never two open
  transactions, no Write or Commit outside one, and none with an attempted Write left open at the head
  of a chunk, before a split item or at return.
  */
  lemma TransactionDiscipline(c: Config, s: State)
    requires Reachable(c, s)
    ensures && s.db.sound
            && (s.phase.Top? || s.phase.SplitTop? || s.phase.Down? ==> s.db.open.None?)
            && (s.phase.Done? && s.db.open.Some? ==> !s.db.open.value.attempted)
  {
    hide Run;
    var ms :| Run(c, FRESH, ms) == s;
    TransactionalRun(c, ms);
  }

  /**
  The one transaction that an execution leaves open at its end: it ended by a fatal read, or by a cancelled backoff in read
  or process; and the finalization does not touch it.
  */
  lemma LeftOpenIff(c: Config, s: State, a: Answer, t: State, b: Answer)
    requires Reachable(c, s) && !s.phase.Closing? && t == Step(c, s, a) && t.phase.Closing?
    ensures t.db.open.Some? <==> || (s.phase.Reading? && t.phase == Closing(true))
                                 || (s.phase.Processing? && !a.ok && a.retryable && s.phase.attempts < c.maxAttempts)
    ensures Step(c, t, b).phase.Done? && Step(c, t, b).db == t.db
  {
    hide Run;
    var ms :| Run(c, FRESH, ms) == s;
    TransactionalRun(c, ms);
  }

  /** The committed rows grow only by whole chunks or, when splitting, by whole items. */
  lemma CommitsWholeChunks(c: Config, s: State, m: Move)
    requires Reachable(c, s)
    ensures var t := Apply(c, s, m);
            || t.db.committed == s.db.committed
            || (s.phase.Committing? && t.db.committed == s.db.committed + s.k.items)
            || (s.phase.SplitCommitting? && s.k.items != [] && t.db.committed == s.db.committed + [s.k.items[0]])
  {
    hide Run;
    var ms :| Run(c, FRESH, ms) == s;
    TransactionalRun(c, ms);
  }

  // ---------- Skip budgets and accounting ----------

  /** Delivered items that no counter accounts for yet. */
  function InFlight(s: State): nat {
    (if s.phase.Committing? then 0 else |s.k.items|) + (if s.phase.Processing? then 1 else 0)
  }

  ghost predicate Within(c: Config, t: Stats) {
    t.skipRead <= c.skipLimit && t.skipProcess <= c.skipLimit && t.skipWrite <= c.skipLimit
  }

  ghost predicate Balanced(c: Config, s: State) {
    && Within(c, s.n.step) && Within(c, s.disk.stored.stats)
    && (!s.phase.Down? ==>
      && s.n.step.skipWrite == s.t.base.skipWrite + s.t.splits + s.t.dropped
      && s.t.base.filter <= s.n.step.filter
      && s.t.base.skipRead <= s.n.step.skipRead
      && s.t.base.write <= s.n.write
      && s.n.read == s.t.base.read + s.t.delivered
      && (s.phase != Closing(true) && s.phase != Done(true) ==>
        s.t.delivered == (s.n.write - s.t.base.write) + s.t.splitWritten
                         + (s.n.step.filter - s.t.base.filter) + s.t.dropped + s.t.requeued + InFlight(s)))
    && (s.phase.Done? ==> s.n.step.read == s.n.read && s.n.step.write == s.n.write)
    && (s.phase == Done(true) || s.phase == Done(false) ==> s.n.step.commit == s.n.commit)
  }

  lemma BalancedReadError(c: Config, s: State, r: Cursor, h: History, a: Answer)
    requires Balanced(c, s) && s.phase.Reading?
    ensures Balanced(c, ReadError(c, s, r, h, s.phase.attempts, a))
  {
  }

  lemma BalancedRead(c: Config, s: State, a: Answer)
    requires Balanced(c, s) && s.phase.Reading?
    ensures Balanced(c, OnRead(c, s, s.phase.attempts, a))
  {
    hide ReadError;
    BalancedReadError(c, s, s.r, s.h, a);
    BalancedReadError(c, s, s.r.(next := s.r.next + 1), Pend(s.h, Undelivered), a);
  }

  lemma BalancedProcess(c: Config, s: State, a: Answer)
    requires Balanced(c, s) && s.phase.Processing?
    ensures Balanced(c, OnProcess(c, s, s.phase.attempts, a))
  {
  }

  lemma BalancedWrite(c: Config, s: State, a: Answer)
    requires Transactional(s) && Balanced(c, s) && (s.phase.Top? || s.phase.Writing? || s.phase.Committing? || s.phase.Saving?)
    ensures Balanced(c, Step(c, s, a))
  {
  }

  lemma BalancedSplit(c: Config, s: State, a: Answer)
    requires Transactional(s) && Balanced(c, s) && (s.phase.SplitTop? || s.phase.SplitWriting? || s.phase.SplitCommitting?)
    ensures Balanced(c, Step(c, s, a))
  {
  }

  lemma BalancedStep(c: Config, s: State, a: Answer)
    requires Transactional(s) && Balanced(c, s)
    ensures Balanced(c, Step(c, s, a))
  {
    match s.phase {
      case Reading(_) => BalancedRead(c, s, a);
      case Processing(_) => BalancedProcess(c, s, a);
      case SplitTop => BalancedSplit(c, s, a);
      case SplitWriting => BalancedSplit(c, s, a);
      case SplitCommitting => BalancedSplit(c, s, a);
      case Closing(_) =>
      case Done(_) =>
      case Down =>
      case _ => BalancedWrite(c, s, a);
    }
  }

  lemma {:induction false} BalancedRun(c: Config, ms: seq<Move>)
    ensures Balanced(c, Run(c, FRESH, ms))
    decreases |ms|
  {
    if ms != [] {
      var s := Run(c, FRESH, ms[..|ms| - 1]);
      BalancedRun(c, ms[..|ms| - 1]);
      TransactionalRun(c, ms[..|ms| - 1]);
      match ms[|ms| - 1] {
        case Call(a) => BalancedStep(c, s, a);
        case _ =>
      }
    }
  }

  /** Skip budgets: no counter passes the limit, and chunk splits plus dropped items share the write budget. */
  lemma SkipBudgets(c: Config, s: State)
    requires Reachable(c, s)
    ensures && s.n.step.skipRead <= c.skipLimit && s.n.step.skipProcess <= c.skipLimit && s.n.step.skipWrite <= c.skipLimit
            && (!s.phase.Down? ==>
                && s.n.step.skipWrite - s.t.base.skipWrite == s.t.splits + s.t.dropped
                && s.t.splits + s.t.dropped <= c.skipLimit)
  {
    hide Run;
    var ms :| Run(c, FRESH, ms) == s;
    BalancedRun(c, ms);
  }

  /** Accounting of a COMPLETED execution: every item read is written, written by splitting, filtered, dropped or given up by a write retry. */
  lemma CompletedAccounting(c: Config, s: State)
    requires Reachable(c, s) && s.phase == Done(false)
    ensures s.n.step.read - s.t.base.read
            == (s.n.step.write - s.t.base.write) + s.t.splitWritten
               + (s.n.step.filter - s.t.base.filter) + s.t.dropped + s.t.requeued
  {
    hide Run;
    var ms :| Run(c, FRESH, ms) == s;
    BalancedRun(c, ms);
    TransactionalRun(c, ms);
  }
}
