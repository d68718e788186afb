/** Termination of an execution, by an explicit measure, and bounds on the calls it makes. */
module ChunkTermination {
  import opened Options
  import opened ChunkModel
  import opened ChunkSafety
  import opened ChunkFates

  // ---------- The measure ----------

  /** What one record can cost: its read and process attempts, its share of the write phase and a new chunk. */
  function RecordCost(c: Config): nat {
    3 * c.maxAttempts + 16
  }

  /** Records left and read-skip budget left, in steps. */
  function Budget(c: Config, s: State): int {
    (|c.source| - s.r.next) * RecordCost(c) + (c.skipLimit - s.n.step.skipRead) * (c.maxAttempts + 1)
  }

  function TopCost(c: Config): nat {
    c.maxAttempts + 3
  }

  /** Steps from the end of reading a chunk with `q` queued items to the head of the next one, that head included. */
  function WriteCost(c: Config, q: nat): nat {
    4 * q + 5 + TopCost(c)
  }

  function Rank(c: Config, s: State): int {
    match s.phase
    case Down => 0
    case Done(_) => 0
    case Closing(_) => 1
    case Top => Budget(c, s) + TopCost(c)
    case Reading(k) =>
      Budget(c, s) + (c.maxAttempts - k) + 2
      + if s.k.taken == 0 && s.k.items == [] then 0 else WriteCost(c, |s.k.items|)
    case Processing(k) =>
      Budget(c, s) + (c.maxAttempts - k) + c.maxAttempts + 7 + WriteCost(c, |s.k.items|)
    case Writing => Budget(c, s) + WriteCost(c, |s.k.items|)
    case Committing => Budget(c, s) + TopCost(c) + 4
    case Saving => Budget(c, s) + TopCost(c) + 3
    case SplitTop => Budget(c, s) + 4 * |s.k.items| + 1 + TopCost(c)
    case SplitWriting => Budget(c, s) + 4 * |s.k.items| + TopCost(c)
    case SplitCommitting => Budget(c, s) + 4 * |s.k.items| - 1 + TopCost(c)
  }

  /** The quantities the measure subtracts never go below zero. */
  ghost predicate Bounded(c: Config, s: State) {
    && s.r.next <= |c.source|
    && s.n.step.skipRead <= c.skipLimit
    && s.disk.stored.stats.skipRead <= c.skipLimit
    && (s.phase.Reading? ==> s.phase.attempts <= c.maxAttempts)
    && (s.phase.Processing? ==> s.phase.attempts <= c.maxAttempts && s.k.taken > 0)
  }

  lemma BudgetNonNegative(c: Config, s: State)
    requires Bounded(c, s)
    ensures Budget(c, s) >= 0
  {
    Product(|c.source| - s.r.next, RecordCost(c));
    Product(c.skipLimit - s.n.step.skipRead, c.maxAttempts + 1);
  }

  lemma Product(a: nat, b: nat)
    ensures a * b >= 0 && (a > 0 ==> a * b == (a - 1) * b + b)
  {
  }

  /** One record or one skip less. */
  lemma BudgetSpent(c: Config, s: State, t: State)
    requires Bounded(c, s) && s.r.next <= t.r.next <= |c.source| && t.r.next <= s.r.next + 1
    requires s.n.step.skipRead <= t.n.step.skipRead <= c.skipLimit && t.n.step.skipRead <= s.n.step.skipRead + 1
    ensures Budget(c, t) == Budget(c, s) - (t.r.next - s.r.next) * RecordCost(c)
                            - (t.n.step.skipRead - s.n.step.skipRead) * (c.maxAttempts + 1)
  {
    Product(|c.source| - s.r.next, RecordCost(c));
    Product(c.skipLimit - s.n.step.skipRead, c.maxAttempts + 1);
  }

  lemma RankNextItem(c: Config, s: State)
    requires Bounded(c, s.(phase := Reading(0)))
    ensures Bounded(c, NextItem(c, s))
    ensures Rank(c, NextItem(c, s)) <= Rank(c, s.(phase := Reading(0)))
  {
    BudgetNonNegative(c, s.(phase := Reading(0)));
  }

  /** A failing read may consume a record, which costs nothing to the measure. */
  lemma BudgetAfterRead(c: Config, s: State, r: Cursor)
    requires Bounded(c, s) && Bounded(c, s.(r := r)) && s.r.next <= r.next <= s.r.next + 1
    ensures 0 <= Budget(c, s.(r := r)) <= Budget(c, s)
  {
    hide Budget;
    BudgetSpent(c, s, s.(r := r));
    BudgetNonNegative(c, s.(r := r));
    Product(r.next - s.r.next, RecordCost(c));
  }

  lemma RankReadSkip(c: Config, s: State, r: Cursor, h: History, t: Tally)
    requires Bounded(c, s) && s.phase.Reading? && Bounded(c, s.(r := r)) && s.r.next <= r.next <= s.r.next + 1
    requires s.n.step.skipRead < c.skipLimit
    ensures var n := s.n.(step := s.n.step.(skipRead := s.n.step.skipRead + 1));
            var u := NextItem(c, s.(r := r, h := h, t := t, n := n));
            Bounded(c, u) && Rank(c, u) < Rank(c, s)
  {
    hide NextItem, Budget;
    BudgetAfterRead(c, s, r);
    var u := s.(r := r, h := h, t := t, n := s.n.(step := s.n.step.(skipRead := s.n.step.skipRead + 1)));
    var v := u.(phase := Reading(0));
    assert Budget(c, v) == Budget(c, s.(r := r)) - (c.maxAttempts + 1) by { BudgetSpent(c, s.(r := r), v); }
    RankNextItem(c, u);
  }

  lemma RankReadError(c: Config, s: State, r: Cursor, h: History, a: Answer)
    requires Bounded(c, s) && s.phase.Reading? && Bounded(c, s.(r := r)) && s.r.next <= r.next <= s.r.next + 1
    ensures var t := ReadError(c, s, r, h, s.phase.attempts, a);
            Bounded(c, t) && Rank(c, t) < Rank(c, s)
  {
    hide NextItem, Budget;
    var u := s.t.(readCalls := s.t.readCalls + 1, slots := s.t.slots + 1);
    BudgetAfterRead(c, s, r);
    var t := ReadError(c, s, r, h, s.phase.attempts, a);
    if a.retryable && s.phase.attempts < c.maxAttempts {
      assert Budget(c, t) == Budget(c, s.(r := r)) by { BudgetSpent(c, s.(r := r), t); }
    } else if a.skippable && s.n.step.skipRead < c.skipLimit {
      hide Rank;
      RankReadSkip(c, s, r, h, u);
    }
  }

  lemma RankRead(c: Config, s: State, a: Answer)
    requires Bounded(c, s) && s.phase.Reading?
    ensures var t := OnRead(c, s, s.phase.attempts, a);
            Bounded(c, t) && Rank(c, t) < Rank(c, s)
  {
    hide ReadError, Budget;
    var t := OnRead(c, s, s.phase.attempts, a);
    BudgetNonNegative(c, s);
    if !a.ok {
      RankReadError(c, s, s.r, s.h, a);
    } else if s.r.next >= |c.source| {
      assert Budget(c, t) == Budget(c, s) by { BudgetSpent(c, s, t); }
    } else if c.source[s.r.next].Item? {
      BudgetSpent(c, s, t);
    } else {
      RankReadError(c, s, s.r.(next := s.r.next + 1), Pend(s.h, Undelivered), a);
    }
  }

  lemma RankProcess(c: Config, s: State, a: Answer)
    requires Bounded(c, s) && s.phase.Processing?
    ensures var t := OnProcess(c, s, s.phase.attempts, a);
            Bounded(c, t) && Rank(c, t) < Rank(c, s)
  {
    hide Budget;
    var t := OnProcess(c, s, s.phase.attempts, a);
    BudgetNonNegative(c, s);
    assert Budget(c, t) == Budget(c, s) by { BudgetSpent(c, s, t); }
  }

  lemma RankWrite(c: Config, s: State, a: Answer)
    requires Bounded(c, s) && Transactional(s)
    requires s.phase.Top? || s.phase.Writing? || s.phase.Committing? || s.phase.Saving? || s.phase.Closing?
    requires s.phase.Writing? ==> !RetriesWrite(c, a)
    ensures var t := Step(c, s, a);
            Bounded(c, t) && Rank(c, t) < Rank(c, s)
  {
    hide Budget;
    var t := Step(c, s, a);
    BudgetNonNegative(c, s);
    assert Budget(c, t) == Budget(c, s) by { BudgetSpent(c, s, t); }
  }

  lemma RankSplit(c: Config, s: State, a: Answer)
    requires Bounded(c, s) && Transactional(s)
    requires s.phase.SplitTop? || s.phase.SplitWriting? || s.phase.SplitCommitting?
    ensures var t := Step(c, s, a);
            Bounded(c, t) && Rank(c, t) < Rank(c, s)
  {
    hide Budget;
    var t := Step(c, s, a);
    BudgetNonNegative(c, s);
    assert Budget(c, t) == Budget(c, s) by { BudgetSpent(c, s, t); }
  }

  ghost predicate Running(s: State) {
    !s.phase.Down? && !s.phase.Done?
  }

  /** Every step of a running execution lowers the measure, except a write retry. */
  lemma StepLowersRank(c: Config, s: State, a: Answer)
    requires Bounded(c, s) && Transactional(s) && Running(s)
    requires s.phase.Writing? ==> !RetriesWrite(c, a)
    ensures var t := Step(c, s, a);
            Bounded(c, t) && 0 <= Rank(c, t) < Rank(c, s)
  {
    hide Rank, Bounded, OnRead, OnProcess;
    match s.phase {
      case Reading(_) => RankRead(c, s, a);
      case Processing(_) => RankProcess(c, s, a);
      case SplitTop => RankSplit(c, s, a);
      case SplitWriting => RankSplit(c, s, a);
      case SplitCommitting => RankSplit(c, s, a);
      case _ => RankWrite(c, s, a);
    }
    TransactionalStep(c, s, a);
    RankNonNegative(c, Step(c, s, a));
  }

  lemma RankNonNegative(c: Config, s: State)
    requires Bounded(c, s) && Transactional(s)
    ensures Rank(c, s) >= 0 && (Running(s) ==> Rank(c, s) > 0)
  {
    hide Budget;
    BudgetNonNegative(c, s);
  }

  lemma RetryBounded(c: Config, s: State, a: Answer)
    requires Bounded(c, s) && s.phase.Writing? && RetriesWrite(c, a)
    ensures Bounded(c, OnWrite(c, s, a))
  {
  }

  lemma StartBounded(c: Config, s: State)
    requires Bounded(c, s)
    ensures Bounded(c, Start(c, s)) && Bounded(c, Crash(s))
  {
  }

  // ---------- An execution against an environment ----------

  /** The outside world answers call `i` with `env(i)`: the state before call `till` of an execution that stood at `s` before call `from`. */
  function Execution(c: Config, s: State, env: nat -> Answer, from: nat, till: nat): State
    requires from <= till
    decreases till
  {
    if till == from then s else Step(c, Execution(c, s, env, from, till - 1), env(till - 1))
  }

  /** From call `from` on the writer never answers with a retryable error. */
  ghost predicate NoWriteRetryFrom(env: nat -> Answer, from: nat) {
    forall i :: from <= i ==> !env(i).transient
  }

  lemma {:induction false} ExecutionInvariant(c: Config, s: State, env: nat -> Answer, from: nat, till: nat)
    requires from <= till
    requires Bounded(c, s) && Transactional(s) && NoWriteRetryFrom(env, from)
    ensures var t := Execution(c, s, env, from, till);
            Bounded(c, t) && Transactional(t) && (Running(t) ==> Rank(c, t) + (till - from) <= Rank(c, s))
    decreases till
  {
    hide Rank, Bounded, Transactional, Step;
    if till > from {
      ExecutionInvariant(c, s, env, from, till - 1);
      var t := Execution(c, s, env, from, till - 1);
      TransactionalStep(c, t, env(till - 1));
      if Running(t) {
        StepLowersRank(c, t, env(till - 1));
      } else {
        assert Step(c, t, env(till - 1)) == t by { StoppedStays(c, t, env(till - 1)); }
      }
    }
  }

  lemma StoppedStays(c: Config, s: State, a: Answer)
    requires !Running(s)
    ensures Step(c, s, a) == s
  {
  }

  lemma {:induction false} ExecutionStaysUp(c: Config, s: State, env: nat -> Answer, from: nat, till: nat)
    requires from <= till && !s.phase.Down?
    ensures !Execution(c, s, env, from, till).phase.Down?
    decreases till
  {
    if till > from {
      ExecutionStaysUp(c, s, env, from, till - 1);
    }
  }

  /** Termination: if the writer never answers with a retryable error, an execution is done after at most Rank steps. */
  lemma ExecutionTerminates(c: Config, s: State, env: nat -> Answer, from: nat)
    requires Bounded(c, s) && Transactional(s) && NoWriteRetryFrom(env, from) && !s.phase.Down?
    ensures Rank(c, s) >= 0 && Execution(c, s, env, from, from + Rank(c, s)).phase.Done?
  {
    hide Budget, Bounded, Transactional, Execution;
    RankNonNegative(c, s);
    var till := from + Rank(c, s);
    ExecutionInvariant(c, s, env, from, till);
    ExecutionStaysUp(c, s, env, from, till);
    RankNonNegative(c, Execution(c, s, env, from, till));
  }

  // ---------- Bounds on the calls ----------

  function Attempts(c: Config): nat {
    c.maxAttempts + 1
  }

  function Skips(s: State): int {
    s.n.step.skipRead - s.t.base.skipRead
  }

  /** Read attempts come in series of at most Attempts calls; a series delivers an item, uses up a skip, meets the end or ends the execution. */
  ghost predicate ReadsCounted(c: Config, s: State) {
    && s.t.readCalls <= s.t.slots * Attempts(c) + (if s.phase.Reading? then s.phase.attempts else 0)
    && s.h.start + s.t.delivered <= s.r.next
    && (if s.phase.Closing? || s.phase.Done? then s.t.slots <= s.t.delivered + Skips(s) + 2
        else s.t.slots == s.t.delivered + Skips(s) + s.t.eofs && s.t.eofs <= 1)
    && (s.t.eofs > 0 ==> s.r.next == |c.source|)
    && (s.t.eofs > 0 && (s.phase.Reading? || s.phase.Processing?) ==> s.phase.Reading? && s.k.taken == 0 && s.k.items == [])
  }

  ghost predicate ProcessesCounted(c: Config, s: State) {
    if s.phase.Processing?
    then s.t.delivered > 0 && s.t.processCalls <= (s.t.delivered - 1) * Attempts(c) + s.phase.attempts
    else s.t.processCalls <= s.t.delivered * Attempts(c)
  }

  /** What the bounds need: an execution has been started, and its counters are within their limits. */
  ghost predicate Counted(c: Config, s: State) {
    && Bounded(c, s)
    && (!s.phase.Down? ==> ReadsCounted(c, s) && ProcessesCounted(c, s))
  }

  lemma CountedNextItem(c: Config, s: State)
    requires Counted(c, s.(phase := Reading(0)))
    ensures Counted(c, NextItem(c, s))
  {
    hide Budget, Rank;
    RankNextItem(c, s);
  }

  lemma CountedReadError(c: Config, s: State, r: Cursor, h: History, a: Answer)
    requires Counted(c, s) && s.phase.Reading? && Counted(c, s.(r := r, h := h))
    ensures Counted(c, ReadError(c, s, r, h, s.phase.attempts, a))
  {
    hide NextItem;
    Product(s.t.slots + 1, Attempts(c));
    if !(a.retryable && s.phase.attempts < c.maxAttempts) && a.skippable && s.n.step.skipRead < c.skipLimit {
      var u := s.t.(readCalls := s.t.readCalls + 1, slots := s.t.slots + 1);
      CountedNextItem(c, s.(r := r, h := h, t := u, n := s.n.(step := s.n.step.(skipRead := s.n.step.skipRead + 1))));
    }
  }

  lemma CountedRead(c: Config, s: State, a: Answer)
    requires Counted(c, s) && s.phase.Reading?
    ensures Counted(c, OnRead(c, s, s.phase.attempts, a))
  {
    hide ReadError;
    Product(s.t.slots + 1, Attempts(c));
    Product(s.t.delivered + 1, Attempts(c));
    if !a.ok {
      CountedReadError(c, s, s.r, s.h, a);
    } else if s.r.next < |c.source| && c.source[s.r.next].Malformed? {
      CountedReadError(c, s, s.r.(next := s.r.next + 1), Pend(s.h, Undelivered), a);
    }
  }

  lemma CountedProcess(c: Config, s: State, a: Answer)
    requires Counted(c, s) && s.phase.Processing?
    ensures Counted(c, OnProcess(c, s, s.phase.attempts, a))
  {
    Product(s.t.delivered, Attempts(c));
  }

  lemma CountedStep(c: Config, s: State, a: Answer)
    requires Counted(c, s)
    requires s.phase.Writing? ==> !RetriesWrite(c, a)
    ensures Counted(c, Step(c, s, a))
  {
    hide OnRead, OnProcess;
    match s.phase {
      case Top => CountedTop(c, s, a);
      case Reading(_) => CountedRead(c, s, a);
      case Processing(_) => CountedProcess(c, s, a);
      case _ => CountedRest(c, s, a);
    }
  }

  lemma CountedTop(c: Config, s: State, a: Answer)
    requires Counted(c, s) && s.phase.Top?
    ensures Counted(c, OnTop(c, s, a))
  {
    hide NextItem;
    if a.ok {
      CountedNextItem(c, s.(db := s.db.Begin(), k := EMPTY_CHUNK));
    }
  }

  lemma CountedSplit(c: Config, s: State, a: Answer)
    requires Counted(c, s) && (s.phase.SplitWriting? || s.phase.SplitCommitting?)
    ensures Counted(c, Step(c, s, a))
  {
    hide OnRead, OnProcess, OnWrite, OnCommit, OnSave, OnClose, OnTop;
  }

  lemma CountedRest(c: Config, s: State, a: Answer)
    requires Counted(c, s) && !s.phase.Top? && !s.phase.Reading? && !s.phase.Processing?
    requires s.phase.Writing? ==> !RetriesWrite(c, a)
    ensures Counted(c, Step(c, s, a))
  {
    hide OnRead, OnProcess, OnSplitWrite, OnSplitCommit;
    if s.phase.SplitWriting? || s.phase.SplitCommitting? {
      CountedSplit(c, s, a);
    }
  }

  lemma {:induction false} CountedRun(c: Config, ms: seq<Move>)
    requires !Run(c, FRESH, ms).h.retried
    ensures Counted(c, Run(c, FRESH, ms))
    decreases |ms|
  {
    if ms != [] {
      var s := Run(c, FRESH, ms[..|ms| - 1]);
      if s.h.retried {
        RetriedSticks(c, s, ms[|ms| - 1]);
      }
      CountedRun(c, ms[..|ms| - 1]);
      match ms[|ms| - 1] {
        case Call(a) => CountedStep(c, s, a);
        case Crashes => StartBounded(c, s);
        case Starts => StartBounded(c, s);
      }
    }
  }

  lemma Monotone(a: int, b: int, k: nat)
    requires a <= b
    ensures a * k <= b * k
  {
  }

  lemma CountedBounds(c: Config, s: State)
    requires Counted(c, s) && !s.phase.Down?
    ensures s.t.readCalls <= (|c.source| + c.skipLimit + 2) * (c.maxAttempts + 1)
    ensures s.t.processCalls <= |c.source| * (c.maxAttempts + 1)
  {
    var k := Attempts(c);
    var series := if s.phase.Reading? then s.t.slots + 1 else s.t.slots;
    Product(s.t.slots + 1, k);
    Monotone(series, |c.source| + c.skipLimit + 2, k);
    if s.phase.Processing? {
      Product(s.t.delivered, k);
    }
    Monotone(s.t.delivered, |c.source|, k);
  }

  /** Call bounds over any run without write retry, at any moment of an execution on an n-record source. */
  lemma CallBounds(c: Config, s: State)
    requires Reachable(c, s) && !s.h.retried && !s.phase.Down?
    ensures s.t.readCalls <= (|c.source| + c.skipLimit + 2) * (c.maxAttempts + 1)
    ensures s.t.processCalls <= |c.source| * (c.maxAttempts + 1)
  {
    hide Counted, Run;
    var ms :| Run(c, FRESH, ms) == s;
    CountedRun(c, ms);
    CountedBounds(c, s);
  }
}
