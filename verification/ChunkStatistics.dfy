/**
What the statistics of a step count, told from the calls, their answers and what the engine does next, and what the
budgets for retries and skips are worth.
*/
module ChunkStatistics {
  import opened Options
  import opened Upsert
  import opened ChunkModel
  import opened ChunkSafety
  import opened ChunkTermination

  // ---------- What a call counts as ----------

  datatype Kind = ItemRead | ItemFiltered | ItemWritten | ChunkCommit | ChunkRollback | ReadSkip | ProcessSkip | ChunkSplit | ItemDrop
                | SplitItemWritten

  /** The reader answers with an error, its own or its mapper's. */
  predicate ReadFails(c: Config, s: State, a: Answer) {
    s.phase.Reading? && (!a.ok || (s.r.next < |c.source| && c.source[s.r.next].Malformed?))
  }

  /** A failing read is neither the end of the execution nor tried again. */
  predicate SkipsRead(c: Config, s: State, a: Answer) {
    ReadFails(c, s, a) && Step(c, s, a).phase != Closing(true) && Step(c, s, a).phase != Reading(s.phase.attempts + 1)
  }

  /** The same of a failing call of the processor. */
  predicate SkipsItem(c: Config, s: State, a: Answer) {
    s.phase.Processing? && !a.ok && Step(c, s, a).phase != Closing(true) && !Step(c, s, a).phase.Processing?
  }

  predicate SplitsChunk(c: Config, s: State, a: Answer) {
    s.phase.Writing? && Step(c, s, a).phase.SplitTop?
  }

  predicate DropsItem(c: Config, s: State, a: Answer) {
    s.phase.SplitWriting? && !a.ok && !Step(c, s, a).phase.Closing?
  }

  /** A failed Write whose chunk is retried, the wait before the retry being cancelled or not, or split. */
  predicate RollsBack(c: Config, s: State, a: Answer) {
    s.phase.Writing? && !a.ok && ((a.transient && c.maxAttempts > 0) || SplitsChunk(c, s, a))
  }

  function Weight(c: Config, s: State, m: Move, kind: Kind): nat {
    if !m.Call? then 0
    else
      var a := m.answer;
      match kind
      case ItemRead => if s.phase.Reading? && !ReadFails(c, s, a) && s.r.next < |c.source| then 1 else 0
      case ItemFiltered => if s.phase.Processing? && (if a.ok then Result(c, s).None? else SkipsItem(c, s, a)) then 1 else 0
      case ItemWritten => if s.phase.Writing? && a.ok then |s.k.items| else 0
      case ChunkCommit => if s.phase.Committing? && a.ok then 1 else 0
      case ChunkRollback => if RollsBack(c, s, a) then 1 else 0
      case ReadSkip => if SkipsRead(c, s, a) then 1 else 0
      case ProcessSkip => if SkipsItem(c, s, a) then 1 else 0
      case ChunkSplit => if SplitsChunk(c, s, a) then 1 else 0
      case ItemDrop => if DropsItem(c, s, a) then 1 else 0
      case SplitItemWritten => if s.phase.SplitCommitting? && a.ok then 1 else 0
  }

  /** How often something happened in the whole run. */
  function Total(c: Config, ms: seq<Move>, kind: Kind): nat {
    if ms == [] then 0
    else
      var before := ms[..|ms| - 1];
      Total(c, before, kind) + Weight(c, Run(c, FRESH, before), ms[|ms| - 1], kind)
  }

  /** The move starts an execution. */
  predicate Begins(s: State, m: Move) {
    m.Starts? && (s.phase == Down || s.phase == Done(true))
  }

  /** How often it happened in the execution in progress, or in the last one. */
  function Since(c: Config, ms: seq<Move>, kind: Kind): nat {
    if ms == [] then 0
    else
      var before := ms[..|ms| - 1];
      var s := Run(c, FRESH, before);
      if Begins(s, ms[|ms| - 1]) then 0 else Since(c, before, kind) + Weight(c, s, ms[|ms| - 1], kind)
  }

  function CrashCount(ms: seq<Move>): nat {
    if ms == [] then 0 else CrashCount(ms[..|ms| - 1]) + (if ms[|ms| - 1].Crashes? then 1 else 0)
  }

  /** What the counters gain by one call. */
  ghost predicate Gains(c: Config, s: State, a: Answer, t: State) {
    && t.n.read == s.n.read + Weight(c, s, Call(a), ItemRead)
    && t.n.write == s.n.write + Weight(c, s, Call(a), ItemWritten)
    && t.n.commit == s.n.commit + Weight(c, s, Call(a), ChunkCommit)
    && t.n.step.filter == s.n.step.filter + Weight(c, s, Call(a), ItemFiltered)
    && t.n.step.rollback == s.n.step.rollback + Weight(c, s, Call(a), ChunkRollback)
    && t.n.step.skipRead == s.n.step.skipRead + Weight(c, s, Call(a), ReadSkip)
    && t.n.step.skipProcess == s.n.step.skipProcess + Weight(c, s, Call(a), ProcessSkip)
    && t.n.step.skipWrite == s.n.step.skipWrite + Weight(c, s, Call(a), ChunkSplit) + Weight(c, s, Call(a), ItemDrop)
    && (!s.phase.Closing? ==> t.n.step.write == s.n.step.write + Weight(c, s, Call(a), SplitItemWritten))
    && t.t.base == s.t.base
  }

  lemma GainsReading(c: Config, s: State, a: Answer)
    requires s.phase.Reading?
    ensures Gains(c, s, a, Step(c, s, a))
  {
    hide Settle;
  }

  lemma GainsProcessing(c: Config, s: State, a: Answer)
    requires s.phase.Processing?
    ensures Gains(c, s, a, Step(c, s, a))
  {
    hide Settle;
  }

  lemma GainsWriting(c: Config, s: State, a: Answer)
    requires s.phase.Writing? || s.phase.SplitWriting?
    ensures Gains(c, s, a, Step(c, s, a))
  {
    hide Settle, SettleHead;
  }

  lemma GainsOf(c: Config, s: State, a: Answer)
    ensures Gains(c, s, a, Step(c, s, a))
  {
    hide Settle, SettleHead, OnRead, OnProcess, OnWrite, OnSplitWrite;
    match s.phase {
      case Reading(_) => GainsReading(c, s, a);
      case Processing(_) => GainsProcessing(c, s, a);
      case Writing => GainsWriting(c, s, a);
      case SplitWriting => GainsWriting(c, s, a);
      case _ =>
    }
  }

  // ---------- The statistics of an execution ----------

  ghost predicate Stated(s: State, counts: Kind -> nat) {
    && s.n.read == s.t.base.read + counts(ItemRead)
    && s.n.write == s.t.base.write + counts(ItemWritten)
    && s.n.commit == s.t.base.commit + counts(ChunkCommit)
    && s.n.step.filter == s.t.base.filter + counts(ItemFiltered)
    && s.n.step.rollback == s.t.base.rollback + counts(ChunkRollback)
    && s.n.step.skipRead == s.t.base.skipRead + counts(ReadSkip)
    && s.n.step.skipProcess == s.t.base.skipProcess + counts(ProcessSkip)
    && s.n.step.skipWrite == s.t.base.skipWrite + counts(ChunkSplit) + counts(ItemDrop)
    && (!s.phase.Done? ==> s.n.step.write == s.t.base.write + counts(SplitItemWritten))
  }

  lemma {:induction false} StatedSoFar(c: Config, ms: seq<Move>)
    ensures var s := Run(c, FRESH, ms); !s.phase.Down? ==> Stated(s, k => Since(c, ms, k))
    decreases |ms|
  {
    hide Step, Weight;
    if ms != [] {
      var before := ms[..|ms| - 1];
      StatedSoFar(c, before);
      match ms[|ms| - 1] {
        case Call(a) =>
          GainsOf(c, Run(c, FRESH, before), a);
          AtTheEnds(c, Run(c, FRESH, before), a);
        case m => OnlyCallsCount(c, Run(c, FRESH, before), m);
      }
    }
  }

  lemma OnlyCallsCount(c: Config, s: State, m: Move)
    requires !m.Call?
    ensures forall kind :: Weight(c, s, m, kind) == 0
  {
  }

  lemma AtTheEnds(c: Config, s: State, a: Answer)
    ensures s.phase.Down? || s.phase.Done? ==> Step(c, s, a) == s
    ensures s.phase.Closing? ==> Step(c, s, a).phase.Done?
  {
  }

  /** Some run leads to the state, and its last execution has counted so much. */
  ghost predicate ReachableIn(c: Config, s: State, counts: Kind -> nat) {
    exists ms :: Run(c, FRESH, ms) == s && forall k :: counts(k) == Since(c, ms, k)
  }

  /**
  Every statistic is the one the execution began with and what has happened since; at return they are on the StepExecution,
  whose count of the items written by splitting has then been overwritten.
  */
  lemma StatisticsOfExecution(c: Config, s: State, counts: Kind -> nat)
    requires ReachableIn(c, s, counts) && !s.phase.Down?
    ensures Stated(s, counts)
    ensures s.phase.Done? ==> s.n.step.read == s.n.read && s.n.step.write == s.n.write && s.n.step.commit == s.n.commit
  {
    hide Run, Since;
    var ms :| Run(c, FRESH, ms) == s && forall k :: counts(k) == Since(c, ms, k);
    StatedSoFar(c, ms);
    BalancedRun(c, ms);
  }

  // ---------- What an execution begins with ----------

  /** The move stores the StepExecution. */
  predicate Persists(s: State, m: Move) {
    Begins(s, m) || (m.Call? && s.phase.Closing? && m.answer.applied)
  }

  /** The move saves the checkpoint. */
  predicate Saves(s: State, m: Move) {
    m.Call? && s.phase.Saving? && (m.answer.ok || m.answer.applied) && (s.r.key.Some? || (s.r.aliased && s.r.context.Some?))
  }

  /** The checkpoint is that of the last save, made in the state before move `i`. */
  ghost predicate SavedAt(c: Config, ms: seq<Move>, i: nat, saved: Option<Checkpoint>)
    requires i < |ms|
  {
    var u := Run(c, FRESH, ms[..i]);
    && Saves(u, ms[i]) && (forall j :: i < j < |ms| ==> !Saves(Run(c, FRESH, ms[..j]), ms[j]))
    && saved == Some(Checkpoint((if u.r.key.Some? then u.r.key else u.r.context).value, u.n.read, u.n.write))
  }

  /** The stored StepExecution is that of the last time it was stored: as it was before move `i`, or after the last update. */
  ghost predicate StoredAt(c: Config, ms: seq<Move>, i: nat, stored: Stored)
    requires i < |ms|
  {
    var s := Run(c, FRESH, ms[..i]);
    var u := if ms[i].Starts? then s else Apply(c, s, ms[i]);
    && Persists(s, ms[i]) && (forall j :: i < j < |ms| ==> !Persists(Run(c, FRESH, ms[..j]), ms[j]))
    && stored == Stored(u.n.step, u.r.context)
  }

  lemma DiskOfMove(c: Config, s: State, m: Move)
    ensures var t := Apply(c, s, m);
            && (!Saves(s, m) ==> t.disk.saved == s.disk.saved)
            && (Saves(s, m) ==> t.disk.saved == Some(Checkpoint((if s.r.key.Some? then s.r.key else s.r.context).value, s.n.read, s.n.write)))
            && (!Persists(s, m) ==> t.disk.stored == s.disk.stored)
            && (Persists(s, m) ==> var u := if m.Starts? then s else t; t.disk.stored == Stored(u.n.step, u.r.context))
  {
    hide Settle, SettleHead, MarkWritten;
  }

  lemma SavedBefore(c: Config, before: seq<Move>, m: Move, i: nat, saved: Option<Checkpoint>)
    requires i < |before| && SavedAt(c, before, i, saved) && !Saves(Run(c, FRESH, before), m)
    ensures SavedAt(c, before + [m], i, saved)
  {
    hide Run, Saves;
    var ms := before + [m];
    assert forall j :: 0 <= j < |before| ==> before[..j] == ms[..j];
    assert ms[..|before|] == before;
  }

  lemma {:induction false} SavedSoFar(c: Config, ms: seq<Move>)
    ensures var saved := Run(c, FRESH, ms).disk.saved; saved.Some? ==> exists i :: 0 <= i < |ms| && SavedAt(c, ms, i, saved)
    decreases |ms|
  {
    hide Apply, Saves;
    if ms != [] {
      var last := |ms| - 1;
      var s := Run(c, FRESH, ms[..last]);
      DiskOfMove(c, s, ms[last]);
      if Saves(s, ms[last]) {
        assert SavedAt(c, ms, last, Run(c, FRESH, ms).disk.saved);
      } else if s.disk.saved.Some? {
        SavedSoFar(c, ms[..last]);
        var i :| 0 <= i < last && SavedAt(c, ms[..last], i, s.disk.saved);
        SavedBefore(c, ms[..last], ms[last], i, s.disk.saved);
        assert ms[..last] + [ms[last]] == ms;
      }
    }
  }

  lemma StoredBefore(c: Config, before: seq<Move>, m: Move, i: nat, stored: Stored)
    requires i < |before| && StoredAt(c, before, i, stored) && !Persists(Run(c, FRESH, before), m)
    ensures StoredAt(c, before + [m], i, stored)
  {
    hide Run, Apply, Persists;
    var ms := before + [m];
    assert forall j :: 0 <= j < |before| ==> before[..j] == ms[..j];
    assert ms[..|before|] == before;
  }

  lemma {:induction false} StoredSoFar(c: Config, ms: seq<Move>)
    ensures var stored := Run(c, FRESH, ms).disk.stored;
            stored == FRESH.disk.stored || exists i :: 0 <= i < |ms| && StoredAt(c, ms, i, stored)
    decreases |ms|
  {
    hide Apply, Persists;
    if ms != [] {
      var last := |ms| - 1;
      var s := Run(c, FRESH, ms[..last]);
      DiskOfMove(c, s, ms[last]);
      if Persists(s, ms[last]) {
        assert StoredAt(c, ms, last, Run(c, FRESH, ms).disk.stored);
      } else if s.disk.stored != FRESH.disk.stored {
        StoredSoFar(c, ms[..last]);
        var i :| 0 <= i < last && StoredAt(c, ms[..last], i, s.disk.stored);
        StoredBefore(c, ms[..last], ms[last], i, s.disk.stored);
        assert ms[..last] + [ms[last]] == ms;
      }
    }
  }

  /** Some run leads to the state, and the last checkpoint saved in it is this one. */
  ghost predicate SavedIn(c: Config, s: State, saved: Checkpoint) {
    exists ms :: Run(c, FRESH, ms) == s && exists i :: 0 <= i < |ms| && SavedAt(c, ms, i, Some(saved))
  }

  /** The same of the StepExecution stored last. */
  ghost predicate StoredIn(c: Config, s: State, stored: Stored) {
    exists ms :: Run(c, FRESH, ms) == s && exists i :: 0 <= i < |ms| && StoredAt(c, ms, i, stored)
  }

  /**
  An execution begins at the record and with the read and write counts that held when the last checkpoint was saved, without
  one at the first record; its other statistics are those of the StepExecution.
  */
  lemma BeginsAtCheckpoint(c: Config, s: State, t: State)
    requires Reachable(c, s) && (s.phase.Down? || s.phase == Done(true)) && t == Apply(c, s, Starts)
    ensures SavedIn(c, s, Checkpoint(t.r.count, t.n.read, t.n.write))
            || (s.disk.saved.None? && t.r.count == 0 && t.n.read == s.n.step.read && t.n.write == s.n.step.write)
    ensures t.phase.Top? && t.r.next == Min(t.r.count, |c.source|)
    ensures t.r.context == s.r.context && !t.r.aliased && t.r.key == (if s.disk.saved.Some? then Some(t.r.count) else None)
    ensures t.n.step == t.t.base == s.n.step.(read := t.n.read, write := t.n.write) && t.n.commit == s.n.step.commit
  {
    hide Run;
    var ms :| Run(c, FRESH, ms) == s;
    SavedSoFar(c, ms);
  }

  /** A crash leaves of the statistics and of the step's context what was stored last. */
  lemma CrashKeepsStored(c: Config, s: State, t: State)
    requires Reachable(c, s) && s.phase != Done(false) && t == Apply(c, s, Crashes)
    ensures t.phase.Down? && t.disk == s.disk
    ensures StoredIn(c, s, Stored(t.n.step, t.r.context)) || (t.n.step == NO_STATS && t.r.context.None?)
  {
    hide Run;
    var ms :| Run(c, FRESH, ms) == s;
    StoredSoFar(c, ms);
  }

  /** Behind a chunk that was committed as a whole the checkpoint has been saved. */
  ghost predicate UpToDate(s: State) {
    && (s.phase.SplitTop? || s.phase.SplitWriting? || s.phase.SplitCommitting? ==> !s.t.current)
    && (s.phase.Top? && s.t.current && !s.r.aliased && s.r.key.Some? ==>
          s.disk.saved == Some(Checkpoint(s.r.key.value, s.n.read, s.n.write)))
  }

  lemma UpToDateStep(c: Config, s: State, a: Answer)
    requires UpToDate(s)
    ensures UpToDate(Step(c, s, a))
  {
    hide Settle, SettleHead;
  }

  lemma {:induction false} UpToDateRun(c: Config, ms: seq<Move>)
    ensures UpToDate(Run(c, FRESH, ms))
    decreases |ms|
  {
    hide Step;
    if ms != [] {
      UpToDateRun(c, ms[..|ms| - 1]);
      match ms[|ms| - 1] {
        case Call(a) => UpToDateStep(c, Run(c, FRESH, ms[..|ms| - 1]), a);
        case _ =>
      }
    }
  }

  /**
  A crash at the head of a chunk costs nothing if the chunk before it was committed as a whole and no write was retried: the
  next execution begins at the count of the reader's entry and with the counts of the one that crashed.
  */
  lemma CrashAtHeadCostsNothing(c: Config, s: State, t: State)
    requires Reachable(c, s) && s.phase.Top? && s.t.current && !s.r.aliased && s.r.key.Some?
    requires t == Apply(c, Apply(c, s, Crashes), Starts)
    ensures t.r.key == s.r.key == Some(t.r.count) && t.n.read == s.n.read && t.n.write == s.n.write
    ensures t.db.committed == s.db.committed && t.disk.saved == s.disk.saved
  {
    hide Run;
    var ms :| Run(c, FRESH, ms) == s;
    UpToDateRun(c, ms);
  }

  // ---------- Skips over several executions ----------

  /** What one move adds; a crash forgets skips, at most as many as the limit allows. */
  lemma SkipsOfMove(c: Config, s: State, m: Move)
    requires Within(c, s.n.step)
    ensures var t, forgotten := Apply(c, s, m), if m.Crashes? then c.skipLimit else 0;
            var write := Weight(c, s, m, ChunkSplit) + Weight(c, s, m, ItemDrop);
            && s.n.step.skipRead + Weight(c, s, m, ReadSkip) <= t.n.step.skipRead + forgotten
            && s.n.step.skipProcess + Weight(c, s, m, ProcessSkip) <= t.n.step.skipProcess + forgotten
            && s.n.step.skipWrite + write <= t.n.step.skipWrite + forgotten
            && (!m.Crashes? ==>
                && t.n.step.skipRead == s.n.step.skipRead + Weight(c, s, m, ReadSkip)
                && t.n.step.skipProcess == s.n.step.skipProcess + Weight(c, s, m, ProcessSkip)
                && t.n.step.skipWrite == s.n.step.skipWrite + write)
  {
    hide Step;
    match m {
      case Call(a) => GainsOf(c, s, a);
      case _ => OnlyCallsCount(c, s, m);
    }
  }

  /** In crash-free runs the counters tell all skips; a crash forgets at most the limit of each kind. */
  ghost predicate Told(c: Config, step: Stats, counts: Kind -> nat, crashes: nat) {
    && counts(ReadSkip) <= c.skipLimit * crashes + step.skipRead
    && counts(ProcessSkip) <= c.skipLimit * crashes + step.skipProcess
    && counts(ChunkSplit) + counts(ItemDrop) <= c.skipLimit * crashes + step.skipWrite
    && (crashes == 0 ==>
        && counts(ReadSkip) == step.skipRead
        && counts(ProcessSkip) == step.skipProcess
        && counts(ChunkSplit) + counts(ItemDrop) == step.skipWrite)
  }

  lemma {:induction false} SkipsSoFar(c: Config, ms: seq<Move>)
    ensures Told(c, Run(c, FRESH, ms).n.step, k => Total(c, ms, k), CrashCount(ms))
    decreases |ms|
  {
    hide Apply, Weight;
    if ms != [] {
      var before := ms[..|ms| - 1];
      SkipsSoFar(c, before);
      SkipsWithin(c, before);
      SkipsOfMove(c, Run(c, FRESH, before), ms[|ms| - 1]);
      assert c.skipLimit * (CrashCount(before) + 1) == c.skipLimit * CrashCount(before) + c.skipLimit;
    }
  }

  lemma SkipsWithin(c: Config, ms: seq<Move>)
    ensures Within(c, Run(c, FRESH, ms).n.step)
  {
    hide Run;
    BalancedRun(c, ms);
  }

  /** Some run leads to the state with these counts, and so many crashes. */
  ghost predicate ReachableBy(c: Config, s: State, counts: Kind -> nat, crashes: nat) {
    exists ms :: Run(c, FRESH, ms) == s && (forall k :: counts(k) == Total(c, ms, k)) && CrashCount(ms) == crashes
  }

  /**
  The skip limit over all executions of a step together, for reads, for process calls and for writes.  Failed executions
  and their restarts share one budget, which the counter tells exactly; every crash may bring a new one.
  */
  lemma SkipLimitAcrossExecutions(c: Config, s: State, counts: Kind -> nat, crashes: nat)
    requires ReachableBy(c, s, counts, crashes)
    ensures crashes == 0 ==> counts(ReadSkip) == s.n.step.skipRead <= c.skipLimit
                             && counts(ProcessSkip) == s.n.step.skipProcess <= c.skipLimit
                             && counts(ChunkSplit) + counts(ItemDrop) == s.n.step.skipWrite <= c.skipLimit
    ensures counts(ReadSkip) <= c.skipLimit * (1 + crashes) && counts(ProcessSkip) <= c.skipLimit * (1 + crashes)
    ensures counts(ChunkSplit) + counts(ItemDrop) <= c.skipLimit * (1 + crashes)
  {
    hide Run, Total, CrashCount;
    var ms :| Run(c, FRESH, ms) == s && (forall k :: counts(k) == Total(c, ms, k)) && CrashCount(ms) == crashes;
    SkipsSoFar(c, ms);
    SkipsWithin(c, ms);
    assert c.skipLimit * (1 + crashes) == c.skipLimit + c.skipLimit * crashes;
  }

  // ---------- When an execution gives up ----------

  /**
  Without crashes an execution gives up on an error exactly if the wait before a retry is cancelled, or no attempt is left
  and the error cannot be skipped or the step has skipped as often as it may.  A Write has no count of attempts.
  */
  lemma GivesUpIff(c: Config, s: State, a: Answer, counts: Kind -> nat)
    requires ReachableBy(c, s, counts, 0)
    ensures ReadFails(c, s, a) ==>
              (Step(c, s, a).phase == Closing(true) <==>
                if a.retryable && s.phase.attempts < c.maxAttempts then a.cancelled
                else !a.skippable || counts(ReadSkip) == c.skipLimit)
    ensures s.phase.Processing? && !a.ok ==>
              (Step(c, s, a).phase == Closing(true) <==>
                if a.retryable && s.phase.attempts < c.maxAttempts then a.cancelled
                else !a.skippable || counts(ProcessSkip) == c.skipLimit)
    ensures s.phase.Writing? && !a.ok ==>
              (Step(c, s, a).phase == Closing(true) <==>
                if a.transient && c.maxAttempts > 0 then a.cancelled
                else !a.skippable || counts(ChunkSplit) + counts(ItemDrop) == c.skipLimit)
    ensures s.phase.SplitWriting? && !a.ok ==>
              (Step(c, s, a).phase == Closing(true) <==>
                !a.skippable || counts(ChunkSplit) + counts(ItemDrop) == c.skipLimit)
    ensures s.phase.Top? || s.phase.Committing? || s.phase.Saving? || s.phase.SplitTop? || s.phase.SplitCommitting? ==>
              (Step(c, s, a).phase == Closing(true) <==> !a.ok)
  {
    hide Run, Settle, SettleHead;
    SkipLimitAcrossExecutions(c, s, counts, 0);
  }

  /**
  A chunk has no more items than were delivered for it, and room for another one while it is being read.  It is left short of
  its size at the end of the source only.
  */
  ghost predicate Roomy(c: Config, s: State) {
    && (s.phase.Reading? ==> |s.k.items| <= s.k.taken < c.chunkSize && !s.k.eof)
    && (s.phase.Processing? ==> |s.k.items| < s.k.taken <= c.chunkSize && !s.k.eof)
    && (s.phase.Writing? || s.phase.Committing? || s.phase.Saving? ==> (s.k.eof <==> s.k.taken < c.chunkSize))
  }

  lemma {:induction false} RoomyRun(c: Config, ms: seq<Move>)
    ensures Roomy(c, Run(c, FRESH, ms))
    decreases |ms|
  {
    if ms != [] {
      RoomyRun(c, ms[..|ms| - 1]);
      match ms[|ms| - 1] {
        case Call(a) => RoomyStep(c, Run(c, FRESH, ms[..|ms| - 1]), a);
        case _ =>
      }
    }
  }

  lemma RoomyStep(c: Config, s: State, a: Answer)
    requires Roomy(c, s)
    ensures Roomy(c, Step(c, s, a))
  {
    hide Settle, SettleHead;
  }

  /**
  An execution is over without an error exactly if a chunk short of the chunk size has been saved, or the end of the source was
  met with nothing delivered for the chunk, or there is no room for an item in any chunk.  It is then completed unless the
  finalization reports an error; after an error it is failed in any case.
  */
  lemma CompletesIff(c: Config, s: State, a: Answer)
    requires Reachable(c, s)
    ensures !s.phase.Closing? ==>
              (Step(c, s, a).phase == Closing(false) <==>
                || (s.phase.Saving? && a.ok && s.k.taken < c.chunkSize)
                || (s.phase.Reading? && a.ok && s.r.next >= |c.source| && s.k.taken == 0)
                || (s.phase.Top? && a.ok && c.chunkSize <= 0))
    ensures s.phase.Closing? ==> Step(c, s, a).phase == Done(s.phase.failed || !a.ok)
  {
    hide Run, Settle, SettleHead;
    var ms :| Run(c, FRESH, ms) == s;
    RoomyRun(c, ms);
  }

  /** Calls `from` to `till` of the rest of the execution fail, and the policy would have them tried again. */
  ghost predicate KeepsFailing(env: nat -> Answer, from: nat, till: nat) {
    forall n :: from <= n < till ==> !env(n).ok && env(n).retryable && !env(n).cancelled
  }

  /** The first attempt and as many retries as are allowed are made of an item, and change nothing but the number of attempts. */
  lemma {:induction false} RetriedInPlace(c: Config, s: State, env: nat -> Answer, from: nat, till: nat)
    requires from <= till <= from + c.maxAttempts && KeepsFailing(env, from, till)
    ensures var t, n := Execution(c, s, env, from, till), till - from;
            && (s.phase == Reading(0) ==> t == s.(phase := Reading(n), t := s.t.(readCalls := s.t.readCalls + n)))
            && (s.phase == Processing(0) ==> t == s.(phase := Processing(n), t := s.t.(processCalls := s.t.processCalls + n)))
    decreases till
  {
    hide NextItem;
    if from < till {
      RetriedInPlace(c, s, env, from, till - 1);
      assert !env(till - 1).ok;
    }
  }

  const SKIPPABLE := Answer(false, false, true, false, false, false, 0)

  predicate RowAt(c: Config, i: nat) {
    i < |c.source| && c.source[i].Item? && c.source[i].result.Some?
  }

  /** The first chunk meets no malformed record, and the processor returns a row for one of its items. */
  ghost predicate FirstChunkHasRow(c: Config) {
    && (forall i :: 0 <= i < |c.source| && i < c.chunkSize ==> c.source[i].Item?)
    && (exists i :: 0 <= i < c.chunkSize && RowAt(c, i))
  }

  /** No execution has stored anything. */
  predicate NothingStored(s: State) {
    s.phase.Down? && s.disk == FRESH.disk && s.n.step == NO_STATS && s.r.context.None?
  }

  /** The run that goes on with one move, and what the move adds to its splits and drops. */
  lemma CountedMove(c: Config, ms: seq<Move>, m: Move) returns (longer: seq<Move>)
    ensures var s := Run(c, FRESH, ms);
            && Run(c, FRESH, longer) == Apply(c, s, m)
            && Total(c, longer, ChunkSplit) == Total(c, ms, ChunkSplit) + Weight(c, s, m, ChunkSplit)
            && Total(c, longer, ItemDrop) == Total(c, ms, ItemDrop) + Weight(c, s, m, ItemDrop)
  {
    longer := NextMove(c, ms, m);
    assert longer[..|longer| - 1] == ms;
  }

  ghost predicate FillingUp(c: Config, s: State, f: nat) {
    && s.phase == Reading(0) && s.r.next == s.k.taken && s.k.taken <= |c.source| && s.k.taken < c.chunkSize
    && s.disk == FRESH.disk && s.n.step.skipWrite == 0 && (s.k.items == [] ==> s.r.next <= f)
  }

  lemma {:induction false} FillChunk(c: Config, ms: seq<Move>, f: nat) returns (longer: seq<Move>)
    requires FirstChunkHasRow(c) && f < c.chunkSize && RowAt(c, f) && FillingUp(c, Run(c, FRESH, ms), f)
    ensures var t := Run(c, FRESH, longer); t.phase.Writing? && t.k.items != [] && t.disk == FRESH.disk && t.n.step.skipWrite == 0
    ensures Total(c, longer, ChunkSplit) == Total(c, ms, ChunkSplit) && Total(c, longer, ItemDrop) == Total(c, ms, ItemDrop)
    decreases |c.source| - Run(c, FRESH, ms).r.next
  {
    hide Run, Total;
    var s := Run(c, FRESH, ms);
    var m1 := CountedMove(c, ms, Call(OK));
    if s.r.next == |c.source| {
      longer := m1;
    } else {
      var s1 := Run(c, FRESH, m1);
      assert s1.phase == Processing(0) && s1.r.next == s1.k.taken == s.r.next + 1 && s1.k.items == s.k.items && s1.disk == s.disk
             && s1.n.step == s.n.step;
      var m2 := CountedMove(c, m1, Call(OK));
      if Run(c, FRESH, m2).phase.Reading? {
        longer := FillChunk(c, m2, f);
      } else {
        longer := m2;
      }
    }
  }

  lemma RowOfFirstChunk(c: Config) returns (f: nat)
    requires FirstChunkHasRow(c)
    ensures f < c.chunkSize && RowAt(c, f)
  {
    f :| f < c.chunkSize && RowAt(c, f);
  }

  /** An execution that splits its first chunk, drops the first item of it if the limit allows, and crashes. */
  lemma SplitAndCrash(c: Config, ms: seq<Move>) returns (longer: seq<Move>)
    requires FirstChunkHasRow(c) && c.skipLimit > 0 && NothingStored(Run(c, FRESH, ms))
    ensures NothingStored(Run(c, FRESH, longer)) && Total(c, longer, ChunkSplit) == Total(c, ms, ChunkSplit) + 1
    ensures Total(c, longer, ItemDrop) == Total(c, ms, ItemDrop) + (if c.skipLimit > 1 then 1 else 0)
  {
    hide Run, Total, FirstChunkHasRow;
    var f: nat := RowOfFirstChunk(c);
    longer := CountedMove(c, ms, Starts);
    longer := CountedMove(c, longer, Call(OK));
    longer := FillChunk(c, longer, f);
    longer := CountedMove(c, longer, Call(SKIPPABLE));
    longer := CountedMove(c, longer, Call(OK));
    if c.skipLimit > 1 {
      longer := CountedMove(c, longer, Call(SKIPPABLE));
    }
    longer := CountedMove(c, longer, Crashes);
  }

  /**
  Crashes forget skips: a step whose first chunk can be written at all can split any number of chunks under any limit but
  zero, and drop any number of items under any limit of two or more.
  */
  lemma {:induction false} CrashesForgetSkips(c: Config, n: nat) returns (ms: seq<Move>)
    requires FirstChunkHasRow(c) && c.skipLimit > 0
    ensures NothingStored(Run(c, FRESH, ms)) && Total(c, ms, ChunkSplit) == n && Total(c, ms, ItemDrop) == (if c.skipLimit > 1 then n else 0)
  {
    if n == 0 {
      ms := [];
    } else {
      ms := CrashesForgetSkips(c, n - 1);
      ms := SplitAndCrash(c, ms);
    }
  }

  /** So the limit is one of the whole step, crashes included, only where nothing may be skipped. */
  lemma SkipLimitHoldsIff(c: Config)
    requires FirstChunkHasRow(c)
    ensures (forall ms :: Total(c, ms, ChunkSplit) + Total(c, ms, ItemDrop) <= c.skipLimit) <==> c.skipLimit == 0
  {
    hide Run, Total, CrashCount, FirstChunkHasRow;
    if c.skipLimit == 0 {
      forall ms ensures Total(c, ms, ChunkSplit) + Total(c, ms, ItemDrop) <= c.skipLimit {
        SkipLimitAcrossExecutions(c, Run(c, FRESH, ms), k => Total(c, ms, k), CrashCount(ms));
      }
    } else {
      var ms := CrashesForgetSkips(c, c.skipLimit + 1);
      assert Total(c, ms, ChunkSplit) + Total(c, ms, ItemDrop) > c.skipLimit;
    }
  }
}
