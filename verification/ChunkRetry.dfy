/**
The write-retry branch as coded.  It reopens the reader at its entry in StepExecution.ExecutionContext,
which only a regular commit brings up to date, and from then on every read changes that entry.
*/
module ChunkRetry {
  import opened Options
  import opened Upsert
  import opened ChunkModel
  import opened ChunkSafety
  import opened ChunkFates
  import opened ChunkTermination

  // ---------- What every run keeps, whatever its retries ----------

  /** No count is beyond the source, and once the reader has been reopened its entry in the context follows every read. */
  ghost predicate InSource(c: Config, s: State) {
    && s.r.count <= s.r.next <= |c.source|
    && s.r.key.Or(0) <= |c.source| && s.r.context.Or(0) <= |c.source|
    && Position(s.disk) <= |c.source| && s.disk.stored.context.Or(0) <= |c.source|
    && (s.r.aliased && !s.phase.Done? && !s.phase.Down? ==> s.r.context.Or(0) == s.r.count)
  }

  /** The reader stands behind the records of the chunk in progress, unless a write retry has led it astray. */
  ghost predicate Aligned(c: Config, s: State) {
    && (!s.r.aliased ==> !s.t.astray)
    && (!s.t.astray && !s.phase.Down? && s.phase != Closing(true) && s.phase != Done(true) ==>
          Edge(s.h) + |s.h.pending| + (if s.phase.Processing? then 1 else 0) == s.r.next)
    && (s.phase.Reading? || s.phase.Processing? || s.phase.Writing? || s.phase.Committing? ==> |s.k.items| <= |s.h.pending|)
    && (s.phase.Top? || s.phase.Saving? ==> s.h.pending == [])
  }

  lemma InSourceRead(c: Config, s: State, a: Answer)
    requires InSource(c, s) && (s.phase.Reading? || s.phase.Processing?)
    ensures InSource(c, Step(c, s, a))
  {
    hide Settle, OnWrite, OnCommit, OnSave, OnSplitWrite, OnSplitCommit, OnClose, OnTop;
  }

  lemma InSourceSplit(c: Config, s: State, a: Answer)
    requires InSource(c, s) && (s.phase.SplitTop? || s.phase.SplitWriting? || s.phase.SplitCommitting?)
    ensures InSource(c, Step(c, s, a))
  {
    hide Settle, SettleHead, OnRead, OnProcess, OnWrite, OnCommit, OnSave, OnClose, OnTop;
  }

  lemma InSourceStep(c: Config, s: State, a: Answer)
    requires InSource(c, s)
    ensures InSource(c, Step(c, s, a))
  {
    hide Settle, MarkWritten, OnRead, OnProcess, OnSplitWrite, OnSplitCommit;
    match s.phase {
      case Reading(_) => InSourceRead(c, s, a);
      case Processing(_) => InSourceRead(c, s, a);
      case SplitTop => InSourceSplit(c, s, a);
      case SplitWriting => InSourceSplit(c, s, a);
      case SplitCommitting => InSourceSplit(c, s, a);
      case _ =>
    }
  }

  lemma AlignedNextItem(c: Config, s: State)
    requires Aligned(c, s.(phase := Reading(0)))
    ensures Aligned(c, NextItem(c, s))
  {
  }

  lemma AlignedRead(c: Config, s: State, a: Answer)
    requires Aligned(c, s) && s.phase.Reading?
    ensures Aligned(c, OnRead(c, s, s.phase.attempts, a))
  {
    hide NextItem;
    var t := s.t.(readCalls := s.t.readCalls + 1, slots := s.t.slots + 1);
    var n := s.n.(step := s.n.step.(skipRead := s.n.step.skipRead + 1));
    AlignedNextItem(c, s.(t := t, n := n));
    AlignedNextItem(c, s.(t := t, n := n, r := s.r.(next := s.r.next + 1), h := Pend(s.h, Undelivered)));
  }

  lemma AlignedProcess(c: Config, s: State, a: Answer)
    requires Aligned(c, s) && s.phase.Processing?
    ensures Aligned(c, OnProcess(c, s, s.phase.attempts, a))
  {
  }

  lemma AlignedSplit(c: Config, s: State, a: Answer)
    requires Aligned(c, s) && (s.phase.SplitTop? || s.phase.SplitWriting? || s.phase.SplitCommitting?)
    ensures Aligned(c, Step(c, s, a))
  {
    hide FirstQueued;
  }

  lemma AlignedStep(c: Config, s: State, a: Answer)
    requires Aligned(c, s)
    ensures Aligned(c, Step(c, s, a))
  {
    hide OnRead, OnProcess, OnSplitWrite, OnSplitCommit;
    match s.phase {
      case Reading(_) => AlignedRead(c, s, a);
      case Processing(_) => AlignedProcess(c, s, a);
      case SplitWriting => AlignedSplit(c, s, a);
      case SplitCommitting => AlignedSplit(c, s, a);
      case _ =>
    }
  }

  // ---------- When the entry is current ----------

  /** Items delivered in the chunk in progress. */
  function InChunk(s: State): nat {
    if s.phase.Reading? || s.phase.Processing? || s.phase.Writing? || s.phase.Committing? then s.k.taken else 0
  }

  predicate Chunking(s: State) {
    s.phase.Top? || s.phase.Reading? || s.phase.Processing? || s.phase.Writing? || s.phase.Committing? || s.phase.Saving?
  }

  /** After a chunk has been committed as a whole, the entry is the reader's count at that commit. */
  ghost predicate Synchronized(s: State) {
    && (s.phase.SplitTop? || s.phase.SplitWriting? || s.phase.SplitCommitting? ==> !s.t.current)
    && (Chunking(s) && !s.r.aliased ==>
      && InChunk(s) <= s.r.count <= Edge(s.h) + InChunk(s)
      && (s.t.current ==> s.r.context == Some(s.r.count - InChunk(s))))
  }

  lemma SynchronizedRead(c: Config, s: State, a: Answer)
    requires Synchronized(s) && s.phase.Reading?
    ensures Synchronized(OnRead(c, s, s.phase.attempts, a))
  {
    hide MarkWritten, Settle;
  }

  lemma SynchronizedProcess(c: Config, s: State, a: Answer)
    requires Synchronized(s) && s.phase.Processing?
    ensures Synchronized(OnProcess(c, s, s.phase.attempts, a))
  {
    hide MarkWritten, Settle;
  }

  lemma SynchronizedSplit(c: Config, s: State, a: Answer)
    requires Synchronized(s) && InSource(c, s) && Aligned(c, s)
    requires s.phase.SplitTop? || s.phase.SplitWriting? || s.phase.SplitCommitting?
    ensures Synchronized(Step(c, s, a))
  {
    hide OnRead, OnProcess, OnWrite, OnCommit, OnSave, OnClose, OnTop, FirstQueued;
  }

  lemma SynchronizedRest(c: Config, s: State, a: Answer)
    requires Synchronized(s) && InSource(c, s) && Aligned(c, s) && !s.phase.Reading? && !s.phase.Processing?
    ensures Synchronized(Step(c, s, a))
  {
    hide OnRead, OnProcess, OnSplitWrite, OnSplitCommit;
    if s.phase.SplitTop? || s.phase.SplitWriting? || s.phase.SplitCommitting? {
      SynchronizedSplit(c, s, a);
    }
  }

  lemma SynchronizedStep(c: Config, s: State, a: Answer)
    requires Synchronized(s) && InSource(c, s) && Aligned(c, s)
    ensures Synchronized(Step(c, s, a))
  {
    hide OnRead, OnProcess, InSource, Aligned, Synchronized;
    match s.phase {
      case Reading(_) => SynchronizedRead(c, s, a);
      case Processing(_) => SynchronizedProcess(c, s, a);
      case _ => SynchronizedRest(c, s, a);
    }
  }

  lemma {:induction false} AlwaysSo(c: Config, ms: seq<Move>)
    ensures var s := Run(c, FRESH, ms); InSource(c, s) && Aligned(c, s) && Synchronized(s)
    decreases |ms|
  {
    hide Step;
    if ms != [] {
      AlwaysSo(c, ms[..|ms| - 1]);
      var s := Run(c, FRESH, ms[..|ms| - 1]);
      match ms[|ms| - 1] {
        case Call(a) =>
          InSourceStep(c, s, a);
          AlignedStep(c, s, a);
          SynchronizedStep(c, s, a);
        case _ =>
      }
    }
  }

  // ---------- Main results ----------

  /**
  A write retry re-reads its chunk from the first record if and only if the entry in the context is that record's position;
  otherwise the run counts as misplaced from then on.  This is so in every state that no earlier retry of the same
  execution has led astray, whatever happened in earlier executions; in particular for the first retry of each.  The first
  record of the chunk is Edge: its records, the queued ones among them, reach from there to the reader.
  */
  lemma RetryRereadsChunkIff(c: Config, s: State, a: Answer)
    requires Reachable(c, s) && !s.t.astray && s.phase.Writing? && RetriesWrite(c, a)
    ensures Edge(s.h) + |s.h.pending| == s.r.next && 0 < |s.k.items| <= |s.h.pending|
    ensures OnWrite(c, s, a).r.next == Edge(s.h) <==> s.r.context.Or(0) == Edge(s.h)
    ensures OnWrite(c, s, a).h.misplaced <==> s.h.misplaced || s.r.context.Or(0) != Edge(s.h)
  {
    hide Run;
    var ms :| Run(c, FRESH, ms) == s;
    AlwaysSo(c, ms);
    TransactionalRun(c, ms);
  }

  lemma FirstRetryIsNotAstray(c: Config, s: State)
    requires Reachable(c, s) && !s.r.aliased
    ensures !s.t.astray
  {
    hide Run;
    var ms :| Run(c, FRESH, ms) == s;
    AlwaysSo(c, ms);
  }

  /**
  The same in the engine's own counters, for the first write retry of an execution whose last settled chunk was committed as a
  whole: the retry goes back to the first record of the chunk if and only if the reader's count without the items of this
  chunk is that record's position, which is to say that this execution rejected no record before it.
  */
  lemma FirstRetryRereadsChunkIff(c: Config, s: State, a: Answer)
    requires Reachable(c, s) && !s.r.aliased && s.phase.Writing? && RetriesWrite(c, a) && s.t.current
    ensures s.k.taken <= s.r.count && Edge(s.h) + |s.h.pending| == s.r.next
    ensures OnWrite(c, s, a).r.next == Edge(s.h) <==> s.r.count - s.k.taken == Edge(s.h)
    ensures OnWrite(c, s, a).h.misplaced <==> s.h.misplaced || s.r.count - s.k.taken != Edge(s.h)
  {
    hide Run;
    var ms :| Run(c, FRESH, ms) == s;
    AlwaysSo(c, ms);
    TransactionalRun(c, ms);
  }

  /**
  Every further write retry of an execution sets the reader to the record that its count names: behind all the records of
  the chunk, if none was rejected so far.  The queued items are given up and nothing is committed.
  */
  lemma FurtherRetryGivesChunkUp(c: Config, s: State, a: Answer)
    requires Reachable(c, s) && s.phase.Writing? && s.r.aliased && RetriesWrite(c, a)
    ensures var t := OnWrite(c, s, a);
            && t.r.next == t.r.count == s.r.count && (t.r.next == s.r.next <==> s.r.count == s.r.next)
            && t.k.items == [] && t.db.committed == s.db.committed
  {
    hide Run;
    var ms :| Run(c, FRESH, ms) == s;
    AlwaysSo(c, ms);
  }

  /** A reader that stands at or behind record `n`, by its count as well, and has been reopened. */
  ghost predicate Behind(s: State, n: nat) {
    && n <= s.r.count <= s.r.next && s.r.aliased
    && (!s.phase.Done? && !s.phase.Down? ==> s.r.context.Or(0) == s.r.count)
  }

  lemma BehindStep(c: Config, s: State, a: Answer, n: nat)
    requires Behind(s, n) && s.r.next <= |c.source|
    ensures Behind(Step(c, s, a), n) && Step(c, s, a).r.next <= |c.source|
  {
    hide Settle, SettleHead, MarkWritten, FirstQueued;
  }

  /** Given up for good: after a further retry the rest of the execution reads no record before the one the count names. */
  lemma {:induction false} GivenUpForGood(c: Config, s: State, a: Answer, env: nat -> Answer, from: nat, till: nat)
    requires Reachable(c, s) && s.phase.Writing? && s.r.aliased && RetriesWrite(c, a) && from <= till
    ensures var u := Execution(c, OnWrite(c, s, a), env, from, till);
            Behind(u, s.r.count) && u.r.next <= |c.source|
    decreases till
  {
    hide Step;
    if till == from {
      FurtherRetryGivesChunkUp(c, s, a);
      var ms :| Run(c, FRESH, ms) == s;
      AlwaysSo(c, ms);
    } else {
      GivenUpForGood(c, s, a, env, from, till - 1);
      BehindStep(c, Execution(c, OnWrite(c, s, a), env, from, till - 1), env(till - 1), s.r.count);
    }
  }

  // ---------- Items lost ----------

  const TRANSIENT := Answer(false, false, false, true, false, false, 0)

  const FIRST_ROW := Row("1", "", "")
  const SECOND_ROW := Row("2", "", "")
  const TWO_ITEMS := Config([Item(Some(FIRST_ROW)), Item(Some(SECOND_ROW))], 1, 3, 0)

  /** From the head of the loop, three good answers bring a one-item chunk to its Write. */
  lemma ReadOneItem(ms: seq<Move>, row: Row) returns (ms': seq<Move>)
    requires var s := Run(TWO_ITEMS, FRESH, ms);
             s.phase.Top? && s.r.next < 2 && TWO_ITEMS.source[s.r.next] == Item(Some(row))
    ensures var s, t := Run(TWO_ITEMS, FRESH, ms), Run(TWO_ITEMS, FRESH, ms');
            t.phase.Writing? && t.k.items == [row] && t.r == Advance(s.r) && t.db.committed == s.db.committed && !t.k.eof
            && t.db.open == Some(Tx([], false)) && t.disk == s.disk
  {
    hide Run;
    var s := Run(TWO_ITEMS, FRESH, ms);
    var m1 := NextMove(TWO_ITEMS, ms, Call(OK));
    var s1 := Run(TWO_ITEMS, FRESH, m1);
    assert s1.phase == Reading(0) && s1.r == s.r && s1.k == EMPTY_CHUNK && s1.db == s.db.Begin() && s1.disk == s.disk;
    var m2 := NextMove(TWO_ITEMS, m1, Call(OK));
    var s2 := Run(TWO_ITEMS, FRESH, m2);
    assert s2.phase == Processing(0) && s2.r == Advance(s.r) && s2.k == Chunk([], 1, false) && s2.db == s1.db && s2.disk == s.disk;
    ms' := NextMove(TWO_ITEMS, m2, Call(OK));
    assert [] + [row] == [row];
  }

  lemma FailTransiently(ms: seq<Move>) returns (ms': seq<Move>)
    requires Run(TWO_ITEMS, FRESH, ms).phase.Writing?
    ensures var s, t := Run(TWO_ITEMS, FRESH, ms), Run(TWO_ITEMS, FRESH, ms');
            t.phase.Top? && t.r == Reopen(TWO_ITEMS, s.r) && t.db.committed == s.db.committed && t.disk == s.disk
  {
    hide Run;
    ms' := NextMove(TWO_ITEMS, ms, Call(TRANSIENT));
  }

  /** Three good answers write, commit and save. */
  lemma WriteAndSave(ms: seq<Move>) returns (ms': seq<Move>)
    requires var s := Run(TWO_ITEMS, FRESH, ms);
             s.phase.Writing? && !s.k.eof && s.db.open == Some(Tx([], false)) && s.r.key.Some?
    ensures var s, t := Run(TWO_ITEMS, FRESH, ms), Run(TWO_ITEMS, FRESH, ms');
            && t.phase.Top? && t.db.committed == s.db.committed + s.k.items && t.r == s.r.(context := Some(s.r.count))
            && t.disk.saved.Some? && t.disk.saved.value.position == s.r.key.value && t.disk.stored == s.disk.stored
  {
    hide Run;
    var s := Run(TWO_ITEMS, FRESH, ms);
    var m1 := NextMove(TWO_ITEMS, ms, Call(OK));
    var s1 := Run(TWO_ITEMS, FRESH, m1);
    assert s1.phase.Committing? && s1.db.open == Some(Tx(s.k.items, true)) by { assert [] + s.k.items == s.k.items; }
    var m2 := NextMove(TWO_ITEMS, m1, Call(OK));
    ms' := NextMove(TWO_ITEMS, m2, Call(OK));
  }

  /** With nothing left to read, three good answers complete the execution. */
  lemma FinishRun(ms: seq<Move>) returns (ms': seq<Move>)
    requires var s := Run(TWO_ITEMS, FRESH, ms); s.phase.Top? && s.r.next == 2
    ensures var s, t := Run(TWO_ITEMS, FRESH, ms), Run(TWO_ITEMS, FRESH, ms');
            t.phase == Done(false) && t.db.committed == s.db.committed
  {
    hide Run;
    var s := Run(TWO_ITEMS, FRESH, ms);
    var m1 := NextMove(TWO_ITEMS, ms, Call(OK));
    var s1 := Run(TWO_ITEMS, FRESH, m1);
    assert s1.phase == Reading(0) && s1.r == s.r && s1.k == EMPTY_CHUNK && s1.db.committed == s.db.committed;
    var m2 := NextMove(TWO_ITEMS, m1, Call(OK));
    var s2 := Run(TWO_ITEMS, FRESH, m2);
    assert s2.phase == Closing(false) && s2.db.committed == s.db.committed;
    ms' := NextMove(TWO_ITEMS, m2, Call(OK));
  }

  /** A crash and a restart: the reader opens at the saved position and the context is the stored one. */
  lemma CrashAndStart(ms: seq<Move>) returns (ms': seq<Move>)
    requires var s := Run(TWO_ITEMS, FRESH, ms); !s.phase.Done? && s.disk.saved.Some? && s.disk.saved.value.position <= 2
    ensures var s, t := Run(TWO_ITEMS, FRESH, ms), Run(TWO_ITEMS, FRESH, ms');
            var p := s.disk.saved.value.position;
            && t.phase.Top? && t.r == Cursor(p, p, Some(p), s.disk.stored.context, false)
            && t.db.committed == s.db.committed && t.disk.stored.context == s.disk.stored.context
  {
    hide Run;
    var s := Run(TWO_ITEMS, FRESH, ms);
    var m1 := NextMove(TWO_ITEMS, ms, Crashes);
    ms' := NextMove(TWO_ITEMS, m1, Starts);
  }

  lemma Begin() returns (ms: seq<Move>)
    ensures Run(TWO_ITEMS, FRESH, ms) == Start(TWO_ITEMS, FRESH)
  {
    ms := NextMove(TWO_ITEMS, [], Starts);
  }

  /** Two transient write errors in a row: the execution is COMPLETED and the first item was never written. */
  lemma TwoTransientErrorsLoseAnItem()
    ensures exists s :: Reachable(TWO_ITEMS, s) && s.phase == Done(false) && s.db.committed == [SECOND_ROW]
  {
    hide Run, Step;
    var m := Begin();
    m := ReadOneItem(m, FIRST_ROW);
    m := FailTransiently(m);
    m := ReadOneItem(m, FIRST_ROW);
    m := FailTransiently(m);
    assert Run(TWO_ITEMS, FRESH, m).r.next == 1;
    m := ReadOneItem(m, SECOND_ROW);
    m := WriteAndSave(m);
    m := FinishRun(m);
    assert [] + [SECOND_ROW] == [SECOND_ROW];
    assert Reachable(TWO_ITEMS, Run(TWO_ITEMS, FRESH, m));
  }

  /**
  One transient write error is enough when the context is not current, as it is not in a restarted execution before its first
  commit: the first item is written again, and the checkpoint saved with it is the stale one behind the second item.
  After another crash the step is COMPLETED without the second item.
  */
  lemma OneTransientErrorLosesAnItem()
    ensures exists s :: Reachable(TWO_ITEMS, s) && s.phase == Done(false) && s.db.committed == [FIRST_ROW, FIRST_ROW]
  {
    hide Run, Step;
    var m := Begin();
    m := ReadOneItem(m, FIRST_ROW);
    m := WriteAndSave(m);
    m := CrashAndStart(m);
    m := ReadOneItem(m, SECOND_ROW);
    m := FailTransiently(m);
    m := ReadOneItem(m, FIRST_ROW);
    m := WriteAndSave(m);
    m := CrashAndStart(m);
    m := FinishRun(m);
    assert [] + [FIRST_ROW] + [FIRST_ROW] == [FIRST_ROW, FIRST_ROW];
    assert Reachable(TWO_ITEMS, Run(TWO_ITEMS, FRESH, m));
  }
}
