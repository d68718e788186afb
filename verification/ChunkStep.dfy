/**
`ChunkStep.Execute` in its own imperative form, with its nested loops and early exits, proved to compute
exactly the executions of the state machine, call by call, and to return.
*/
module ChunkSteps {
  import opened Options
  import opened Upsert
  import opened ChunkModel
  import opened ChunkSafety
  import opened ChunkFates
  import opened ChunkTermination
  import opened ChunkRestart

  lemma ReachableApply(c: Config, s: State, m: Move)
    requires Reachable(c, s)
    ensures Reachable(c, Apply(c, s, m))
  {
    var ms :| Run(c, FRESH, ms) == s;
    assert (ms + [m])[..|ms|] == ms;
    assert Run(c, FRESH, ms + [m]) == Apply(c, s, m);
  }

  /** Every moment of an execution that begins in a reachable state is reachable. */
  lemma {:induction false} ExecutionReachable(c: Config, s: State, env: nat -> Answer, from: nat, till: nat)
    requires from <= till && Reachable(c, s)
    ensures Reachable(c, Execution(c, s, env, from, till))
    decreases till
  {
    if till > from {
      ExecutionReachable(c, s, env, from, till - 1);
      ReachableApply(c, Execution(c, s, env, from, till - 1), Call(env(till - 1)));
    }
  }

  /** Which call a phase makes. */
  lemma PhaseStep(c: Config, s: State, a: Answer)
    ensures match s.phase
            case Top => Step(c, s, a) == OnTop(c, s, a)
            case Reading(k) => Step(c, s, a) == OnRead(c, s, k, a)
            case Processing(k) => Step(c, s, a) == OnProcess(c, s, k, a)
            case Writing => Step(c, s, a) == OnWrite(c, s, a)
            case Committing => Step(c, s, a) == OnCommit(s, a)
            case Saving => Step(c, s, a) == OnSave(s, a)
            case SplitTop => Step(c, s, a) == OnSplitTop(s, a)
            case SplitWriting => Step(c, s, a) == OnSplitWrite(c, s, a)
            case SplitCommitting => Step(c, s, a) == OnSplitCommit(s, a)
            case Closing(f) => Step(c, s, a) == OnClose(s, f, a)
            case _ => Step(c, s, a) == s
  {
  }

  lemma ReadErrorReplaces(c: Config, s: State, r: Cursor, h: History, k: nat, a: Answer)
    ensures ReadError(c, s, r, h, k, a) == ReadError(c, s.(r := r, h := h), r, h, k, a)
  {
    hide NextItem;
  }

  /** The rows committed before an execution stay where they are. */
  lemma {:induction false} ExecutionKeepsBase(c: Config, s: State, env: nat -> Answer, from: nat, till: nat)
    requires from <= till
    ensures Execution(c, s, env, from, till).h.base == s.h.base
    decreases till
  {
    hide Step;
    if till > from {
      ExecutionKeepsBase(c, s, env, from, till - 1);
      StepGrows(c, Execution(c, s, env, from, till - 1), env(till - 1));
    }
  }

  /** What a completed execution has done, for every reachable state. */
  lemma CompletedExecution(c: Config, s: State)
    requires Reachable(c, s) && s.phase == Done(false) && !s.h.misplaced && c.chunkSize > 0
    ensures s.h.start + |s.h.settled| == |c.source| && AllTruthful(c, s.h.start, s.h.settled)
    ensures s.db.committed == s.h.base + WrittenRows(s.h.settled)
  {
    CompletedSettlesAll(c, s);
  }

  lemma StartIsSound(c: Config, s: State)
    requires Bounded(c, s) && Transactional(s)
    ensures Transactional(Start(c, s)) && Bounded(c, Start(c, s)) && Rank(c, Start(c, s)) >= 0
  {
    hide Rank;
    StartBounded(c, s);
    RankNonNegative(c, Start(c, s));
  }

  datatype ReadOutcome = Got | EndOfData | SkippedRead | FatalRead
  datatype LoopOutcome = NextChunk | LeaveLoop(chunkError: bool)
  datatype WriteOutcome = WroteChunk | RetryChunk | SplitChunk | FatalWrite

  /**
  The step with the objects it drives.  `reader` is the cursor reader with the contexts it writes to, `db` the target
  database, `repository` what the job repository stores; `chunk` holds itemsToWrite, currentChunkReadCount and isEOF,
  `counters` the loop's own counts and the statistics of the StepExecution.
  */
  class ChunkStep {
    const c: Config
    const env: nat -> Answer

    var reader: Cursor
    var db: Database
    var repository: Disk
    var chunk: Chunk
    var counters: Counters
    // the number of outside calls made
    var clock: nat

    // the point of the code that has been reached, history, and the machine this execution is compared with
    ghost var phase: Phase
    ghost var h: History
    ghost var t: Tally
    ghost var origin: State
    ghost var first: nat
    ghost var machine: State

    ghost function View(): State
      reads this
    {
      State(phase, reader, chunk, counters, db, repository, h, t)
    }

    /** `machine` is the state that the machine has reached after the calls made so far. */
    ghost predicate Sound()
      reads `machine, `origin, `first, `clock
      ensures Sound() ==> first <= clock && Rank(c, machine) >= 0
    {
      && first <= clock && machine == Execution(c, origin, env, first, clock)
      && Transactional(machine) && Bounded(c, machine) && Rank(c, machine) >= 0
    }

    ghost predicate Valid()
      reads this
    {
      Sound() && machine == View()
    }

    /** Control stands before the test of the chunk's read loop. */
    ghost predicate BeforeNext()
      reads this
    {
      Sound() && machine == NextItem(c, View())
    }

    /** Control stands behind the chunk's read loop. */
    ghost predicate BehindReads()
      reads this
    {
      Sound() && machine == EndRead(View())
    }

    /** What every method leaves alone. */
    twostate predicate Frame()
      reads `origin, `first, `clock
    {
      origin == old(origin) && first == old(first) && old(clock) <= clock
    }

    /** One call to the outside world. */
    method Ask() returns (a: Answer)
      requires Sound()
      modifies `clock, `machine
      ensures clock == old(clock) + 1 && a == env(old(clock)) && Sound()
      ensures machine == Step(c, old(machine), a)
      ensures Running(old(machine)) && (old(machine).phase.Writing? ==> !RetriesWrite(c, a)) ==>
                Rank(c, machine) < Rank(c, old(machine))
    {
      hide Transactional, Bounded, Rank, Step;
      ghost var s := machine;
      a := env(clock);
      clock, machine := clock + 1, Step(c, s, a);
      TransactionalStep(c, s, a);
      if s.phase.Writing? && RetriesWrite(c, a) {
        RetryBounded(c, s, a);
        PhaseStep(c, s, a);
      } else if Running(s) {
        StepLowersRank(c, s, a);
      } else {
        StoppedStays(c, s, a);
      }
      RankNonNegative(c, machine);
    }

    constructor (c: Config, env: nat -> Answer)
      ensures Valid() && View() == FRESH && Reachable(c, View()) && this.c == c && this.env == env && clock == 0
    {
      this.c, this.env := c, env;
      reader, db := FRESH.r, FRESH.db;
      repository, chunk, counters, clock := FRESH.disk, EMPTY_CHUNK, FRESH.n, 0;
      phase, h, t := Down, FRESH.h, FRESH.t;
      origin, first, machine := FRESH, 0, FRESH;
      new;
      assert Run(c, FRESH, []) == FRESH;
    }

    // ---------- Reading ----------

    /** A failing Read: retry, skip, or end the execution. */
    method ReadFailed(a: Answer, readAttempts: nat) returns (retry: bool, outcome: ReadOutcome)
      requires Sound() && phase == Reading(readAttempts)
      requires machine == ReadError(c, View(), reader, h, readAttempts, a)
      modifies `counters, `phase, `t
      ensures Frame() && !outcome.Got? && !outcome.EndOfData?
      ensures retry ==> Valid() && phase == Reading(readAttempts + 1)
      ensures !retry && outcome.SkippedRead? ==> BeforeNext()
      ensures !retry && outcome.FatalRead? ==> Valid() && phase == Closing(true)
    {
      hide Sound, NextItem;
      t := t.(readCalls := t.readCalls + 1);
      retry, outcome := false, FatalRead;
      if a.retryable && readAttempts < c.maxAttempts {
        if a.cancelled {
          phase, t := Closing(true), t.(slots := t.slots + 1);
        } else {
          retry, phase := true, Reading(readAttempts + 1);
        }
      } else if a.skippable && counters.step.skipRead < c.skipLimit {
        counters := counters.(step := counters.step.(skipRead := counters.step.skipRead + 1));
        t := t.(slots := t.slots + 1);
        outcome := SkippedRead;
      } else {
        phase, t := Closing(true), t.(slots := t.slots + 1);
      }
    }

    /** The read retry loop: one item, the end, a skip or the end of the execution. */
    method ReadItem() returns (outcome: ReadOutcome)
      requires Valid() && phase == Reading(0)
      modifies this
      ensures Frame()
      ensures match outcome
              case Got => Valid() && phase == Processing(0)
              case EndOfData => chunk.eof && BehindReads()
              case SkippedRead => BeforeNext()
              case FatalRead => Valid() && phase == Closing(true)
      ensures Rank(c, machine) < Rank(c, old(machine))
    {
      hide Sound, Rank, Step, NextItem, EndRead, ReadError;
      var readAttempts := 0;
      while true
        invariant Valid() && phase == Reading(readAttempts) && Frame()
        invariant Rank(c, machine) <= Rank(c, old(machine))
        decreases Rank(c, machine)
      {
        ghost var s := View();
        var a := Ask();
        PhaseStep(c, s, a);
        if a.ok && reader.next >= |c.source| {
          chunk := chunk.(eof := true);
          t := t.(slots := t.slots + 1, eofs := t.eofs + 1, readCalls := t.readCalls + 1);
          return EndOfData;
        }
        if a.ok && c.source[reader.next].Item? {
          reader := Advance(reader);
          counters := counters.(read := counters.read + 1);
          chunk := chunk.(taken := chunk.taken + 1);
          t := t.(delivered := t.delivered + 1, slots := t.slots + 1, readCalls := t.readCalls + 1);
          phase := Processing(0);
          return Got;
        }
        if a.ok {
          reader := reader.(next := reader.next + 1);
          h := Pend(h, Undelivered);
        }
        ReadErrorReplaces(c, s, reader, h, readAttempts, a);
        var retry;
        retry, outcome := ReadFailed(a, readAttempts);
        if !retry {
          return;
        }
        readAttempts := readAttempts + 1;
      }
    }

    // ---------- Processing ----------

    /** A failing Process: retry, skip, or end the execution. */
    method ProcessFailed(a: Answer, processAttempts: nat) returns (retry: bool, fatal: bool)
      requires Sound() && phase == Processing(processAttempts) && !a.ok
      requires machine == OnProcess(c, View(), processAttempts, a)
      modifies `counters, `phase, `t, `h, `db
      ensures Frame()
      ensures retry ==> Valid() && phase == Processing(processAttempts + 1)
      ensures !retry ==> if fatal then Valid() && phase == Closing(true) else BeforeNext()
    {
      hide Sound, NextItem, Processed;
      t := t.(processCalls := t.processCalls + 1);
      retry, fatal := false, false;
      if a.retryable && processAttempts < c.maxAttempts {
        retry, fatal := !a.cancelled, a.cancelled;
        phase := if a.cancelled then Closing(true) else Processing(processAttempts + 1);
      } else if a.skippable && counters.step.skipProcess < c.skipLimit {
        var step := counters.step;
        counters := counters.(step := step.(skipProcess := step.skipProcess + 1, filter := step.filter + 1));
        h := Pend(h, Skipped);
      } else {
        db := db.Rollback();
        fatal, phase := true, Closing(true);
      }
    }

    /** The process retry loop for the item read last; a nil result is filtered. */
    method ProcessItem() returns (fatal: bool)
      requires Valid() && phase == Processing(0)
      modifies this
      ensures Frame()
      ensures if fatal then Valid() && phase == Closing(true) else BeforeNext()
      ensures Rank(c, machine) <= Rank(c, old(machine))
    {
      hide Sound, Rank, Step, NextItem;
      var processAttempts := 0;
      while true
        invariant Valid() && phase == Processing(processAttempts) && Frame()
        invariant Rank(c, machine) <= Rank(c, old(machine))
        decreases Rank(c, machine)
      {
        ghost var s := View();
        var a := Ask();
        PhaseStep(c, s, a);
        if a.ok {
          t := t.(processCalls := t.processCalls + 1);
          var processedItem := if 0 < reader.next <= |c.source| && c.source[reader.next - 1].Item?
                               then c.source[reader.next - 1].result else None;
          if processedItem.Some? {
            chunk := chunk.(items := chunk.items + [processedItem.value]);
            h := Pend(h, Queued(processedItem.value));
          } else {
            counters := counters.(step := counters.step.(filter := counters.step.filter + 1));
            h := Pend(h, Filtered);
          }
          return false;
        }
        var retry;
        retry, fatal := ProcessFailed(a, processAttempts);
        if !retry {
          return;
        }
        processAttempts := processAttempts + 1;
      }
    }

    /** The read and process loop of one chunk. */
    method FillChunk() returns (fatal: bool)
      requires BeforeNext()
      modifies this
      ensures Frame()
      ensures if fatal then Valid() && phase == Closing(true) else BehindReads()
      ensures Rank(c, machine) <= Rank(c, old(machine))
    {
      hide Sound, Rank, EndRead;
      while chunk.taken < c.chunkSize
        invariant BeforeNext() && Frame() && Rank(c, machine) <= Rank(c, old(machine))
        decreases Rank(c, machine)
      {
        phase := Reading(0);
        var outcome := ReadItem();
        match outcome {
          case Got =>
            fatal := ProcessItem();
            if fatal {
              return;
            }
          case EndOfData =>
            return false;
          case SkippedRead =>
          case FatalRead =>
            return true;
        }
      }
      fatal := false;
    }

    // ---------- Writing ----------

    /** A failing Write: roll back, then retry from the head of the loop, split the chunk, or end the execution. */
    method WriteFailed(a: Answer) returns (outcome: WriteOutcome)
      requires Sound() && phase == Writing && !a.ok && machine == OnWrite(c, View(), a)
      modifies `counters, `phase, `t, `h, `db, `reader, `chunk
      ensures match outcome
              case RetryChunk => Valid() && phase == Top && RetriesWrite(c, a)
              case SplitChunk => Valid() && phase == SplitTop && chunk == old(chunk) && !RetriesWrite(c, a)
              case FatalWrite => Valid() && phase == Closing(true)
              case WroteChunk => false
    {
      hide Sound, Reopen;
      db := db.Write(chunk.items[..Min(a.staged, |chunk.items|)]).Rollback();
      if a.transient && 0 < c.maxAttempts {
        counters := RolledBack(counters);
        reader := Reopen(c, reader);
        t := t.(requeued := t.requeued + |chunk.items|, astray := t.astray || reader.next != Edge(h));
        h := GoneBack(h, reader);
        chunk := EMPTY_CHUNK;
        phase := if a.cancelled then Closing(true) else Top;
        return if a.cancelled then FatalWrite else RetryChunk;
      }
      if a.skippable && counters.step.skipWrite < c.skipLimit {
        counters := RolledBack(SkippedWrite(counters));
        t := t.(splits := t.splits + 1, current := false);
        phase := SplitTop;
        return SplitChunk;
      }
      phase := Closing(true);
      return FatalWrite;
    }

    /** Write: the chunk is written, retried from the head of the loop, split, or the execution ends. */
    method WriteChunk() returns (outcome: WriteOutcome)
      requires Valid() && phase == Writing
      modifies this
      ensures Frame() && old(clock) < clock
      ensures match outcome
              case WroteChunk => Valid() && phase == Committing
              case RetryChunk => Valid() && phase == Top && RetriesWrite(c, env(old(clock)))
              case SplitChunk => Valid() && phase == SplitTop && chunk == old(chunk)
              case FatalWrite => Valid() && phase == Closing(true)
      ensures !RetriesWrite(c, env(old(clock))) ==> Rank(c, machine) < Rank(c, old(machine))
    {
      hide Sound, Rank, Step;
      ghost var s := View();
      var a := Ask();
      PhaseStep(c, s, a);
      if a.ok {
        db := db.Write(chunk.items);
        counters := counters.(write := counters.write + |chunk.items|);
        phase := Committing;
        return WroteChunk;
      }
      outcome := WriteFailed(a);
    }

    /** Commit, then the update hook of the reader, which stores its count in StepExecution.ExecutionContext. */
    method CommitChunk() returns (fatal: bool)
      requires Valid() && phase == Committing
      modifies this
      ensures Frame() && Valid() && phase == if fatal then Closing(true) else Saving
      ensures Rank(c, machine) < Rank(c, old(machine))
    {
      hide Sound, Rank, Step, SettleChunk;
      ghost var s := View();
      var a := Ask();
      PhaseStep(c, s, a);
      db := db.Commit(a.ok || a.applied);
      if !a.ok {
        h := if a.applied then SettleChunk(h) else h;
        phase := Closing(true);
        return true;
      }
      h, chunk := SettleChunk(h), chunk.(items := []);
      counters := counters.(commit := counters.commit + 1);
      reader := reader.(context := Some(reader.count));
      t := t.(current := true);
      phase := Saving;
      return false;
    }

    /** saveCheckpoint: the reader's entry with the writer's merged over it, and the statistics. */
    method SaveCheckpoint() returns (fatal: bool)
      requires Valid() && phase == Saving
      modifies this
      ensures Frame() && Valid() && chunk == old(chunk)
      ensures phase == if fatal then Closing(true) else if chunk.eof then Closing(false) else Top
      ensures Rank(c, machine) < Rank(c, old(machine))
    {
      hide Sound, Rank, Step;
      ghost var s := View();
      var a := Ask();
      PhaseStep(c, s, a);
      var currentEC := if reader.aliased then reader.context else reader.key;
      if reader.key.Some? {
        currentEC := reader.key;
      }
      if currentEC.Some? && (a.ok || a.applied) {
        repository := repository.(saved := Some(Checkpoint(currentEC.value, counters.read, counters.write)));
      }
      if !a.ok {
        phase := Closing(true);
        return true;
      }
      phase := if chunk.eof then Closing(false) else Top;
      return false;
    }

    // ---------- Chunk splitting ----------

    /** The single-item Write: written, skipped, or the end of the execution. */
    method WriteSplitItem() returns (written: bool, fatal: bool)
      requires Valid() && phase == SplitWriting && chunk.items != []
      modifies this
      ensures Frame()
      ensures written ==> !fatal && Valid() && phase == SplitCommitting && chunk == old(chunk)
      ensures fatal ==> Valid() && phase == Closing(true)
      ensures !written && !fatal ==> Sound() && machine == SplitNext(View()) && chunk == Rest(old(chunk))
      ensures Rank(c, machine) < Rank(c, old(machine))
    {
      hide Sound, Rank, Step, SettleHead, SplitNext;
      ghost var s := View();
      var a := Ask();
      PhaseStep(c, s, a);
      var item := chunk.items[0];
      if a.ok {
        db, phase := db.Write([item]), SplitCommitting;
        return true, false;
      }
      db := db.Write(if a.staged == 0 then [] else [item]).Rollback();
      if a.skippable && counters.step.skipWrite < c.skipLimit {
        counters := SkippedWrite(counters);
        h, t := SettleHead(h, Dropped(item)), t.(dropped := t.dropped + 1);
        chunk := chunk.(items := chunk.items[1..]);
        return false, false;
      }
      phase := Closing(true);
      return false, true;
    }

    method CommitSplitItem() returns (fatal: bool)
      requires Valid() && phase == SplitCommitting && chunk.items != []
      modifies this
      ensures Frame()
      ensures if fatal then Valid() && phase == Closing(true)
              else Sound() && machine == SplitNext(View()) && chunk == Rest(old(chunk))
      ensures Rank(c, machine) < Rank(c, old(machine))
    {
      hide Sound, Rank, Step, SettleHead, SplitNext;
      ghost var s := View();
      var a := Ask();
      PhaseStep(c, s, a);
      var item := chunk.items[0];
      if !a.ok {
        db := db.Commit(a.applied).Rollback();
        h := if a.applied then SettleHead(h, Written(item)) else h;
        phase := Closing(true);
        return true;
      }
      db := db.Commit(true);
      counters := counters.(step := counters.step.(write := counters.step.write + 1));
      h, t := SettleHead(h, Written(item)), t.(splitWritten := t.splitWritten + 1);
      chunk := chunk.(items := chunk.items[1..]);
      return false;
    }

    /** HandleSkippableWriteFailure: every item in a transaction of its own. */
    method HandleSkippableWriteFailure() returns (fatal: bool)
      requires Valid() && phase == SplitTop && chunk.items != []
      modifies this
      ensures Frame() && Valid() && phase == if fatal then Closing(true) else Top
      ensures Rank(c, machine) <= Rank(c, old(machine))
    {
      hide Sound, Rank, Step, Settle;
      while chunk.items != []
        invariant Frame() && Sound() && Rank(c, machine) <= Rank(c, old(machine))
        invariant machine == SplitNext(View())
        decreases |chunk.items|
      {
        phase := SplitTop;
        ghost var s := View();
        var a := Ask();
        PhaseStep(c, s, a);
        if !a.ok {
          phase := Closing(true);
          return true;
        }
        db, phase := db.Begin(), SplitWriting;
        var written;
        written, fatal := WriteSplitItem();
        if written {
          fatal := CommitSplitItem();
        }
        if fatal {
          return;
        }
      }
      h, phase := Settle(h, h.pending, []), Top;
      fatal := false;
    }

    // ---------- The chunk loop ----------

    /** Behind the read loop: an empty chunk ends the loop, a chunk with items is written, any other chunk is committed. */
    method WriteAndCommit() returns (outcome: LoopOutcome)
      requires BehindReads()
      modifies this
      ensures Frame() && Valid()
      ensures phase == if outcome.NextChunk? then Top else Closing(outcome.chunkError)
      ensures Rank(c, machine) <= Rank(c, old(machine))
              || exists i :: old(clock) <= i < clock && RetriesWrite(c, env(i))
    {
      hide Sound, Rank, Step, Settle;
      if chunk.taken == 0 && chunk.items == [] {
        h, db, phase := Settle(h, h.pending, []), db.Rollback(), Closing(false);
        return LeaveLoop(false);
      }
      if chunk.items != [] {
        phase := Writing;
        var wrote := WriteChunk();
        match wrote {
          case RetryChunk =>
            return NextChunk;
          case FatalWrite =>
            return LeaveLoop(true);
          case SplitChunk =>
            var fatal := HandleSkippableWriteFailure();
            return if fatal then LeaveLoop(true) else NextChunk;
          case WroteChunk =>
        }
      } else {
        phase := Committing;
      }
      var fatal := CommitChunk();
      if fatal {
        return LeaveLoop(true);
      }
      fatal := SaveCheckpoint();
      return if fatal then LeaveLoop(true) else if chunk.eof then LeaveLoop(false) else NextChunk;
    }

    /** One pass of the chunk loop. */
    method RunChunk() returns (outcome: LoopOutcome)
      requires Valid() && phase == Top
      modifies this
      ensures Frame() && Valid() && old(clock) < clock
      ensures phase == if outcome.NextChunk? then Top else Closing(outcome.chunkError)
      ensures Rank(c, machine) < Rank(c, old(machine))
              || exists i :: old(clock) <= i < clock && RetriesWrite(c, env(i))
    {
      hide Sound, Rank, Step, NextItem, EndRead;
      ghost var s := View();
      var begun := Ask();
      PhaseStep(c, s, begun);
      if !begun.ok {
        phase := Closing(true);
        return LeaveLoop(true);
      }
      db, chunk := db.Begin(), EMPTY_CHUNK;
      var fatal := FillChunk();
      if fatal {
        return LeaveLoop(true);
      }
      outcome := WriteAndCommit();
    }

    /** Finalization: statistics, closing reader and writer, final status, last update of the StepExecution. */
    method FinishExecution(chunkError: bool) returns (failed: bool)
      requires Valid() && phase == Closing(chunkError)
      modifies this
      ensures Frame() && Valid() && phase == Done(failed) && (chunkError ==> failed)
    {
      hide Sound, Rank, Step;
      ghost var s := View();
      var a := Ask();
      PhaseStep(c, s, a);
      var step := counters.step.(read := counters.read, write := counters.write, commit := counters.commit);
      counters := counters.(step := step);
      var finalStepEC := if reader.key.Some? then reader.key else if reader.aliased then reader.context else None;
      reader := reader.(context := finalStepEC);
      if a.applied {
        repository := repository.(stored := Stored(step, finalStepEC));
      }
      failed := chunkError || !a.ok;
      phase := Done(failed);
    }

    /** Up to the chunk loop: store the StepExecution, load the checkpoint, open the reader. */
    method LoadCheckpoint()
      modifies this
      ensures View() == Start(c, old(View())) && clock == old(clock)
    {
      hide EmptyTally;
      repository := repository.(stored := Stored(counters.step, reader.context));
      var stats, position, key := counters.step, 0, None;
      if repository.saved.Some? {
        var checkpoint := repository.saved.value;
        position, key := checkpoint.position, Some(checkpoint.position);
        stats := stats.(read := checkpoint.read, write := checkpoint.write);
      }
      reader := Cursor(Min(position, |c.source|), position, key, reader.context, false);
      counters := Counters(stats.read, stats.write, stats.commit, stats);
      // an execution finds no transaction left over by an earlier one
      chunk, db := EMPTY_CHUNK, db.Rollback();
      h, t := History(reader.next, [], [], db.committed, h.past, h.retried, h.misplaced), EmptyTally(stats);
      phase := Top;
    }

    method BeginExecution()
      requires Valid() && (phase == Down || phase == Done(true))
      modifies this
      ensures Valid() && View() == Start(c, old(View())) && phase == Top
      ensures origin == Start(c, old(View())) && first == old(clock) && clock == old(clock)
    {
      hide Transactional, Bounded, Rank, Step, EmptyTally;
      ghost var s := View();
      StartIsSound(c, s);
      LoadCheckpoint();
      origin, first, machine := View(), clock, View();
    }

    /**
    The step is executed: the state it ends in is the machine's, call by call, and it does end, for every environment
    in which only finitely many calls (those before `horizon`) can answer with a retryable write error.
    A completed execution whose write retries went back has settled every record from its start and appended exactly the
    processed forms of the written ones.
    */
    method Execute(ghost horizon: nat) returns (failed: bool)
      requires Valid() && (phase == Down || phase == Done(true))
      requires NoWriteRetryFrom(env, horizon)
      modifies this
      ensures Valid() && phase == Done(failed) && old(clock) <= clock
      ensures View() == Execution(c, Start(c, old(View())), env, old(clock), clock)
      ensures Reachable(c, old(View())) ==> Reachable(c, View())
      ensures Reachable(c, old(View())) && !failed && !h.misplaced && c.chunkSize > 0 ==>
                && h.start + |h.settled| == |c.source| && AllTruthful(c, h.start, h.settled)
                && db.committed == old(db.committed) + WrittenRows(h.settled)
    {
      hide Rank, Step, Transactional, Bounded, AllTruthful;
      ghost var s := View();
      BeginExecution();
      var outcome := NextChunk;
      while outcome.NextChunk?
        invariant Valid() && origin == Start(c, s) && first == old(clock) <= clock
        invariant phase == if outcome.NextChunk? then Top else Closing(outcome.chunkError)
        decreases outcome.NextChunk?, if clock < horizon then horizon - clock else 0, Rank(c, machine)
      {
        outcome := RunChunk();
      }
      failed := FinishExecution(outcome.chunkError);
      if Reachable(c, s) {
        ReachableApply(c, s, Starts);
        ExecutionReachable(c, origin, env, first, clock);
        ExecutionKeepsBase(c, origin, env, first, clock);
        if !failed && !h.misplaced && c.chunkSize > 0 {
          CompletedExecution(c, View());
        }
      }
    }
  }
}
