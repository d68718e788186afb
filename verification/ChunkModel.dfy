/**
The chunk engine as a state machine.  One `Step` is one call that `ChunkStep.Execute` makes to the
outside world (reader, processor, writer, transaction manager, repository) together with the code up
to the next such call.  What the outside world answers is an `Answer`; nothing is assumed about it.
Between any two steps the process may crash, and a crashed or failed execution may be started again.
*/
module ChunkModel {
  import opened Options
  import opened Upsert

  /** A source record: one the reader's mapper rejects, or an item with the processor's result (None is a nil result). */
  datatype Record = Malformed | Item(result: Option<Row>)

  datatype Config = Config(source: seq<Record>, chunkSize: int, maxAttempts: nat, skipLimit: nat)

  /**
  The answer to one outside call.
  ok: the call succeeded.  retryable/skippable: how the policies classify the error.
  transient: a Write error is a retryable BatchError.  cancelled: the backoff wait was cancelled.
  applied: a failing Commit or save took effect nevertheless; for the last call, the final update was persisted.
  staged: how many rows a failing Write had already put into the transaction.
  */
  datatype Answer = Answer(ok: bool, retryable: bool, skippable: bool, transient: bool, cancelled: bool,
                           applied: bool, staged: nat)

  /** What became of one source record of this execution. */
  datatype Fate = Undelivered | Filtered | Skipped | Queued(row: Row) | Written(row: Row) | Dropped(row: Row)

  datatype Phase =
    | Down                      // no execution is running
    | Top                       // head of the chunk loop
    | Reading(attempts: nat)
    | Processing(attempts: nat)
    | Writing
    | Committing
    | Saving                    // committed, checkpoint not saved yet
    | SplitTop                  // chunk splitting, before the next single-item transaction
    | SplitWriting
    | SplitCommitting
    | Closing(failed: bool)
    | Done(failed: bool)

  datatype Tx = Tx(rows: seq<Row>, attempted: bool)

  /**
  The target database.  `sound` turns false, for good, if a transaction is begun while another one is
  open or if a Write or Commit finds no open transaction.
  */
  datatype Database = Database(open: Option<Tx>, committed: seq<Row>, sound: bool) {
    function Begin(): Database {
      this.(open := Some(Tx([], false)), sound := sound && open.None?)
    }
    function Write(rows: seq<Row>): Database {
      if open.None? then this.(sound := false)
      else this.(open := Some(Tx(open.value.rows + rows, true)))
    }
    function Commit(applied: bool): Database {
      if open.None? then this.(sound := false)
      else this.(open := None, committed := if applied then committed + open.value.rows else committed)
    }
    function Rollback(): Database {
      this.(open := None)
    }
  }

  datatype Stats = Stats(read: nat, write: nat, commit: nat, rollback: nat, filter: nat,
                         skipRead: nat, skipProcess: nat, skipWrite: nat)

  datatype Checkpoint = Checkpoint(position: nat, read: nat, write: nat)

  /** The stored StepExecution: its statistics and the reader's entry in its ExecutionContext. */
  datatype Stored = Stored(stats: Stats, context: Option<nat>)

  /** The cursor reader, and the contexts its read count is kept in. */
  datatype Cursor = Cursor(
    next: nat,               // next record of the open source
    count: nat,              // the reader's own read count
    key: Option<nat>,        // the reader's entry in the map it was opened with, which the writer shares
    context: Option<nat>,    // the reader's entry in StepExecution.ExecutionContext
    aliased: bool)           // the reader was reopened on StepExecution.ExecutionContext

  datatype Chunk = Chunk(items: seq<Row>, taken: nat, eof: bool)

  /** The loop's own counters, and the statistics on the StepExecution. */
  datatype Counters = Counters(read: nat, write: nat, commit: nat, step: Stats)

  /** What survives a crash besides the target database. */
  datatype Disk = Disk(saved: Option<Checkpoint>, stored: Stored)

  /** History of the fates of records, for stating properties; no step depends on it. */
  datatype History = History(
    start: nat,              // record at which this execution resumed
    settled: seq<Fate>,      // fates of the records from start on, decided for good
    pending: seq<Fate>,      // fates of the records of the chunk in progress
    base: seq<Row>,          // committed rows when this execution started
    past: nat,               // every record before this one was settled by this or an earlier execution
    retried: bool,           // some execution took the write-retry branch
    misplaced: bool)         // and the reader did not go back to the first record of the chunk

  /** History counts of one execution, for stating properties; no step depends on them. */
  datatype Tally = Tally(
    base: Stats,             // statistics when this execution started
    delivered: nat,          // successful reads
    splits: nat,             // chunks sent to splitting
    splitWritten: nat,       // items committed by splitting
    dropped: nat,            // items dropped by splitting
    requeued: nat,           // queued items given up by write retries
    readCalls: nat,
    slots: nat,              // finished series of read attempts
    eofs: nat,
    processCalls: nat,
    astray: bool,            // a write retry did not go back to the first record of its chunk
    current: bool)           // the last chunk settled was committed as a whole

  datatype State = State(phase: Phase, r: Cursor, k: Chunk, n: Counters, db: Database, disk: Disk,
                         h: History, t: Tally)

  const NO_STATS := Stats(0, 0, 0, 0, 0, 0, 0, 0)
  const EMPTY_CHUNK := Chunk([], 0, false)

  function EmptyTally(base: Stats): Tally {
    Tally(base, 0, 0, 0, 0, 0, 0, 0, 0, 0, false, false)
  }

  /** A step that has never been executed. */
  const FRESH := State(Down, Cursor(0, 0, None, None, false), EMPTY_CHUNK, Counters(0, 0, 0, NO_STATS),
                       Database(None, [], true), Disk(None, Stored(NO_STATS, None)),
                       History(0, [], [], [], 0, false, false), EmptyTally(NO_STATS))

  function QueuedRows(fs: seq<Fate>): seq<Row> {
    if fs == [] then [] else (if fs[0].Queued? then [fs[0].row] else []) + QueuedRows(fs[1..])
  }

  function WrittenRows(fs: seq<Fate>): seq<Row> {
    if fs == [] then [] else (if fs[0].Written? then [fs[0].row] else []) + WrittenRows(fs[1..])
  }

  function Commit1(f: Fate): Fate {
    if f.Queued? then Written(f.row) else f
  }

  function MarkWritten(fs: seq<Fate>): seq<Fate> {
    seq(|fs|, i requires 0 <= i < |fs| => Commit1(fs[i]))
  }

  /** The first record of this execution that is not settled. */
  function Edge(h: History): nat {
    h.start + |h.settled|
  }

  /** Index of the first queued record, or the length if there is none. */
  function FirstQueued(fs: seq<Fate>): nat {
    if fs == [] || fs[0].Queued? then 0 else 1 + FirstQueued(fs[1..])
  }

  /** `past` records are settled; now those in [from, to) are as well. */
  function Extend(past: nat, from: nat, to: nat): nat {
    if from <= past < to then to else past
  }

  function Min(a: int, b: int): int {
    if a < b then a else b
  }

  /** The fates `fs` are final, `rest` is still open. */
  function Settle(h: History, fs: seq<Fate>, rest: seq<Fate>): History {
    var from := Edge(h);
    h.(settled := h.settled + fs, pending := rest, past := Extend(h.past, from, from + |fs|))
  }

  function Pend(h: History, f: Fate): History {
    h.(pending := h.pending + [f])
  }

  function EndRead(s: State): State {
    if s.k.taken == 0 && s.k.items == [] then
      s.(h := Settle(s.h, s.h.pending, []), db := s.db.Rollback(), phase := Closing(false))
    else s.(phase := if s.k.items != [] then Writing else Committing)
  }

  function NextItem(c: Config, s: State): State {
    if s.k.taken < c.chunkSize then s.(phase := Reading(0)) else EndRead(s)
  }

  function OnTop(c: Config, s: State, a: Answer): State {
    if !a.ok then s.(phase := Closing(true))
    else NextItem(c, s.(db := s.db.Begin(), k := EMPTY_CHUNK))
  }

  /** The cursor readers store their read count on every delivered item, in the map they were opened with. */
  function Advance(r: Cursor): Cursor {
    var n := r.count + 1;
    Cursor(r.next + 1, n, if r.aliased then r.key else Some(n), if r.aliased then Some(n) else r.context, r.aliased)
  }

  function Deliver(s: State): State {
    s.(r := Advance(s.r), n := s.n.(read := s.n.read + 1), k := s.k.(taken := s.k.taken + 1), phase := Processing(0),
       t := s.t.(delivered := s.t.delivered + 1, slots := s.t.slots + 1, readCalls := s.t.readCalls + 1))
  }

  function EndOfSource(s: State): State {
    EndRead(s.(k := s.k.(eof := true),
               t := s.t.(slots := s.t.slots + 1, eofs := s.t.eofs + 1, readCalls := s.t.readCalls + 1)))
  }

  /** `r` and `h` are the cursor and the history after the failing read. */
  function ReadError(c: Config, s: State, r: Cursor, h: History, attempts: nat, a: Answer): State {
    var t := s.t.(readCalls := s.t.readCalls + 1);
    var u := t.(slots := t.slots + 1);
    if a.retryable && attempts < c.maxAttempts then
      if a.cancelled then s.(r := r, h := h, t := u, phase := Closing(true))
      else s.(r := r, h := h, t := t, phase := Reading(attempts + 1))
    else if a.skippable && s.n.step.skipRead < c.skipLimit then
      NextItem(c, s.(r := r, h := h, t := u, n := s.n.(step := s.n.step.(skipRead := s.n.step.skipRead + 1))))
    else s.(r := r, h := h, t := u, phase := Closing(true))
  }

  function OnRead(c: Config, s: State, attempts: nat, a: Answer): State {
    if !a.ok then ReadError(c, s, s.r, s.h, attempts, a)
    else if s.r.next >= |c.source| then EndOfSource(s)
    else if c.source[s.r.next].Item? then Deliver(s)
    else ReadError(c, s, s.r.(next := s.r.next + 1), Pend(s.h, Undelivered), attempts, a)
  }

  /** What the processor answers for the item read last. */
  function Result(c: Config, s: State): Option<Row> {
    if 0 < s.r.next <= |c.source| && c.source[s.r.next - 1].Item? then c.source[s.r.next - 1].result else None
  }

  function Processed(c: Config, s: State, t: Tally): State {
    match Result(c, s)
    case Some(row) =>
      NextItem(c, s.(k := s.k.(items := s.k.items + [row]), h := Pend(s.h, Queued(row)), t := t))
    case None =>
      NextItem(c, s.(n := s.n.(step := s.n.step.(filter := s.n.step.filter + 1)), h := Pend(s.h, Filtered), t := t))
  }

  function OnProcess(c: Config, s: State, attempts: nat, a: Answer): State {
    var t := s.t.(processCalls := s.t.processCalls + 1);
    if a.ok then Processed(c, s, t)
    else if a.retryable && attempts < c.maxAttempts then
      s.(t := t, phase := if a.cancelled then Closing(true) else Processing(attempts + 1))
    else if a.skippable && s.n.step.skipProcess < c.skipLimit then
      var step := s.n.step.(skipProcess := s.n.step.skipProcess + 1, filter := s.n.step.filter + 1);
      NextItem(c, s.(n := s.n.(step := step), h := Pend(s.h, Skipped), t := t))
    else s.(t := t, db := s.db.Rollback(), phase := Closing(true))
  }

  /** The write-retry branch reopens the reader at the entry of StepExecution.ExecutionContext. */
  function Reopen(c: Config, r: Cursor): Cursor {
    var at := r.context.Or(0);
    r.(next := Min(at, |c.source|), count := at, aliased := true)
  }

  /** The chunk in progress is given up for a write retry with the cursor `r`. */
  function GoneBack(h: History, r: Cursor): History {
    h.(pending := [], retried := true, misplaced := h.misplaced || r.next != Edge(h))
  }

  predicate RetriesWrite(c: Config, a: Answer) {
    !a.ok && a.transient && 0 < c.maxAttempts
  }

  function RolledBack(n: Counters): Counters {
    n.(step := n.step.(rollback := n.step.rollback + 1))
  }

  function SkippedWrite(n: Counters): Counters {
    n.(step := n.step.(skipWrite := n.step.skipWrite + 1))
  }

  function OnWrite(c: Config, s: State, a: Answer): State {
    if a.ok then
      s.(db := s.db.Write(s.k.items), n := s.n.(write := s.n.write + |s.k.items|), phase := Committing)
    else
      var db := s.db.Write(s.k.items[..Min(a.staged, |s.k.items|)]).Rollback();
      if RetriesWrite(c, a) then
        var r := Reopen(c, s.r);
        s.(db := db, r := r, n := RolledBack(s.n), k := EMPTY_CHUNK,
           h := GoneBack(s.h, r), t := s.t.(requeued := s.t.requeued + |s.k.items|, astray := s.t.astray || r.next != Edge(s.h)),
           phase := if a.cancelled then Closing(true) else Top)
      else if a.skippable && s.n.step.skipWrite < c.skipLimit then
        s.(db := db, n := RolledBack(SkippedWrite(s.n)), t := s.t.(splits := s.t.splits + 1, current := false), phase := SplitTop)
      else s.(db := db, phase := Closing(true))
  }

  /** The whole chunk has been committed. */
  function SettleChunk(h: History): History {
    Settle(h, MarkWritten(h.pending), [])
  }

  function OnCommit(s: State, a: Answer): State {
    if a.ok then
      s.(db := s.db.Commit(true), h := SettleChunk(s.h), k := s.k.(items := []), n := s.n.(commit := s.n.commit + 1),
         r := s.r.(context := Some(s.r.count)), t := s.t.(current := true), phase := Saving)
    else
      s.(db := s.db.Commit(a.applied), h := if a.applied then SettleChunk(s.h) else s.h, phase := Closing(true))
  }

  /** The reader's entry in the context that is saved: the writer's map is merged over the reader's. */
  function MergedKey(r: Cursor): Option<nat> {
    if r.key.Some? then r.key else if r.aliased then r.context else None
  }

  function OnSave(s: State, a: Answer): State {
    var key := MergedKey(s.r);
    var saved := if key.Some? && (a.ok || a.applied) then Some(Checkpoint(key.value, s.n.read, s.n.write)) else s.disk.saved;
    s.(disk := s.disk.(saved := saved), phase := if !a.ok then Closing(true) else if s.k.eof then Closing(false) else Top)
  }

  function SplitNext(s: State): State {
    if s.k.items == [] then s.(h := Settle(s.h, s.h.pending, []), phase := Top) else s.(phase := SplitTop)
  }

  function OnSplitTop(s: State, a: Answer): State {
    if !a.ok then s.(phase := Closing(true)) else s.(db := s.db.Begin(), phase := SplitWriting)
  }

  /** The first queued record of the split chunk is settled as `f`. */
  function SettleHead(h: History, f: Fate): History {
    var i := FirstQueued(h.pending);
    if i < |h.pending| then Settle(h, h.pending[..i] + [f], h.pending[i + 1..]) else h
  }

  function Head(k: Chunk): Row {
    if k.items == [] then Row("", "", "") else k.items[0]
  }

  function Rest(k: Chunk): Chunk {
    k.(items := if k.items == [] then [] else k.items[1..])
  }

  function OnSplitWrite(c: Config, s: State, a: Answer): State {
    if a.ok then s.(db := s.db.Write([Head(s.k)]), phase := SplitCommitting)
    else
      var db := s.db.Write(if a.staged == 0 then [] else [Head(s.k)]).Rollback();
      if a.skippable && s.n.step.skipWrite < c.skipLimit then
        SplitNext(s.(db := db, h := SettleHead(s.h, Dropped(Head(s.k))), k := Rest(s.k), n := SkippedWrite(s.n),
                     t := s.t.(dropped := s.t.dropped + 1)))
      else s.(db := db, phase := Closing(true))
  }

  function OnSplitCommit(s: State, a: Answer): State {
    var h := SettleHead(s.h, Written(Head(s.k)));
    if a.ok then
      SplitNext(s.(db := s.db.Commit(true), h := h, k := Rest(s.k),
                   n := s.n.(step := s.n.step.(write := s.n.step.write + 1)),
                   t := s.t.(splitWritten := s.t.splitWritten + 1)))
    else
      s.(db := s.db.Commit(a.applied).Rollback(), h := if a.applied then h else s.h, phase := Closing(true))
  }

  /** Finalization: statistics, closing the components, final status and the last repository update. */
  function OnClose(s: State, failed: bool, a: Answer): State {
    var stats := s.n.step.(read := s.n.read, write := s.n.write, commit := s.n.commit);
    var context := MergedKey(s.r);
    s.(n := s.n.(step := stats), r := s.r.(context := context), phase := Done(failed || !a.ok),
       disk := if a.applied then s.disk.(stored := Stored(stats, context)) else s.disk)
  }

  /** One outside call of a running execution; nothing happens when none is running. */
  function Step(c: Config, s: State, a: Answer): State {
    match s.phase
    case Down => s
    case Top => OnTop(c, s, a)
    case Reading(k) => OnRead(c, s, k, a)
    case Processing(k) => OnProcess(c, s, k, a)
    case Writing => OnWrite(c, s, a)
    case Committing => OnCommit(s, a)
    case Saving => OnSave(s, a)
    case SplitTop => OnSplitTop(s, a)
    case SplitWriting => OnSplitWrite(c, s, a)
    case SplitCommitting => OnSplitCommit(s, a)
    case Closing(f) => OnClose(s, f, a)
    case Done(_) => s
  }

  /** A crash loses the process: its open transaction, its counters and its in-memory contexts. */
  function Crash(s: State): State {
    s.(phase := Down, db := s.db.Rollback(), n := s.n.(step := s.disk.stored.stats),
       r := s.r.(context := s.disk.stored.context))
  }

  /** Execute up to the chunk loop: store the StepExecution, load the checkpoint, open reader and writer. */
  function Start(c: Config, s: State): State {
    var saved := s.disk.saved;
    var stats := if saved.Some? then s.n.step.(read := saved.value.read, write := saved.value.write) else s.n.step;
    var at := if saved.Some? then saved.value.position else 0;
    var next := Min(at, |c.source|);
    State(Top, Cursor(next, at, if saved.Some? then Some(at) else None, s.r.context, false), EMPTY_CHUNK,
          Counters(stats.read, stats.write, stats.commit, stats), s.db.Rollback(),
          s.disk.(stored := Stored(s.n.step, s.r.context)),
          History(next, [], [], s.db.committed, s.h.past, s.h.retried, s.h.misplaced), EmptyTally(stats))
  }

  datatype Move = Call(answer: Answer) | Crashes | Starts

  /**
  One move of the whole system: an outside call, a crash of the process, during an execution or after a failed one, or an
  execution of a step that is not running and not completed.
  */
  function Apply(c: Config, s: State, m: Move): State {
    match m
    case Call(a) => Step(c, s, a)
    case Crashes => if s.phase == Done(false) then s else Crash(s)
    case Starts => if s.phase == Down || s.phase == Done(true) then Start(c, s) else s
  }

  /** The state after a list of moves. */
  function Run(c: Config, s: State, ms: seq<Move>): State {
    if ms == [] then s else Apply(c, Run(c, s, ms[..|ms| - 1]), ms[|ms| - 1])
  }

  /** Some run of the system leads to the state. */
  ghost predicate Reachable(c: Config, s: State) {
    exists ms :: Run(c, FRESH, ms) == s
  }

  const OK := Answer(true, false, false, false, false, true, 0)

  /** The run that goes on with one move. */
  lemma NextMove(c: Config, ms: seq<Move>, m: Move) returns (longer: seq<Move>)
    ensures longer == ms + [m] && Run(c, FRESH, longer) == Apply(c, Run(c, FRESH, ms), m)
  {
    longer := ms + [m];
    assert longer[..|ms|] == ms && longer[|ms|] == m;
  }
}
