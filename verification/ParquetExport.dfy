/**
The export pipeline: a goroutine reads rows into a bounded channel, another collects them into batches and writes and
flushes each batch. `Do` is one atomic action of one of them, and a schedule is any interleaving.
*/
module ParquetExport {
  import opened Options
  import opened ParquetWriters

  /** `rows` are what the cursor delivers from where it was opened; `bound` is the channel capacity and the batch size. */
  datatype Config = Config(rows: seq<Row>, bound: nat)

  /** `position` rows have been read. */
  datatype Reader = Reading(position: nat) | Sending(position: nat, row: Row) | ReaderDone(failed: bool)

  datatype Phase = Collecting | Writing(final: bool) | Flushing(todo: set<string>, failed: bool, final: bool) | WriterDone(failed: bool)

  /** `filled` are the rows that went into the buffer since it was last cleared; `received` is the history of the channel. */
  datatype Writer = Writer(phase: Phase, batch: seq<Row>, filled: seq<Row>, buffered: Buffer, store: Store, received: seq<Row>)

  /** `reported`: an error is in the error channel. `swallowed`: one was given up because the context was cancelled. */
  datatype Errors = Errors(cancelled: bool, reported: bool, swallowed: bool)

  datatype State = State(reader: Reader, channel: seq<Row>, writer: Writer, errors: Errors)

  /** `report` chooses between the two ready branches of the select that sends an error. */
  datatype Action =
    | ReadRow | ReadEnd | ReadFail(report: bool) | SendRow | CancelRead
    | Receive | SeeClosed | WriteRow(report: bool) | BeginFlush | UploadFile(key: string, outcome: Outcome) | EndFlush(report: bool)
    | Cancel

  const INIT := State(Reading(0), [], Writer(Collecting, [], [], map[], EMPTY, []), Errors(false, false, false))

  predicate CanReport(e: Errors, report: bool) {
    report || e.cancelled
  }

  function Fail(e: Errors, report: bool): Errors {
    if report then e.(reported := true) else e.(swallowed := true)
  }

  predicate Enabled(c: Config, s: State, a: Action) {
    var phase := s.writer.phase;
    match a
    case ReadRow => s.reader.Reading? && s.reader.position < |c.rows|
    case ReadEnd => s.reader.Reading? && s.reader.position >= |c.rows|
    case ReadFail(report) => s.reader.Reading? && CanReport(s.errors, report)
    case SendRow => s.reader.Sending? && |s.channel| < c.bound
    case CancelRead => s.reader.Sending? && s.errors.cancelled
    case Receive => phase.Collecting? && s.channel != []
    case SeeClosed => phase.Collecting? && s.channel == [] && s.reader.ReaderDone?
    case WriteRow(report) => phase.Writing? && |s.writer.filled| < |s.writer.batch| && CanReport(s.errors, report)
    case BeginFlush => phase.Writing? && |s.writer.filled| >= |s.writer.batch|
    case UploadFile(k, _) => phase.Flushing? && k in phase.todo
    case EndFlush(report) => phase.Flushing? && phase.todo == {} && CanReport(s.errors, report)
    case Cancel => true
  }

  function Do(c: Config, s: State, a: Action): State
    requires Enabled(c, s, a)
  {
    match a
    case ReadRow => s.(reader := Sending(s.reader.position + 1, c.rows[s.reader.position]))
    case ReadEnd => s.(reader := ReaderDone(false))
    case ReadFail(report) => s.(reader := ReaderDone(true), errors := Fail(s.errors, report))
    case SendRow => s.(reader := Reading(s.reader.position), channel := s.channel + [s.reader.row])
    case CancelRead => s.(reader := ReaderDone(true), errors := Fail(s.errors, true))
    case Receive => s.(channel := s.channel[1..], writer := TakeRow(c, s.writer, s.channel[0]))
    case SeeClosed => s.(writer := Close(s.writer))
    case WriteRow(report) =>
      if s.writer.batch[|s.writer.filled|].key.None? then
        s.(writer := s.writer.(phase := WriterDone(true)), errors := Fail(s.errors, report))
      else s.(writer := BufferRow(s.writer))
    case BeginFlush => s.(writer := s.writer.(phase := Flushing(s.writer.buffered.Keys, false, s.writer.phase.final), batch := []))
    case UploadFile(k, o) => s.(writer := UploadPart(s.writer, k, o))
    case EndFlush(report) =>
      s.(writer := FinishFlush(s.writer), errors := if s.writer.phase.failed then Fail(s.errors, report) else s.errors)
    case Cancel => s.(errors := s.errors.(cancelled := true))
  }

  function TakeRow(c: Config, w: Writer, row: Row): Writer {
    w.(batch := w.batch + [row], received := w.received + [row],
       phase := if |w.batch| + 1 >= c.bound then Writing(false) else Collecting)
  }

  /** The channel is closed and empty: a last batch is written unless it is empty. */
  function Close(w: Writer): Writer {
    if w.batch == [] then w.(phase := WriterDone(false)) else w.(phase := Writing(true))
  }

  function BufferRow(w: Writer): Writer
    requires |w.filled| < |w.batch| && w.batch[|w.filled|].key.Some?
  {
    var row := w.batch[|w.filled|];
    w.(buffered := Put(w.buffered, row), filled := w.filled + [row])
  }

  function UploadPart(w: Writer, k: string, o: Outcome): Writer
    requires w.phase.Flushing?
  {
    w.(phase := w.phase.(todo := w.phase.todo - {k}, failed := w.phase.failed || !o.Uploaded?),
       store := Upload(w.store, k, RowsOf(w.buffered, k), o))
  }

  function FinishFlush(w: Writer): Writer
    requires w.phase.Flushing?
  {
    w.(buffered := map[], filled := [],
       phase := if w.phase.failed then WriterDone(true) else if w.phase.final then WriterDone(false) else Collecting)
  }

  /** The state after a schedule; an action that is not enabled when its turn comes waits and changes nothing. */
  function After(c: Config, schedule: seq<Action>): State {
    if schedule == [] then INIT
    else
      var t := After(c, schedule[..|schedule| - 1]);
      var a := schedule[|schedule| - 1];
      if Enabled(c, t, a) then Do(c, t, a) else t
  }

  predicate Returned(s: State) {
    s.reader.ReaderDone? && s.writer.phase.WriterDone?
  }

  /** The exit status of a returned export. */
  predicate Completed(s: State) {
    Returned(s) && !s.errors.reported
  }

  // ---------- What every schedule keeps ----------

  function Hand(r: Reader): seq<Row> {
    if r.Sending? then [r.row] else []
  }

  /** The rows that have passed or left the reader are a prefix of the source. */
  ghost predicate InOrder(c: Config, s: State) {
    && s.writer.received + s.channel + Hand(s.reader) <= c.rows
    && (!s.reader.ReaderDone? ==> s.reader.position == |s.writer.received + s.channel + Hand(s.reader)|)
    && (s.reader == ReaderDone(false) ==> s.writer.received + s.channel == c.rows)
    && |s.channel| <= c.bound
  }

  predicate IsFinal(p: Phase) {
    match p
    case Collecting => false
    case Writing(final) => final
    case Flushing(_, _, final) => final
    case WriterDone(failed) => !failed
  }

  ghost predicate Shaped(c: Config, s: State) {
    var w := s.writer;
    && (w.phase.Collecting? ==> |w.batch| < c.bound && w.filled == [])
    && (w.phase.Writing? ==> 0 < |w.batch| <= c.bound && w.filled <= w.batch)
    && (w.phase.Flushing? ==> w.batch == [] && 0 < |w.filled| <= c.bound)
    && (w.phase.WriterDone? ==> |w.batch| <= c.bound && w.filled <= w.batch)
    && (IsFinal(w.phase) ==> s.reader.ReaderDone? && s.channel == [])
    && (s.reader == ReaderDone(true) || w.phase == WriterDone(true) <==> s.errors.reported || s.errors.swallowed)
    && (s.errors.swallowed ==> s.errors.cancelled)
  }

  /** Until an upload or a key fails, every received row is in an uploaded file, in the buffer or in the batch. */
  ghost predicate Exact(w: Writer, k: string) {
    && RowsOf(w.buffered, k) == Part(w.filled, k)
    && var uploaded := Contents(FilesOf(w.store, k));
       match w.phase
       case Collecting => uploaded + Part(w.batch, k) == Part(w.received, k)
       case Writing(_) => uploaded + Part(w.batch, k) == Part(w.received, k)
       case Flushing(todo, failed, _) =>
         && todo <= w.buffered.Keys
         && (failed || uploaded + (if k in todo then Part(w.filled, k) else []) == Part(w.received, k))
       case WriterDone(failed) => failed || uploaded == Part(w.received, k)
  }

  lemma InOrderDo(c: Config, s: State, a: Action)
    requires InOrder(c, s) && Enabled(c, s, a)
    ensures InOrder(c, Do(c, s, a))
  {
    hide Put, Upload, Fail;
    var t := Do(c, s, a);
    var all, now := s.writer.received + s.channel + Hand(s.reader), t.writer.received + t.channel + Hand(t.reader);
    match a {
      case ReadRow => assert now == all + [c.rows[|all|]];
      case SendRow => assert now == all;
      case Receive => assert now == all;
      case CancelRead => assert all == now + [s.reader.row];
      case ReadEnd => assert now == all == s.writer.received + s.channel;
      case _ => assert now == all;
    }
  }

  lemma ShapedDo(c: Config, s: State, a: Action)
    requires c.bound > 0 && Shaped(c, s) && Enabled(c, s, a)
    requires forall k :: Exact(s.writer, k)
    ensures Shaped(c, Do(c, s, a))
  {
  }

  lemma BufferedKeys(b: Buffer, k: string)
    ensures k !in b ==> RowsOf(b, k) == []
  {
  }

  lemma ExactDo(c: Config, s: State, a: Action, k: string)
    requires Shaped(c, s) && Exact(s.writer, k) && Enabled(c, s, a)
    ensures Exact(Do(c, s, a).writer, k)
  {
    hide Part, RowsOf, Put, Upload, FilesOf, Contents;
    var w := s.writer;
    match a {
      case Receive =>
        PartSnoc(w.batch, s.channel[0], k);
        PartSnoc(w.received, s.channel[0], k);
      case WriteRow(_) =>
        var row := w.batch[|w.filled|];
        if row.key.Some? {
          PutFrame(w.buffered, row, k);
          PartSnoc(w.filled, row, k);
        }
      case UploadFile(j, o) =>
        UploadFrame(w.store, j, RowsOf(w.buffered, j), o, k);
        ContentsSnoc(FilesOf(w.store, k), File(SequenceOf(w.store, j), RowsOf(w.buffered, j)));
      case BeginFlush =>
        assert w.filled == w.batch;
        BufferedKeys(w.buffered, k);
      case EndFlush(_) => PartNothing(k);
      case SeeClosed => PartNothing(k);
      case _ =>
    }
  }

  /** The batch is the end of what was received, and every row before it, or already taken from it, has a key. */
  ghost predicate KeysFound(w: Writer) {
    && |w.batch| <= |w.received| && w.received[|w.received| - |w.batch|..] == w.batch
    && (forall i :: 0 <= i < |w.filled| ==> w.filled[i].key.Some?)
    && (w.phase != WriterDone(true) ==> forall i :: 0 <= i < |w.received| - |w.batch| ==> w.received[i].key.Some?)
  }

  lemma KeysFoundDo(c: Config, s: State, a: Action)
    requires Shaped(c, s) && KeysFound(s.writer) && Enabled(c, s, a)
    ensures KeysFound(Do(c, s, a).writer)
  {
    hide Put, Upload, Fail;
    if a.BeginFlush? {
      var w := s.writer;
      assert w.filled == w.batch;
      forall i | 0 <= i < |w.received| ensures w.received[i].key.Some? {
        if i >= |w.received| - |w.batch| {
          assert w.received[i] == w.batch[i - (|w.received| - |w.batch|)];
        }
      }
    }
  }

  lemma {:induction false} InvariantsHold(c: Config, schedule: seq<Action>)
    requires c.bound > 0
    ensures var s := After(c, schedule);
            InOrder(c, s) && Shaped(c, s) && KeysFound(s.writer) && forall k :: Exact(s.writer, k)
  {
    hide InOrder, Shaped, KeysFound, Exact, Do, Enabled;
    if schedule == [] {
      InitSound(c);
    } else {
      InvariantsHold(c, schedule[..|schedule| - 1]);
      var s := After(c, schedule[..|schedule| - 1]);
      var a := schedule[|schedule| - 1];
      if Enabled(c, s, a) {
        InOrderDo(c, s, a);
        ShapedDo(c, s, a);
        KeysFoundDo(c, s, a);
        forall k ensures Exact(Do(c, s, a).writer, k) {
          ExactDo(c, s, a, k);
        }
      }
    }
  }

  lemma InitSound(c: Config)
    requires c.bound > 0
    ensures InOrder(c, INIT) && Shaped(c, INIT) && KeysFound(INIT.writer) && forall k :: Exact(INIT.writer, k)
  {
  }

  // ---------- Main results ----------

  /** Some schedule leads to the state. */
  ghost predicate Reachable(c: Config, s: State) {
    exists schedule :: After(c, schedule) == s
  }

  /**
  Exactness in every schedule in which no error was given up unsent, cancelled or not: a completed export has uploaded, for
  each key, exactly the source rows with that key, in read order, each once, and every source row has a key. It fails if
  and only if a goroutine failed. Only cancellation lets an error be given up.
  */
  lemma ExportExact(c: Config, s: State)
    requires c.bound > 0 && Reachable(c, s) && Returned(s)
    ensures s.errors.swallowed ==> s.errors.cancelled
    ensures !s.errors.swallowed ==> (Completed(s) <==> s.reader == ReaderDone(false) && s.writer.phase == WriterDone(false))
    ensures Completed(s) && !s.errors.swallowed ==>
              && (forall k :: Contents(FilesOf(s.writer.store, k)) == Part(c.rows, k))
              && (forall i :: 0 <= i < |c.rows| ==> c.rows[i].key.Some?)
  {
    hide After, Part, Contents;
    var schedule :| After(c, schedule) == s;
    InvariantsHold(c, schedule);
    if Completed(s) && !s.errors.swallowed {
      assert s.writer.received + s.channel == c.rows && s.writer.received == c.rows;
      assert s.writer.batch == [] by {
        DoneIsEmpty(c, schedule);
      }
      forall k ensures Contents(FilesOf(s.writer.store, k)) == Part(c.rows, k) {
        assert Exact(s.writer, k);
      }
    }
  }

  lemma {:induction false} DoneIsEmpty(c: Config, schedule: seq<Action>)
    requires c.bound > 0
    ensures After(c, schedule).writer.phase == WriterDone(false) ==> After(c, schedule).writer.batch == []
  {
    if schedule != [] {
      DoneIsEmpty(c, schedule[..|schedule| - 1]);
      InvariantsHold(c, schedule[..|schedule| - 1]);
    }
  }

  /** The distinct rows in memory: the reader's, the channel's, and the writer's, whose buffer holds copies of its batch. */
  function Held(s: State): seq<Row> {
    Hand(s.reader) + s.channel + (if |s.writer.batch| >= |s.writer.filled| then s.writer.batch else s.writer.filled)
  }

  /** Memory: at most 2B + 1 distinct rows are held in any reachable state, and the buffer holds no others. */
  lemma MemoryBound(c: Config, s: State)
    requires c.bound > 0 && Reachable(c, s)
    ensures |Held(s)| <= 2 * c.bound + 1 && s.writer.filled <= Held(s)[|Hand(s.reader) + s.channel|..]
    ensures forall k :: RowsOf(s.writer.buffered, k) == Part(s.writer.filled, k)
  {
    hide After, Part, Contents;
    var schedule :| After(c, schedule) == s;
    InvariantsHold(c, schedule);
    forall k ensures RowsOf(s.writer.buffered, k) == Part(s.writer.filled, k) {
      assert Exact(s.writer, k);
    }
  }

  /** The one deadlock: the writer has returned on an error, the channel is full, and the reader waits to send. */
  predicate Deadlocked(c: Config, s: State) {
    s.reader.Sending? && |s.channel| == c.bound && s.writer.phase == WriterDone(true) && !s.errors.cancelled
  }

  /** Progress: a reachable state that has not returned can move without being cancelled, unless it is the deadlock. */
  lemma Progress(c: Config, s: State)
    requires c.bound > 0 && Reachable(c, s) && !Returned(s)
    ensures Deadlocked(c, s) <==> forall a: Action :: Enabled(c, s, a) ==> a.Cancel?
  {
    hide After, Exact, KeysFound;
    var schedule :| After(c, schedule) == s;
    InvariantsHold(c, schedule);
    if !Deadlocked(c, s) {
      NextAction(c, s);
    }
  }

  /** An action that can happen next. */
  lemma NextAction(c: Config, s: State)
    requires InOrder(c, s) && Shaped(c, s) && !Returned(s) && !Deadlocked(c, s)
    ensures exists a: Action :: Enabled(c, s, a) && !a.Cancel?
  {
    var phase := s.writer.phase;
    if phase.Flushing? && phase.todo != {} {
      var k :| k in phase.todo;
      assert Enabled(c, s, UploadFile(k, Uploaded));
    } else if phase.Flushing? {
      assert Enabled(c, s, EndFlush(true));
    } else if phase.Writing? {
      assert Enabled(c, s, WriteRow(true)) || Enabled(c, s, BeginFlush);
    } else if phase.Collecting? && s.channel != [] {
      assert Enabled(c, s, Receive);
    } else if s.reader.ReaderDone? {
      assert Enabled(c, s, SeeClosed);
    } else if s.reader.Reading? {
      assert Enabled(c, s, ReadRow) || Enabled(c, s, ReadEnd);
    } else {
      assert Enabled(c, s, SendRow) || Enabled(c, s, CancelRead);
    }
  }

  /** When the writer fails early enough the export never returns, unless a later read fails too. */
  lemma EarlyWriterErrorHangs(c: Config, s: State)
    requires c.bound > 0 && Reachable(c, s) && !s.errors.cancelled
    requires s.writer.phase == WriterDone(true) && |s.writer.received| + c.bound < |c.rows|
    ensures Returned(s) ==> s.reader == ReaderDone(true)
  {
    hide After, Exact, KeysFound;
    var schedule :| After(c, schedule) == s;
    InvariantsHold(c, schedule);
  }

  // ---------- Termination ----------

  function ReaderWork(c: Config, r: Reader): int {
    match r
    case Reading(p) => 8 * (|c.rows| - p) + 1
    case Sending(p, _) => 8 * (|c.rows| - p) + 8
    case ReaderDone(_) => 0
  }

  function WriterWork(w: Writer): int {
    match w.phase
    case Collecting => 5 * |w.batch| + 1
    case Writing(final) => 5 * |w.batch| - 2 * |w.filled| + (if final then 0 else 1)
    case Flushing(todo, _, final) => |todo| + 1 + (if final then 0 else 1)
    case WriterDone(_) => 0
  }

  /** An upper bound on the actions still to come. */
  function Work(c: Config, s: State): int {
    ReaderWork(c, s.reader) + 6 * |s.channel| + WriterWork(s.writer)
  }

  ghost predicate FewKeys(w: Writer) {
    |w.buffered.Keys| <= |w.filled|
  }

  lemma FewKeysDo(c: Config, s: State, a: Action)
    requires FewKeys(s.writer) && Enabled(c, s, a)
    ensures FewKeys(Do(c, s, a).writer)
  {
    hide RowsOf, Upload, Fail;
    if a.WriteRow? {
      var row := s.writer.batch[|s.writer.filled|];
      if row.key.Some? {
        assert Put(s.writer.buffered, row).Keys == s.writer.buffered.Keys + {row.key.value};
      }
    }
  }

  lemma WorkFalls(c: Config, s: State, a: Action)
    requires InOrder(c, s) && Shaped(c, s) && FewKeys(s.writer) && Enabled(c, s, a)
    ensures Work(c, s) >= 0 && Work(c, Do(c, s, a)) <= Work(c, s) - (if a.Cancel? then 0 else 1)
  {
    hide RowsOf, Put, Upload, Fail, Hand;
    if a.Receive? || a.SeeClosed? {
      assert Work(c, Do(c, s, a)) <= Work(c, s) - 1;
    } else if a.BeginFlush? {
      assert s.writer.filled == s.writer.batch;
    }
  }

  /** How many actions other than cancelling the schedule really took. */
  function Taken(c: Config, schedule: seq<Action>): nat {
    if schedule == [] then 0
    else
      var a := schedule[|schedule| - 1];
      Taken(c, schedule[..|schedule| - 1])
      + (if !a.Cancel? && Enabled(c, After(c, schedule[..|schedule| - 1]), a) then 1 else 0)
  }

  /** Termination: no schedule takes more than 8 actions a row and 2 more, so by Progress it returns or deadlocks. */
  lemma {:induction false} ExportTerminates(c: Config, schedule: seq<Action>)
    requires c.bound > 0
    ensures Taken(c, schedule) <= 8 * |c.rows| + 2
  {
    TakenBound(c, schedule);
    InvariantsHold(c, schedule);
    hide After, Exact, KeysFound;
    WorkFalls(c, After(c, schedule), Cancel);
  }

  lemma {:induction false} TakenBound(c: Config, schedule: seq<Action>)
    requires c.bound > 0
    ensures FewKeys(After(c, schedule).writer) && Taken(c, schedule) + Work(c, After(c, schedule)) <= 8 * |c.rows| + 2
  {
    hide InOrder, Shaped, KeysFound, Exact, Do, Enabled;
    if schedule != [] {
      TakenBound(c, schedule[..|schedule| - 1]);
      InvariantsHold(c, schedule[..|schedule| - 1]);
      var s := After(c, schedule[..|schedule| - 1]);
      var a := schedule[|schedule| - 1];
      if Enabled(c, s, a) {
        FewKeysDo(c, s, a);
        WorkFalls(c, s, a);
      }
    }
  }

  // ---------- What goes wrong ----------

  lemma AfterNext(c: Config, schedule: seq<Action>, a: Action)
    ensures After(c, schedule + [a]) == if Enabled(c, After(c, schedule), a) then Do(c, After(c, schedule), a) else After(c, schedule)
  {
    assert (schedule + [a])[..|schedule|] == schedule;
  }

  /** The schedule that goes on with `a` from state `s`. */
  lemma Next(c: Config, schedule: seq<Action>, s: State, a: Action) returns (longer: seq<Action>)
    requires After(c, schedule) == s && Enabled(c, s, a)
    ensures After(c, longer) == Do(c, s, a)
  {
    longer := schedule + [a];
    AfterNext(c, schedule, a);
  }

  lemma AfterNothing(c: Config)
    ensures After(c, []) == INIT
  {
  }

  /** Cancellation: every export with a row of some key can complete, a read error given up unsent, without that row. */
  lemma CancelledExportCanLoseRows(c: Config, k: string)
    requires c.bound > 0 && Part(c.rows, k) != []
    ensures exists s :: Reachable(c, s) && Completed(s) && s.errors.cancelled && Contents(FilesOf(s.writer.store, k)) != Part(c.rows, k)
  {
    hide After, Part;
    AfterNothing(c);
    var q1 := Next(c, [], INIT, Cancel);
    var q2 := Next(c, q1, INIT.(errors := Errors(true, false, false)), ReadFail(false));
    var q3 := Next(c, q2, State(ReaderDone(true), [], INIT.writer, Errors(true, false, true)), SeeClosed);
    var s := After(c, q3);
    assert Reachable(c, s) && Completed(s);
  }

  /** A reader that stops in the middle of sending, because of the cancellation, reports it: that export never completes. */
  lemma {:induction false} CancelledSendFails(c: Config, schedule: seq<Action>, k: nat)
    requires k < |schedule| && schedule[k] == CancelRead && Enabled(c, After(c, schedule[..k]), CancelRead)
    ensures After(c, schedule).errors.reported && !Completed(After(c, schedule))
    decreases |schedule|
  {
    var last := schedule[..|schedule| - 1];
    if k < |last| {
      assert last[..k] == schedule[..k];
      CancelledSendFails(c, last, k);
      if Enabled(c, After(c, last), schedule[|last|]) {
        ReportStays(c, After(c, last), schedule[|last|]);
      }
    }
  }

  lemma ReportStays(c: Config, s: State, a: Action)
    requires s.errors.reported && Enabled(c, s, a)
    ensures Do(c, s, a).errors.reported
  {
  }

  // ---------- When the deadlock can happen ----------

  /** The writer leaves the collecting phase for the first time with a full batch, unless the reader has finished. */
  ghost predicate FullBatch(c: Config, s: State) {
    s.writer.phase.Collecting? || IsFinal(s.writer.phase) || s.reader.ReaderDone? || |s.writer.received| >= c.bound
  }

  lemma {:induction false} FullBatchAlways(c: Config, schedule: seq<Action>)
    requires c.bound > 0
    ensures FullBatch(c, After(c, schedule))
    decreases |schedule|
  {
    hide Part, RowsOf, Put, Upload, Fail;
    if schedule != [] {
      FullBatchAlways(c, schedule[..|schedule| - 1]);
      InvariantsHold(c, schedule[..|schedule| - 1]);
    }
  }

  /** From the head of a batch with nothing in the channel, one row goes all the way to the batch. */
  lemma PassRow(c: Config, schedule: seq<Action>, s: State) returns (longer: seq<Action>)
    requires c.bound > 0 && After(c, schedule) == s
    requires s.reader.Reading? && s.reader.position < |c.rows| && s.channel == [] && s.writer.phase.Collecting?
    ensures After(c, longer) == s.(reader := Reading(s.reader.position + 1), writer := TakeRow(c, s.writer, c.rows[s.reader.position]))
  {
    hide After;
    var row := c.rows[s.reader.position];
    var q1 := Next(c, schedule, s, ReadRow);
    var q2 := Next(c, q1, s.(reader := Sending(s.reader.position + 1, row)), SendRow);
    assert [] + [row] == [row];
    longer := Next(c, q2, s.(reader := Reading(s.reader.position + 1), channel := [row]), Receive);
    assert [row][1..] == [];
  }

  /** The first batch can be filled. */
  lemma {:induction false} FirstBatch(c: Config, n: nat) returns (schedule: seq<Action>)
    requires 0 < n <= c.bound && n <= |c.rows|
    ensures var s := After(c, schedule);
            && s.reader == Reading(n) && s.channel == [] && s.errors == INIT.errors
            && |s.writer.batch| == |s.writer.received| == n && s.writer.filled == []
            && s.writer.phase == if n == c.bound then Writing(false) else Collecting
  {
    hide After;
    AfterNothing(c);
    if n == 1 {
      schedule := PassRow(c, [], INIT);
    } else {
      var before := FirstBatch(c, n - 1);
      schedule := PassRow(c, before, After(c, before));
    }
  }

  /** A writer that is busy with a batch can fail by itself: on a row without a key, or because no upload succeeds. */
  lemma {:induction false} WriterCanFail(c: Config, schedule: seq<Action>) returns (longer: seq<Action>)
    requires c.bound > 0
    requires var phase := After(c, schedule).writer.phase; phase.Writing? || (phase.Flushing? && (phase.failed || phase.todo != {}))
    ensures var s, t := After(c, schedule), After(c, longer);
            && t.writer.phase == WriterDone(true) && t.writer.received == s.writer.received
            && t.reader == s.reader && t.channel == s.channel && t.errors.cancelled == s.errors.cancelled
    decreases WriterWork(After(c, schedule).writer)
  {
    hide After, Part, RowsOf, Put, Upload, InOrder;
    var s := After(c, schedule);
    InvariantsHold(c, schedule);
    TakenBound(c, schedule);
    var a := if s.writer.phase.Writing? then if |s.writer.filled| < |s.writer.batch| then WriteRow(true) else BeginFlush
             else if s.writer.phase.todo == {} then EndFlush(true) else var k :| k in s.writer.phase.todo; UploadFile(k, UploadFailed);
    if a.BeginFlush? {
      assert Exact(s.writer, s.writer.filled[0].key.value);
      FilledIsBuffered(s.writer);
    }
    WorkFalls(c, s, a);
    var next := Next(c, schedule, s, a);
    if After(c, next).writer.phase.WriterDone? {
      longer := next;
    } else {
      longer := WriterCanFail(c, next);
    }
  }

  lemma FilledIsBuffered(w: Writer)
    requires w.filled != [] && w.filled[0].key.Some?
    requires RowsOf(w.buffered, w.filled[0].key.value) == Part(w.filled, w.filled[0].key.value)
    ensures w.buffered.Keys != {}
  {
    var k := w.filled[0].key.value;
    assert w.filled == [w.filled[0]] + w.filled[1..];
    PartConcat([w.filled[0]], w.filled[1..], k);
    PartOne(w.filled[0], k);
    assert k in w.buffered;
  }

  /** With the writer gone, the reader fills the channel. */
  lemma {:induction false} ReaderFills(c: Config, schedule: seq<Action>, s: State, n: nat) returns (longer: seq<Action>)
    requires After(c, schedule) == s && s.reader.Reading? && s.channel == [] && n <= c.bound && s.reader.position + n <= |c.rows|
    ensures var t := After(c, longer);
            t.reader == Reading(s.reader.position + n) && |t.channel| == n && t.writer == s.writer && t.errors == s.errors
  {
    hide After;
    if n == 0 {
      longer := schedule;
    } else {
      var q1 := ReaderFills(c, schedule, s, n - 1);
      var q2 := Next(c, q1, After(c, q1), ReadRow);
      longer := Next(c, q2, After(c, q2), SendRow);
    }
  }

  /** The deadlock can be reached if and only if the source has more than two buffers of rows. */
  lemma DeadlockReachableIff(c: Config)
    requires c.bound > 0
    ensures (exists s :: Reachable(c, s) && Deadlocked(c, s)) <==> |c.rows| > 2 * c.bound
  {
    hide After, Part, Exact, KeysFound;
    if s :| Reachable(c, s) && Deadlocked(c, s) {
      var schedule :| After(c, schedule) == s;
      InvariantsHold(c, schedule);
      FullBatchAlways(c, schedule);
    }
    if |c.rows| > 2 * c.bound {
      var q1 := FirstBatch(c, c.bound);
      var q2 := WriterCanFail(c, q1);
      var q3 := ReaderFills(c, q2, After(c, q2), c.bound);
      var q4 := Next(c, q3, After(c, q3), ReadRow);
      var s := After(c, q4);
      assert Reachable(c, s) && Deadlocked(c, s);
    }
  }
}
