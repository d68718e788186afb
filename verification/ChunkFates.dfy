/**
What becomes of every source record: invariants of the chunk engine over runs in which every write retry has set the reader
back to the first record of its chunk.
*/
module ChunkFates {
  import opened Options
  import opened Upsert
  import opened ChunkModel
  import opened ChunkSafety

  // ---------- Lists of fates ----------

  lemma {:induction false} QueuedConcat(a: seq<Fate>, b: seq<Fate>)
    ensures QueuedRows(a + b) == QueuedRows(a) + QueuedRows(b)
    decreases |a|
  {
    if a == [] {
      assert a + b == b;
    } else {
      var head := if a[0].Queued? then [a[0].row] else [];
      assert (a + b)[0] == a[0] && (a + b)[1..] == a[1..] + b;
      QueuedConcat(a[1..], b);
      assert QueuedRows(a + b) == head + (QueuedRows(a[1..]) + QueuedRows(b)) == head + QueuedRows(a[1..]) + QueuedRows(b);
    }
  }

  lemma {:induction false} WrittenConcat(a: seq<Fate>, b: seq<Fate>)
    ensures WrittenRows(a + b) == WrittenRows(a) + WrittenRows(b)
    decreases |a|
  {
    if a == [] {
      assert a + b == b;
    } else {
      var head := if a[0].Written? then [a[0].row] else [];
      assert (a + b)[0] == a[0] && (a + b)[1..] == a[1..] + b;
      WrittenConcat(a[1..], b);
      assert WrittenRows(a + b) == head + (WrittenRows(a[1..]) + WrittenRows(b)) == head + WrittenRows(a[1..]) + WrittenRows(b);
    }
  }

  /** A fate of a record in a chunk in progress. */
  predicate Open(f: Fate) {
    !f.Written? && !f.Dropped?
  }

  ghost predicate AllOpen(fs: seq<Fate>) {
    forall i :: 0 <= i < |fs| ==> Open(fs[i])
  }

  ghost predicate NoneQueued(fs: seq<Fate>) {
    forall i :: 0 <= i < |fs| ==> !fs[i].Queued?
  }

  lemma {:induction false} MarkedRows(fs: seq<Fate>)
    requires AllOpen(fs)
    ensures WrittenRows(MarkWritten(fs)) == QueuedRows(fs)
    decreases |fs|
  {
    if fs != [] {
      assert MarkWritten(fs)[1..] == MarkWritten(fs[1..]);
      MarkedRows(fs[1..]);
    }
  }

  lemma {:induction false} NoRowsQueued(fs: seq<Fate>)
    ensures NoneQueued(fs) <==> QueuedRows(fs) == []
    decreases |fs|
  {
    if fs != [] {
      NoRowsQueued(fs[1..]);
      assert NoneQueued(fs) ==> NoneQueued(fs[1..]);
      if NoneQueued(fs[1..]) && !fs[0].Queued? {
        forall i | 0 <= i < |fs| ensures !fs[i].Queued? { if i > 0 { assert fs[i] == fs[1..][i - 1]; } }
      }
    }
  }

  lemma {:induction false} NothingWritten(fs: seq<Fate>)
    requires AllOpen(fs)
    ensures WrittenRows(fs) == []
    decreases |fs|
  {
    if fs != [] {
      NothingWritten(fs[1..]);
    }
  }

  lemma {:induction false} FirstQueuedSplits(fs: seq<Fate>)
    requires QueuedRows(fs) != []
    ensures var i := FirstQueued(fs);
            && i < |fs| && fs[i] == Queued(QueuedRows(fs)[0])
            && NoneQueued(fs[..i])
            && QueuedRows(fs[i + 1..]) == QueuedRows(fs)[1..]
    decreases |fs|
  {
    if !fs[0].Queued? {
      FirstQueuedSplits(fs[1..]);
      var i := FirstQueued(fs);
      assert fs[..i] == [fs[0]] + fs[1..][..i - 1];
      assert fs[i + 1..] == fs[1..][i..];
    }
  }

  // ---------- The invariant ----------

  /** Fate `f` agrees with record `i`: the row is the processed form, filtered means a nil result, undelivered a failed mapping. */
  ghost predicate Truthful(c: Config, i: nat, f: Fate) {
    i < |c.source| && match f {
      case Undelivered => c.source[i].Malformed?
      case Filtered => c.source[i] == Item(None)
      case Skipped => c.source[i].Item?
      case Queued(row) => c.source[i] == Item(Some(row))
      case Written(row) => c.source[i] == Item(Some(row))
      case Dropped(row) => c.source[i] == Item(Some(row))
    }
  }

  ghost predicate AllTruthful(c: Config, from: nat, fs: seq<Fate>) {
    forall i :: 0 <= i < |fs| ==> Truthful(c, from + i, fs[i])
  }

  function Position(d: Disk): nat {
    if d.saved.Some? then d.saved.value.position else 0
  }

  /** Settled records: true to the source, final, their written rows committed in order, and none before the saved position missing. */
  ghost predicate SettledIn(c: Config, h: History, committed: seq<Row>, position: nat) {
    && AllTruthful(c, h.start, h.settled)
    && NoneQueued(h.settled)
    && committed == h.base + WrittenRows(h.settled)
    && h.start <= Edge(h) <= h.past <= |c.source|
    && h.start <= position <= Edge(h)
  }

  ghost predicate Settled(c: Config, s: State) {
    SettledIn(c, s.h, s.db.committed, Position(s.disk))
  }

  ghost predicate Pending(c: Config, s: State) {
    && AllTruthful(c, Edge(s.h), s.h.pending)
    && AllOpen(s.h.pending)
    && QueuedRows(s.h.pending) == s.k.items
    && Edge(s.h) + |s.h.pending| + (if s.phase.Processing? then 1 else 0) == s.r.next
  }

  /**
  Where the reader stands.  What a checkpoint saves is `key`: the count, as long as the reader has not been reopened;
  after a write retry it keeps the count at which the chunk had been read for the first time.
  */
  ghost predicate Placed(c: Config, s: State) {
    && s.r.count <= s.r.next <= |c.source|
    && Position(s.disk) <= s.r.key.Or(0)
    && (if s.r.aliased then s.r.key.Some? && (s.phase.Done? || s.r.context.Or(0) == s.r.count) else s.r.key.Or(0) == s.r.count)
    && (s.phase.Processing? ==> s.r.next > 0 && c.source[s.r.next - 1].Item?)
    && (s.phase.Processing? || s.k.items != [] ==> s.r.key.Some?)
    && (s.k.eof ==> s.r.next == |c.source|)
    && (s.phase.Reading? || s.phase.Processing? ==> !s.k.eof)
  }

  /** Where a chunk that has yet to read `need` items from record `p` on will end. */
  function ChunkEnd(source: seq<Record>, p: nat, need: int): (e: nat)
    ensures p <= e && (p <= |source| ==> e <= |source|)
    decreases |source| - p
  {
    if p >= |source| || need <= 0 then p else ChunkEnd(source, p + 1, if source[p].Item? then need - 1 else need)
  }

  /** A chunk that is being read ends where it would end if it were read again from its first record, and not before `key`. */
  ghost predicate Filling(c: Config, s: State) {
    && ChunkEnd(c.source, s.r.next, c.chunkSize - s.k.taken) == ChunkEnd(c.source, Edge(s.h), c.chunkSize)
    && s.r.key.Or(0) <= ChunkEnd(c.source, Edge(s.h), c.chunkSize)
  }

  /** A chunk that has been read. */
  ghost predicate Full(c: Config, s: State) {
    s.r.next == ChunkEnd(c.source, Edge(s.h), c.chunkSize) && s.r.key.Or(0) <= s.r.next
  }

  ghost predicate Chunked(c: Config, s: State) {
    match s.phase
    case Top => s.r.key.Or(0) <= ChunkEnd(c.source, s.r.next, c.chunkSize)
    case Reading(_) => Filling(c, s) && s.k.taken < c.chunkSize
    case Processing(_) => Filling(c, s)
    case Writing => Full(c, s)
    case Committing => Full(c, s)
    case _ => s.r.key.Or(0) <= s.r.next
  }

  ghost predicate Tracked(c: Config, s: State) {
    && Settled(c, s)
    && (!s.phase.Down? && s.phase != Closing(true) && s.phase != Done(true) ==> Pending(c, s) && Placed(c, s) && Chunked(c, s))
    && (s.phase.Top? || s.phase.Saving? || s.phase == Closing(false) || s.phase == Done(false) ==> s.h.pending == [])
    && (s.phase == Closing(false) || s.phase == Done(false) ==> c.chunkSize <= 0 || s.r.next == |c.source|)
  }

  lemma TruthfulJoin(c: Config, from: nat, a: seq<Fate>, b: seq<Fate>)
    requires AllTruthful(c, from, a) && AllTruthful(c, from + |a|, b)
    ensures AllTruthful(c, from, a + b)
  {
    var all := a + b;
    forall i | 0 <= i < |all| ensures Truthful(c, from + i, all[i]) {
      if i >= |a| {
        var j := i - |a|;
        assert all[i] == b[j] && Truthful(c, from + |a| + j, b[j]);
      }
    }
  }

  lemma TruthfulTail(c: Config, from: nat, fs: seq<Fate>, k: nat)
    requires AllTruthful(c, from, fs) && k <= |fs|
    ensures AllTruthful(c, from + k, fs[k..])
  {
    var tail := fs[k..];
    forall i | 0 <= i < |tail| ensures Truthful(c, from + k + i, tail[i]) {
      var j := k + i;
      assert fs[j] == tail[i] && Truthful(c, from + j, fs[j]);
    }
  }

  lemma SettledFates(c: Config, h: History, fs: seq<Fate>)
    requires AllTruthful(c, h.start, h.settled) && NoneQueued(h.settled)
    requires AllTruthful(c, Edge(h), fs) && NoneQueued(fs)
    ensures AllTruthful(c, h.start, h.settled + fs) && NoneQueued(h.settled + fs)
    ensures Edge(h) + |fs| <= |c.source| || fs == []
  {
    TruthfulJoin(c, h.start, h.settled, fs);
    if fs != [] {
      assert Truthful(c, Edge(h) + (|fs| - 1), fs[|fs| - 1]);
    }
  }

  lemma Associative(a: seq<Row>, b: seq<Row>, d: seq<Row>)
    ensures (a + b) + d == a + (b + d)
  {
  }

  /** Settling `fs` at the edge keeps the invariant on settled records. */
  lemma SettleInKeeps(c: Config, h: History, committed: seq<Row>, position: nat, fs: seq<Fate>, rest: seq<Fate>)
    requires SettledIn(c, h, committed, position)
    requires AllTruthful(c, Edge(h), fs) && NoneQueued(fs)
    ensures SettledIn(c, Settle(h, fs, rest), committed + WrittenRows(fs), position)
    ensures Edge(Settle(h, fs, rest)) == Edge(h) + |fs|
  {
    WrittenConcat(h.settled, fs);
    SettledFates(c, h, fs);
    Associative(h.base, WrittenRows(h.settled), WrittenRows(fs));
  }

  lemma SettleKeeps(c: Config, s: State, fs: seq<Fate>, rest: seq<Fate>, t: State)
    requires Settled(c, s)
    requires AllTruthful(c, Edge(s.h), fs) && NoneQueued(fs)
    requires t.h == Settle(s.h, fs, rest)
    requires t.db.committed == s.db.committed + WrittenRows(fs)
    requires t.disk == s.disk
    ensures Settled(c, t) && Edge(t.h) == Edge(s.h) + |fs| && t.h.pending == rest
  {
    SettleInKeeps(c, s.h, s.db.committed, Position(s.disk), fs, rest);
  }

  /** One more record joins the chunk in progress. */
  lemma PendKeeps(c: Config, h: History, f: Fate)
    requires AllTruthful(c, Edge(h), h.pending) && AllOpen(h.pending)
    requires Truthful(c, Edge(h) + |h.pending|, f) && Open(f)
    ensures var p := Pend(h, f);
            && AllTruthful(c, Edge(p), p.pending) && AllOpen(p.pending)
            && QueuedRows(p.pending) == QueuedRows(h.pending) + (if f.Queued? then [f.row] else [])
  {
    QueuedConcat(h.pending, [f]);
    assert QueuedRows([f]) == (if f.Queued? then [f.row] else []) + QueuedRows([]);
  }

  lemma TrackedEndRead(c: Config, s: State)
    requires Settled(c, s) && Placed(c, s.(phase := Committing)) && Pending(c, s.(phase := Committing)) && Full(c, s)
    requires c.chunkSize <= 0 || s.r.next == |c.source| || s.k.taken > 0
    ensures Tracked(c, EndRead(s))
  {
    if s.k.taken == 0 && s.k.items == [] {
      NoRowsQueued(s.h.pending);
      NothingWritten(s.h.pending);
      SettleKeeps(c, s, s.h.pending, [], EndRead(s));
    }
  }

  lemma TrackedNextItem(c: Config, s: State)
    requires Settled(c, s) && Placed(c, s.(phase := Committing)) && Pending(c, s.(phase := Committing)) && !s.k.eof
    requires Filling(c, s)
    ensures Tracked(c, NextItem(c, s))
  {
    if s.k.taken >= c.chunkSize {
      TrackedEndRead(c, s);
    }
  }

  lemma TrackedReadError(c: Config, s: State, r: Cursor, h: History, k: nat, a: Answer)
    requires Settled(c, s.(h := h)) && Placed(c, s.(phase := Committing, r := r))
    requires Pending(c, s.(phase := Committing, r := r, h := h)) && !s.k.eof
    requires Filling(c, s.(r := r, h := h)) && s.k.taken < c.chunkSize
    ensures Tracked(c, ReadError(c, s, r, h, k, a))
  {
    var t := s.t.(readCalls := s.t.readCalls + 1, slots := s.t.slots + 1);
    var n := s.n.(step := s.n.step.(skipRead := s.n.step.skipRead + 1));
    TrackedNextItem(c, s.(r := r, h := h, t := t, n := n));
  }

  lemma TrackedDeliver(c: Config, s: State)
    requires Tracked(c, s) && s.phase.Reading? && s.r.next < |c.source| && c.source[s.r.next].Item?
    ensures Tracked(c, Deliver(s))
  {
    hide Settled, AllTruthful, AllOpen, QueuedRows;
    assert Settled(c, Deliver(s)) by { SettledDeliver(c, s); }
  }

  lemma SettledDeliver(c: Config, s: State)
    requires Settled(c, s)
    ensures Settled(c, Deliver(s))
  {
  }

  lemma TrackedRead(c: Config, s: State, a: Answer)
    requires Tracked(c, s) && s.phase.Reading?
    ensures Tracked(c, OnRead(c, s, s.phase.attempts, a))
  {
    hide EndRead, ReadError, Deliver, AllTruthful, AllOpen, QueuedRows;
    var k := s.phase.attempts;
    if !a.ok {
      TrackedReadError(c, s, s.r, s.h, k, a);
    } else if s.r.next >= |c.source| {
      TrackedEndRead(c, s.(k := s.k.(eof := true),
               t := s.t.(slots := s.t.slots + 1, eofs := s.t.eofs + 1, readCalls := s.t.readCalls + 1)));
    } else if c.source[s.r.next].Malformed? {
      PendKeeps(c, s.h, Undelivered);
      TrackedReadError(c, s, s.r.(next := s.r.next + 1), Pend(s.h, Undelivered), k, a);
    } else {
      TrackedDeliver(c, s);
    }
  }

  lemma TrackedQueued(c: Config, s: State, t: Tally, row: Row)
    requires Tracked(c, s) && s.phase.Processing? && Result(c, s) == Some(row)
    ensures Tracked(c, NextItem(c, s.(k := s.k.(items := s.k.items + [row]), h := Pend(s.h, Queued(row)), t := t)))
  {
    hide NextItem;
    PendKeeps(c, s.h, Queued(row));
    TrackedNextItem(c, s.(k := s.k.(items := s.k.items + [row]), h := Pend(s.h, Queued(row)), t := t));
  }

  lemma TrackedProcessed(c: Config, s: State, t: Tally)
    requires Tracked(c, s) && s.phase.Processing?
    ensures Tracked(c, Processed(c, s, t))
  {
    match Result(c, s) {
      case Some(row) => TrackedQueued(c, s, t, row);
      case None =>
        PendKeeps(c, s.h, Filtered);
        TrackedNextItem(c, s.(n := s.n.(step := s.n.step.(filter := s.n.step.filter + 1)), h := Pend(s.h, Filtered), t := t));
    }
  }

  /** A failing call of the processor that is not skipped. */
  lemma TrackedProcessStay(c: Config, s: State, t: Tally, db: Database, phase: Phase)
    requires Tracked(c, s) && s.phase.Processing? && (phase.Processing? || phase == Closing(true))
    requires db.committed == s.db.committed
    ensures Tracked(c, s.(t := t, db := db, phase := phase))
  {
  }

  lemma TrackedProcess(c: Config, s: State, a: Answer)
    requires Tracked(c, s) && s.phase.Processing?
    ensures Tracked(c, OnProcess(c, s, s.phase.attempts, a))
  {
    hide Tracked, NextItem, Processed;
    var t := s.t.(processCalls := s.t.processCalls + 1);
    if a.ok {
      TrackedProcessed(c, s, t);
    } else if a.retryable && s.phase.attempts < c.maxAttempts {
      var phase := if a.cancelled then Closing(true) else Processing(s.phase.attempts + 1);
      TrackedProcessStay(c, s, t, s.db, phase);
      assert OnProcess(c, s, s.phase.attempts, a) == s.(t := t, db := s.db, phase := phase);
    } else if a.skippable && s.n.step.skipProcess < c.skipLimit {
      TrackedProcessSkip(c, s, t);
    } else {
      TrackedProcessStay(c, s, t, s.db.Rollback(), Closing(true));
    }
  }

  lemma TrackedProcessSkip(c: Config, s: State, t: Tally)
    requires Tracked(c, s) && s.phase.Processing?
    ensures var step := s.n.step.(skipProcess := s.n.step.skipProcess + 1, filter := s.n.step.filter + 1);
            Tracked(c, NextItem(c, s.(n := s.n.(step := step), h := Pend(s.h, Skipped), t := t)))
  {
    var step := s.n.step.(skipProcess := s.n.step.skipProcess + 1, filter := s.n.step.filter + 1);
    PendKeeps(c, s.h, Skipped);
    TrackedNextItem(c, s.(n := s.n.(step := step), h := Pend(s.h, Skipped), t := t));
  }

  lemma TrackedTop(c: Config, s: State, a: Answer)
    requires Tracked(c, s) && s.phase.Top?
    ensures Tracked(c, OnTop(c, s, a))
  {
    if a.ok {
      TrackedNextItem(c, s.(db := s.db.Begin(), k := EMPTY_CHUNK));
    }
  }

  lemma TrackedWrite(c: Config, s: State, a: Answer)
    requires Tracked(c, s) && Transactional(s) && s.phase.Writing? && !OnWrite(c, s, a).h.misplaced
    ensures Tracked(c, OnWrite(c, s, a))
  {
    hide Settled;
    assert Settled(c, OnWrite(c, s, a)) by { SettledWrite(c, s, a); }
    assert QueuedRows([]) == [];
  }

  lemma SettledWrite(c: Config, s: State, a: Answer)
    requires Settled(c, s)
    ensures Settled(c, OnWrite(c, s, a))
  {
  }

  /** The rows of a chunk's transaction are the rows of its queued records. */
  lemma SettleChunkKeeps(c: Config, s: State, t: State)
    requires Settled(c, s) && Pending(c, s) && t.h == SettleChunk(s.h) && t.disk == s.disk
    requires t.db.committed == s.db.committed + s.k.items
    ensures Settled(c, t) && Edge(t.h) == Edge(s.h) + |s.h.pending| && t.h.pending == []
  {
    var m := MarkWritten(s.h.pending);
    MarkedRows(s.h.pending);
    forall i | 0 <= i < |m| ensures Truthful(c, Edge(s.h) + i, m[i]) {
      assert Truthful(c, Edge(s.h) + i, s.h.pending[i]);
    }
    SettleKeeps(c, s, m, [], t);
  }

  lemma TrackedCommit(c: Config, s: State, a: Answer)
    requires Tracked(c, s) && Transactional(s) && s.phase.Committing?
    ensures Tracked(c, OnCommit(s, a))
  {
    if a.ok || a.applied {
      SettleChunkKeeps(c, s, OnCommit(s, a));
    }
  }

  lemma TrackedSave(c: Config, s: State, a: Answer)
    requires Tracked(c, s) && Transactional(s) && s.phase.Saving?
    ensures Tracked(c, OnSave(s, a))
  {
  }

  lemma HeadFates(c: Config, h: History, f: Fate)
    requires AllTruthful(c, Edge(h), h.pending) && AllOpen(h.pending) && QueuedRows(h.pending) != []
    requires f == Written(QueuedRows(h.pending)[0]) || f == Dropped(QueuedRows(h.pending)[0])
    ensures var p := h.pending;
            var i := FirstQueued(p);
            && i < |p| && AllTruthful(c, Edge(h), p[..i] + [f]) && NoneQueued(p[..i] + [f])
            && WrittenRows(p[..i] + [f]) == (if f.Written? then [f.row] else [])
            && AllTruthful(c, Edge(h) + i + 1, p[i + 1..]) && AllOpen(p[i + 1..])
            && QueuedRows(p[i + 1..]) == QueuedRows(p)[1..]
  {
    var p := h.pending;
    FirstQueuedSplits(p);
    var i := FirstQueued(p);
    var fs := p[..i] + [f];
    WrittenConcat(p[..i], [f]);
    NothingWritten(p[..i]);
    assert WrittenRows([f]) == (if f.Written? then [f.row] else []) + WrittenRows([]);
    forall j | 0 <= j < |fs| ensures Truthful(c, Edge(h) + j, fs[j]) {
      assert Truthful(c, Edge(h) + j, p[j]);
    }
    TruthfulTail(c, Edge(h), p, i + 1);
  }

  /** The head of a split chunk is settled by itself, with the unqueued records before it. */
  lemma SettleHeadKeeps(c: Config, s: State, f: Fate, t: State)
    requires Settled(c, s) && Pending(c, s) && s.k.items != [] && t.h == SettleHead(s.h, f)
    requires f == Written(s.k.items[0]) || f == Dropped(s.k.items[0])
    requires t.db.committed == s.db.committed + (if f.Written? then [f.row] else []) && t.disk == s.disk
    ensures Settled(c, t)
    ensures AllTruthful(c, Edge(t.h), t.h.pending) && AllOpen(t.h.pending) && QueuedRows(t.h.pending) == s.k.items[1..]
    ensures Edge(t.h) + |t.h.pending| == Edge(s.h) + |s.h.pending|
  {
    hide Settled, AllTruthful, AllOpen, NoneQueued, WrittenRows, QueuedRows, Truthful;
    HeadFates(c, s.h, f);
    var i := FirstQueued(s.h.pending);
    SettleKeeps(c, s, s.h.pending[..i] + [f], s.h.pending[i + 1..], t);
  }

  lemma TrackedSplitNext(c: Config, s: State)
    requires Settled(c, s) && Placed(c, s.(phase := SplitTop)) && Pending(c, s.(phase := SplitTop))
    requires s.r.key.Or(0) <= s.r.next
    ensures Tracked(c, SplitNext(s))
  {
    if s.k.items == [] {
      NoRowsQueued(s.h.pending);
      NothingWritten(s.h.pending);
      SettleKeeps(c, s, s.h.pending, [], SplitNext(s));
    }
  }

  lemma TrackedSplitWrite(c: Config, s: State, a: Answer)
    requires Tracked(c, s) && Transactional(s) && s.phase.SplitWriting?
    ensures Tracked(c, OnSplitWrite(c, s, a))
  {
    hide SplitNext, SettleHead;
    if !a.ok && a.skippable && s.n.step.skipWrite < c.skipLimit {
      var db := s.db.Write(if a.staged == 0 then [] else [Head(s.k)]).Rollback();
      var u := s.(db := db, h := SettleHead(s.h, Dropped(Head(s.k))), k := Rest(s.k), n := SkippedWrite(s.n),
                  t := s.t.(dropped := s.t.dropped + 1));
      SettleHeadKeeps(c, s, Dropped(Head(s.k)), u);
      TrackedSplitNext(c, u);
    }
  }

  lemma TrackedSplitCommit(c: Config, s: State, a: Answer)
    requires Tracked(c, s) && Transactional(s) && s.phase.SplitCommitting?
    ensures Tracked(c, OnSplitCommit(s, a))
  {
    hide SplitNext, SettleHead;
    var h := SettleHead(s.h, Written(Head(s.k)));
    if a.ok {
      var u := s.(db := s.db.Commit(true), h := h, k := Rest(s.k),
                  n := s.n.(step := s.n.step.(write := s.n.step.write + 1)),
                  t := s.t.(splitWritten := s.t.splitWritten + 1));
      SettleHeadKeeps(c, s, Written(Head(s.k)), u);
      TrackedSplitNext(c, u);
    } else if a.applied {
      SettleHeadKeeps(c, s, Written(Head(s.k)), OnSplitCommit(s, a));
    }
  }

  lemma TrackedStep(c: Config, s: State, a: Answer)
    requires Tracked(c, s) && Transactional(s) && !Step(c, s, a).h.misplaced
    ensures Tracked(c, Step(c, s, a))
  {
    hide OnRead, OnProcess, OnWrite, OnCommit, OnSave, OnSplitWrite, OnSplitCommit, OnClose, OnTop;
    match s.phase {
      case Down =>
      case Top => TrackedTop(c, s, a);
      case Reading(_) => TrackedRead(c, s, a);
      case Processing(_) => TrackedProcess(c, s, a);
      case Writing => TrackedWrite(c, s, a);
      case Committing => TrackedCommit(c, s, a);
      case Saving => TrackedSave(c, s, a);
      case SplitTop =>
      case SplitWriting => TrackedSplitWrite(c, s, a);
      case SplitCommitting => TrackedSplitCommit(c, s, a);
      case Closing(f) => TrackedClose(c, s, f, a);
      case Done(_) =>
    }
  }

  lemma TrackedClose(c: Config, s: State, failed: bool, a: Answer)
    requires Tracked(c, s) && s.phase == Closing(failed)
    ensures Tracked(c, OnClose(s, failed, a))
  {
    hide AllTruthful, AllOpen, QueuedRows, NoneQueued, WrittenRows;
  }

  lemma TrackedMove(c: Config, s: State, m: Move)
    requires Tracked(c, s) && Transactional(s) && !Apply(c, s, m).h.misplaced
    ensures Tracked(c, Apply(c, s, m))
  {
    match m {
      case Call(a) => TrackedStep(c, s, a);
      case Crashes =>
      case Starts =>
    }
  }

  lemma RetriedSticks(c: Config, s: State, m: Move)
    requires s.h.retried
    ensures Apply(c, s, m).h.retried
  {
  }

  lemma MisplacedSticks(c: Config, s: State, m: Move)
    requires s.h.misplaced
    ensures Apply(c, s, m).h.misplaced
  {
  }

  lemma {:induction false} TrackedRun(c: Config, ms: seq<Move>)
    requires !Run(c, FRESH, ms).h.misplaced
    ensures Tracked(c, Run(c, FRESH, ms))
    decreases |ms|
  {
    if ms != [] {
      var s := Run(c, FRESH, ms[..|ms| - 1]);
      if s.h.misplaced {
        MisplacedSticks(c, s, ms[|ms| - 1]);
      }
      TrackedRun(c, ms[..|ms| - 1]);
      TransactionalRun(c, ms[..|ms| - 1]);
      TrackedMove(c, s, ms[|ms| - 1]);
    }
  }

  // ---------- Main results ----------

  /**
  No item is ever lost: whatever crashes, failures and restarts there were, every record before the saved
  position has been settled, and a running execution resumes and saves only inside its own settled records.
  */
  lemma NoItemLost(c: Config, s: State)
    requires Reachable(c, s) && !s.h.misplaced
    ensures && Position(s.disk) <= s.h.past <= |c.source|
            && s.h.start <= Position(s.disk) <= s.h.start + |s.h.settled|
            && forall i :: 0 <= i < |s.h.settled| ==>
                 Truthful(c, s.h.start + i, s.h.settled[i]) && !s.h.settled[i].Queued?
  {
    hide Run, Pending, Placed, Chunked;
    var ms :| Run(c, FRESH, ms) == s;
    TrackedRun(c, ms);
  }

  /**
  The meaning of an execution at any moment, mid-splitting and after a failure included: what it has committed
  is, in read order, exactly the processed forms of the written ones among its settled records.
  */
  lemma CommittedInReadOrder(c: Config, s: State)
    requires Reachable(c, s) && !s.h.misplaced
    ensures s.db.committed == s.h.base + WrittenRows(s.h.settled)
    ensures AllTruthful(c, s.h.start, s.h.settled)
  {
    hide Run, Pending, Placed, Chunked;
    var ms :| Run(c, FRESH, ms) == s;
    TrackedRun(c, ms);
  }

  /** A COMPLETED execution has driven the reader to the end and settled every record from its start on. */
  lemma CompletedSettlesAll(c: Config, s: State)
    requires Reachable(c, s) && !s.h.misplaced && s.phase == Done(false) && c.chunkSize > 0
    ensures s.r.next == |c.source| && s.h.start + |s.h.settled| == |c.source|
    ensures s.db.committed == s.h.base + WrittenRows(s.h.settled)
    ensures AllTruthful(c, s.h.start, s.h.settled)
  {
    hide Run, Chunked;
    var ms :| Run(c, FRESH, ms) == s;
    TrackedRun(c, ms);
  }

  /** The processed forms of all items of a list of records. */
  function Results(rs: seq<Record>): seq<Row> {
    if rs == [] then []
    else (if rs[0].Item? && rs[0].result.Some? then [rs[0].result.value] else []) + Results(rs[1..])
  }

  lemma {:induction false} CleanFates(c: Config, from: nat, fs: seq<Fate>)
    requires from + |fs| == |c.source| && AllTruthful(c, from, fs) && NoneQueued(fs)
    requires forall i :: 0 <= i < |fs| ==> !fs[i].Skipped? && !fs[i].Dropped?
    ensures WrittenRows(fs) == Results(c.source[from..])
    decreases |fs|
  {
    if fs != [] {
      assert Truthful(c, from + 0, fs[0]);
      TruthfulTail(c, from, fs, 1);
      assert c.source[from..][1..] == c.source[from + 1..];
      CleanFates(c, from + 1, fs[1..]);
    }
  }

  /** Without skips and drops, a COMPLETED first execution commits the processed form of every item, once and in order. */
  lemma CleanCompletion(c: Config, s: State)
    requires Reachable(c, s) && !s.h.misplaced && s.phase == Done(false) && c.chunkSize > 0
    requires forall f :: f in s.h.settled ==> !f.Skipped? && !f.Dropped?
    ensures s.h.start <= |c.source| && s.db.committed == s.h.base + Results(c.source[s.h.start..])
  {
    hide Run, Chunked;
    var ms :| Run(c, FRESH, ms) == s;
    TrackedRun(c, ms);
    CleanFates(c, s.h.start, s.h.settled);
  }

  /** No call was made to the reader and nothing was written or saved, in this execution or before. */
  ghost predicate Untouched(s: State) {
    && (s.phase.Down? || s.phase.Top? || s.phase.Closing? || s.phase.Done?)
    && s.t.readCalls == 0 && s.db.open.None? && s.db.committed == [] && s.disk.saved.None?
  }

  lemma {:induction false} UntouchedRun(c: Config, ms: seq<Move>)
    requires c.chunkSize <= 0
    ensures Untouched(Run(c, FRESH, ms))
    decreases |ms|
  {
    if ms != [] {
      UntouchedRun(c, ms[..|ms| - 1]);
      TransactionalRun(c, ms[..|ms| - 1]);
    }
  }

  /**
  With a chunk size of zero or less no execution of any run reads, commits or saves anything; and one whose first
  transaction can be begun completes all the same.
  */
  lemma NoChunkSizeReadsNothing(c: Config, s: State, begun: Answer, closed: Answer)
    requires c.chunkSize <= 0 && Reachable(c, s)
    ensures Untouched(s)
    ensures s.phase.Top? && begun.ok && closed.ok ==> Step(c, Step(c, s, begun), closed).phase == Done(false)
  {
    hide Run, Chunked;
    var ms :| Run(c, FRESH, ms) == s;
    UntouchedRun(c, ms);
    TransactionalRun(c, ms);
  }

  const FATAL := Answer(false, false, false, false, false, true, 0)

  /** A transaction can be left open at return wherever the reader is called at all. */
  lemma OpenAtReturnIff(c: Config)
    ensures (exists s :: Reachable(c, s) && s.phase.Done? && s.db.open.Some?) <==> c.chunkSize > 0
  {
    hide Chunked;
    if c.chunkSize > 0 {
      var ms := NextMove(c, [], Starts);
      ms := NextMove(c, ms, Call(OK));
      ms := NextMove(c, ms, Call(FATAL));
      ms := NextMove(c, ms, Call(OK));
      assert Reachable(c, Run(c, FRESH, ms));
    } else if s :| Reachable(c, s) && s.phase.Done? && s.db.open.Some? {
      NoChunkSizeReadsNothing(c, s, OK, OK);
      assert false;
    }
  }
}
