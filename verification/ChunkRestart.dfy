/**
Crash/restart equivalence: with a keyed upsert table, any number of crashes, failures and restarts ends in
the table of one uninterrupted execution, provided every record meets the same fate whenever it is settled.
*/
module ChunkRestart {
  import opened Options
  import opened Upsert
  import opened ChunkModel
  import opened ChunkSafety
  import opened ChunkFates

  /** The settled records have the fates listed in `fates`. */
  ghost predicate Agrees(fates: seq<Fate>, h: History) {
    Edge(h) <= |fates| && h.settled == fates[h.start..Edge(h)]
  }

  /** In every moment of the run the settled records have the fates listed in `fates`. */
  ghost predicate SameFates(c: Config, fates: seq<Fate>, ms: seq<Move>) {
    forall k :: 0 <= k <= |ms| ==> Agrees(fates, Run(c, FRESH, ms[..k]).h)
  }

  // ---------- The table during a replay ----------

  /** Writing the rest of the source from record `p` on would complete the table. */
  ghost predicate Completes(mode: OnConflict, t: Table, fates: seq<Fate>, p: nat, goal: Table) {
    p <= |fates| && UpsertAll(mode, t, WrittenRows(fates[p..])) == goal
  }

  ghost predicate Replayable(mode: OnConflict, t: Table, fates: seq<Fate>, start: nat, saved: nat, edge: nat, goal: Table) {
    && start <= saved <= edge <= |fates|
    && HasKeys(t, WrittenRows(fates[start..edge]))
    && forall p {:trigger Completes(mode, t, fates, p, goal)} :: saved <= p <= edge ==> Completes(mode, t, fates, p, goal)
  }

  lemma HasKeysConcat(t: Table, a: seq<Row>, b: seq<Row>)
    ensures HasKeys(t, a + b) <==> HasKeys(t, a) && HasKeys(t, b)
  {
    var ab := a + b;
    if HasKeys(t, ab) {
      forall i | 0 <= i < |a| ensures a[i].key in t { assert ab[i] == a[i]; }
      forall i | 0 <= i < |b| ensures b[i].key in t { assert ab[|a| + i] == b[i]; }
    }
  }

  lemma KeysLearned(mode: OnConflict, t: Table, old': seq<Row>, rows: seq<Row>)
    requires HasKeys(t, old')
    ensures HasKeys(UpsertAll(mode, t, rows), old' + rows)
  {
    UpsertAllKeys(mode, t, rows);
    forall i | 0 <= i < |rows| ensures Mentions(rows, rows[i].key) {
    }
    HasKeysConcat(UpsertAll(mode, t, rows), old', rows);
  }

  lemma WrittenSlices(fates: seq<Fate>, a: nat, b: nat, d: nat)
    requires a <= b <= d <= |fates|
    ensures WrittenRows(fates[a..d]) == WrittenRows(fates[a..b]) + WrittenRows(fates[b..d])
  {
    assert fates[a..d] == fates[a..b] + fates[b..d];
    WrittenConcat(fates[a..b], fates[b..d]);
  }

  /** The written rows from `a` on, cut at `b` and `d`. */
  lemma WrittenSuffix(fates: seq<Fate>, a: nat, b: nat, d: nat)
    requires a <= b <= d <= |fates|
    ensures WrittenRows(fates[a..]) == WrittenRows(fates[a..b]) + WrittenRows(fates[b..d]) + WrittenRows(fates[d..])
  {
    WrittenSlices(fates, a, b, |fates|);
    WrittenSlices(fates, b, d, |fates|);
    assert fates[a..|fates|] == fates[a..] && fates[b..|fates|] == fates[b..] && fates[d..|fates|] == fates[d..];
    Associative(WrittenRows(fates[a..b]), WrittenRows(fates[b..d]), WrittenRows(fates[d..]));
  }

  /** A resume point before the old edge absorbs the rows just written. */
  lemma CompletesEarlier(mode: OnConflict, t: Table, fates: seq<Fate>, start: nat, p: nat, e: nat, e': nat, goal: Table)
    requires start <= p <= e <= e' <= |fates|
    requires HasKeys(t, WrittenRows(fates[start..e])) && Completes(mode, t, fates, p, goal)
    ensures Completes(mode, UpsertAll(mode, t, WrittenRows(fates[e..e'])), fates, p, goal)
  {
    WrittenSlices(fates, start, p, e);
    HasKeysConcat(t, WrittenRows(fates[start..p]), WrittenRows(fates[p..e]));
    WrittenSuffix(fates, p, e, e');
    ReplayAbsorbed(mode, t, WrittenRows(fates[p..e]), WrittenRows(fates[e..e']), WrittenRows(fates[e'..]));
  }

  /** A resume point inside the rows just written replays part of them. */
  lemma CompletesLater(mode: OnConflict, t: Table, fates: seq<Fate>, p: nat, e: nat, e': nat, goal: Table)
    requires e <= p <= e' <= |fates|
    requires Completes(mode, t, fates, e, goal)
    ensures Completes(mode, UpsertAll(mode, t, WrittenRows(fates[e..e'])), fates, p, goal)
  {
    var first, second, rest := WrittenRows(fates[e..p]), WrittenRows(fates[p..e']), WrittenRows(fates[e'..]);
    WrittenSlices(fates, e, p, e');
    UpsertAllConcat(mode, t, first, second);
    var z := UpsertAll(mode, t, first);
    assert HasKeys(z, []);
    ReplayAbsorbed(mode, z, [], second, rest);
    assert [] + second + rest == second + rest;
    WrittenSuffix(fates, p, p, e');
    assert WrittenRows(fates[p..p]) + second + rest == second + rest;
    WrittenSuffix(fates, e, p, e');
    Associative(first, second, rest);
    UpsertAllConcat(mode, t, first, second + rest);
  }

  lemma ReplayableGrows(mode: OnConflict, t: Table, fates: seq<Fate>, start: nat, saved: nat, saved': nat, e: nat, e': nat, goal: Table)
    requires Replayable(mode, t, fates, start, saved, e, goal)
    requires saved <= saved' <= e' && e <= e' <= |fates|
    ensures Replayable(mode, UpsertAll(mode, t, WrittenRows(fates[e..e'])), fates, start, saved', e', goal)
  {
    var t' := UpsertAll(mode, t, WrittenRows(fates[e..e']));
    KeysLearned(mode, t, WrittenRows(fates[start..e]), WrittenRows(fates[e..e']));
    WrittenSlices(fates, start, e, e');
    forall p | saved' <= p <= e' ensures Completes(mode, t', fates, p, goal) {
      if p <= e {
        CompletesEarlier(mode, t, fates, start, p, e, e', goal);
      } else {
        CompletesLater(mode, t, fates, p, e, e', goal);
      }
    }
  }

  // ---------- The engine ----------

  ghost predicate Grown(h: History, h': History) {
    h'.start == h.start && h'.base == h.base && h.settled <= h'.settled
  }

  lemma NextItemGrows(c: Config, s: State)
    ensures Grown(s.h, NextItem(c, s).h)
  {
  }

  lemma ReadErrorGrows(c: Config, s: State, r: Cursor, h: History, k: nat, a: Answer)
    ensures Grown(h, ReadError(c, s, r, h, k, a).h)
  {
    hide NextItem;
    var u := s.t.(readCalls := s.t.readCalls + 1, slots := s.t.slots + 1);
    NextItemGrows(c, s.(r := r, h := h, t := u, n := s.n.(step := s.n.step.(skipRead := s.n.step.skipRead + 1))));
  }

  lemma ReadGrows(c: Config, s: State, k: nat, a: Answer)
    ensures Grown(s.h, OnRead(c, s, k, a).h)
  {
    hide ReadError;
    ReadErrorGrows(c, s, s.r, s.h, k, a);
    ReadErrorGrows(c, s, s.r.(next := s.r.next + 1), Pend(s.h, Undelivered), k, a);
  }

  lemma ProcessGrows(c: Config, s: State, k: nat, a: Answer)
    ensures Grown(s.h, OnProcess(c, s, k, a).h)
  {
  }

  lemma WriteGrows(c: Config, s: State, a: Answer)
    requires s.phase.Writing? || s.phase.Committing? || s.phase.Saving? || s.phase.Closing?
    ensures Grown(s.h, Step(c, s, a).h)
  {
  }

  lemma SplitGrows(c: Config, s: State, a: Answer)
    requires s.phase.SplitTop? || s.phase.SplitWriting? || s.phase.SplitCommitting?
    ensures Grown(s.h, Step(c, s, a).h)
  {
  }

  /** A running execution only ever adds to its settled records. */
  lemma StepGrows(c: Config, s: State, a: Answer)
    ensures Grown(s.h, Step(c, s, a).h)
  {
    hide OnRead, OnProcess, OnWrite, OnCommit, OnSave, OnSplitTop, OnSplitWrite, OnSplitCommit, OnClose;
    match s.phase {
      case Down =>
      case Done(_) =>
      case Top => NextItemGrows(c, s.(db := s.db.Begin(), k := EMPTY_CHUNK));
      case Reading(k) => ReadGrows(c, s, k, a);
      case Processing(k) => ProcessGrows(c, s, k, a);
      case SplitTop => SplitGrows(c, s, a);
      case SplitWriting => SplitGrows(c, s, a);
      case SplitCommitting => SplitGrows(c, s, a);
      case _ => WriteGrows(c, s, a);
    }
  }

  lemma StepSavesLater(c: Config, s: State, a: Answer)
    requires Tracked(c, s)
    ensures Position(s.disk) <= Position(Step(c, s, a).disk)
  {
    hide Settled, Pending, AllTruthful, Settle, QueuedRows, WrittenRows, MarkWritten;
  }

  /** What the invariant says of one execution state. */
  ghost predicate Recoverable(mode: OnConflict, t0: Table, fates: seq<Fate>, s: State) {
    Replayable(mode, UpsertAll(mode, t0, s.db.committed), fates, s.h.start, Position(s.disk), Edge(s.h),
               UpsertAll(mode, t0, WrittenRows(fates)))
  }

  /** Between two moments of one execution the committed rows grow by those of the newly settled records. */
  lemma GrowthIsWritten(c: Config, fates: seq<Fate>, s: State, t: State)
    requires Settled(c, s) && Settled(c, t) && Grown(s.h, t.h)
    requires Agrees(fates, s.h) && Agrees(fates, t.h)
    ensures Edge(s.h) <= Edge(t.h)
    ensures t.db.committed == s.db.committed + WrittenRows(fates[Edge(s.h)..Edge(t.h)])
  {
    hide AllTruthful, NoneQueued;
    WrittenSlices(fates, s.h.start, Edge(s.h), Edge(t.h));
    Associative(s.h.base, WrittenRows(s.h.settled), WrittenRows(fates[Edge(s.h)..Edge(t.h)]));
  }

  lemma RecoverableGrows(c: Config, mode: OnConflict, t0: Table, fates: seq<Fate>, s: State, t: State)
    requires Settled(c, s) && Settled(c, t) && Grown(s.h, t.h)
    requires Agrees(fates, s.h) && Agrees(fates, t.h)
    requires Position(s.disk) <= Position(t.disk)
    requires Recoverable(mode, t0, fates, s)
    ensures Recoverable(mode, t0, fates, t)
  {
    GrowthIsWritten(c, fates, s, t);
    var rows := WrittenRows(fates[Edge(s.h)..Edge(t.h)]);
    UpsertAllConcat(mode, t0, s.db.committed, rows);
    ReplayableGrows(mode, UpsertAll(mode, t0, s.db.committed), fates, s.h.start, Position(s.disk), Position(t.disk),
                    Edge(s.h), Edge(t.h), UpsertAll(mode, t0, WrittenRows(fates)));
  }

  /** A restart resumes at the saved position, from where the table can be completed. */
  lemma RecoverableStart(c: Config, mode: OnConflict, t0: Table, fates: seq<Fate>, s: State)
    requires Tracked(c, s) && Recoverable(mode, t0, fates, s) && |fates| == |c.source|
    ensures Recoverable(mode, t0, fates, Start(c, s))
  {
    var t := Start(c, s);
    var p := Position(s.disk);
    var goal := UpsertAll(mode, t0, WrittenRows(fates));
    assert t.h.start == p && Edge(t.h) == p && t.db.committed == s.db.committed && Position(t.disk) == p;
    assert fates[p..p] == [];
    assert Completes(mode, UpsertAll(mode, t0, s.db.committed), fates, p, goal);
  }

  lemma RecoverableMove(c: Config, mode: OnConflict, t0: Table, fates: seq<Fate>, s: State, m: Move)
    requires Tracked(c, s) && Transactional(s) && !Apply(c, s, m).h.misplaced && |fates| == |c.source|
    requires Agrees(fates, s.h) && Agrees(fates, Apply(c, s, m).h)
    requires Recoverable(mode, t0, fates, s)
    ensures Recoverable(mode, t0, fates, Apply(c, s, m))
  {
    hide Recoverable, Agrees, Transactional, Step, Start;
    var t := Apply(c, s, m);
    TrackedMove(c, s, m);
    match m {
      case Call(a) =>
        StepGrows(c, s, a);
        StepSavesLater(c, s, a);
        RecoverableGrows(c, mode, t0, fates, s, t);
      case Crashes =>
        RecoverableGrows(c, mode, t0, fates, s, t);
      case Starts =>
        RecoverableStart(c, mode, t0, fates, s);
    }
  }

  lemma {:induction false} RecoverableRun(c: Config, mode: OnConflict, t0: Table, fates: seq<Fate>, ms: seq<Move>)
    requires !Run(c, FRESH, ms).h.misplaced && |fates| == |c.source|
    requires SameFates(c, fates, ms)
    ensures Recoverable(mode, t0, fates, Run(c, FRESH, ms))
    decreases |ms|
  {
    if ms == [] {
      assert fates[0..] == fates && fates[0..0] == [];
      assert Completes(mode, t0, fates, 0, UpsertAll(mode, t0, WrittenRows(fates)));
    } else {
      var last := ms[..|ms| - 1];
      var s := Run(c, FRESH, last);
      if s.h.misplaced {
        MisplacedSticks(c, s, ms[|ms| - 1]);
      }
      forall k | 0 <= k <= |last| ensures Agrees(fates, Run(c, FRESH, last[..k]).h) {
        assert last[..k] == ms[..k];
      }
      assert last[..|last|] == last && ms[..|ms|] == ms;
      RecoverableRun(c, mode, t0, fates, last);
      TrackedRun(c, last);
      TransactionalRun(c, last);
      RecoverableMove(c, mode, t0, fates, s, ms[|ms| - 1]);
    }
  }

  // ---------- Every record before the saved position ----------

  lemma ExtendTwice(past: nat, from: nat, mid: nat, till: nat)
    requires from <= mid <= till
    ensures Extend(Extend(past, from, mid), mid, till) == Extend(past, from, till)
  {
  }

  /** From `h` to `h'` past has moved only over the records settled in between. */
  predicate Extended(h: History, h': History) {
    Edge(h) <= Edge(h') && h'.past == Extend(h.past, Edge(h), Edge(h'))
  }

  lemma NextItemExtends(c: Config, s: State)
    ensures Extended(s.h, NextItem(c, s).h)
  {
  }

  lemma ReadErrorExtends(c: Config, s: State, r: Cursor, h: History, k: nat, a: Answer)
    ensures Extended(h, ReadError(c, s, r, h, k, a).h)
  {
    hide NextItem, Extended;
    ExtendedSelf(h);
    var u := s.t.(readCalls := s.t.readCalls + 1, slots := s.t.slots + 1);
    NextItemExtends(c, s.(r := r, h := h, t := u, n := s.n.(step := s.n.step.(skipRead := s.n.step.skipRead + 1))));
  }

  lemma ExtendedSelf(h: History)
    ensures Extended(h, h)
  {
  }

  lemma ReadExtends(c: Config, s: State, k: nat, a: Answer)
    ensures Extended(s.h, OnRead(c, s, k, a).h)
  {
    hide ReadError;
    ReadErrorExtends(c, s, s.r, s.h, k, a);
    ReadErrorExtends(c, s, s.r.(next := s.r.next + 1), Pend(s.h, Undelivered), k, a);
  }

  lemma ProcessExtends(c: Config, s: State, k: nat, a: Answer)
    ensures Extended(s.h, OnProcess(c, s, k, a).h)
  {
  }

  lemma SplitNextExtends(s: State)
    ensures Extended(s.h, SplitNext(s).h)
  {
  }

  lemma SettleHeadExtends(h: History, f: Fate)
    ensures Extended(h, SettleHead(h, f))
  {
  }

  lemma ExtendedTwice(h: History, h': History, h'': History)
    requires Extended(h, h') && Extended(h', h'')
    ensures Extended(h, h'')
  {
    ExtendTwice(h.past, Edge(h), Edge(h'), Edge(h''));
  }

  lemma SplitExtends(c: Config, s: State, a: Answer)
    requires s.phase.SplitTop? || s.phase.SplitWriting? || s.phase.SplitCommitting?
    ensures Extended(s.h, Step(c, s, a).h)
  {
    hide SettleHead, SplitNext, Extended, OnRead, OnProcess, OnWrite, OnCommit, OnSave, OnClose, OnTop;
    ExtendedSelf(s.h);
    var f := if s.phase.SplitCommitting? then Written(Head(s.k)) else Dropped(Head(s.k));
    SettleHeadExtends(s.h, f);
    if (s.phase.SplitCommitting? && a.ok)
       || (s.phase.SplitWriting? && !a.ok && a.skippable && s.n.step.skipWrite < c.skipLimit) {
      var db := s.db.Write(if a.staged == 0 then [] else [Head(s.k)]).Rollback();
      var u := if s.phase.SplitCommitting?
               then s.(db := s.db.Commit(true), h := SettleHead(s.h, f), k := Rest(s.k),
                       n := s.n.(step := s.n.step.(write := s.n.step.write + 1)), t := s.t.(splitWritten := s.t.splitWritten + 1))
               else s.(db := db, h := SettleHead(s.h, f), k := Rest(s.k), n := SkippedWrite(s.n),
                       t := s.t.(dropped := s.t.dropped + 1));
      SplitNextExtends(u);
      ExtendedTwice(s.h, u.h, SplitNext(u).h);
    }
  }

  /** A step moves `past` only over the records it settles. */
  lemma StepExtends(c: Config, s: State, a: Answer)
    ensures Extended(s.h, Step(c, s, a).h)
  {
    hide OnRead, OnProcess, OnSplitTop, OnSplitWrite, OnSplitCommit;
    match s.phase {
      case Reading(k) => ReadExtends(c, s, k, a);
      case Processing(k) => ProcessExtends(c, s, k, a);
      case SplitTop => SplitExtends(c, s, a);
      case SplitWriting => SplitExtends(c, s, a);
      case SplitCommitting => SplitExtends(c, s, a);
      case _ =>
    }
  }

  /** Record `i` is settled in `s`, with a fate that its content allows, and if it was written its row is among `committed`. */
  ghost predicate RecordSettled(c: Config, s: State, i: nat, committed: seq<Row>) {
    && s.h.start <= i < Edge(s.h)
    && var f := s.h.settled[i - s.h.start];
       Truthful(c, i, f) && !f.Queued? && (f.Written? ==> f.row in committed)
  }

  lemma {:induction false} WrittenIn(fs: seq<Fate>, i: nat)
    requires i < |fs| && fs[i].Written?
    ensures fs[i].row in WrittenRows(fs)
  {
    if i > 0 {
      WrittenIn(fs[1..], i - 1);
    }
  }

  lemma SettledRecord(c: Config, s: State, i: nat)
    requires Settled(c, s) && s.h.start <= i < Edge(s.h)
    ensures RecordSettled(c, s, i, s.db.committed)
  {
    var j := i - s.h.start;
    assert Truthful(c, s.h.start + j, s.h.settled[j]);
    if s.h.settled[j].Written? {
      WrittenIn(s.h.settled, j);
    }
  }

  lemma {:induction false} PastIsSettled(c: Config, ms: seq<Move>, i: nat)
    requires !Run(c, FRESH, ms).h.misplaced && i < Run(c, FRESH, ms).h.past
    ensures exists k :: 0 <= k <= |ms| && RecordSettled(c, Run(c, FRESH, ms[..k]), i, Run(c, FRESH, ms).db.committed)
    decreases |ms|
  {
    hide Step, Settled, Tracked, Settle;
    if ms != [] {
      var last, m := ms[..|ms| - 1], ms[|ms| - 1];
      var s, t := Run(c, FRESH, last), Run(c, FRESH, ms);
      if s.h.misplaced {
        MisplacedSticks(c, s, m);
      }
      CommitsWholeChunks(c, s, m);
      if i < s.h.past {
        PastIsSettled(c, last, i);
        var k :| 0 <= k <= |last| && RecordSettled(c, Run(c, FRESH, last[..k]), i, s.db.committed);
        assert ms[..k] == last[..k];
        assert RecordSettled(c, Run(c, FRESH, ms[..k]), i, t.db.committed);
      } else {
        PastIsNew(c, s, m);
        TrackedRun(c, ms);
        SettledOf(c, t);
        SettledRecord(c, t, i);
        assert ms[..|ms|] == ms;
      }
    }
  }

  lemma SettledOf(c: Config, s: State)
    requires Tracked(c, s)
    ensures Settled(c, s)
  {
  }

  lemma PastIsNew(c: Config, s: State, m: Move)
    ensures var t := Apply(c, s, m);
            t.h.past == s.h.past || (m.Call? && t.h.start == s.h.start && Edge(s.h) <= s.h.past && t.h.past == Edge(t.h))
  {
    hide Step;
    match m {
      case Call(a) =>
        StepExtends(c, s, a);
        StepGrows(c, s, a);
      case _ =>
    }
  }

  /**
  No record is lost, record by record: for each one before the saved position there was a moment of the run at which it was
  settled with a fate that its content allows; and if it was written its row is in the committed store.
  */
  lemma EverySavedRecordSettled(c: Config, ms: seq<Move>, i: nat)
    requires !Run(c, FRESH, ms).h.misplaced && i < Position(Run(c, FRESH, ms).disk)
    ensures exists k :: 0 <= k <= |ms| && RecordSettled(c, Run(c, FRESH, ms[..k]), i, Run(c, FRESH, ms).db.committed)
  {
    NoItemLost(c, Run(c, FRESH, ms));
    PastIsSettled(c, ms, i);
  }

  // ---------- Main results ----------

  /**
  Crash/restart equivalence.  `ms` is any run with any number of crashes, failures and restarts that ends COMPLETED in
  `s`, and `w` the end of one uninterrupted COMPLETED execution.  If every record meets in `ms` the fate it met there
  whenever it is settled, both leave the same table, under DO NOTHING and under DO UPDATE.
  */
  lemma CrashEquivalence(c: Config, mode: OnConflict, t0: Table, ms: seq<Move>, s: State, w: State)
    requires c.chunkSize > 0
    requires Run(c, FRESH, ms) == s && !s.h.misplaced && s.phase == Done(false)
    requires Reachable(c, w) && !w.h.misplaced && w.phase == Done(false) && w.h.start == 0 && w.h.base == []
    requires SameFates(c, w.h.settled, ms)
    ensures UpsertAll(mode, t0, s.db.committed) == UpsertAll(mode, t0, w.db.committed)
  {
    CompletedSettlesAll(c, w);
    CompletedSettlesAll(c, s);
    var fates := w.h.settled;
    RecoverableRun(c, mode, t0, fates, ms);
    assert [] + WrittenRows(fates) == WrittenRows(fates);
    var goal := UpsertAll(mode, t0, WrittenRows(fates));
    assert Completes(mode, UpsertAll(mode, t0, s.db.committed), fates, |fates|, goal);
    assert fates[|fates|..] == [];
  }

  /** The fate of a record that is neither skipped nor dropped. */
  function CleanFate(r: Record): Fate {
    match r
    case Malformed => Undelivered
    case Item(None) => Filtered
    case Item(Some(row)) => Written(row)
  }

  function CleanFateList(rs: seq<Record>): (fs: seq<Fate>)
    ensures |fs| == |rs| && forall i :: 0 <= i < |rs| ==> fs[i] == CleanFate(rs[i])
  {
    if rs == [] then [] else [CleanFate(rs[0])] + CleanFateList(rs[1..])
  }

  lemma {:induction false} CleanRows(rs: seq<Record>)
    ensures WrittenRows(CleanFateList(rs)) == Results(rs)
    decreases |rs|
  {
    if rs != [] {
      CleanRows(rs[1..]);
      assert CleanFateList(rs)[1..] == CleanFateList(rs[1..]);
    }
  }

  /** No skip and no drop at any moment of the run. */
  ghost predicate NeverSkips(c: Config, ms: seq<Move>) {
    forall k :: 0 <= k <= |ms| ==> forall f :: f in Run(c, FRESH, ms[..k]).h.settled ==> !f.Skipped? && !f.Dropped?
  }

  lemma CleanAgrees(c: Config, s: State)
    requires Settled(c, s)
    requires forall f :: f in s.h.settled ==> !f.Skipped? && !f.Dropped?
    ensures Agrees(CleanFateList(c.source), s.h)
  {
    var fates := CleanFateList(c.source);
    forall i | 0 <= i < |s.h.settled| ensures s.h.settled[i] == fates[s.h.start..Edge(s.h)][i] {
      assert s.h.settled[i] in s.h.settled;
      assert Truthful(c, s.h.start + i, s.h.settled[i]);
    }
  }

  lemma {:induction false} MisplacedStays(c: Config, ms: seq<Move>, k: nat)
    requires k <= |ms| && Run(c, FRESH, ms[..k]).h.misplaced
    ensures Run(c, FRESH, ms).h.misplaced
    decreases |ms|
  {
    if k == |ms| {
      assert ms[..k] == ms;
    } else {
      var last := ms[..|ms| - 1];
      assert last[..k] == ms[..k];
      MisplacedStays(c, last, k);
      MisplacedSticks(c, Run(c, FRESH, last), ms[|ms| - 1]);
    }
  }

  /**
  Without skips and drops nothing more has to be assumed: after any number of crashes and restarts the table is
  the initial one with the processed form of every item upserted once, in read order.
  */
  lemma CleanCrashEquivalence(c: Config, mode: OnConflict, t0: Table, ms: seq<Move>)
    requires c.chunkSize > 0
    requires !Run(c, FRESH, ms).h.misplaced && Run(c, FRESH, ms).phase == Done(false)
    requires NeverSkips(c, ms)
    ensures UpsertAll(mode, t0, Run(c, FRESH, ms).db.committed) == UpsertAll(mode, t0, Results(c.source))
  {
    var fates := CleanFateList(c.source);
    forall k | 0 <= k <= |ms| ensures Agrees(fates, Run(c, FRESH, ms[..k]).h) {
      if Run(c, FRESH, ms[..k]).h.misplaced {
        MisplacedStays(c, ms, k);
      }
      TrackedRun(c, ms[..k]);
      CleanAgrees(c, Run(c, FRESH, ms[..k]));
    }
    CompletedSettlesAll(c, Run(c, FRESH, ms));
    RecoverableRun(c, mode, t0, fates, ms);
    CleanRows(c.source);
    var s := Run(c, FRESH, ms);
    assert Completes(mode, UpsertAll(mode, t0, s.db.committed), fates, |fates|, UpsertAll(mode, t0, WrittenRows(fates)));
    assert fates[|fates|..] == [];
  }
}
