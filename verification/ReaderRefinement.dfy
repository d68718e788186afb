/** The chunk engine's cursor and the cursor readers are the same positional reader. */
module ReaderRefinement {
  import opened Options
  import opened ChunkModel
  import Readers = CursorReaders

  function Goods(c: Config): (g: seq<bool>)
    ensures |g| == |c.source| && forall i :: 0 <= i < |g| ==> g[i] == c.source[i].Item?
  {
    seq(|c.source|, i requires 0 <= i < |c.source| => c.source[i].Item?)
  }

  function Where(r: Cursor): Readers.Position {
    Readers.Position(r.next, r.count)
  }

  lemma NextItemKeepsCursor(c: Config, s: State)
    ensures NextItem(c, s).r == s.r
  {
  }

  /** A Read of the engine that reaches the source moves its cursor as the readers do; one that fails before does not move it. */
  lemma EngineReadsPositionally(c: Config, s: State, attempts: nat, a: Answer)
    requires s.r.next <= |c.source|
    ensures Where(OnRead(c, s, attempts, a).r)
            == if a.ok then Readers.Advance(Goods(c), Where(s.r)) else Where(s.r)
  {
    hide NextItem, Settle;
    forall t: State ensures NextItem(c, t).r == t.r {
      NextItemKeepsCursor(c, t);
    }
  }

  /** A restart opens the reader at the saved position as the readers do. */
  lemma EngineResumesPositionally(c: Config, s: State)
    requires s.disk.saved.Some?
    ensures Where(Start(c, s).r) == Readers.Resume(Goods(c), s.disk.saved.value.position)
  {
  }
}
