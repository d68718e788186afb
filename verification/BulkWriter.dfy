/** `SqlBulkWriter.Write`: an upsert cut into batches inside the caller's transaction. */
module BulkWriter {
  import opened Options
  import opened Upsert

  /** The caller's transaction on one table; `fails(n)` tells whether its n-th upsert is refused, without effect. */
  class Transaction {
    const mode: OnConflict
    const fails: nat -> bool
    var table: Table
    var calls: nat

    constructor (mode: OnConflict, table: Table, fails: nat -> bool)
      ensures this.mode == mode && this.table == table && this.fails == fails && calls == 0
    {
      this.mode, this.table, this.fails, calls := mode, table, fails, 0;
    }

    method ExecuteUpsert(rows: seq<Row>) returns (ok: bool)
      modifies this
      ensures calls == old(calls) + 1 && ok == !fails(old(calls))
      ensures table == if ok then UpsertAll(mode, old(table), rows) else old(table)
    {
      ok := !fails(calls);
      calls := calls + 1;
      if ok {
        var i := 0;
        ghost var t0 := table;
        assert rows[..0] == [];
        while i < |rows|
          invariant 0 <= i <= |rows| && table == UpsertAll(mode, t0, rows[..i])
          invariant calls == old(calls) + 1
        {
          assert rows[..i + 1] == rows[..i] + [rows[i]];
          UpsertAllConcat(mode, t0, rows[..i], [rows[i]]);
          assert UpsertAll(mode, table, [rows[i]]) == UpsertOne(mode, table, rows[i]);
          table := UpsertOne(mode, table, rows[i]);
          i := i + 1;
        }
        assert rows[..i] == rows;
      }
    }
  }

  /** How many batches of `bulkSize` items there are. */
  function Batches(n: nat, bulkSize: nat): nat
    requires bulkSize > 0
    decreases n
  {
    if n == 0 then 0 else if n <= bulkSize then 1 else 1 + Batches(n - bulkSize, bulkSize)
  }

  /** A multiple of the batch size: where one batch ends and the next begins. */
  predicate IsCut(k: nat, bulkSize: nat)
    requires bulkSize > 0
    decreases k
  {
    k == 0 || (k >= bulkSize && IsCut(k - bulkSize, bulkSize))
  }

  /** As many whole batches as fit, and one more for the rest. */
  lemma {:induction false} BatchCount(n: nat, bulkSize: nat)
    requires bulkSize > 0 && n > 0
    ensures (Batches(n, bulkSize) - 1) * bulkSize < n <= Batches(n, bulkSize) * bulkSize
    decreases n
  {
    if n > bulkSize {
      BatchCount(n - bulkSize, bulkSize);
      var rest := Batches(n - bulkSize, bulkSize);
      assert (1 + rest) * bulkSize == bulkSize + rest * bulkSize && (rest - 1) * bulkSize == rest * bulkSize - bulkSize;
    }
  }

  lemma {:induction false} CutIff(k: nat, bulkSize: nat)
    requires bulkSize > 0
    ensures IsCut(k, bulkSize) <==> exists n: nat :: k == n * bulkSize
    ensures IsCut(k, bulkSize) ==> k == Batches(k, bulkSize) * bulkSize
    decreases k
  {
    if k >= bulkSize {
      CutIff(k - bulkSize, bulkSize);
      var rest := Batches(k - bulkSize, bulkSize);
      assert (1 + rest) * bulkSize == bulkSize + rest * bulkSize;
      if n: nat :| k == n * bulkSize {
        assert n > 0;
        assert k - bulkSize == (n - 1) * bulkSize;
      }
      if n: nat :| k - bulkSize == n * bulkSize {
        assert k == (n + 1) * bulkSize;
      }
    } else {
      assert k == 0 ==> k == 0 * bulkSize;
    }
  }

  class SqlBulkWriter {
    const bulkSize: nat

    constructor (bulkSize: nat)
      requires bulkSize > 0
      ensures this.bulkSize == bulkSize
    {
      this.bulkSize := bulkSize;
    }

    /**
    Cutting an upsert into batches changes nothing: on success the table is the one upsert of all items; on an error
    some whole batches at the front have been applied, for the caller to roll back.
    */
    method Write(items: seq<Row>, tx: Option<Transaction>) returns (ok: bool)
      requires bulkSize > 0
      modifies if tx.Some? then {tx.value} else {}
      ensures items == [] ==> ok && (tx.Some? ==> tx.value.table == old(tx.value.table) && tx.value.calls == old(tx.value.calls))
      ensures items != [] && tx.None? ==> !ok
      ensures items != [] && tx.Some? ==>
                (ok <==> forall n :: old(tx.value.calls) <= n < old(tx.value.calls) + Batches(|items|, bulkSize) ==> !tx.value.fails(n))
      ensures ok && tx.Some? ==> tx.value.table == UpsertAll(tx.value.mode, old(tx.value.table), items)
                                 && tx.value.calls == old(tx.value.calls) + Batches(|items|, bulkSize)
      ensures !ok && tx.Some? ==>
                exists k :: 0 <= k < |items| && IsCut(k, bulkSize)
                            && tx.value.table == UpsertAll(tx.value.mode, old(tx.value.table), items[..k])
                            && tx.value.calls == old(tx.value.calls) + Batches(k, bulkSize) + 1
    {
      if items == [] {
        return true;
      }
      if tx.None? {
        return false;
      }
      var current := tx.value;
      ghost var t0, c0 := current.table, current.calls;
      assert items[..0] == [];
      var i := 0;
      while i < |items|
        invariant 0 <= i <= |items|
        invariant current.table == UpsertAll(current.mode, t0, items[..i])
        invariant i < |items| ==> IsCut(i, bulkSize) && current.calls == c0 + Batches(i, bulkSize)
        invariant c0 <= current.calls && current.calls - c0 + Batches(|items| - i, bulkSize) == Batches(|items|, bulkSize)
        invariant forall n :: c0 <= n < current.calls ==> !current.fails(n)
      {
        var end := if i + bulkSize > |items| then |items| else i + bulkSize;
        assert items[..end] == items[..i] + items[i..end];
        UpsertAllConcat(current.mode, t0, items[..i], items[i..end]);
        ok := current.ExecuteUpsert(items[i..end]);
        if !ok {
          assert current.fails(current.calls - 1);
          return false;
        }
        i := end;
      }
      assert items[..|items|] == items;
      return true;
    }
  }
}
