/**
The keyed table behind `Tx.ExecuteUpsert`.  A writer's conflict columns and update columns
split every row into three groups: the conflict key, the columns that an update overwrites,
and the columns that are only ever written by the first insert.
*/
module Upsert {
  import opened Options

  datatype Row = Row(key: string, kept: string, updated: string)

  /** An empty list of update columns means DO NOTHING, any other list DO UPDATE. */
  datatype OnConflict = DoNothing | DoUpdate

  type Table = map<string, Row>

  function Resolve(mode: OnConflict, existing: Row, incoming: Row): (r: Row) {
    match mode
    case DoNothing => existing
    case DoUpdate => existing.(updated := incoming.updated)
  }

  function UpsertOne(mode: OnConflict, t: Table, row: Row): (r: Table) {
    if row.key in t then t[row.key := Resolve(mode, t[row.key], row)] else t[row.key := row]
  }

  function UpsertAll(mode: OnConflict, t: Table, rows: seq<Row>): (r: Table)
    decreases |rows|
  {
    if rows == [] then t else UpsertAll(mode, UpsertOne(mode, t, rows[0]), rows[1..])
  }

  ghost predicate HasKeys(t: Table, rows: seq<Row>) {
    forall i :: 0 <= i < |rows| ==> rows[i].key in t
  }

  function Lookup(t: Table, k: string): (r: Option<Row>) {
    if k in t then Some(t[k]) else None
  }

  /** What a list of rows does to the entry of one key. */
  function Entry(mode: OnConflict, e: Option<Row>, rows: seq<Row>, k: string): (r: Option<Row>)
    decreases |rows|
  {
    if rows == [] then e
    else if rows[0].key != k then Entry(mode, e, rows[1..], k)
    else if e.None? then Entry(mode, Some(rows[0]), rows[1..], k)
    else Entry(mode, Some(Resolve(mode, e.value, rows[0])), rows[1..], k)
  }

  /** Upserting acts on each key separately. */
  lemma {:induction false} EntryOfUpsertAll(mode: OnConflict, t: Table, rows: seq<Row>, k: string)
    ensures Lookup(UpsertAll(mode, t, rows), k) == Entry(mode, Lookup(t, k), rows, k)
    decreases |rows|
  {
    if rows != [] {
      EntryOfUpsertAll(mode, UpsertOne(mode, t, rows[0]), rows[1..], k);
    }
  }

  lemma {:induction false} UpsertAllConcat(mode: OnConflict, t: Table, a: seq<Row>, b: seq<Row>)
    ensures UpsertAll(mode, t, a + b) == UpsertAll(mode, UpsertAll(mode, t, a), b)
    decreases |a|
  {
    if a == [] {
      assert a + b == b;
    } else {
      assert (a + b)[1..] == a[1..] + b;
      UpsertAllConcat(mode, UpsertOne(mode, t, a[0]), a[1..], b);
    }
  }

  lemma {:induction false} EntryConcat(mode: OnConflict, e: Option<Row>, a: seq<Row>, b: seq<Row>, k: string)
    ensures Entry(mode, e, a + b, k) == Entry(mode, Entry(mode, e, a, k), b, k)
    decreases |a|
  {
    if a == [] {
      assert a + b == b;
    } else {
      assert (a + b)[1..] == a[1..] + b;
      EntryConcat(mode, if a[0].key != k then e
                        else if e.None? then Some(a[0]) else Some(Resolve(mode, e.value, a[0])), a[1..], b, k);
    }
  }

  predicate Mentions(rows: seq<Row>, k: string) {
    exists i :: 0 <= i < |rows| && rows[i].key == k
  }

  /** Of two entries that share their never-updated columns, only the updated column can differ, and one more mention of the key levels it. */
  lemma {:induction false} EntryOverwrites(mode: OnConflict, x: Row, y: Row, rows: seq<Row>, k: string)
    requires x == y.(updated := x.updated)
    requires mode.DoNothing? ==> x == y
    requires Mentions(rows, k)
    ensures Entry(mode, Some(x), rows, k) == Entry(mode, Some(y), rows, k)
    decreases |rows|
  {
    if rows[0].key == k {
      assert Resolve(mode, x, rows[0]) == Resolve(mode, y, rows[0]);
    } else {
      assert Mentions(rows[1..], k) by {
        var i :| 0 <= i < |rows| && rows[i].key == k;
        assert rows[1..][i - 1].key == k;
      }
      EntryOverwrites(mode, x, y, rows[1..], k);
    }
  }

  /** Once an entry exists, rows only ever change its updated column, and under DO NOTHING not even that. */
  lemma {:induction false} EntryKeeps(mode: OnConflict, x: Row, rows: seq<Row>, k: string)
    ensures Entry(mode, Some(x), rows, k).Some?
    ensures var y := Entry(mode, Some(x), rows, k).value;
            y == x.(updated := y.updated) && (mode.DoNothing? ==> y == x)
    decreases |rows|
  {
    if rows != [] {
      EntryKeeps(mode, if rows[0].key != k then x else Resolve(mode, x, rows[0]), rows[1..], k);
    }
  }

  lemma {:induction false} EntryUnmentioned(mode: OnConflict, e: Option<Row>, rows: seq<Row>, k: string)
    requires !Mentions(rows, k)
    ensures Entry(mode, e, rows, k) == e
    decreases |rows|
  {
    if rows != [] {
      assert rows[0].key != k;
      forall i | 0 <= i < |rows[1..]| ensures rows[1..][i].key != k {
        assert rows[1..][i] == rows[i + 1];
      }
      EntryUnmentioned(mode, e, rows[1..], k);
    }
  }

  /** Applying `b` before a replay `x + b + y` leaves no trace, one key at a time. */
  lemma {:induction false} EntryAbsorbs(mode: OnConflict, e: Option<Row>, x: seq<Row>, b: seq<Row>, y: seq<Row>, k: string)
    requires Mentions(x, k) ==> e.Some?
    ensures Entry(mode, Entry(mode, e, b, k), x + b + y, k) == Entry(mode, e, x + b + y, k)
  {
    var all := x + b + y;
    if !Mentions(b, k) {
      EntryUnmentioned(mode, e, b, k);
    } else {
      var i :| 0 <= i < |b| && b[i].key == k;
      assert all[|x| + i].key == k;
      if e.Some? {
        EntryKeeps(mode, e.value, b, k);
        EntryOverwrites(mode, Entry(mode, e, b, k).value, e.value, all, k);
      } else {
        EntryUnmentioned(mode, e, x, k);
        EntryFromNothing(mode, b, y, k);
        assert all == x + (b + y);
        EntryConcat(mode, e, x, b + y, k);
        var z := Entry(mode, e, b, k);
        EntrySome(mode, b, k);
        EntryConcat(mode, z, x, b + y, k);
        EntryUnmentioned(mode, z, x, k);
      }
    }
  }

  lemma {:induction false} EntrySome(mode: OnConflict, b: seq<Row>, k: string)
    requires Mentions(b, k)
    ensures Entry(mode, None, b, k).Some?
    decreases |b|
  {
    if b[0].key == k {
      EntryKeeps(mode, b[0], b[1..], k);
    } else {
      var i :| 0 <= i < |b| && b[i].key == k;
      assert b[1..][i - 1].key == k;
      EntrySome(mode, b[1..], k);
    }
  }

  /** A first application of `b` followed by `b + y` equals `b + y` alone, starting from no entry. */
  lemma {:induction false} EntryFromNothing(mode: OnConflict, b: seq<Row>, y: seq<Row>, k: string)
    requires Mentions(b, k)
    ensures Entry(mode, Entry(mode, None, b, k), b + y, k) == Entry(mode, None, b + y, k)
    decreases |b|
  {
    EntrySome(mode, b, k);
    var z := Entry(mode, None, b, k);
    EntryConcat(mode, None, b, y, k);
    EntryConcat(mode, z, b, y, k);
    if b[0].key != k {
      var i :| 0 <= i < |b| && b[i].key == k;
      assert b[1..][i - 1].key == k;
      EntryFromNothing(mode, b[1..], [], k);
      assert b[1..] + [] == b[1..];
    } else {
      EntryKeeps(mode, b[0], b[1..], k);
      assert Entry(mode, z, b, k) == Entry(mode, Some(Resolve(mode, z.value, b[0])), b[1..], k);
      if Mentions(b[1..], k) {
        EntryOverwrites(mode, Resolve(mode, z.value, b[0]), b[0], b[1..], k);
      } else {
        EntryUnmentioned(mode, Some(b[0]), b[1..], k);
        EntryUnmentioned(mode, Some(Resolve(mode, z.value, b[0])), b[1..], k);
      }
    }
  }

  /**
  Replay absorption: rows `b` already applied before a replay of `x + b + y` change nothing in the
  outcome, provided the table already knows every key of `x`.  This holds under DO NOTHING and DO UPDATE.
  */
  lemma ReplayAbsorbed(mode: OnConflict, t: Table, x: seq<Row>, b: seq<Row>, y: seq<Row>)
    requires HasKeys(t, x)
    ensures UpsertAll(mode, UpsertAll(mode, t, b), x + b + y) == UpsertAll(mode, t, x + b + y)
  {
    var left := UpsertAll(mode, UpsertAll(mode, t, b), x + b + y);
    var right := UpsertAll(mode, t, x + b + y);
    forall k: string ensures Lookup(left, k) == Lookup(right, k) {
      EntryOfUpsertAll(mode, UpsertAll(mode, t, b), x + b + y, k);
      EntryOfUpsertAll(mode, t, b, k);
      EntryOfUpsertAll(mode, t, x + b + y, k);
      EntryAbsorbs(mode, Lookup(t, k), x, b, y, k);
    }
    SameLookups(left, right);
  }

  lemma SameLookups(a: Table, b: Table)
    requires forall k: string :: Lookup(a, k) == Lookup(b, k)
    ensures a == b
  {
    assert forall k: string :: k in a <==> Lookup(a, k).Some?;
    assert forall k: string :: k in b <==> Lookup(b, k).Some?;
    assert forall k: string :: k in a ==> Lookup(a, k) == Some(a[k]);
    assert forall k: string :: k in b ==> Lookup(b, k) == Some(b[k]);
    forall k | k in a ensures k in b && a[k] == b[k] {
      assert Lookup(a, k) == Lookup(b, k);
    }
    forall k | k in b ensures k in a {
      assert Lookup(a, k) == Lookup(b, k);
    }
  }

  predicate FirstMention(rows: seq<Row>, k: string, i: int) {
    0 <= i < |rows| && rows[i].key == k && forall j :: 0 <= j < i ==> rows[j].key != k
  }

  predicate LastMention(rows: seq<Row>, k: string, i: int) {
    0 <= i < |rows| && rows[i].key == k && forall j :: i < j < |rows| ==> rows[j].key != k
  }

  lemma {:induction false} EntryOfMentioned(mode: OnConflict, e: Option<Row>, rows: seq<Row>, k: string, first: int, last: int)
    requires FirstMention(rows, k, first) && LastMention(rows, k, last)
    ensures Entry(mode, e, rows, k)
            == Some((if e.Some? then e.value else rows[first])
                    .(updated := if mode.DoUpdate? then rows[last].updated else if e.Some? then e.value.updated else rows[first].updated))
    decreases |rows|
  {
    var rest := rows[1..];
    if rows[0].key != k {
      assert FirstMention(rest, k, first - 1) && LastMention(rest, k, last - 1) by {
        assert forall j :: 0 <= j < |rest| ==> rest[j] == rows[j + 1];
      }
      EntryOfMentioned(mode, e, rest, k, first - 1, last - 1);
    } else {
      var now := if e.None? then rows[0] else Resolve(mode, e.value, rows[0]);
      if last == 0 {
        EntryUnmentioned(mode, Some(now), rest, k);
      } else {
        assert rest[last - 1] == rows[last];
        EntryKeeps(mode, now, rest, k);
        if mode.DoUpdate? {
          EntryOfLast(now, rest, k, last - 1);
        }
      }
    }
  }

  lemma {:induction false} EntryOfLast(x: Row, rows: seq<Row>, k: string, last: int)
    requires LastMention(rows, k, last)
    ensures Entry(DoUpdate, Some(x), rows, k) == Some(x.(updated := rows[last].updated))
    decreases |rows|
  {
    var now := if rows[0].key == k then Resolve(DoUpdate, x, rows[0]) else x;
    if last == 0 {
      EntryUnmentioned(DoUpdate, Some(now), rows[1..], k);
    } else {
      EntryOfLast(now, rows[1..], k, last - 1);
    }
  }

  /**
  The row under a key that is mentioned, in terms of the rows alone: it is the table's or else the first one mentioned, and
  under DO UPDATE it has the updated column of the last one mentioned.
  */
  lemma UpsertedRow(mode: OnConflict, t: Table, rows: seq<Row>, k: string, first: int, last: int)
    requires FirstMention(rows, k, first) && LastMention(rows, k, last)
    ensures var base := if k in t then t[k] else rows[first];
            k in UpsertAll(mode, t, rows)
            && UpsertAll(mode, t, rows)[k] == if mode.DoUpdate? then Row(base.key, base.kept, rows[last].updated) else base
  {
    EntryOfUpsertAll(mode, t, rows, k);
    EntryOfMentioned(mode, Lookup(t, k), rows, k, first, last);
  }

  /** Upserting never forgets a key, and learns every key it is given. */
  lemma {:induction false} UpsertAllKeys(mode: OnConflict, t: Table, rows: seq<Row>)
    ensures forall k :: k in UpsertAll(mode, t, rows) <==> k in t || Mentions(rows, k)
    decreases |rows|
  {
    if rows != [] {
      UpsertAllKeys(mode, UpsertOne(mode, t, rows[0]), rows[1..]);
      forall k ensures Mentions(rows, k) <==> rows[0].key == k || Mentions(rows[1..], k) {
        if Mentions(rows, k) && rows[0].key != k {
          var i :| 0 <= i < |rows| && rows[i].key == k;
          assert rows[1..][i - 1].key == k;
        }
        if Mentions(rows[1..], k) {
          var i :| 0 <= i < |rows[1..]| && rows[1..][i].key == k;
          assert rows[i + 1].key == k;
        }
      }
    }
  }
}
