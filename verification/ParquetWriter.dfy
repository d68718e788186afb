/**
The Parquet writer: rows are buffered by partition key and a flush uploads one file a partition. Encoding and uploading
are answers of the environment; a row carries what the partition key function answers for it.
*/
module ParquetWriters {
  import opened Options

  /** `key` is None when the partition key function fails on the row. */
  datatype Row = Row(body: int, key: Option<string>)

  type Buffer = map<string, seq<Row>>

  /** `number` is what the file name shows for the sequence placeholder. */
  datatype File = File(number: nat, rows: seq<Row>)

  /** The uploaded files of each partition in upload order, and the writer's partition sequences. */
  datatype Store = Store(files: map<string, seq<File>>, sequences: map<string, nat>)

  datatype Outcome = Uploaded | EncodeFailed | UploadFailed

  const EMPTY := Store(map[], map[])

  function RowsOf(b: Buffer, k: string): seq<Row> {
    if k in b then b[k] else []
  }

  function FilesOf(s: Store, k: string): seq<File> {
    if k in s.files then s.files[k] else []
  }

  function SequenceOf(s: Store, k: string): nat {
    if k in s.sequences then s.sequences[k] else 0
  }

  function Put(b: Buffer, row: Row): Buffer
    requires row.key.Some?
  {
    b[row.key.value := RowsOf(b, row.key.value) + [row]]
  }

  /** One turn of the flush loop: a file name is generated, and its sequence number used up, unless encoding failed. */
  function Upload(s: Store, k: string, rows: seq<Row>, o: Outcome): Store {
    match o
    case EncodeFailed => s
    case UploadFailed => s.(sequences := s.sequences[k := SequenceOf(s, k) + 1])
    case Uploaded =>
      Store(s.files[k := FilesOf(s, k) + [File(SequenceOf(s, k), rows)]], s.sequences[k := SequenceOf(s, k) + 1])
  }

  // ---------- Rows of a partition ----------

  /** The rows with key `k`, in order. */
  function Part(rows: seq<Row>, k: string): seq<Row> {
    if rows == [] then []
    else Part(rows[..|rows| - 1], k) + (if rows[|rows| - 1].key == Some(k) then [rows[|rows| - 1]] else [])
  }

  lemma {:induction false} PartConcat(a: seq<Row>, b: seq<Row>, k: string)
    ensures Part(a + b, k) == Part(a, k) + Part(b, k)
    decreases |b|
  {
    if b == [] {
      assert a + b == a;
    } else {
      assert (a + b)[..|a + b| - 1] == a + b[..|b| - 1];
      PartConcat(a, b[..|b| - 1], k);
    }
  }

  lemma PartOne(row: Row, k: string)
    ensures Part([row], k) == if row.key == Some(k) then [row] else []
  {
    assert [row][..0] == [];
  }

  lemma PartNothing(k: string)
    ensures Part([], k) == [] && RowsOf(map[], k) == []
  {
  }

  lemma PartSnoc(rows: seq<Row>, row: Row, k: string)
    ensures Part(rows + [row], k) == Part(rows, k) + (if row.key == Some(k) then [row] else [])
  {
    PartConcat(rows, [row], k);
    PartOne(row, k);
  }

  /** The rows in the files, in upload order. */
  function Contents(files: seq<File>): seq<Row> {
    if files == [] then [] else Contents(files[..|files| - 1]) + files[|files| - 1].rows
  }

  lemma ContentsSnoc(files: seq<File>, f: File)
    ensures Contents(files + [f]) == Contents(files) + f.rows
  {
    assert (files + [f])[..|files|] == files;
  }

  ghost predicate Rising(files: seq<File>, bound: nat) {
    && (forall i :: 0 <= i < |files| ==> files[i].number < bound)
    && (forall i, j :: 0 <= i < j < |files| ==> files[i].number < files[j].number)
  }

  /** File numbers of a partition rise strictly and stay below its sequence, so names built from them never clash. */
  ghost predicate Numbered(s: Store) {
    forall k :: Rising(FilesOf(s, k), SequenceOf(s, k))
  }

  lemma UploadNumbered(s: Store, k: string, rows: seq<Row>, o: Outcome)
    requires Numbered(s)
    ensures Numbered(Upload(s, k, rows, o))
  {
    hide Rising;
    var t := Upload(s, k, rows, o);
    forall j ensures Rising(FilesOf(t, j), SequenceOf(t, j)) {
      assert Rising(FilesOf(s, j), SequenceOf(s, j));
      RisingSnoc(FilesOf(s, j), SequenceOf(s, j), rows);
    }
  }

  lemma RisingSnoc(files: seq<File>, bound: nat, rows: seq<Row>)
    requires Rising(files, bound)
    ensures Rising(files, bound + 1) && Rising(files + [File(bound, rows)], bound + 1)
  {
  }

  /** How many of the items come before the first one without a key. */
  function Keyed(items: seq<Row>): (n: nat)
    ensures n <= |items| && (forall i :: 0 <= i < n ==> items[i].key.Some?) && (n < |items| ==> items[n].key.None?)
  {
    if items == [] || items[0].key.None? then 0 else 1 + Keyed(items[1..])
  }

  lemma KeyedIs(items: seq<Row>, n: nat)
    requires n <= |items| && (forall i :: 0 <= i < n ==> items[i].key.Some?) && (n < |items| ==> items[n].key.None?)
    ensures Keyed(items) == n
  {
    if Keyed(items) < n {
      assert false;
    }
  }

  /** `after` is `before` with the rows added, each to its partition. */
  ghost predicate Filled(before: Buffer, after: Buffer, rows: seq<Row>) {
    forall k :: RowsOf(after, k) == RowsOf(before, k) + Part(rows, k)
  }

  lemma FilledNothing(b: Buffer)
    ensures Filled(b, b, [])
  {
  }

  lemma PutFrame(b: Buffer, row: Row, k: string)
    requires row.key.Some?
    ensures RowsOf(Put(b, row), k) == RowsOf(b, k) + (if row.key == Some(k) then [row] else [])
  {
  }

  lemma FilledPut(before: Buffer, b: Buffer, rows: seq<Row>, row: Row)
    requires Filled(before, b, rows) && row.key.Some?
    ensures Filled(before, Put(b, row), rows + [row])
  {
    hide Part, RowsOf, Put;
    forall k ensures RowsOf(Put(b, row), k) == RowsOf(before, k) + Part(rows + [row], k) {
      PutFrame(b, row, k);
      PartSnoc(rows, row, k);
    }
  }

  /** What a flush of `keys` adds for `k`: a file if it was uploaded, a number if it could be encoded. */
  predicate FlushedKey(before: Store, after: Store, b: Buffer, keys: set<string>, o: Outcome, k: string) {
    && FilesOf(after, k) == (if k in keys && o.Uploaded? then FilesOf(before, k) + [File(SequenceOf(before, k), RowsOf(b, k))]
                             else FilesOf(before, k))
    && SequenceOf(after, k) == SequenceOf(before, k) + (if k in keys && !o.EncodeFailed? then 1 else 0)
  }

  ghost predicate Flushed(before: Store, after: Store, b: Buffer, keys: set<string>, outcomes: string -> Outcome) {
    forall k :: FlushedKey(before, after, b, keys, outcomes(k), k)
  }

  lemma FlushedNothing(s: Store, b: Buffer, outcomes: string -> Outcome)
    ensures Flushed(s, s, b, {}, outcomes)
  {
  }

  lemma UploadFrame(s: Store, k: string, rows: seq<Row>, o: Outcome, j: string)
    ensures var t := Upload(s, k, rows, o);
            && FilesOf(t, j) == (if j == k && o.Uploaded? then FilesOf(s, j) + [File(SequenceOf(s, k), rows)] else FilesOf(s, j))
            && SequenceOf(t, j) == SequenceOf(s, j) + (if j == k && !o.EncodeFailed? then 1 else 0)
  {
  }

  lemma FlushedUpload(before: Store, s: Store, b: Buffer, keys: set<string>, outcomes: string -> Outcome, k: string)
    requires Flushed(before, s, b, keys, outcomes) && k !in keys
    ensures Flushed(before, Upload(s, k, RowsOf(b, k), outcomes(k)), b, keys + {k}, outcomes)
  {
    hide Upload, FilesOf, SequenceOf, RowsOf;
    forall j ensures FlushedKey(before, Upload(s, k, RowsOf(b, k), outcomes(k)), b, keys + {k}, outcomes(j), j) {
      assert FlushedKey(before, s, b, keys, outcomes(j), j);
      UploadFrame(s, k, RowsOf(b, k), outcomes(k), j);
    }
  }

  /** A flush adds to each uploaded partition exactly the rows buffered for it, in the order they were written. */
  lemma FlushDelivers(before: Store, after: Store, b: Buffer, rows: seq<Row>, outcomes: string -> Outcome, k: string)
    requires Filled(map[], b, rows) && Flushed(before, after, b, b.Keys, outcomes)
    ensures Contents(FilesOf(after, k))
            == Contents(FilesOf(before, k)) + (if outcomes(k).Uploaded? then Part(rows, k) else [])
  {
    assert FlushedKey(before, after, b, b.Keys, outcomes(k), k);
    assert RowsOf(b, k) == RowsOf(map[], k) + Part(rows, k) == Part(rows, k);
    ContentsSnoc(FilesOf(before, k), File(SequenceOf(before, k), RowsOf(b, k)));
    assert Contents(FilesOf(before, k)) + [] == Contents(FilesOf(before, k));
  }

  class ParquetWriter {
    var bufferedItems: Buffer
    var store: Store

    constructor ()
      ensures bufferedItems == map[] && store == EMPTY
    {
      bufferedItems, store := map[], EMPTY;
    }

    /** A key failure stops the call; the items before it stay buffered. */
    method Write(items: seq<Row>) returns (ok: bool)
      modifies `bufferedItems
      ensures ok <==> forall i :: 0 <= i < |items| ==> items[i].key.Some?
      ensures Filled(old(bufferedItems), bufferedItems, items[..Keyed(items)])
    {
      hide Filled;
      assert Filled(bufferedItems, bufferedItems, []) by {
        FilledNothing(bufferedItems);
      }
      for i := 0 to |items|
        invariant forall j :: 0 <= j < i ==> items[j].key.Some?
        invariant Filled(old(bufferedItems), bufferedItems, items[..i])
      {
        if items[i].key.None? {
          KeyedIs(items, i);
          return false;
        }
        FilledPut(old(bufferedItems), bufferedItems, items[..i], items[i]);
        bufferedItems := Put(bufferedItems, items[i]);
        assert items[..i + 1] == items[..i] + [items[i]];
      }
      KeyedIs(items, |items|);
      return true;
    }

    /** Partitions are taken in any order; every one is attempted, and the buffer is cleared whatever failed. */
    method Flush(outcomes: string -> Outcome) returns (ok: bool)
      requires Numbered(store)
      modifies this
      ensures bufferedItems == map[] && Numbered(store)
      ensures ok <==> forall k :: k in old(bufferedItems) ==> outcomes(k).Uploaded?
      ensures Flushed(old(store), store, old(bufferedItems), old(bufferedItems).Keys, outcomes)
    {
      hide Flushed, FlushedKey, Numbered, Upload;
      ok := true;
      var todo := bufferedItems.Keys;
      assert Flushed(store, store, bufferedItems, {}, outcomes) by {
        FlushedNothing(store, bufferedItems, outcomes);
      }
      if |bufferedItems| == 0 {
        return;
      }
      assert todo - todo == {};
      while todo != {}
        invariant todo <= bufferedItems.Keys && bufferedItems == old(bufferedItems) && Numbered(store)
        invariant ok <==> forall k :: k in old(bufferedItems).Keys - todo ==> outcomes(k).Uploaded?
        invariant Flushed(old(store), store, old(bufferedItems), old(bufferedItems).Keys - todo, outcomes)
        decreases todo
      {
        var partitionKey :| partitionKey in todo;
        UploadNumbered(store, partitionKey, bufferedItems[partitionKey], outcomes(partitionKey));
        FlushedUpload(old(store), store, bufferedItems, bufferedItems.Keys - todo, outcomes, partitionKey);
        assert bufferedItems.Keys - (todo - {partitionKey}) == bufferedItems.Keys - todo + {partitionKey};
        store := Upload(store, partitionKey, bufferedItems[partitionKey], outcomes(partitionKey));
        ok := ok && outcomes(partitionKey).Uploaded?;
        todo := todo - {partitionKey};
      }
      assert bufferedItems.Keys - todo == bufferedItems.Keys;
      bufferedItems := map[];
    }
  }
}
