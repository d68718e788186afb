/**
The CSV and SQL cursor readers.  Both refine one positional reader: a position in the source and a count of
delivered items, which is all that their entry in an ExecutionContext keeps.
*/
module CursorReaders {
  import opened Options

  // ---------- ExecutionContext entries ----------

  datatype Entry = Text(text: string) | Int(number: int) | Float(decimal: real) | OtherValue

  /** An ExecutionContext is a shared map: whoever holds it sees the reader's writes. */
  class Context {
    var entries: map<string, Entry>

    constructor (entries: map<string, Entry>)
      ensures this.entries == entries
    {
      this.entries := entries;
    }
  }

  /** Go's conversion of a float to an integer truncates towards zero. */
  function Truncate(x: real): int {
    if x >= 0.0 then x.Floor else -((-x).Floor)
  }

  /** ExecutionContext.GetInt. */
  function GetInt(m: map<string, Entry>, key: string): Option<int> {
    if key !in m then None
    else match m[key]
         case Int(i) => Some(i)
         case Float(x) => Some(Truncate(x))
         case _ => None
  }

  /** What a stored number becomes when the context is written as JSON and read back. */
  function ThroughJson(e: Entry): Entry {
    match e
    case Int(i) => Float(i as real)
    case _ => e
  }

  // ---------- Decimal numerals, as strconv.Itoa and strconv.Atoi have them ----------

  function Digit(d: nat): char
    requires d < 10
  {
    ['0', '1', '2', '3', '4', '5', '6', '7', '8', '9'][d]
  }

  function Itoa(n: nat): string {
    if n < 10 then [Digit(n)] else Itoa(n / 10) + [Digit(n % 10)]
  }

  predicate IsDigit(ch: char) {
    '0' <= ch <= '9'
  }

  function DigitsValue(s: string): nat
    requires forall ch :: ch in s ==> IsDigit(ch)
  {
    if s == [] then 0
    else
      assert IsDigit(s[|s| - 1]);
      DigitsValue(s[..|s| - 1]) * 10 + (s[|s| - 1] as int - '0' as int)
  }

  /** An optional sign and at least one digit; anything else is a format error.  Range errors are not modelled. */
  function Atoi(s: string): Option<int> {
    var negative := s != [] && s[0] == '-';
    var digits := if s != [] && (s[0] == '-' || s[0] == '+') then s[1..] else s;
    if digits == [] || exists ch :: ch in digits && !IsDigit(ch) then None
    else
      var value: int := DigitsValue(digits);
      Some(if negative then -value else value)
  }

  lemma {:induction false} ItoaDigits(n: nat)
    ensures Itoa(n) != [] && (forall ch :: ch in Itoa(n) ==> IsDigit(ch))
    ensures DigitsValue(Itoa(n)) == n
  {
    if n < 10 {
      assert Itoa(n)[..0] == [];
    } else {
      ItoaDigits(n / 10);
      DigitsSnoc(Itoa(n / 10), n % 10);
      assert n == n / 10 * 10 + n % 10;
    }
  }

  lemma DigitsSnoc(s: string, d: nat)
    requires d < 10 && forall ch :: ch in s ==> IsDigit(ch)
    ensures forall ch :: ch in s + [Digit(d)] ==> IsDigit(ch)
    ensures DigitsValue(s + [Digit(d)]) == DigitsValue(s) * 10 + d
  {
    assert (s + [Digit(d)])[..|s|] == s;
  }

  lemma AtoiItoa(n: nat)
    ensures Atoi(Itoa(n)) == Some(n)
  {
    ItoaDigits(n);
    assert IsDigit(Itoa(n)[0]);
  }

  lemma AtoiSigned(n: nat)
    ensures var i: int := n; Atoi("-" + Itoa(n)) == Some(-i) && Atoi("+" + Itoa(n)) == Some(i)
  {
    ItoaDigits(n);
    assert ("-" + Itoa(n))[1..] == Itoa(n) && ("+" + Itoa(n))[1..] == Itoa(n);
  }

  /** Nothing but digits, at least one, behind at most one sign is a number; zeros in front do not count. */
  lemma AtoiAccepts(s: string)
    ensures Atoi(s).Some? <==> || (s != [] && forall i :: 0 <= i < |s| ==> IsDigit(s[i]))
                               || (|s| > 1 && (s[0] == '-' || s[0] == '+') && forall i :: 1 <= i < |s| ==> IsDigit(s[i]))
    ensures s != [] && (forall i :: 0 <= i < |s| ==> IsDigit(s[i])) ==> Atoi("0" + s) == Atoi(s)
  {
    if s != [] && forall i :: 0 <= i < |s| ==> IsDigit(s[i]) {
      ZeroInFront(s);
    }
    assert s != [] && (s[0] == '-' || s[0] == '+') ==> forall i :: 1 <= i < |s| ==> s[i] == s[1..][i - 1];
  }

  lemma {:induction false} ZeroInFront(s: string)
    requires forall ch :: ch in s ==> IsDigit(ch)
    ensures (forall ch :: ch in "0" + s ==> IsDigit(ch)) && DigitsValue("0" + s) == DigitsValue(s)
  {
    if s == [] {
      assert ("0" + s)[..0] == [];
    } else {
      ZeroInFront(s[..|s| - 1]);
      assert ("0" + s)[..|s|] == "0" + s[..|s| - 1];
    }
  }

  /** GetInt finds an integer as it is and a float without its fraction, towards zero, and nothing in any other entry. */
  lemma GetIntFinds(m: map<string, Entry>, key: string)
    ensures match if key in m then m[key] else OtherValue {
              case Int(i) => GetInt(m, key) == Some(i)
              case Float(x) =>
                && GetInt(m, key).Some?
                && var i := GetInt(m, key).value;
                   if x >= 0.0 then i as real <= x < i as real + 1.0 else i as real - 1.0 < x <= i as real
              case _ => GetInt(m, key) == None
            }
  {
  }

  // ---------- The positional reader ----------

  /** `next` records have been consumed from the source, `count` of them (or of an earlier reader's) delivered. */
  datatype Position = Position(next: nat, count: nat)

  /** One Read against a source of which `good[i]` tells whether record i can be delivered. */
  function Advance(good: seq<bool>, p: Position): Position {
    if p.next >= |good| then p
    else if good[p.next] then Position(p.next + 1, p.count + 1)
    else Position(p.next + 1, p.count)
  }

  function AfterReads(good: seq<bool>, p: Position, k: nat): Position {
    if k == 0 then p else Advance(good, AfterReads(good, p, k - 1))
  }

  function Failures(good: seq<bool>): nat {
    if good == [] then 0 else Failures(good[..|good| - 1]) + (if good[|good| - 1] then 0 else 1)
  }

  /** A fresh reader opened with a saved count. */
  function Resume(good: seq<bool>, saved: nat): Position {
    Position(if saved < |good| then saved else |good|, saved)
  }

  lemma {:induction false} FailuresBound(good: seq<bool>)
    ensures Failures(good) <= |good|
    ensures Failures(good) == 0 <==> forall i :: 0 <= i < |good| ==> good[i]
  {
    if good != [] {
      FailuresBound(good[..|good| - 1]);
    }
  }

  lemma {:induction false} ReadsFromStart(good: seq<bool>, k: nat)
    ensures var p := AfterReads(good, Position(0, 0), k);
            && p.next == (if k < |good| then k else |good|)
            && p.count + Failures(good[..p.next]) == p.next
  {
    if k > 0 {
      ReadsFromStart(good, k - 1);
      var q := AfterReads(good, Position(0, 0), k - 1);
      if q.next < |good| {
        assert good[..q.next + 1][..q.next] == good[..q.next];
      }
    }
  }

  /**
  Resume round trip: after any number of reads from a fresh start, p records of which m could not be delivered,
  a fresh reader opened with the saved count stands at record p - m.  It is never past a record that was not
  consumed, and exactly in place if and only if nothing failed.
  */
  lemma ResumeRoundTrip(good: seq<bool>, k: nat)
    ensures var p := AfterReads(good, Position(0, 0), k);
            var r := Resume(good, p.count);
            && p.next <= |good|
            && r.next == p.next - Failures(good[..p.next])
            && r.next <= p.next
            && (r == p <==> forall i :: 0 <= i < p.next ==> good[i])
  {
    ReadsFromStart(good, k);
    var p := AfterReads(good, Position(0, 0), k);
    FailuresBound(good[..p.next]);
  }

  /** What reading from a fresh start keeps: the count falls behind the position by the failures met. */
  ghost predicate CountsDelivered(good: seq<bool>, p: Position) {
    p.next <= |good| && p.count + Failures(good[..p.next]) == p.next
  }

  lemma AdvanceCounts(good: seq<bool>, p: Position)
    requires CountsDelivered(good, p)
    ensures CountsDelivered(good, Advance(good, p))
  {
    if p.next < |good| {
      assert good[..p.next + 1][..p.next] == good[..p.next];
    }
  }

  /** The context as the repository hands it out again, written as JSON in between or not. */
  function Restored(m: map<string, Entry>, throughJson: bool): map<string, Entry> {
    if throughJson then map k | k in m :: ThroughJson(m[k]) else m
  }

  // ---------- CsvCursorReader ----------

  datatype CsvRecord = Fields(fields: seq<string>) | BadRecord

  datatype ReadResult = Delivered(item: string) | EndOfFile | ReadError

  const READ_COUNT_KEY := "csv.reader.readCount"

  class CsvCursorReader {
    const stream: seq<CsvRecord>
    const mapper: seq<string> -> Option<string>
    var at: nat
    var readCount: int
    var ec: Context

    constructor (stream: seq<CsvRecord>, mapper: seq<string> -> Option<string>, ec: Context)
      ensures this.stream == stream && this.mapper == mapper && this.ec == ec && at == 0 && readCount == 0
    {
      this.stream, this.mapper, this.ec := stream, mapper, ec;
      at, readCount := 0, 0;
    }

    predicate Good(i: nat)
      requires i < |stream|
    {
      stream[i].Fields? && mapper(stream[i].fields).Some?
    }

    ghost function Goods(): seq<bool> {
      seq(|stream|, i requires 0 <= i < |stream| => Good(i))
    }

    ghost predicate Valid()
      reads this
    {
      at <= |stream| && 0 <= readCount
    }

    ghost function Where(): Position
      requires Valid()
      reads this
    {
      Position(at, readCount)
    }

    /** The read count that Open takes from a context: an absent entry or one of another type leaves the old one. */
    function CountIn(m: map<string, Entry>, before: int): Option<int> {
      if READ_COUNT_KEY !in m then Some(before)
      else match m[READ_COUNT_KEY]
           case Text(s) => Atoi(s)
           case Int(i) => Some(i)
           case _ => Some(before)
    }

    /** Open skips as many records as the context says; a record that cannot be parsed makes it fail. */
    method Open(ec: Context) returns (ok: bool)
      requires at <= |stream|
      modifies this
      ensures this.ec == ec && at <= |stream|
      ensures ok ==> CountIn(ec.entries, old(readCount)) == Some(readCount)
      ensures ok ==> at == (if readCount <= 0 then old(at)
                            else if old(at) + readCount < |stream| then old(at) + readCount else |stream|)
      ensures ok <==> var n := CountIn(ec.entries, old(readCount));
                      n.Some? && forall i :: old(at) <= i < old(at) + n.value && i < |stream| ==> stream[i].Fields?
    {
      this.ec := ec;
      var count := CountIn(ec.entries, readCount);
      if count.None? {
        return false;
      }
      readCount := count.value;
      var i := 0;
      while i < readCount
        invariant this.ec == ec && readCount == count.value && old(at) <= at <= |stream|
        invariant i <= 0 || i <= readCount
        invariant at == (if i <= 0 then old(at) else old(at) + i)
        invariant forall j :: old(at) <= j < at ==> stream[j].Fields?
      {
        if at == |stream| {
          break;
        }
        at := at + 1;
        if stream[at - 1].BadRecord? {
          return false;
        }
        i := i + 1;
      }
      return true;
    }

    /** Read refines the positional reader, and stores the count of a delivered item in the shared context. */
    method Read() returns (r: ReadResult)
      requires Valid()
      modifies this, ec
      ensures Valid() && ec == old(ec)
      ensures Where() == Advance(Goods(), old(Where()))
      ensures r.EndOfFile? <==> old(at) == |stream|
      ensures r.Delivered? <==> old(at) < |stream| && Good(old(at))
      ensures r.Delivered? ==> Some(r.item) == mapper(stream[old(at)].fields)
      ensures ec.entries == if r.Delivered? then old(ec.entries)[READ_COUNT_KEY := Text(Itoa(readCount))] else old(ec.entries)
    {
      if at == |stream| {
        return EndOfFile;
      }
      var record := stream[at];
      at := at + 1;
      if record.BadRecord? {
        return ReadError;
      }
      var item := mapper(record.fields);
      if item.None? {
        return ReadError;
      }
      readCount := readCount + 1;
      ec.entries := ec.entries[READ_COUNT_KEY := Text(Itoa(readCount))];
      return Delivered(item.value);
    }

    method Update(target: Context)
      requires Valid()
      modifies target
      ensures target.entries == old(target.entries)[READ_COUNT_KEY := Text(Itoa(readCount))]
    {
      target.entries := target.entries[READ_COUNT_KEY := Text(Itoa(readCount))];
    }
  }

  /** The entry that a CSV reader has stored opens a fresh one at its count, directly and after a round through JSON. */
  lemma CsvEntryRestores(r: CsvCursorReader, m: map<string, Entry>, count: nat)
    requires READ_COUNT_KEY in m
    requires m[READ_COUNT_KEY] == Text(Itoa(count)) || m[READ_COUNT_KEY] == ThroughJson(Text(Itoa(count)))
    ensures r.CountIn(m, 0) == Some(count)
  {
    AtoiItoa(count);
  }

  /** A missing entry, or one that is neither a number as such nor a text, is no count: the reader keeps its own. */
  lemma ForeignEntryIgnored(r: CsvCursorReader, m: map<string, Entry>, before: int)
    ensures READ_COUNT_KEY !in m || m[READ_COUNT_KEY].Float? || m[READ_COUNT_KEY].OtherValue? ==> r.CountIn(m, before) == Some(before)
    ensures READ_COUNT_KEY in m && m[READ_COUNT_KEY].Int? ==> r.CountIn(m, before) == GetInt(m, READ_COUNT_KEY)
  {
  }

  /** Opening on the count of a reader that has consumed n records of a stream skips no record that cannot be parsed. */
  ghost predicate Reopens(stream: seq<CsvRecord>, good: seq<bool>, n: nat)
    requires n <= |good| == |stream|
  {
    forall i :: 0 <= i < n - Failures(good[..n]) ==> stream[i].Fields?
  }

  /**
  A restart of a CSV reader: any number of reads from a fresh start, and a fresh reader opened on the saved context. It opens
  if and only if no record among the first p - m cannot be parsed, where p records were consumed and m of them failed;
  and then it stands at record p - m.
  */
  method RestartCsv(r: CsvCursorReader, times: nat, throughJson: bool) returns (again: CsvCursorReader, ok: bool)
    requires r.at == 0 && r.readCount == 0 && READ_COUNT_KEY !in r.ec.entries
    modifies r, r.ec
    ensures r.Valid() && CountsDelivered(r.Goods(), r.Where()) && r.at == if times < |r.stream| then times else |r.stream|
    ensures fresh(again) && again.stream == r.stream && again.at <= |again.stream|
    ensures ok <==> Reopens(r.stream, r.Goods(), r.at)
    ensures ok ==> again.Valid() && again.Where() == Resume(r.Goods(), r.readCount)
                   && again.at == r.at - Failures(r.Goods()[..r.at])
  {
    ghost var goods := r.Goods();
    ghost var before := r.ec;
    for i := 0 to times
      invariant r.Valid() && r.ec == before && CountsDelivered(goods, r.Where())
      invariant r.at == if i < |r.stream| then i else |r.stream|
      invariant if r.readCount == 0 then READ_COUNT_KEY !in r.ec.entries
                else READ_COUNT_KEY in r.ec.entries && r.ec.entries[READ_COUNT_KEY] == Text(Itoa(r.readCount))
    {
      AdvanceCounts(goods, r.Where());
      var item := r.Read();
    }
    var context := new Context(Restored(r.ec.entries, throughJson));
    again := new CsvCursorReader(r.stream, r.mapper, context);
    if r.readCount > 0 {
      CsvEntryRestores(again, context.entries, r.readCount);
    }
    ok := again.Open(context);
  }

  lemma {:induction false} FailuresOfRest(good: seq<bool>, n: nat)
    requires n <= |good|
    ensures n - Failures(good[..n]) <= |good| - Failures(good)
    decreases |good|
  {
    if n == |good| {
      assert good[..n] == good;
    } else {
      FailuresOfRest(good[..|good| - 1], n);
      assert good[..|good| - 1][..n] == good[..n];
    }
  }

  /**
  Some restart of a reader cannot open again if and only if a record that cannot be parsed lies among the first d of its
  stream, where d records of the whole stream can be delivered.
  */
  lemma SomeRestartFailsIff(r: CsvCursorReader)
    ensures (exists n :: 0 <= n <= |r.stream| && !Reopens(r.stream, r.Goods(), n))
            <==> (exists i :: 0 <= i < |r.stream| - Failures(r.Goods()) && r.stream[i].BadRecord?)
  {
    var good := r.Goods();
    assert good[..|good|] == good;
    if n: nat :| n <= |r.stream| && !Reopens(r.stream, good, n) {
      FailuresOfRest(good, n);
    }
    if i :| 0 <= i < |r.stream| - Failures(good) && r.stream[i].BadRecord? {
      assert !Reopens(r.stream, good, |r.stream|);
    }
  }

  /** Such a stream: one record that cannot be parsed, between records that can. */
  method RestartFails() returns (ok: bool)
    ensures !ok
  {
    var stream := [Fields([]), BadRecord, Fields([]), Fields([])];
    var context := new Context(map[]);
    var reader := new CsvCursorReader(stream, _ => Some("item"), context);
    var again;
    again, ok := RestartCsv(reader, |stream|, false);
    ghost var good := reader.Goods();
    assert good == [true, false, true, true];
    FailuresBound(good[..1]);
    assert good[..2][..1] == good[..1] && Failures(good[..2]) == 1;
    assert good[..3][..2] == good[..2] && Failures(good[..3]) == 1;
    assert good[..4][..3] == good[..3] && !reader.stream[1].Fields?;
  }

  // ---------- SqlCursorReader ----------

  class SqlCursorReader {
    const name: string
    const table: seq<string>              // the rows of the query without OFFSET
    const mapper: string -> Option<string>
    var rows: Option<nat>                 // the open cursor: how many rows of the table are behind it
    var readCount: int
    var ec: Context

    constructor (name: string, table: seq<string>, mapper: string -> Option<string>, ec: Context)
      ensures this.name == name && this.table == table && this.mapper == mapper && this.ec == ec
      ensures rows == None && readCount == 0
    {
      this.name, this.table, this.mapper, this.ec := name, table, mapper, ec;
      rows, readCount := None, 0;
    }

    function Key(): string {
      name + ".readCount"
    }

    ghost function Goods(): seq<bool> {
      seq(|table|, i requires 0 <= i < |table| => mapper(table[i]).Some?)
    }

    ghost predicate Valid()
      reads this
    {
      rows.Some? && rows.value <= |table| && 0 <= readCount
    }

    ghost function Where(): Position
      requires Valid()
      reads this
    {
      Position(rows.value, readCount)
    }

    /** Open resumes by OFFSET; a missing entry, or one that is not a number, starts from the first row. */
    method Open(ec: Context, queryFails: bool) returns (ok: bool)
      modifies this
      ensures this.ec == ec && ok == !queryFails
      ensures readCount == GetInt(ec.entries, Key()).Or(0)
      ensures ok ==> rows == Some(if readCount <= 0 then 0 else if readCount < |table| then readCount else |table|)
      ensures ok && 0 <= readCount ==> Valid() && Where() == Resume(Goods(), readCount)
    {
      this.ec := ec;
      var startOffset := GetInt(ec.entries, Key());
      readCount := if startOffset.Some? then startOffset.value else 0;
      var offset := if readCount > 0 then readCount else 0;
      if queryFails {
        return false;
      }
      rows := Some(if offset < |table| then offset else |table|);
      return true;
    }

    /** Read refines the positional reader, unless the iteration itself fails, which moves nothing. */
    method Read(iterationFails: bool) returns (r: ReadResult)
      requires rows.Some? ==> Valid()
      modifies this, ec
      ensures ec == old(ec)
      ensures old(rows).None? || iterationFails ==> r.ReadError? && rows == old(rows) && readCount == old(readCount)
      ensures old(rows).Some? && !iterationFails ==>
                && Valid() && Where() == Advance(Goods(), old(Where()))
                && (r.EndOfFile? <==> old(rows).value == |table|)
                && (r.Delivered? <==> old(rows).value < |table| && mapper(table[old(rows).value]).Some?)
                && (r.Delivered? ==> Some(r.item) == mapper(table[old(rows).value]))
      ensures ec.entries == if r.Delivered? then old(ec.entries)[Key() := Int(readCount)] else old(ec.entries)
    {
      if rows.None? || iterationFails {
        return ReadError;
      }
      var at := rows.value;
      if at == |table| {
        return EndOfFile;
      }
      rows := Some(at + 1);
      var mappedItem := mapper(table[at]);
      if mappedItem.None? {
        return ReadError;
      }
      readCount := readCount + 1;
      ec.entries := ec.entries[Key() := Int(readCount)];
      return Delivered(mappedItem.value);
    }

    method Update(target: Context)
      modifies target
      ensures target.entries == old(target.entries)[Key() := Int(readCount)]
    {
      target.entries := target.entries[Key() := Int(readCount)];
    }

    /** Closing twice is harmless; a cursor that cannot be closed stays open. */
    method Close(closeFails: bool) returns (ok: bool)
      modifies this
      ensures ok <==> old(rows).None? || !closeFails
      ensures rows == (if ok then None else old(rows)) && readCount == old(readCount) && ec == old(ec)
    {
      if rows.Some? {
        if closeFails {
          return false;
        }
        rows := None;
      }
      return true;
    }

    method SetExecutionContext(ec: Context)
      modifies this
      ensures this.ec == ec && rows == old(rows) && readCount == GetInt(ec.entries, Key()).Or(0)
    {
      this.ec := ec;
      var found := GetInt(ec.entries, Key());
      readCount := if found.Some? then found.value else 0;
    }
  }

  /** The entry that an SQL reader has stored restores its count, directly and after a round through JSON. */
  lemma SqlEntryRestores(m: map<string, Entry>, key: string, count: nat)
    requires key in m && (m[key] == Int(count) || m[key] == ThroughJson(Int(count)))
    ensures GetInt(m, key) == Some(count)
  {
  }

  /**
  A restart of a SQL reader: any number of reads from a fresh start, some of which may fail in the iteration, and a fresh
  reader opened on the saved context. It stands at record p - m, where p rows were consumed and m could not be mapped.
  */
  method RestartSql(r: SqlCursorReader, times: nat, fails: nat -> bool, throughJson: bool) returns (again: SqlCursorReader, ok: bool)
    requires r.rows == Some(0) && r.readCount == 0 && r.Key() !in r.ec.entries
    modifies r, r.ec
    ensures r.Valid() && CountsDelivered(r.Goods(), r.Where())
    ensures fresh(again) && again.table == r.table && ok
    ensures again.Valid() && again.Where() == Resume(r.Goods(), r.readCount)
    ensures again.rows == Some(r.rows.value - Failures(r.Goods()[..r.rows.value]))
  {
    ghost var goods := r.Goods();
    ghost var before := r.ec;
    for i := 0 to times
      invariant r.Valid() && r.ec == before && CountsDelivered(goods, r.Where())
      invariant if r.readCount == 0 then r.Key() !in r.ec.entries
                else r.Key() in r.ec.entries && r.ec.entries[r.Key()] == Int(r.readCount)
    {
      AdvanceCounts(goods, r.Where());
      var item := r.Read(fails(i));
    }
    var context := new Context(Restored(r.ec.entries, throughJson));
    again := new SqlCursorReader(r.name, r.table, r.mapper, context);
    if r.readCount > 0 {
      SqlEntryRestores(context.entries, r.Key(), r.readCount);
    }
    ok := again.Open(context, false);
  }
}
