/**
Execution contexts: string keys, values that may be contexts themselves, and dotted keys that name a path into them.
The laws are stated on values; the class at the end updates the nested maps in place.
*/
module NestedContext {
  import opened Options

  datatype Value = Leaf(content: int) | Nested(context: Context)

  type Context = map<string, Value>

  // ---------- Dotted keys ----------

  /** The parts of a key between its dots; never empty. */
  function Split(key: string): (parts: seq<string>)
    ensures |parts| > 0
    ensures |parts| == 1 <==> '.' !in key
    ensures |parts| == 1 ==> parts[0] == key
  {
    if key == "" then [""]
    else
      var rest := Split(key[1..]);
      if key[0] == '.' then [""] + rest else [[key[0]] + rest[0]] + rest[1..]
  }

  function Join(parts: seq<string>): string
    requires |parts| > 0
  {
    if |parts| == 1 then parts[0] else parts[0] + "." + Join(parts[1..])
  }

  lemma {:induction false} JoinSplit(key: string)
    ensures Join(Split(key)) == key
  {
    if key != "" {
      JoinSplit(key[1..]);
      var rest := Split(key[1..]);
      if key[0] == '.' {
        assert Split(key)[1..] == rest;
      } else if |rest| > 1 {
        assert Split(key)[1..] == rest[1..];
      }
    }
  }

  lemma {:induction false} PartsHaveNoDot(key: string)
    ensures forall i :: 0 <= i < |Split(key)| ==> '.' !in Split(key)[i]
  {
    if key != "" {
      PartsHaveNoDot(key[1..]);
    }
  }

  // ---------- Put and get ----------

  function SubContext(c: Context, part: string): Context {
    if part in c && c[part].Nested? then c[part].context else map[]
  }

  /** Missing contexts on the way are created, and values on the way that are not contexts are replaced by new ones. */
  function PutParts(c: Context, parts: seq<string>, v: Value): Context
    requires |parts| > 0
    decreases |parts|
  {
    if |parts| == 1 then c[parts[0] := v]
    else c[parts[0] := Nested(PutParts(SubContext(c, parts[0]), parts[1..], v))]
  }

  function GetParts(c: Context, parts: seq<string>): Option<Value>
    requires |parts| > 0
    decreases |parts|
  {
    if parts[0] !in c then None
    else if |parts| == 1 then Some(c[parts[0]])
    else if c[parts[0]].Nested? then GetParts(c[parts[0]].context, parts[1..])
    else None
  }

  function PutNested(c: Context, key: string, v: Value): Context {
    PutParts(c, Split(key), v)
  }

  /** A flat entry under the whole key comes first. */
  function GetNested(c: Context, key: string): Option<Value> {
    if key in c then Some(c[key]) else GetParts(c, Split(key))
  }

  /** One of the paths leads through the other, or to it. */
  predicate Related(p: seq<string>, q: seq<string>) {
    p <= q || q <= p
  }

  lemma {:induction false} GetPutParts(c: Context, parts: seq<string>, v: Value)
    requires |parts| > 0
    ensures GetParts(PutParts(c, parts, v), parts) == Some(v)
    decreases |parts|
  {
    if |parts| > 1 {
      GetPutParts(SubContext(c, parts[0]), parts[1..], v);
    }
  }

  lemma {:induction false} PutPartsFrame(c: Context, p: seq<string>, q: seq<string>, v: Value)
    requires |p| > 0 && |q| > 0 && !Related(p, q)
    ensures GetParts(PutParts(c, p, v), q) == GetParts(c, q)
    decreases |p|
  {
    if p[0] == q[0] {
      assert |p| > 1 by {
        assert |p| == 1 ==> p <= q;
      }
      assert |q| > 1 by {
        assert |q| == 1 ==> q <= p;
      }
      TailsUnrelated(p, q);
      PutPartsFrame(SubContext(c, p[0]), p[1..], q[1..], v);
    }
  }

  lemma TailsUnrelated(p: seq<string>, q: seq<string>)
    requires |p| > 1 && |q| > 1 && p[0] == q[0]
    ensures Related(p[1..], q[1..]) <==> Related(p, q)
  {
    assert p == [p[0]] + p[1..] && q == [p[0]] + q[1..];
  }

  // ---------- Laws ----------

  /** Get after put returns the value, unless a flat entry under the dotted key shadows the path. */
  lemma GetAfterPut(c: Context, key: string, v: Value)
    ensures GetNested(PutNested(c, key, v), key) == Some(if '.' in key && key in c then c[key] else v)
  {
    GetPutParts(c, Split(key), v);
    HeadIsKey(key, Split(key)[0]);
  }

  /** A key is the first part of a path only if it has no dot. */
  lemma HeadIsKey(path: string, key: string)
    requires key == Split(path)[0]
    ensures '.' !in key && Split(key) == [key] <= Split(path)
  {
    PartsHaveNoDot(path);
  }

  /** A put leaves every key whose path is not related to its own unchanged, even where flat entries shadow paths. */
  lemma PutFrame(c: Context, key: string, other: string, v: Value)
    requires !Related(Split(key), Split(other))
    ensures GetNested(PutNested(c, key, v), other) == GetNested(c, other)
  {
    PutPartsFrame(c, Split(key), Split(other), v);
    if other == Split(key)[0] {
      HeadIsKey(key, other);
      assert false;
    }
  }

  /** What a put leaves under the first part of its path. */
  function PutHead(c: Context, parts: seq<string>, v: Value): Value
    requires |parts| > 0
  {
    if |parts| == 1 then v else Nested(PutParts(SubContext(c, parts[0]), parts[1..], v))
  }

  lemma PutIsHead(c: Context, parts: seq<string>, v: Value)
    requires |parts| > 0
    ensures PutParts(c, parts, v) == c[parts[0] := PutHead(c, parts, v)]
  {
  }

  lemma SubOfUpdate(c: Context, part: string, v: Value, other: string)
    ensures SubContext(c[part := v], other)
            == if other != part then SubContext(c, other) else if v.Nested? then v.context else map[]
  {
  }

  lemma {:induction false} PutPartsCommute(c: Context, p: seq<string>, v: Value, q: seq<string>, w: Value)
    requires |p| > 0 && |q| > 0 && !Related(p, q)
    ensures PutParts(PutParts(c, p, v), q, w) == PutParts(PutParts(c, q, w), p, v)
    decreases |p|
  {
    hide PutParts, SubContext;
    PutIsHead(c, p, v);
    PutIsHead(c, q, w);
    PutIsHead(PutParts(c, p, v), q, w);
    PutIsHead(PutParts(c, q, w), p, v);
    SubOfUpdate(c, p[0], PutHead(c, p, v), q[0]);
    SubOfUpdate(c, q[0], PutHead(c, q, w), p[0]);
    if p[0] == q[0] {
      assert |p| > 1 by {
        assert |p| == 1 ==> p <= q;
      }
      assert |q| > 1 by {
        assert |q| == 1 ==> q <= p;
      }
      TailsUnrelated(p, q);
      PutPartsCommute(SubContext(c, p[0]), p[1..], v, q[1..], w);
    } else {
      assert c[p[0] := PutHead(c, p, v)][q[0] := PutHead(c, q, w)] == c[q[0] := PutHead(c, q, w)][p[0] := PutHead(c, p, v)];
    }
  }

  /** Two puts of plain values on different paths commute if and only if neither path leads through the other. */
  lemma PathsCommuteIff(c: Context, p: seq<string>, v: int, q: seq<string>, w: int)
    requires |p| > 0 && |q| > 0 && p != q
    ensures PutParts(PutParts(c, p, Leaf(v)), q, Leaf(w)) == PutParts(PutParts(c, q, Leaf(w)), p, Leaf(v)) <==> !Related(p, q)
  {
    hide PutParts;
    if !Related(p, q) {
      PutPartsCommute(c, p, Leaf(v), q, Leaf(w));
    } else if p <= q {
      PutsClash(c, p, v, q, Leaf(w));
    } else {
      PutsClash(c, q, w, p, Leaf(v));
    }
  }

  /** Two puts of plain values under different keys commute if and only if neither key's path leads through the other's. */
  lemma PutsCommuteIff(c: Context, key: string, v: int, other: string, w: int)
    requires key != other
    ensures PutNested(PutNested(c, key, Leaf(v)), other, Leaf(w)) == PutNested(PutNested(c, other, Leaf(w)), key, Leaf(v))
            <==> !Related(Split(key), Split(other))
  {
    hide PutParts, GetParts, Split, Join;
    JoinSplit(key);
    JoinSplit(other);
    assert Split(key) != Split(other);
    PathsCommuteIff(c, Split(key), v, Split(other), w);
  }

  /** A plain value put on the way of another path: the last put wins. */
  lemma PutsClash(c: Context, p: seq<string>, v: int, q: seq<string>, w: Value)
    requires |p| > 0 && p < q
    ensures PutParts(PutParts(c, p, Leaf(v)), q, w) != PutParts(PutParts(c, q, w), p, Leaf(v))
  {
    GetPutParts(PutParts(c, q, w), p, Leaf(v));
    ThroughIsNested(PutParts(c, p, Leaf(v)), q, w, |p|);
    assert q[..|p|] == p;
  }

  lemma {:induction false} ThroughIsNested(c: Context, q: seq<string>, w: Value, n: nat)
    requires 0 < n < |q|
    ensures var at := GetParts(PutParts(c, q, w), q[..n]); at.Some? && at.value.Nested?
    decreases n
  {
    if n > 1 {
      ThroughIsNested(SubContext(c, q[0]), q[1..], w, n - 1);
      assert q[..n][1..] == q[1..][..n - 1];
    }
  }

  // ---------- Promotion ----------

  /** A step's value is put into the job's context under `target` if the step has one. */
  function PromoteOne(job: Context, step: Context, key: string, target: string): Context {
    var v := GetNested(step, key);
    if v.Some? then PutNested(job, target, v.value) else job
  }

  /** `moves` are the pairs of step key and job key in the order in which they are promoted. */
  function Promote(job: Context, step: Context, moves: seq<(string, string)>): Context
    decreases |moves|
  {
    if moves == [] then job else Promote(PromoteOne(job, step, moves[0].0, moves[0].1), step, moves[1..])
  }

  predicate Apart(m: (string, string), n: (string, string)) {
    !Related(Split(m.1), Split(n.1))
  }

  ghost predicate PrefixFree(moves: seq<(string, string)>) {
    forall i, j :: 0 <= i < j < |moves| ==> Apart(moves[i], moves[j])
  }

  lemma {:induction false} PromoteFrame(job: Context, step: Context, moves: seq<(string, string)>, key: string)
    requires forall i :: 0 <= i < |moves| ==> !Related(Split(moves[i].1), Split(key))
    ensures GetNested(Promote(job, step, moves), key) == GetNested(job, key)
    ensures key in Promote(job, step, moves) <==> key in job
    decreases |moves|
  {
    if moves != [] {
      var next := PromoteOne(job, step, moves[0].0, moves[0].1);
      assert !Related(Split(moves[0].1), Split(key));
      var v := GetNested(step, moves[0].0);
      if v.Some? {
        PutFrame(job, moves[0].1, key, v.value);
        if key == Split(moves[0].1)[0] {
          HeadIsKey(moves[0].1, key);
        }
      }
      PromoteFrame(next, step, moves[1..], key);
    }
  }

  /**
  Promotion with prefix-free targets: each promoted key reads back the step's value, unless the job's context held a flat
  entry under that dotted key; a key the step does not have leaves the job's value.
  */
  lemma {:induction false} PromotedValues(job: Context, step: Context, moves: seq<(string, string)>, i: nat)
    requires PrefixFree(moves) && i < |moves|
    ensures var target := moves[i].1;
            var v := GetNested(step, moves[i].0);
            GetNested(Promote(job, step, moves), target)
            == if v.None? || ('.' in target && target in job) then GetNested(job, target) else v
    decreases |moves|
  {
    var next := PromoteOne(job, step, moves[0].0, moves[0].1);
    if i == 0 {
      forall j | 0 <= j < |moves[1..]| ensures !Related(Split(moves[1..][j].1), Split(moves[0].1)) {
        assert Apart(moves[0], moves[j + 1]);
      }
      PromoteFrame(next, step, moves[1..], moves[0].1);
      var v := GetNested(step, moves[0].0);
      if v.Some? {
        GetAfterPut(job, moves[0].1, v.value);
      }
    } else {
      assert Apart(moves[0], moves[i]);
      PromoteFrame(job, step, [moves[0]], moves[i].1);
      assert Promote(job, step, [moves[0]]) == next;
      PromotedValues(next, step, moves[1..], i - 1);
    }
  }

  lemma PromoteSwap(job: Context, step: Context, m: (string, string), n: (string, string))
    requires Apart(m, n)
    ensures PromoteOne(PromoteOne(job, step, m.0, m.1), step, n.0, n.1) == PromoteOne(PromoteOne(job, step, n.0, n.1), step, m.0, m.1)
  {
    var v, w := GetNested(step, m.0), GetNested(step, n.0);
    if v.Some? && w.Some? {
      PutPartsCommute(job, Split(m.1), v.value, Split(n.1), w.value);
    }
  }

  /** A move can be brought forward past moves whose targets are apart from its own. */
  lemma {:induction false} PromoteForward(job: Context, step: Context, moves: seq<(string, string)>, i: nat)
    requires PrefixFree(moves) && i < |moves|
    ensures Promote(job, step, moves) == Promote(job, step, [moves[i]] + moves[..i] + moves[i + 1..])
    decreases i
  {
    if i == 0 {
      assert [moves[0]] + moves[..0] + moves[1..] == moves;
    } else {
      var next := PromoteOne(job, step, moves[0].0, moves[0].1);
      var rest := moves[1..];
      PromoteForward(next, step, rest, i - 1);
      var moved := [moves[i]] + moves[..i] + moves[i + 1..];
      assert [rest[i - 1]] + rest[..i - 1] + rest[i..] == [moves[i]] + moved[2..];
      assert ([moves[i]] + moved[2..])[1..] == moved[2..];
      assert moved[1..][0] == moves[0] && moved[1..][1..] == moved[2..];
      assert Apart(moves[0], moves[i]);
      PromoteSwap(job, step, moves[0], moves[i]);
    }
  }

  lemma RemoveAt<T>(s: seq<T>, i: nat)
    requires i < |s|
    ensures multiset(s[..i] + s[i + 1..]) == multiset(s) - multiset{s[i]}
  {
    assert s == s[..i] + [s[i]] + s[i + 1..];
  }

  lemma PrefixFreeWithout(moves: seq<(string, string)>, i: nat)
    requires PrefixFree(moves) && i < |moves|
    ensures PrefixFree(moves[..i] + moves[i + 1..])
  {
    hide Apart;
    var rest := moves[..i] + moves[i + 1..];
    forall a, b | 0 <= a < b < |rest| ensures Apart(rest[a], rest[b]) {
      assert Apart(moves[if a < i then a else a + 1], moves[if b < i then b else b + 1]);
    }
  }

  lemma PromoteFirst(job: Context, step: Context, m: (string, string), rest: seq<(string, string)>)
    ensures Promote(job, step, [m] + rest) == Promote(PromoteOne(job, step, m.0, m.1), step, rest)
  {
    assert ([m] + rest)[1..] == rest;
  }

  /** Two orders of prefix-free moves give the same context. */
  lemma {:induction false} PromoteAnyOrder(job: Context, step: Context, moves: seq<(string, string)>, again: seq<(string, string)>)
    requires PrefixFree(moves) && multiset(moves) == multiset(again)
    ensures Promote(job, step, moves) == Promote(job, step, again)
    decreases |again|
  {
    hide PromoteOne, Promote, PrefixFree;
    if again == [] {
      assert |moves| == |multiset(moves)| == |multiset(again)| == 0;
    } else {
      var m := again[0];
      assert m in multiset(again);
      var i :| 0 <= i < |moves| && moves[i] == m;
      var rest := moves[..i] + moves[i + 1..];
      PromoteForward(job, step, moves, i);
      assert [m] + moves[..i] + moves[i + 1..] == [m] + rest;
      PromoteFirst(job, step, m, rest);
      RemoveAt(moves, i);
      RemoveAt(again, 0);
      assert again[..0] + again[1..] == again[1..] && again == [m] + again[1..];
      PrefixFreeWithout(moves, i);
      PromoteAnyOrder(PromoteOne(job, step, m.0, m.1), step, rest, again[1..]);
      PromoteFirst(job, step, m, again[1..]);
    }
  }

  function Renamed(renames: map<string, string>, order: seq<string>): seq<(string, string)>
    requires forall i :: 0 <= i < |order| ==> order[i] in renames
  {
    if order == [] then [] else [(order[0], renames[order[0]])] + Renamed(renames, order[1..])
  }

  /** The moves of a promotion: the keys under their own names, then the renamed ones in the order of a map iteration. */
  function Moves(keys: seq<string>, renames: map<string, string>, order: seq<string>): seq<(string, string)>
    requires forall i :: 0 <= i < |order| ==> order[i] in renames
  {
    seq(|keys|, i requires 0 <= i < |keys| => (keys[i], keys[i])) + Renamed(renames, order)
  }

  ghost predicate IsOrder(order: seq<string>, renames: map<string, string>) {
    (forall i :: 0 <= i < |order| ==> order[i] in renames) && multiset(order) == multiset(renames.Keys)
  }

  /** A promotion with prefix-free targets does not depend on the order in which the map of renames is visited. */
  lemma PromotionOrderIrrelevant(job: Context, step: Context, keys: seq<string>, renames: map<string, string>,
                                 order: seq<string>, again: seq<string>)
    requires IsOrder(order, renames) && IsOrder(again, renames) && PrefixFree(Moves(keys, renames, order))
    ensures Promote(job, step, Moves(keys, renames, order)) == Promote(job, step, Moves(keys, renames, again))
  {
    forall m: (string, string) ensures multiset(Renamed(renames, order))[m] == multiset(Renamed(renames, again))[m] {
      RenamedCount(renames, order, m);
      RenamedCount(renames, again, m);
    }
    assert multiset(Renamed(renames, order)) == multiset(Renamed(renames, again));
    PromoteAnyOrder(job, step, Moves(keys, renames, order), Moves(keys, renames, again));
  }

  /** No target leads through another one: plain keys are their own targets, renamed keys have the target of the renaming. */
  ghost predicate TargetsApart(keys: seq<string>, renames: map<string, string>) {
    && (forall i, j :: 0 <= i < j < |keys| ==> !Related(Split(keys[i]), Split(keys[j])))
    && (forall i, k :: 0 <= i < |keys| && k in renames ==> !Related(Split(keys[i]), Split(renames[k])))
    && (forall k, l :: k in renames && l in renames && k != l ==> !Related(Split(renames[k]), Split(renames[l])))
  }

  lemma {:induction false} RenamedAt(renames: map<string, string>, order: seq<string>)
    requires forall i :: 0 <= i < |order| ==> order[i] in renames
    ensures |Renamed(renames, order)| == |order|
    ensures forall i :: 0 <= i < |order| ==> Renamed(renames, order)[i] == (order[i], renames[order[i]])
  {
    if order != [] {
      RenamedAt(renames, order[1..]);
    }
  }

  lemma OrderIsDistinct(renames: map<string, string>, order: seq<string>, i: nat, j: nat)
    requires IsOrder(order, renames) && i < j < |order|
    ensures order[i] != order[j]
  {
    assert order == order[..i] + [order[i]] + order[i + 1..j] + [order[j]] + order[j + 1..];
    assert order[i] == order[j] ==> multiset(order)[order[i]] >= 2;
    assert multiset(renames.Keys)[order[i]] == 1;
  }

  lemma MovesApart(keys: seq<string>, renames: map<string, string>, order: seq<string>)
    requires IsOrder(order, renames) && TargetsApart(keys, renames)
    ensures PrefixFree(Moves(keys, renames, order))
  {
    hide Split;
    RenamedAt(renames, order);
    var moves := Moves(keys, renames, order);
    forall i, j | 0 <= i < j < |moves| ensures Apart(moves[i], moves[j]) {
      if |keys| <= i {
        OrderIsDistinct(renames, order, i - |keys|, j - |keys|);
      }
    }
  }

  /** What a promotion leaves under the target of a step's key. */
  ghost predicate ReadsBack(job: Context, step: Context, promoted: Context, key: string, target: string) {
    var v := GetNested(step, key);
    GetNested(promoted, target) == if v.None? || ('.' in target && target in job) then GetNested(job, target) else v
  }

  /**
  A promotion none of whose targets leads through another: every plain key and every renamed one reads back the step's value,
  in any order of the map of renames, unless a flat entry of the job shadows it or the step has none.
  */
  lemma PromotedKeys(job: Context, step: Context, keys: seq<string>, renames: map<string, string>, order: seq<string>)
    requires IsOrder(order, renames) && TargetsApart(keys, renames)
    ensures var promoted := Promote(job, step, Moves(keys, renames, order));
            && (forall i :: 0 <= i < |keys| ==> ReadsBack(job, step, promoted, keys[i], keys[i]))
            && (forall k :: k in renames ==> ReadsBack(job, step, promoted, k, renames[k]))
  {
    hide Split, Promote, Renamed, GetNested, PrefixFree, TargetsApart;
    var moves := Moves(keys, renames, order);
    MovesApart(keys, renames, order);
    RenamedAt(renames, order);
    forall i | 0 <= i < |keys| ensures ReadsBack(job, step, Promote(job, step, moves), keys[i], keys[i]) {
      PromotedValues(job, step, moves, i);
    }
    forall k | k in renames ensures ReadsBack(job, step, Promote(job, step, moves), k, renames[k]) {
      assert k in multiset(order);
      var i :| 0 <= i < |order| && order[i] == k;
      PromotedValues(job, step, moves, |keys| + i);
    }
  }

  lemma {:induction false} RenamedCount(renames: map<string, string>, order: seq<string>, m: (string, string))
    requires forall i :: 0 <= i < |order| ==> order[i] in renames
    ensures multiset(Renamed(renames, order))[m]
            == if m.0 in renames && renames[m.0] == m.1 then multiset(order)[m.0] else 0
  {
    if order != [] {
      RenamedCount(renames, order[1..], m);
      assert order == [order[0]] + order[1..];
    }
  }

  /** Where one target leads through another the map order decides what is promoted. */
  lemma PromotionOrderMatters()
    ensures exists step: Context, renames: map<string, string>, order: seq<string>, again: seq<string> ::
              IsOrder(order, renames) && IsOrder(again, renames)
              && Promote(map[], step, Moves([], renames, order)) != Promote(map[], step, Moves([], renames, again))
  {
    hide PutParts, GetParts, Split, Promote, Moves, Renamed;
    var step: Context := map["x" := Leaf(1), "y" := Leaf(2)];
    var renames := map["x" := "a", "y" := "a.b"];
    var order, again := ["x", "y"], ["y", "x"];
    assert multiset(renames.Keys) == multiset{"x", "y"};
    assert IsOrder(order, renames) && IsOrder(again, renames);
    var m, n := ("x", "a"), ("y", "a.b");
    TwoMoves(renames, "x", "y");
    TwoMoves(renames, "y", "x");
    PromoteTwo(step, m, n);
    PromoteTwo(step, n, m);
    assert GetNested(step, "x") == Some(Leaf(1)) && GetNested(step, "y") == Some(Leaf(2));
    SplitExample();
    PutsCommuteIff(map[], "a", 1, "a.b", 2);
  }

  lemma SplitExample()
    ensures Related(Split("a"), Split("a.b"))
  {
    assert "a"[1..] == "" && Split("") == [""];
    assert ['a'] + "" == "a" && Split("a") == ["a"];
    assert "a.b"[1..] == ".b";
    var rest := Split(".b");
    assert rest[0] == "" && Split("a.b") == ["a"] + rest[1..];
  }

  lemma TwoMoves(renames: map<string, string>, x: string, y: string)
    requires x in renames && y in renames
    ensures Moves([], renames, [x, y]) == [(x, renames[x]), (y, renames[y])]
  {
    assert [x, y][1..] == [y];
    assert Renamed(renames, [y]) == [(y, renames[y])];
  }

  lemma PromoteTwo(step: Context, m: (string, string), n: (string, string))
    ensures Promote(map[], step, [m, n]) == PromoteOne(PromoteOne(map[], step, m.0, m.1), step, n.0, n.1)
  {
    assert [m, n][1..] == [n] && [n][1..] == [];
    var next := PromoteOne(map[], step, m.0, m.1);
    assert Promote(next, step, [n]) == PromoteOne(next, step, n.0, n.1);
  }

  // ---------- In place ----------

  datatype Entry = Plain(content: int) | Sub(context: ExecutionContext)

  class ExecutionContext {
    var entries: map<string, Entry>
    ghost var Repr: set<ExecutionContext>
    ghost var contents: Context

    /** The contexts form a tree: no context is reached twice. `contents` is its value. */
    ghost predicate Valid()
      reads this, Repr
      decreases Repr
    {
      && this in Repr
      && (forall k :: k in entries && entries[k].Sub? ==>
            var sub := entries[k].context;
            sub in Repr && sub.Repr < Repr && this !in sub.Repr && sub.Valid())
      && (forall j, k :: j in entries && k in entries && j != k && entries[j].Sub? && entries[k].Sub? ==>
            entries[j].context.Repr !! entries[k].context.Repr)
      && contents.Keys == entries.Keys
      && (forall k :: k in entries ==>
            contents[k] == if entries[k].Sub? then Nested(entries[k].context.contents) else Leaf(entries[k].content))
    }

    constructor ()
      ensures Valid() && fresh(Repr) && Repr == {this} && contents == map[]
    {
      entries, contents := map[], map[];
      Repr := {this};
    }

    method Put(key: string, content: int)
      requires Valid()
      modifies this
      ensures Valid() && Repr == old(Repr) && contents == old(contents)[key := Leaf(content)]
    {
      entries := entries[key := Plain(content)];
      contents := contents[key := Leaf(content)];
    }

    /** What Valid says of the context itself, apart from the ones below it being valid. */
    ghost predicate Linked()
      reads this, set k | k in entries && entries[k].Sub? :: entries[k].context
    {
      && this in Repr
      && (forall k :: k in entries && entries[k].Sub? ==>
            var sub := entries[k].context; sub in Repr && sub.Repr < Repr && this !in sub.Repr)
      && (forall j, k :: j in entries && k in entries && j != k && entries[j].Sub? && entries[k].Sub? ==>
            entries[j].context.Repr !! entries[k].context.Repr)
      && contents.Keys == entries.Keys
      && (forall k :: k in entries ==>
            contents[k] == if entries[k].Sub? then Nested(entries[k].context.contents) else Leaf(entries[k].content))
    }

    lemma ValidParts()
      ensures Valid() <==> Linked() && forall k :: k in entries && entries[k].Sub? ==> entries[k].context.Valid()
    {
    }

    lemma InRepr()
      requires Valid()
      ensures this in Repr
    {
    }

    /** A context none of whose objects has changed is as it was. */
    twostate lemma Kept(c: ExecutionContext)
      requires old(c.Valid()) && forall o :: o in old(c.Repr) ==> unchanged(o)
      ensures c.Valid() && c.Repr == old(c.Repr) && c.contents == old(c.contents)
    {
    }

    /** The context under `part`, made anew if there is none or a plain value in its place. */
    method Descend(part: string) returns (next: ExecutionContext)
      requires Valid()
      modifies this
      ensures Valid() && fresh(Repr - old(Repr))
      ensures part in entries && entries[part] == Sub(next)
      ensures contents == old(contents)[part := Nested(next.contents)] && next.contents == SubContext(old(contents), part)
    {
      if part in entries && entries[part].Sub? {
        next := entries[part].context;
      } else {
        next := new ExecutionContext();
        Attach(part, next);
      }
    }

    method Attach(part: string, next: ExecutionContext)
      requires Valid() && next.Valid() && next.Repr !! Repr
      modifies this
      ensures Valid() && Repr == old(Repr) + next.Repr
      ensures entries == old(entries)[part := Sub(next)] && contents == old(contents)[part := Nested(next.contents)]
    {
      entries := entries[part := Sub(next)];
      contents := contents[part := Nested(next.contents)];
      Repr := Repr + next.Repr;
    }

    method PutPath(parts: seq<string>, content: int)
      requires Valid() && |parts| > 0
      modifies Repr
      ensures Valid() && fresh(Repr - old(Repr))
      ensures contents == PutParts(old(contents), parts, Leaf(content))
      decreases |parts|, 1
    {
      if |parts| == 1 {
        InRepr();
        Put(parts[0], content);
        return;
      }
      hide PutParts, Valid;
      InRepr();
      PutIsHead(contents, parts, Leaf(content));
      var next := Descend(parts[0]);
      InRepr();
      PutBelow(parts, next, content);
    }

    method PutBelow(parts: seq<string>, next: ExecutionContext, content: int)
      requires Valid() && |parts| > 1 && parts[0] in entries && entries[parts[0]] == Sub(next)
      modifies Repr
      ensures Valid() && fresh(Repr - old(Repr))
      ensures contents == old(contents)[parts[0] := Nested(PutParts(old(next.contents), parts[1..], Leaf(content)))]
      decreases |parts|, 0
    {
      hide PutParts, Valid;
      ValidParts();
      label Before:
      next.PutPath(parts[1..], content);
      label Put:
      Repr := Repr + next.Repr;
      contents := contents[parts[0] := Nested(next.contents)];
      Kept@Put(next);
      forall k | k in entries && entries[k].Sub? && k != parts[0]
        ensures var sub := entries[k].context;
                sub.Valid() && sub.Repr == old(sub.Repr) && sub.contents == old(sub.contents)
      {
        assert old(entries[k].context.Repr) !! old(next.Repr);
        Kept@Before(entries[k].context);
      }
      assert Linked();
      ValidParts();
    }

    method PutNested(key: string, content: int)
      requires Valid()
      modifies Repr
      ensures Valid() && fresh(Repr - old(Repr))
      ensures contents == PutParts(old(contents), Split(key), Leaf(content))
    {
      var parts := Split(key);
      PutPath(parts, content);
    }

    /** The value of an entry of this context. */
    ghost function ValueOf(e: Entry): Value
      reads match e case Plain(_) => {} case Sub(c) => {c}
    {
      match e
      case Plain(content) => Leaf(content)
      case Sub(c) => Nested(c.contents)
    }

    method GetNested(key: string) returns (found: Option<Entry>)
      requires Valid()
      ensures match (if key in contents then Some(contents[key]) else GetParts(contents, Split(key)))
              case Some(v) => found.Some? && ValueOf(found.value) == v
              case None => found.None?
    {
      if key in entries {
        return Some(entries[key]);
      }
      var parts := Split(key);
      var current := this;
      for i := 0 to |parts|
        invariant current.Valid()
        invariant i < |parts| && GetParts(contents, parts) == GetParts(current.contents, parts[i..])
      {
        if parts[i] !in current.entries {
          return None;
        }
        var val := current.entries[parts[i]];
        if i == |parts| - 1 {
          return Some(val);
        }
        if val.Plain? {
          return None;
        }
        assert parts[i..][1..] == parts[i + 1..];
        current := val.context;
      }
      assert false;
    }
  }
}
