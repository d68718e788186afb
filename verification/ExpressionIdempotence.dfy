/**
When resolving twice is the same as resolving once. The condition is on the values that can be substituted: none, whether
it follows a hash or not, contains anything that resolves or leaves a token unfinished at its end.
*/
module ExpressionIdempotence {
  import opened Expressions
  import opened Options

  // ---------- Unfinished tokens ----------

  /** More text could turn the beginning of the string, which is no token, into one. */
  predicate Unfinished(s: string) {
    s == "#" || (|s| >= 2 && s[0] == '#' && s[1] == '{' && '\n' !in s[2..])
  }

  /** The unfinished token that a scan of the string ends in; empty if there is none. */
  function Pending(s: string): (t: string)
    ensures t != "" ==> Unfinished(t) && TokenEnd(t).None?
    decreases |s|
  {
    if s == "" then ""
    else
      match TokenEnd(s)
      case Some(n) => Pending(s[n..])
      case None => if Unfinished(s) then s else Pending(s[1..])
  }

  /** The resolved text before the unfinished token. */
  function Done(s: string, job: Option<Job>): string
    decreases |s|
  {
    if s == "" then ""
    else
      match TokenEnd(s)
      case Some(n) => Substitute(s[..n], job) + Done(s[n..], job)
      case None => if Unfinished(s) then "" else [s[0]] + Done(s[1..], job)
  }

  lemma TokenStays(s: string, y: string)
    requires TokenEnd(s).Some?
    ensures TokenEnd(s + y) == TokenEnd(s) && TokenEnd(s[..TokenEnd(s).value]) == TokenEnd(s)
  {
    hide TokenEnd, Matches;
    var n := TokenEnd(s).value;
    TokenEndIsShortest(s, n);
    MatchesPrefix(s, s + y, n);
    MatchesPrefix(s, s[..n], n);
    TokenEndIsShortest(s + y, n);
    TokenEndIsShortest(s[..n], n);
  }

  /** Whether the pattern matches the first characters depends on these alone. */
  lemma MatchesPrefix(s: string, t: string, n: int)
    requires 0 <= n <= |s| && n <= |t| && s[..n] == t[..n]
    ensures forall m :: m <= n ==> (Matches(s, m) <==> Matches(t, m))
  {
    forall m | m <= n ensures Matches(s, m) <==> Matches(t, m) {
      if 4 <= m {
        assert s[..n][..m] == s[..m] && t[..n][..m] == t[..m];
        assert s[0] == s[..m][0] && t[0] == t[..m][0] && s[1] == s[..m][1] && t[1] == t[..m][1];
        assert s[m - 1] == s[..m][m - 1] && t[m - 1] == t[..m][m - 1];
        assert s[2..m - 1] == s[..m][2..m - 1] && t[2..m - 1] == t[..m][2..m - 1];
      }
    }
  }

  lemma NewlineBlocks(s: string, y: string, n: int)
    requires |s| >= 2 && '\n' in s[2..] && |s| < n
    ensures !Matches(s + y, n)
  {
    var i :| 0 <= i < |s[2..]| && s[2..][i] == '\n';
    if 4 <= n <= |s + y| {
      assert (s + y)[2..n - 1][i] == '\n';
    }
  }

  lemma NoTokenStays(s: string, y: string)
    requires s != "" && TokenEnd(s).None? && !Unfinished(s)
    ensures TokenEnd(s + y).None?
  {
    forall n: int ensures !Matches(s + y, n) {
      if Matches(s + y, n) {
        if n <= |s| {
          assert (s + y)[..n] == s[..n];
          MatchesPrefix(s + y, s, n);
          TokenEndIsShortest(s, n);
        } else {
          assert |s| >= 2 && '\n' in s[2..];
          NewlineBlocks(s, y, n);
        }
      }
    }
    NoMatchNoToken(s + y);
  }

  /** Text after a string only continues its unfinished token. */
  lemma {:induction false} ResolveAfter(s: string, y: string, job: Option<Job>)
    ensures Resolve(s + y, job) == Done(s, job) + Resolve(Pending(s) + y, job)
    decreases |s|
  {
    hide TokenEnd, Unfinished, Substitute, Resolve;
    if s == "" {
      assert s + y == y;
    } else {
      match TokenEnd(s) {
        case Some(n) =>
          TokenStays(s, y);
          ResolveAfter(s[n..], y, job);
          assert (s + y)[n..] == s[n..] + y && (s + y)[..n] == s[..n];
          ResolveToken(s + y, job);
        case None =>
          if !Unfinished(s) {
            NoTokenStays(s, y);
            ResolveAfter(s[1..], y, job);
            assert (s + y)[1..] == s[1..] + y;
            ResolveChar(s + y, job);
          }
      }
    }
  }

  /** A token inside an open one, on the same line, closes it. */
  lemma InnerTokenCloses(s: string, k: nat)
    requires 2 <= k <= |s| && s[0] == '#' && s[1] == '{' && '\n' !in s[2..k] && TokenEnd(s[k..]).Some?
    ensures TokenEnd(s).Some?
  {
    hide TokenEnd;
    var q := TokenEnd(s[k..]).value;
    ShortestMatches(s[k..]);
    var n := k + q;
    assert s[n - 1] == s[k..][q - 1];
    assert s[2..n - 1] == s[2..k] + [s[k..][0]] + [s[k..][1]] + s[k..][2..q - 1];
    TokenEndIsShortest(s, n);
  }

  /** An unfinished token holds no token. */
  lemma UnfinishedIsText(t: string, job: Option<Job>)
    requires Unfinished(t) && TokenEnd(t).None?
    ensures Resolve(t, job) == t
  {
    hide TokenEnd, Resolve;
    forall k | 0 <= k < |t| ensures TokenEnd(t[k..]).None? {
      assert t[0..] == t;
      if k == 1 {
        NoTokenWithout(t[k..]);
      } else if k > 1 {
        assert t[2..k] <= t[2..];
        if TokenEnd(t[k..]).Some? {
          InnerTokenCloses(t, k);
        }
      }
    }
    SkipLiterals(t, |t|, job);
    EmptyResolves(job);
  }

  lemma EmptyResolves(job: Option<Job>)
    ensures Resolve("", job) == ""
  {
  }

  lemma NoTokenWithout(s: string)
    requires s == "" || s[0] != '#' || |s| == 1 || s[1] != '{'
    ensures TokenEnd(s).None?
  {
  }

  lemma ResolveSplits(s: string, job: Option<Job>)
    ensures Resolve(s, job) == Done(s, job) + Pending(s)
  {
    ResolveAfter(s, "", job);
    assert s + "" == s && Pending(s) + "" == Pending(s);
    if Pending(s) != "" {
      UnfinishedIsText(Pending(s), job);
    }
  }

  // ---------- The condition ----------

  /** The string resolves to itself and ends in no unfinished token. */
  predicate Steady(s: string, job: Option<Job>) {
    Resolve(s, job) == s && Pending(s) == ""
  }

  /** The token is replaced by something else. */
  predicate Live(token: string, job: Option<Job>) {
    |token| >= 3 && TokenEnd(token) == Some(|token|) && Substitute(token, job) != token
  }

  /** What a caller can check of each value that can be substituted. */
  predicate Calm(v: string, job: Option<Job>) {
    Steady(v, job) && Steady("#" + v, job)
  }

  ghost predicate AllCalm(job: Option<Job>) {
    forall token :: Live(token, job) ==> Calm(Substitute(token, job), job)
  }

  lemma SteadyBefore(v: string, y: string, job: Option<Job>)
    requires Steady(v, job)
    ensures Resolve(v + y, job) == v + Resolve(y, job)
  {
    hide Resolve, Done, Pending;
    ResolveAfter(v, y, job);
    ResolveSplits(v, job);
    assert "" + y == y && Done(v, job) + "" == Done(v, job);
  }

  // ---------- Calm values make resolving idempotent ----------

  lemma {:induction false} IdempotentWhenCalm(s: string, job: Option<Job>)
    requires AllCalm(job)
    ensures Resolve(Resolve(s, job), job) == Resolve(s, job)
    decreases |s|, 1
  {
    hide TokenEnd, Substitute, Resolve;
    if s == "" {
      EmptyResolves(job);
    } else if TokenEnd(s).Some? {
      var n := TokenEnd(s).value;
      var token, rest := s[..n], Resolve(s[n..], job);
      ResolveToken(s, job);
      TokenStays(s, "");
      IdempotentWhenCalm(s[n..], job);
      if Live(token, job) {
        SteadyBefore(Substitute(token, job), rest, job);
      } else {
        TokenStays(token, rest);
        ResolveToken(token + rest, job);
        assert (token + rest)[..n] == token && (token + rest)[n..] == rest;
      }
    } else {
      var rest := Resolve(s[1..], job);
      ResolveChar(s, job);
      IdempotentWhenCalm(s[1..], job);
      if s[0] == '#' && |s| > 1 {
        HashIsKept(s, job);
      } else {
        EmptyResolves(job);
        NoTokenWithout([s[0]] + rest);
        assert ([s[0]] + rest)[1..] == rest;
        ResolveChar([s[0]] + rest, job);
      }
    }
  }

  /** The length of the first line. */
  function Line(x: string): (m: nat)
    ensures m <= |x| && '\n' !in x[..m] && (m < |x| ==> x[m] == '\n')
  {
    if x == "" || x[0] == '\n' then 0
    else
      var m := 1 + Line(x[1..]);
      assert x[..m] == [x[0]] + x[1..][..m - 1];
      m
  }

  /** After an open token that is not closed on its line, the first line holds no token, so resolving keeps it. */
  lemma LineIsKept(s: string, job: Option<Job>)
    requires |s| > 1 && s[0] == '#' && s[1] == '{' && TokenEnd(s).None?
    ensures var x := s[2..]; var m := Line(x); Resolve(x, job) == x[..m] + Resolve(x[m..], job)
  {
    var x := s[2..];
    var m := Line(x);
    forall k | 0 <= k < m ensures TokenEnd(x[k..]).None? {
      assert x[k..] == s[k + 2..] && s[2..k + 2] == x[..k] <= x[..m];
      if TokenEnd(x[k..]).Some? {
        InnerTokenCloses(s, k + 2);
      }
    }
    SkipLiterals(x, m, job);
  }

  lemma OpenStaysOpen(s: string, job: Option<Job>)
    requires |s| > 1 && s[0] == '#' && s[1] == '{' && TokenEnd(s).None?
    ensures TokenEnd("#{" + Resolve(s[2..], job)).None?
  {
    hide TokenEnd, Substitute;
    var x := s[2..];
    var m := Line(x);
    LineIsKept(s, job);
    var tail := Resolve(x[m..], job);
    if m < |x| {
      NoTokenWithout(x[m..]);
      assert tail[0] == '\n';
    }
    assert "#{" + (x[..m] + tail) == s[..m + 2] + tail;
    OpenLine(s, m, tail);
  }

  /** An open token that is not closed in `m` characters is not closed by what follows a newline, or by nothing. */
  lemma OpenLine(s: string, m: nat, tail: string)
    requires m + 2 <= |s| && TokenEnd(s).None? && (tail == "" || tail[0] == '\n')
    ensures TokenEnd(s[..m + 2] + tail).None?
  {
    hide TokenEnd;
    var t := s[..m + 2] + tail;
    forall n: int ensures !Matches(t, n) {
      if 0 <= n <= m + 2 {
        assert t[..n] == s[..n];
        MatchesPrefix(t, s, n);
        TokenEndIsShortest(s, n);
      } else if m + 3 < n <= |t| {
        assert t[2..n - 1][m] == tail[0];
      }
    }
    NoMatchNoToken(t);
  }

  /** A hash that starts no token starts none in the result either, or only one that resolves to itself. */
  lemma {:induction false} HashIsKept(s: string, job: Option<Job>)
    requires AllCalm(job) && |s| > 1 && s[0] == '#' && TokenEnd(s).None?
    requires Resolve(Resolve(s[1..], job), job) == Resolve(s[1..], job)
    ensures Resolve("#" + Resolve(s[1..], job), job) == "#" + Resolve(s[1..], job)
    decreases |s|, 0
  {
    hide TokenEnd, Substitute, Resolve;
    var next := s[1..];
    var rest := Resolve(next, job);
    assert ("#" + rest)[1..] == rest;
    if TokenEnd(next).Some? {
      var m := TokenEnd(next).value;
      var token, after := next[..m], Resolve(next[m..], job);
      ResolveToken(next, job);
      TokenStays(next, "");
      if Live(token, job) {
        var v := Substitute(token, job);
        IdempotentWhenCalm(next[m..], job);
        SteadyBefore("#" + v, after, job);
        assert ("#" + v) + after == "#" + rest;
      } else {
        TokenStartsWithHash(next);
        NoTokenWithout("#" + rest);
        ResolveChar("#" + rest, job);
      }
    } else {
      ResolveChar(next, job);
      if next[0] == '{' {
        OpenStaysOpen(s, job);
        assert next[1..] == s[2..] && "#" + rest == "#{" + Resolve(s[2..], job);
      } else {
        NoTokenWithout("#" + rest);
      }
      ResolveChar("#" + rest, job);
    }
  }

  lemma TokenStartsWithHash(s: string)
    requires TokenEnd(s).Some?
    ensures s[0] == '#'
  {
  }

  // ---------- A value that is not calm breaks idempotence ----------

  lemma TrimKeepsHead(s: string)
    requires s != "" && !IsSpace(s[0])
    ensures TrimSpace(s) != "" && TrimSpace(s)[0] == s[0]
  {
    TrimRightKeepsHead(s);
  }

  lemma {:induction false} TrimRightKeepsHead(s: string)
    requires s != "" && !IsSpace(s[0])
    ensures TrimRight(s) != "" && TrimRight(s)[0] == s[0]
  {
    if |s| > 1 {
      TrimRightKeepsHead(s[..|s| - 1]);
    }
  }

  lemma {:induction false} TrimKeepsLast(s: string)
    requires s != "" && !IsSpace(s[|s| - 1])
    ensures TrimSpace(s) != "" && TrimSpace(s)[|TrimSpace(s)| - 1] == s[|s| - 1]
  {
    if IsSpace(s[0]) {
      TrimKeepsLast(s[1..]);
    }
  }

  /** Only an expression that starts with a letter j and ends with a bracket can be resolved. */
  lemma DeadByShape(token: string, job: Option<Job>)
    requires |token| >= 4
    requires token[2] == '}' || token[|token| - 2] == '{'
    ensures Substitute(token, job) == token
  {
    var inner := token[2..|token| - 1];
    if token[2] == '}' {
      TrimKeepsHead(inner);
      assert JOB_PARAMETERS[0] == 'j' && JOB_EXECUTION_CONTEXT[0] == 'j';
    } else {
      TrimKeepsLast(inner);
      var expr := TrimSpace(inner);
      assert expr[|expr| - 1] == '{';
      if |expr| >= 2 {
        assert expr[|expr| - 2..][1] == '{' && "']"[1] == ']';
      }
    }
  }

  lemma {:induction false} FixedFrom(x: string, k: nat, job: Option<Job>)
    requires k <= |x|
    requires forall i :: k <= i < |x| && TokenEnd(x[i..]).Some? ==> !Live(x[i..][..TokenEnd(x[i..]).value], job)
    ensures Resolve(x[k..], job) == x[k..]
    decreases |x| - k
  {
    hide TokenEnd, Substitute, Resolve;
    var y := x[k..];
    if y == "" {
      EmptyResolves(job);
    } else if TokenEnd(y).Some? {
      var n := TokenEnd(y).value;
      TokenStays(y, "");
      ResolveToken(y, job);
      assert !Live(x[k..][..n], job);
      assert y[n..] == x[k + n..];
      FixedFrom(x, k + n, job);
    } else {
      ResolveChar(y, job);
      assert y[1..] == x[k + 1..];
      FixedFrom(x, k + 1, job);
    }
  }

  /** There is a live token with no live token inside. */
  lemma {:induction false} InnermostLive(token: string, job: Option<Job>) returns (live: string)
    requires Live(token, job)
    ensures Live(live, job) && Resolve(live[1..], job) == live[1..]
    decreases |token|
  {
    hide TokenEnd, Substitute;
    if i :| 1 <= i < |token| && TokenEnd(token[i..]).Some? && Live(token[i..][..TokenEnd(token[i..]).value], job) {
      live := InnermostLive(token[i..][..TokenEnd(token[i..]).value], job);
    } else {
      live := token;
      FixedFrom(token, 1, job);
    }
  }

  lemma ResolveWhole(token: string, job: Option<Job>)
    requires |token| >= 3 && TokenEnd(token) == Some(|token|)
    ensures Resolve(token, job) == Substitute(token, job)
  {
    assert token[..|token|] == token && token[|token|..] == "";
  }

  lemma MatchInShield(live: string, m: int)
    requires |live| >= 2 && live[0] == '#' && live[1] == '{'
    ensures 7 <= m && Matches("#{}" + live, m) ==> Matches(live, m - 3)
  {
    var d := "#{}" + live;
    if 7 <= m <= |d| {
      assert live[2..m - 4] == d[5..m - 1];
      assert d[m - 1] == live[m - 4];
      assert d[2..m - 1] == d[2..5] + d[5..m - 1];
    }
  }

  /** An empty-looking opening in front of a live token makes one token of both, which cannot be resolved. */
  lemma ShieldedIsDead(live: string, job: Option<Job>)
    requires Live(live, job)
    ensures var d := "#{}" + live; TokenEnd(d) == Some(|d|) && Substitute(d, job) == d
  {
    hide TokenEnd, Substitute;
    var d := "#{}" + live;
    TokenEndIsShortest(live, |live|);
    if live[2] == '}' {
      DeadByShape(live, job);
    }
    DeadByShape(d, job);
    assert d[2..|d| - 1] == "}" + [live[0]] + [live[1]] + live[2..|live| - 1];
    forall m: int | m < |d| ensures !Matches(d, m) {
      if 4 <= m {
        assert d[m - 1] == live[m - 4];
        MatchInShield(live, m);
      }
    }
    TokenEndIsShortest(d, |d|);
  }

  lemma SwallowedEnd(t: string, rest: string)
    requires Unfinished(t) && TokenEnd(t).None? && |t| >= 2
    ensures TokenEnd(t + "#{}" + rest) == Some(|t| + 3)
  {
    hide TokenEnd;
    var whole := t + "#{}" + rest;
    var n := |t| + 3;
    assert whole[2..n - 1] == t[2..] + "#{";
    assert Matches(whole, n);
    forall m: int | m < n ensures !Matches(whole, m) {
      if 4 <= m <= |t| {
        assert whole[..m] == t[..m];
        MatchesPrefix(t, whole, m);
        TokenEndIsShortest(t, m);
      }
    }
    TokenEndIsShortest(whole, n);
  }

  /** An unfinished token swallows the opening of what follows and leaves the live token bare. */
  lemma UnfinishedSwallows(t: string, live: string, job: Option<Job>)
    requires Unfinished(t) && TokenEnd(t).None? && |t| >= 2 && Live(live, job)
    ensures Resolve(t + "#{}" + live, job) == t + "#{}" + Substitute(live, job)
  {
    hide TokenEnd, Substitute, Resolve, Unfinished;
    var whole, taken := t + "#{}" + live, t + "#{}";
    assert whole[..|taken|] == taken && whole[|taken|..] == live;
    SwallowedEnd(t, live);
    ResolveToken(whole, job);
    DeadByShape(taken, job);
    ResolveWhole(live, job);
  }

  lemma Cancel(p: string, a: string, b: string)
    requires a != b
    ensures p + a != p + b
  {
    assert (p + a)[|p|..] == a && (p + b)[|p|..] == b;
  }

  /** A string that ends in an unfinished token can be followed by text that is resolved already, but not after it. */
  lemma PendingBreaks(x: string, token: string, job: Option<Job>) returns (y: string)
    requires Resolve(x, job) == x && Pending(x) != "" && Live(token, job)
    ensures Resolve(y, job) == y && Resolve(x + y, job) != x + y
  {
    hide TokenEnd, Substitute, Resolve, Done, Pending;
    var t := Pending(x);
    var live := InnermostLive(token, job);
    ResolveSplits(x, job);
    if t == "#" {
      y := live[1..];
      TokenEndIsShortest(live, |live|);
      assert t + y == live;
      ResolveWhole(live, job);
    } else {
      y := "#{}" + live;
      ShieldedIsDead(live, job);
      ResolveWhole(y, job);
      UnfinishedSwallows(t, live, job);
      assert t + y == t + "#{}" + live;
      Cancel(t + "#{}", Substitute(live, job), live);
    }
    ResolveAfter(x, y, job);
    assert x + y == Done(x, job) + (t + y);
    Cancel(Done(x, job), Resolve(t + y, job), t + y);
  }

  /** If some value that can be substituted is not calm, resolving some string twice differs from resolving it once. */
  lemma NotCalmBreaks(token: string, job: Option<Job>) returns (s: string)
    requires Live(token, job) && !Calm(Substitute(token, job), job)
    ensures Resolve(Resolve(s, job), job) != Resolve(s, job)
  {
    hide TokenEnd, Substitute, Resolve, Pending;
    var v := Substitute(token, job);
    var y := "";
    if Steady(v, job) {
      if Resolve("#" + v, job) == "#" + v {
        y := PendingBreaks("#" + v, token, job);
      }
      s := "#" + (token + y);
      TokenStartsWithHash(token);
      NoTokenWithout(s);
      ResolveChar(s, job);
      assert s[1..] == token + y;
    } else {
      if Resolve(v, job) == v {
        y := PendingBreaks(v, token, job);
      }
      s := token + y;
    }
    TokenStays(token, y);
    ResolveToken(token + y, job);
    assert (token + y)[..|token|] == token && (token + y)[|token|..] == y;
    EmptyResolves(job);
    assert "#" + (v + y) == ("#" + v) + y;
    assert y == "" ==> v + y == v;
  }

  // ---------- Main results ----------

  /** Resolving is idempotent on every string if and only if every value that can be substituted is calm. */
  lemma IdempotentIff(job: Option<Job>)
    ensures (forall s :: Resolve(Resolve(s, job), job) == Resolve(s, job)) <==> AllCalm(job)
  {
    hide TokenEnd, Substitute, Resolve, Calm;
    if AllCalm(job) {
      forall s ensures Resolve(Resolve(s, job), job) == Resolve(s, job) {
        IdempotentWhenCalm(s, job);
      }
    } else {
      var token :| Live(token, job) && !Calm(Substitute(token, job), job);
      var s := NotCalmBreaks(token, job);
    }
  }

  /** Values that are not empty, hold no hash and do not start with an opening brace are calm. */
  lemma PlainValuesAreCalm(v: string, job: Option<Job>)
    requires v != "" && '#' !in v && v[0] != '{'
    ensures Calm(v, job)
  {
    PlainIsSteady(v, job);
    var u := "#" + v;
    NoTokenWithout(u);
    assert u[1..] == v;
  }

  lemma {:induction false} PlainIsSteady(v: string, job: Option<Job>)
    requires '#' !in v
    ensures Steady(v, job)
  {
    if v != "" {
      NoTokenWithout(v);
      PlainIsSteady(v[1..], job);
    }
  }

  /** Resolving is idempotent when every value is plain. */
  lemma PlainValuesIdempotent(job: Option<Job>, s: string)
    requires forall token :: Live(token, job) ==> var v := Substitute(token, job); v != "" && '#' !in v && v[0] != '{'
    ensures Resolve(Resolve(s, job), job) == Resolve(s, job)
  {
    hide TokenEnd, Substitute, Resolve, Calm;
    forall token | Live(token, job) ensures Calm(Substitute(token, job), job) {
      PlainValuesAreCalm(Substitute(token, job), job);
    }
    IdempotentWhenCalm(s, job);
  }

  /** An empty value alone breaks it: a hash, the token, and the rest of a token. */
  lemma EmptyValueBreaks()
    ensures exists s: string, job: Option<Job> ::
              job.Some? && job.value.parameters.Values == {""} && Resolve(Resolve(s, job), job) != Resolve(s, job)
  {
    hide Resolve, TokenEnd, Substitute;
    var job := Some(Job(map["e" := ""], map[]));
    var token := "#{jobParameters['e']}";
    ExampleIsLive(job);
    PendingHash();
    assert "e" in job.value.parameters && job.value.parameters.Values == {""};
    var s := NotCalmBreaks(token, job);
  }

  lemma PendingHash()
    ensures Pending("#" + "") == "#"
  {
    assert "#" + "" == "#";
  }

  lemma ExampleKey()
    ensures KeyOf(TrimSpace("jobParameters['e']"), JOB_PARAMETERS) == Some("e")
  {
    var expr := "jobParameters['e']";
    assert TrimSpace(expr) == expr;
    assert expr[..|JOB_PARAMETERS|] == JOB_PARAMETERS && expr[|expr| - 2..] == "']" && expr[|JOB_PARAMETERS|..|expr| - 2] == "e";
  }

  lemma ExampleIsLive(job: Option<Job>)
    requires job == Some(Job(map["e" := ""], map[]))
    ensures var token := "#{jobParameters['e']}"; Live(token, job) && Substitute(token, job) == ""
  {
    hide TokenEnd, KeyOf, TrimSpace;
    var token := "#{jobParameters['e']}";
    ExampleKey();
    assert token[2..|token| - 1] == "jobParameters['e']";
    forall m: int | m < |token| ensures !Matches(token, m) {
    }
    TokenEndIsShortest(token, |token|);
  }
}
