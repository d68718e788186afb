/**
The expression scanner: tokens are the leftmost-shortest matches of a hash, an opening brace, one or more characters that
are not newlines, and a closing brace. Values are given as they are formatted.
*/
module Expressions {
  import opened Options

  /** The job execution: its parameters and the flat entries of its context. */
  datatype Job = Job(parameters: map<string, string>, context: map<string, string>)

  // ---------- Tokens ----------

  /** The pattern matches the first `n` characters, greedily or not. */
  predicate Matches(s: string, n: int) {
    4 <= n <= |s| && s[0] == '#' && s[1] == '{' && s[n - 1] == '}' && '\n' !in s[2..n - 1]
  }

  ghost predicate Shortest(s: string, n: int) {
    Matches(s, n) && forall m :: m < n ==> !Matches(s, m)
  }

  /** The first closing brace from `k` on that no newline precedes. */
  function CloseFrom(s: string, k: nat): (close: Option<nat>)
    requires k <= |s|
    ensures close.Some? ==> k <= close.value < |s| && s[close.value] == '}'
    ensures close.Some? ==> forall i :: k <= i < close.value ==> s[i] != '}' && s[i] != '\n'
    ensures close.None? ==> forall n :: k <= n < |s| && s[n] == '}' ==> '\n' in s[k..n]
    decreases |s| - k
  {
    if k == |s| || s[k] == '\n' then None
    else if s[k] == '}' then Some(k)
    else
      var close := CloseFrom(s, k + 1);
      assert forall n :: k < n < |s| ==> s[k..n] == [s[k]] + s[k + 1..n];
      close
  }

  /** The length of the token that the string starts with. The first character inside may itself be a closing brace. */
  function TokenEnd(s: string): (end: Option<nat>)
    ensures end.Some? ==> 4 <= end.value <= |s|
  {
    if |s| >= 3 && s[0] == '#' && s[1] == '{' && s[2] != '\n' && CloseFrom(s, 3).Some? then Some(CloseFrom(s, 3).value + 1) else None
  }

  /** TokenEnd is the shortest match of the pattern, and there is none only if the pattern does not match at all. */
  lemma TokenEndIsShortest(s: string, n: nat)
    ensures TokenEnd(s) == Some(n) <==> Shortest(s, n)
    ensures TokenEnd(s).None? ==> !Matches(s, n)
  {
    if Matches(s, n) {
      assert s[2..n - 1] == [s[2]] + s[3..n - 1];
      assert CloseFrom(s, 3).Some?;
      var close := CloseFrom(s, 3).value;
      ShortestMatches(s);
      assert close + 1 <= n;
    } else if TokenEnd(s).Some? {
      ShortestMatches(s);
    }
  }

  lemma ShortestMatches(s: string)
    requires TokenEnd(s).Some?
    ensures Matches(s, TokenEnd(s).value)
  {
    var n := TokenEnd(s).value;
    assert s[2..n - 1] == [s[2]] + s[3..n - 1];
  }

  // ---------- Substitution ----------

  predicate IsSpace(c: char) {
    || c in {'\t', '\n', '\U{0B}', '\U{0C}', '\r', ' ', '\U{85}', '\U{A0}', '\U{1680}', '\U{2028}', '\U{2029}', '\U{202F}', '\U{205F}', '\U{3000}'}
    || '\U{2000}' <= c <= '\U{200A}'
  }

  function TrimLeft(s: string): string {
    if s != "" && IsSpace(s[0]) then TrimLeft(s[1..]) else s
  }

  function TrimRight(s: string): string {
    if s != "" && IsSpace(s[|s| - 1]) then TrimRight(s[..|s| - 1]) else s
  }

  function TrimSpace(s: string): string {
    TrimRight(TrimLeft(s))
  }

  const JOB_PARAMETERS := "jobParameters['"
  const JOB_EXECUTION_CONTEXT := "jobExecutionContext['"

  /** The key in an expression that consists of the prefix, a key of one or more characters, and the closing quote and bracket. */
  function KeyOf(expr: string, prefix: string): Option<string> {
    if |expr| > |prefix| + 2 && prefix <= expr && expr[|expr| - 2..] == "']" && '\n' !in expr[|prefix|..|expr| - 2]
    then Some(expr[|prefix|..|expr| - 2]) else None
  }

  /** What a token is replaced with: a token that cannot be resolved stays as it is. */
  function Substitute(token: string, job: Option<Job>): string
    requires |token| >= 3
  {
    var expr := TrimSpace(token[2..|token| - 1]);
    if job.None? then token
    else
      var parameter, entry := KeyOf(expr, JOB_PARAMETERS), KeyOf(expr, JOB_EXECUTION_CONTEXT);
      if parameter.Some? && parameter.value in job.value.parameters then job.value.parameters[parameter.value]
      else if entry.Some? && entry.value in job.value.context then job.value.context[entry.value]
      else token
  }

  function Resolve(s: string, job: Option<Job>): string
    decreases |s|
  {
    if s == "" then ""
    else
      match TokenEnd(s)
      case Some(n) => Substitute(s[..n], job) + Resolve(s[n..], job)
      case None => [s[0]] + Resolve(s[1..], job)
  }

  // ---------- Scanning laws ----------

  lemma NoMatchNoToken(s: string)
    requires forall m: int :: !Matches(s, m)
    ensures TokenEnd(s).None?
  {
    if TokenEnd(s).Some? {
      ShortestMatches(s);
    }
  }

  lemma ResolveToken(s: string, job: Option<Job>)
    requires TokenEnd(s).Some?
    ensures var n := TokenEnd(s).value; Resolve(s, job) == Substitute(s[..n], job) + Resolve(s[n..], job)
  {
  }

  lemma ResolveChar(s: string, job: Option<Job>)
    requires s != "" && TokenEnd(s).None?
    ensures Resolve(s, job) == [s[0]] + Resolve(s[1..], job)
  {
  }

  lemma {:induction false} SkipLiterals(s: string, m: nat, job: Option<Job>)
    requires m <= |s| && forall k :: 0 <= k < m ==> TokenEnd(s[k..]).None?
    ensures Resolve(s, job) == s[..m] + Resolve(s[m..], job)
  {
    hide TokenEnd, Resolve;
    if m == 0 {
      assert s[0..] == s;
    } else {
      SkipLiterals(s, m - 1, job);
      ResolveChar(s[m - 1..], job);
      assert s[m - 1..][1..] == s[m..];
      assert s[..m] == s[..m - 1] + [s[m - 1]];
    }
  }

  /**
  Resolving replaces the leftmost token, the shortest one there, by its value as it stands, and goes on after it: nothing
  before it changes, and nothing inside the value is resolved.
  */
  lemma ResolveLeftmost(s: string, i: nat, n: nat, job: Option<Job>)
    requires i <= |s| && Shortest(s[i..], n) && forall k, m :: 0 <= k < i ==> !Matches(s[k..], m)
    ensures Resolve(s, job) == s[..i] + Substitute(s[i..i + n], job) + Resolve(s[i + n..], job)
  {
    hide TokenEnd, Resolve, Substitute;
    forall k | 0 <= k < i ensures TokenEnd(s[k..]).None? {
      NoMatchNoToken(s[k..]);
    }
    SkipLiterals(s, i, job);
    TokenEndIsShortest(s[i..], n);
    ResolveToken(s[i..], job);
    assert s[i..][..n] == s[i..i + n] && s[i..][n..] == s[i + n..];
  }

  /** A string without a token is returned as it is. */
  lemma ResolveWithoutToken(s: string, job: Option<Job>)
    requires forall k, m :: 0 <= k < |s| ==> !Matches(s[k..], m)
    ensures Resolve(s, job) == s
  {
    forall k | 0 <= k < |s| ensures TokenEnd(s[k..]).None? {
      NoMatchNoToken(s[k..]);
    }
    SkipLiterals(s, |s|, job);
  }

  /** Tokens and the text between them make up the whole string: without a job execution nothing changes. */
  lemma {:induction false} NoJobNoChange(s: string)
    ensures Resolve(s, None) == s
    decreases |s|
  {
    if s != "" {
      match TokenEnd(s) {
        case Some(n) => NoJobNoChange(s[n..]);
        case None => NoJobNoChange(s[1..]);
      }
    }
  }

  // ---------- References ----------

  /** White space that may stand inside a token. */
  predicate IsBlank(s: string) {
    forall i :: 0 <= i < |s| ==> IsSpace(s[i]) && s[i] != '\n'
  }

  /** An expression that ends its token nowhere before its own end, and that no blanks surround. */
  predicate IsPlain(expr: string) {
    expr != "" && !IsSpace(expr[0]) && !IsSpace(expr[|expr| - 1]) && '\n' !in expr && '}' !in expr
  }

  function Token(left: string, expr: string, right: string): (token: string)
    ensures |token| >= 3
  {
    "#{" + left + expr + right + "}"
  }

  lemma {:induction false} TrimLeftBlank(left: string, rest: string)
    requires IsBlank(left) && rest != "" && !IsSpace(rest[0])
    ensures TrimLeft(left + rest) == rest
  {
    if left == "" {
      assert left + rest == rest;
    } else {
      assert (left + rest)[1..] == left[1..] + rest;
      TrimLeftBlank(left[1..], rest);
    }
  }

  lemma {:induction false} TrimRightBlank(rest: string, right: string)
    requires IsBlank(right) && rest != "" && !IsSpace(rest[|rest| - 1])
    ensures TrimRight(rest + right) == rest
    decreases |right|
  {
    if right == "" {
      assert rest + right == rest;
    } else {
      var last := |right| - 1;
      assert (rest + right)[..|rest + right| - 1] == rest + right[..last] && (rest + right)[|rest + right| - 1] == right[last];
      TrimRightBlank(rest, right[..last]);
    }
  }

  lemma TokenIsShortest(left: string, expr: string, right: string, after: string)
    requires IsBlank(left) && IsPlain(expr) && IsBlank(right)
    ensures Shortest(Token(left, expr, right) + after, |Token(left, expr, right)|)
  {
    var token := Token(left, expr, right);
    var body := left + expr + right;
    assert forall i :: 0 <= i < |body| ==> body[i] != '\n' && body[i] != '}';
    assert (token + after)[2..|token| - 1] == body;
    forall m | m < |token| ensures !Matches(token + after, m) {
      if 4 <= m {
        assert (token + after)[m - 1] == body[m - 3];
      }
    }
  }

  /** The text around a token stays, and what is behind it is resolved by itself. */
  lemma ResolveAround(before: string, left: string, expr: string, right: string, after: string, job: Option<Job>)
    requires IsBlank(left) && IsPlain(expr) && IsBlank(right)
    requires var s := before + Token(left, expr, right) + after; forall k, m :: 0 <= k < |before| ==> !Matches(s[k..], m)
    ensures Resolve(before + Token(left, expr, right) + after, job)
            == before + Substitute(Token(left, expr, right), job) + Resolve(after, job)
  {
    hide Resolve, Substitute, Matches, IsBlank, IsPlain;
    var token := Token(left, expr, right);
    var s, i, n := before + token + after, |before|, |token|;
    TokenIsShortest(left, expr, right, after);
    assert s[i..] == token + after && s[..i] == before && s[i..i + n] == token && s[i + n..] == after;
    ResolveLeftmost(s, i, n, job);
  }

  lemma TokenExpression(left: string, expr: string, right: string)
    requires IsBlank(left) && IsPlain(expr) && IsBlank(right)
    ensures var token := Token(left, expr, right); TrimSpace(token[2..|token| - 1]) == expr
  {
    var token := Token(left, expr, right);
    assert token[2..|token| - 1] == left + (expr + right);
    TrimLeftBlank(left, expr + right);
    TrimRightBlank(expr, right);
  }

  /** A key that can be named in a token. */
  predicate IsName(key: string) {
    key != "" && '\n' !in key && '}' !in key
  }

  /** A reference to a job parameter is replaced with the parameter's value, blanks around it or not, and stays if there is none. */
  lemma ParameterReplaced(before: string, left: string, key: string, right: string, after: string, job: Job)
    requires IsBlank(left) && IsName(key) && IsBlank(right)
    requires var s := before + Token(left, "jobParameters['" + key + "']", right) + after;
             forall k, m :: 0 <= k < |before| ==> !Matches(s[k..], m)
    ensures var token := Token(left, "jobParameters['" + key + "']", right);
            Resolve(before + token + after, Some(job))
            == before + (if key in job.parameters then job.parameters[key] else token) + Resolve(after, Some(job))
  {
    hide Resolve, Matches, IsBlank, TrimSpace;
    var expr := "jobParameters['" + key + "']";
    TokenExpression(left, expr, right);
    ResolveAround(before, left, expr, right, after, Some(job));
    assert expr[|JOB_PARAMETERS|..|expr| - 2] == key && expr[|expr| - 2..] == "']";
    assert expr[3] == 'P' && JOB_EXECUTION_CONTEXT[3] == 'E';
  }

  /** The same for a reference to an entry of the job's context. */
  lemma ContextEntryReplaced(before: string, left: string, key: string, right: string, after: string, job: Job)
    requires IsBlank(left) && IsName(key) && IsBlank(right)
    requires var s := before + Token(left, "jobExecutionContext['" + key + "']", right) + after;
             forall k, m :: 0 <= k < |before| ==> !Matches(s[k..], m)
    ensures var token := Token(left, "jobExecutionContext['" + key + "']", right);
            Resolve(before + token + after, Some(job))
            == before + (if key in job.context then job.context[key] else token) + Resolve(after, Some(job))
  {
    hide Resolve, Matches, IsBlank, TrimSpace;
    var expr := "jobExecutionContext['" + key + "']";
    TokenExpression(left, expr, right);
    ResolveAround(before, left, expr, right, after, Some(job));
    assert expr[|JOB_EXECUTION_CONTEXT|..|expr| - 2] == key && expr[|expr| - 2..] == "']";
    assert expr[3] == 'E' && JOB_PARAMETERS[3] == 'P';
  }

  /** Any other expression leaves its token as it is. */
  lemma OtherStays(before: string, left: string, expr: string, right: string, after: string, job: Option<Job>)
    requires IsBlank(left) && IsPlain(expr) && IsBlank(right)
    requires !("jobParameters['" <= expr) && !("jobExecutionContext['" <= expr)
    requires var s := before + Token(left, expr, right) + after; forall k, m :: 0 <= k < |before| ==> !Matches(s[k..], m)
    ensures Resolve(before + Token(left, expr, right) + after, job) == before + Token(left, expr, right) + Resolve(after, job)
  {
    hide Resolve, Matches, IsBlank, TrimSpace, IsPlain;
    TokenExpression(left, expr, right);
    ResolveAround(before, left, expr, right, after, job);
  }
}
