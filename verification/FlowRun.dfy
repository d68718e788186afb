/**
Running a compiled flow. `Turn` is one iteration of the run's loop on values; the class carries it out in place. What steps,
decisions, the repository and the context's cancellation do at each turn is an answer of the environment.
*/
module FlowRun {
  import FlowCompiler
  import opened FlowDefinitions
  import opened Options

  datatype BatchStatus = STARTING | STARTED | STOPPING | STOPPED | COMPLETED | FAILED | ABANDONED | COMPLETING | RESTARTING | UNKNOWN | CANCELLED

  datatype StepExecution = StepExecution(name: string, status: BatchStatus)

  /** `canceled`: the error wraps the context's cancellation error. */
  datatype Failure = Failure(message: string, canceled: bool)

  /** What the environment answers in one turn. `branches` are the errors of a split's steps, joined in this order. */
  datatype Answer = Answer(
    cancelled: Option<string>,
    saveError: Option<string>,
    exitStatus: string,
    error: Option<Failure>,
    stepStatus: BatchStatus,
    branches: seq<string>,
    now: int)

  datatype Job = Job(status: BatchStatus, exitStatus: string, endTime: Option<int>, failures: seq<string>, currentStepName: string,
                     stepExecutions: seq<StepExecution>)

  datatype Ending = Cancelled | NotFound | SaveFailed | ByRule(rule: Transition) | NoRule(failed: bool)

  datatype Run = Going(id: string, job: Job) | Returned(job: Job, ending: Ending)

  // ---------- The marks ----------

  function AddFailure(j: Job, message: string): Job {
    if message in j.failures then j else j.(failures := j.failures + [message])
  }

  function MarkCompleted(j: Job, now: int): Job {
    j.(status := COMPLETED, exitStatus := "COMPLETED", endTime := Some(now))
  }

  function MarkFailed(j: Job, message: string, now: int): Job {
    AddFailure(j.(status := FAILED, exitStatus := "FAILED", endTime := Some(now)), message)
  }

  function MarkStopped(j: Job, now: int): Job {
    j.(status := STOPPED, exitStatus := "STOPPED", endTime := Some(now))
  }

  // ---------- One turn ----------

  /** The first execution of the step that is not completed; a completed one is never found again. */
  function FindExecution(executions: seq<StepExecution>, name: string): (i: nat)
    ensures i <= |executions|
    ensures i < |executions| ==> executions[i].name == name && executions[i].status != COMPLETED
    ensures forall j :: 0 <= j < i ==> executions[j].name != name || executions[j].status == COMPLETED
  {
    if executions == [] then 0
    else if executions[0].name == name && executions[0].status != COMPLETED then 0
    else 1 + FindExecution(executions[1..], name)
  }

  /** The execution of a step that has not been found is new; a new or STARTING one is saved first. */
  function Prepared(executions: seq<StepExecution>, name: string): (prepared: seq<StepExecution>)
    ensures FindExecution(prepared, name) < |prepared|
  {
    var i := FindExecution(executions, name);
    if i < |executions| then executions
    else
      var prepared := executions + [StepExecution(name, STARTING)];
      assert prepared[|executions|].name == name;
      assert FindExecution(prepared, name) <= |executions|;
      prepared
  }

  function Joined(messages: seq<string>): string {
    if messages == [] then "" else if |messages| == 1 then messages[0] else messages[0] + "\n" + Joined(messages[1..])
  }

  /** A line for each message. */
  lemma {:induction false} JoinedLines(a: seq<string>, b: seq<string>)
    requires a != [] && b != []
    ensures Joined(a + b) == Joined(a) + "\n" + Joined(b) && Joined([a[0]]) == a[0]
  {
    assert (a + b)[1..] == a[1..] + b;
    if |a| > 1 {
      JoinedLines(a[1..], b);
    }
  }

  /** An error of a step or a decision is recorded and marks the job. */
  function Note(j: Job, error: Option<Failure>, now: int): Job {
    match error
    case None => j
    case Some(f) =>
      if f.canceled then MarkStopped(AddFailure(j, f.message), now) else MarkFailed(AddFailure(j, f.message), f.message, now)
  }

  /** The job after the element has run, the error of the element, and whether its execution could not be saved. */
  datatype Effect = Effect(job: Job, error: Option<string>, unsaved: bool)

  function RunElement(e: Element, a: Answer, j: Job): Effect {
    match e
    case Step(name) =>
      var executions := Prepared(j.stepExecutions, name);
      var i := FindExecution(executions, name);
      var started := j.(currentStepName := name, stepExecutions := executions);
      if executions[i].status == STARTING && a.saveError.Some? then
        Effect(MarkFailed(AddFailure(started, a.saveError.value), a.saveError.value, a.now), a.saveError, true)
      else
        var ran := started.(stepExecutions := executions[i := StepExecution(name, a.stepStatus)]);
        Effect(Note(ran, a.error, a.now), MessageOf(a.error), false)
    case Decision(_) => Effect(Note(j, a.error, a.now), MessageOf(a.error), false)
    case Split(_, _) => Effect(j, if a.branches == [] then None else Some(Joined(a.branches)), false)
  }

  function MessageOf(error: Option<Failure>): Option<string> {
    if error.Some? then Some(error.value.message) else None
  }

  function NotFoundMessage(id: string): string {
    "Flow element '" + id + "' not found"
  }

  function FailMessage(id: string): string {
    "explicit fail transition from " + id
  }

  /** What follows the element: `error` is the element's error. */
  function Follow(f: Flow, e: Element, error: Option<string>, j: Job, now: int): Run {
    match f.FirstRule(e.id)
    case None =>
      if error.None? then Returned(MarkCompleted(j, now), NoRule(false)) else Returned(MarkFailed(j, error.value, now), NoRule(true))
    case Some(rule) =>
      if rule.end then Returned(MarkCompleted(j, now), ByRule(rule))
      else if rule.fail then Returned(MarkFailed(j, FailMessage(e.id), now), ByRule(rule))
      else if rule.stop then Returned(MarkStopped(j, now), ByRule(rule))
      else Going(rule.target, j)
  }

  function Turn(f: Flow, a: Answer, r: Run): Run {
    match r
    case Returned(_, _) => r
    case Going(id, j) =>
      if a.cancelled.Some? then Returned(MarkStopped(AddFailure(j, a.cancelled.value), a.now), Cancelled)
      else if id !in f.elements then
        Returned(MarkFailed(AddFailure(j, NotFoundMessage(id)), NotFoundMessage(id), a.now), NotFound)
      else
        var effect := RunElement(f.elements[id], a, j);
        if effect.unsaved then Returned(effect.job, SaveFailed)
        else Follow(f, f.elements[id], effect.error, effect.job, a.now)
  }

  /** A restarted or resumed job goes on from its current step. */
  function StartOf(f: Flow, j: Job): string {
    if j.currentStepName != "" && (j.status == RESTARTING || j.status == STARTED) then j.currentStepName else f.start
  }

  function After(f: Flow, env: nat -> Answer, start: Run, turns: nat): Run {
    if turns == 0 then start else Turn(f, env(turns - 1), After(f, env, start, turns - 1))
  }

  /** The elements visited in the first turns. */
  function Visited(f: Flow, env: nat -> Answer, start: Run, turns: nat): seq<string> {
    if turns == 0 then []
    else
      var r := After(f, env, start, turns - 1);
      Visited(f, env, start, turns - 1)
      + (if r.Going? && env(turns - 1).cancelled.None? && r.id in f.elements then [r.id] else [])
  }

  // ---------- The path ----------

  /** The element after `id`: it depends on the flow alone. */
  function NextOf(f: Flow, id: string): Option<string> {
    if id !in f.elements then None
    else
      match f.FirstRule(f.elements[id].id)
      case None => None
      case Some(rule) => if rule.end || rule.fail || rule.stop then None else Some(rule.target)
  }

  function Path(f: Flow, id: string, n: nat): Option<string> {
    if n == 0 then Some(id)
    else
      match Path(f, id, n - 1)
      case None => None
      case Some(at) => NextOf(f, at)
  }

  lemma TurnFollowsPath(f: Flow, a: Answer, id: string, j: Job)
    ensures var r := Turn(f, a, Going(id, j));
            && (r.Going? ==> a.cancelled.None? && id in f.elements && NextOf(f, id) == Some(r.id))
            && (r.Returned? && (r.ending.ByRule? || r.ending.NoRule?) ==>
                  a.cancelled.None? && id in f.elements && NextOf(f, id) == None)
  {
    hide RunElement, MarkFailed, MarkCompleted, MarkStopped, AddFailure;
  }

  /** The visited elements are the beginning of the path, one a turn while the run goes on. */
  lemma {:induction false} VisitedIsPath(f: Flow, env: nat -> Answer, id: string, j: Job, turns: nat)
    ensures var r := After(f, env, Going(id, j), turns);
            var visited := Visited(f, env, Going(id, j), turns);
            && |visited| <= turns
            && (forall i :: 0 <= i < |visited| ==> Path(f, id, i) == Some(visited[i]) && visited[i] in f.elements)
            && (r.Going? ==> |visited| == turns && Path(f, id, turns) == Some(r.id))
            && (r.Returned? && (r.ending.ByRule? || r.ending.NoRule?) ==> |visited| > 0 && Path(f, id, |visited|) == None)
  {
    hide Turn, NextOf;
    if turns > 0 {
      VisitedIsPath(f, env, id, j, turns - 1);
      var before := After(f, env, Going(id, j), turns - 1);
      if before.Going? {
        TurnFollowsPath(f, env(turns - 1), before.id, before.job);
      } else {
        ReturnedStays(f, env(turns - 1), before);
      }
    }
  }

  lemma ReturnedStays(f: Flow, a: Answer, r: Run)
    requires r.Returned?
    ensures Turn(f, a, r) == r
  {
  }

  lemma {:induction false} PathRepeats(f: Flow, id: string, i: nat, j: nat, k: nat)
    requires Path(f, id, i) == Path(f, id, j)
    ensures Path(f, id, i + k) == Path(f, id, j + k)
  {
    if k > 0 {
      PathRepeats(f, id, i, j, k - 1);
    }
  }

  predicate Distinct<T(==)>(s: seq<T>) {
    forall i, j :: 0 <= i < j < |s| ==> s[i] != s[j]
  }

  lemma {:induction false} DistinctBound(s: seq<string>, all: set<string>)
    requires Distinct(s) && forall i :: 0 <= i < |s| ==> s[i] in all
    ensures |s| <= |all|
  {
    if s != [] {
      var last := s[|s| - 1];
      assert last in all;
      DistinctBound(s[..|s| - 1], all - {last});
    }
  }

  // ---------- Main results ----------

  /** Path determinism: whatever statuses and errors occur, two runs from the same element visit the same path. */
  lemma PathDeterminism(f: Flow, id: string, env: nat -> Answer, j: Job, n: nat, env': nat -> Answer, j': Job, n': nat)
    ensures var v, v' := Visited(f, env, Going(id, j), n), Visited(f, env', Going(id, j'), n');
            v <= v' || v' <= v
  {
    hide Visited, Path;
    VisitedIsPath(f, env, id, j, n);
    VisitedIsPath(f, env', id, j', n');
    var v, v' := Visited(f, env, Going(id, j), n), Visited(f, env', Going(id, j'), n');
    forall i | 0 <= i < |v| && i < |v'| ensures v[i] == v'[i] {
      assert Some(v[i]) == Path(f, id, i) == Some(v'[i]);
    }
  }

  /** A run that ends through its transitions visits no element twice, so at most as many as there are. */
  lemma NoElementTwice(f: Flow, env: nat -> Answer, id: string, j: Job, turns: nat, visited: seq<string>)
    requires var r := After(f, env, Going(id, j), turns); r.Returned? && (r.ending.ByRule? || r.ending.NoRule?)
    requires visited == Visited(f, env, Going(id, j), turns)
    ensures Distinct(visited) && |visited| <= |f.elements|
  {
    hide After, Visited, Path;
    VisitedIsPath(f, env, id, j, turns);
    forall i, k | 0 <= i < k < |visited| ensures visited[i] != visited[k] {
      var m := i + (|visited| - k);
      assert Path(f, id, m) == Some(visited[m]);
      if visited[i] == visited[k] {
        PathRepeats(f, id, i, k, |visited| - k);
        assert false;
      }
    }
    DistinctBound(visited, f.elements.Keys);
  }

  /** Neither the context nor the repository interrupts the run. */
  ghost predicate Undisturbed(env: nat -> Answer) {
    forall n :: env(n).cancelled.None? && env(n).saveError.None?
  }

  /** An undisturbed run of a safe flow ends if and only if it has ended after as many turns as there are elements. */
  lemma RunEndsIff(f: Flow, env: nat -> Answer, id: string, j: Job)
    requires Safe(f) && id in f.elements && Undisturbed(env)
    ensures (exists n: nat :: After(f, env, Going(id, j), n).Returned?) <==> After(f, env, Going(id, j), |f.elements|).Returned?
  {
    hide Safe, Turn, Visited;
    if n: nat :| After(f, env, Going(id, j), n).Returned? {
      FirstReturn(f, env, id, j, n);
    }
  }

  lemma {:induction false} FirstReturn(f: Flow, env: nat -> Answer, id: string, j: Job, n: nat)
    requires Safe(f) && id in f.elements && Undisturbed(env) && After(f, env, Going(id, j), n).Returned?
    ensures After(f, env, Going(id, j), |f.elements|).Returned?
  {
    hide Safe, Turn;
    var before := After(f, env, Going(id, j), n - 1);
    if before.Returned? {
      FirstReturn(f, env, id, j, n - 1);
    } else {
      LookupsSucceed(f, env, id, j, n - 1);
      EndsThroughTransition(f, env(n - 1), before);
      NoElementTwice(f, env, id, j, n, Visited(f, env, Going(id, j), n));
      VisitedIsPath(f, env, id, j, n - 1);
      assert |Visited(f, env, Going(id, j), n)| == n;
      ReturnedForGood(f, env, Going(id, j), n, |f.elements|);
    }
  }

  lemma EndsThroughTransition(f: Flow, a: Answer, r: Run)
    requires r.Going? && r.id in f.elements && a.cancelled.None? && a.saveError.None? && Turn(f, a, r).Returned?
    ensures Turn(f, a, r).ending.ByRule? || Turn(f, a, r).ending.NoRule?
  {
  }

  lemma {:induction false} ReturnedForGood(f: Flow, env: nat -> Answer, start: Run, n: nat, m: nat)
    requires n <= m && After(f, env, start, n).Returned?
    ensures After(f, env, start, m) == After(f, env, start, n)
    decreases m
  {
    if n < m {
      ReturnedForGood(f, env, start, n, m - 1);
      ReturnedStays(f, env(m - 1), After(f, env, start, m - 1));
    }
  }

  /** In a safe flow every lookup of every run finds its element, and every rule taken says exactly one thing. */
  lemma {:induction false} LookupsSucceed(f: Flow, env: nat -> Answer, id: string, j: Job, turns: nat)
    requires Safe(f) && id in f.elements
    ensures var r := After(f, env, Going(id, j), turns);
            && (r.Going? ==> r.id in f.elements)
            && (r.Returned? ==> !r.ending.NotFound? && (r.ending.ByRule? ==> Exclusive(r.ending.rule)))
  {
    hide MarkFailed, MarkCompleted, MarkStopped, AddFailure, RunElement;
    if turns > 0 {
      LookupsSucceed(f, env, id, j, turns - 1);
      var before := After(f, env, Going(id, j), turns - 1);
      if before.Going? {
        var rules := f.Rules(f.elements[before.id].id);
        assert rules != [] ==> SafeRule(f, rules[0]);
      }
    }
  }

  /** The final status of a returned job. */
  ghost predicate Final(j: Job, ending: Ending) {
    && j.endTime.Some?
    && j.exitStatus == (if j.status == COMPLETED then "COMPLETED" else if j.status == FAILED then "FAILED" else "STOPPED")
    && j.status == (match ending
                    case Cancelled => STOPPED
                    case NotFound => FAILED
                    case SaveFailed => FAILED
                    case ByRule(rule) => if rule.end then COMPLETED else if rule.fail then FAILED else STOPPED
                    case NoRule(failed) => if failed then FAILED else COMPLETED)
  }

  /** Every return, of any flow, leaves the job COMPLETED, FAILED or STOPPED, as its ending says, with an end time. */
  lemma {:induction false} EveryReturnIsFinal(f: Flow, env: nat -> Answer, id: string, j: Job, turns: nat)
    requires After(f, env, Going(id, j), turns).Returned?
    ensures var r := After(f, env, Going(id, j), turns); Final(r.job, r.ending)
  {
    hide RunElement;
    var before := After(f, env, Going(id, j), turns - 1);
    if before.Returned? {
      EveryReturnIsFinal(f, env, id, j, turns - 1);
    } else if before.id in f.elements {
      UnsavedFails(f.elements[before.id], env(turns - 1), before.job);
    }
  }

  lemma UnsavedFails(e: Element, a: Answer, j: Job)
    ensures RunElement(e, a, j).unsaved ==> Final(RunElement(e, a, j).job, SaveFailed)
  {
  }

  // ---------- The rule that is taken ----------

  ghost predicate FirstOpen(executions: seq<StepExecution>, name: string, i: int) {
    && 0 <= i < |executions| && executions[i].name == name && executions[i].status != COMPLETED
    && forall k :: 0 <= k < i && executions[k].name == name ==> executions[k].status == COMPLETED
  }

  /** The step's execution has to be saved before it runs: it is new, or a restart has made it. */
  ghost predicate SavedFirst(e: Element, executions: seq<StepExecution>) {
    e.Step? && (OnlyCompleted(executions, e.id) || exists i :: FirstOpen(executions, e.id, i) && executions[i].status == STARTING)
  }

  lemma FoundIsFirstOpen(executions: seq<StepExecution>, name: string)
    ensures var i := FindExecution(executions, name);
            && (OnlyCompleted(executions, name) <==> i == |executions|)
            && (forall k :: FirstOpen(executions, name, k) <==> k == i < |executions|)
  {
    var i := FindExecution(executions, name);
    forall k | FirstOpen(executions, name, k) ensures k == i {
    }
  }

  lemma UnsavedIff(e: Element, a: Answer, j: Job)
    ensures RunElement(e, a, j).unsaved <==> SavedFirst(e, j.stepExecutions) && a.saveError.Some?
    ensures !RunElement(e, a, j).unsaved ==> (RunElement(e, a, j).error.Some? <==> Fails(e, a))
    ensures RunElement(e, a, j).unsaved ==> RunElement(e, a, j).job.endTime == Some(a.now)
  {
    hide Note;
    if e.Step? {
      PreparedExtends(j.stepExecutions, e.id);
      FoundIsFirstOpen(j.stepExecutions, e.id);
    }
  }

  /** Where the run of an element leads, by the element's rules from the first one on. */
  ghost predicate Leads(rules: seq<Transition>, failed: bool, r: Run) {
    if rules == [] then r.Returned? && r.job.status == (if failed then FAILED else COMPLETED)
    else if rules[0].end then r.Returned? && r.job.status == COMPLETED
    else if rules[0].fail then r.Returned? && r.job.status == FAILED
    else if rules[0].stop then r.Returned? && r.job.status == STOPPED
    else r.Going? && r.id == rules[0].target
  }

  /** One turn: what interrupts it, in this order, and otherwise the first of the element's rules, for whatever status it was declared. */
  lemma TurnByFirstRule(f: Flow, a: Answer, id: string, j: Job)
    ensures var r := Turn(f, a, Going(id, j));
            if a.cancelled.Some? then r.Returned? && r.ending == Cancelled
            else if id !in f.elements then r.Returned? && r.ending == NotFound
            else if SavedFirst(f.elements[id], j.stepExecutions) && a.saveError.Some? then r.Returned? && r.ending == SaveFailed
            else Leads(f.Rules(f.elements[id].id), Fails(f.elements[id], a), r)
    ensures var r := Turn(f, a, Going(id, j)); r.Returned? ==> r.job.endTime == Some(a.now)
  {
    hide RunElement, SavedFirst;
    if id in f.elements {
      UnsavedIff(f.elements[id], a, j);
    }
  }

  function ErrorOf(e: Element, a: Answer): set<string> {
    if e.Split? then (if a.branches == [] then {} else {Joined(a.branches)}) else if a.error.Some? then {a.error.value.message} else {}
  }

  /** The failures that a turn lists: the interruption, or a step's or decision's error and what a failing end adds. */
  ghost function FailuresOf(f: Flow, a: Answer, id: string, j: Job): set<string> {
    if a.cancelled.Some? then {a.cancelled.value}
    else if id !in f.elements then {"Flow element '" + id + "' not found"}
    else
      var e := f.elements[id];
      if SavedFirst(e, j.stepExecutions) && a.saveError.Some? then {a.saveError.value}
      else
        var rules := f.Rules(e.id);
        (if e.Split? then {} else ErrorOf(e, a))
        + (if rules == [] then ErrorOf(e, a)
           else if !rules[0].end && rules[0].fail then {"explicit fail transition from " + e.id} else {})
  }

  lemma ElementFailures(e: Element, a: Answer, j: Job)
    ensures var effect := RunElement(e, a, j);
            && (effect.unsaved ==> Listed(j, effect.job, {a.saveError.value}))
            && (!effect.unsaved ==>
                && Listed(j, effect.job, if e.Split? then {} else ErrorOf(e, a))
                && (effect.error.Some? ==> ErrorOf(e, a) == {effect.error.value}) && (effect.error.None? ==> ErrorOf(e, a) == {})
                && effect.job.status == (if e.Split? || a.error.None? then j.status else if a.error.value.canceled then STOPPED else FAILED))
  {
    hide FindExecution, Prepared;
  }

  /** `k` lists these failures more than `j`. */
  ghost predicate Listed(j: Job, k: Job, failures: set<string>) {
    forall m :: m in k.failures <==> m in j.failures || m in failures
  }

  /** A turn lists exactly those failures; and a job that goes on is marked by a step's or decision's error and by nothing else. */
  lemma TurnFailures(f: Flow, a: Answer, id: string, j: Job)
    ensures var r := Turn(f, a, Going(id, j));
            && Listed(j, r.job, FailuresOf(f, a, id, j))
            && (r.Going? ==>
                  var e := f.elements[id];
                  r.job.status == (if e.Split? || a.error.None? then j.status else if a.error.value.canceled then STOPPED else FAILED))
  {
    hide RunElement, SavedFirst;
    if id in f.elements {
      UnsavedIff(f.elements[id], a, j);
      ElementFailures(f.elements[id], a, j);
    }
  }

  /** `g` has the elements of `f`, and may have more rules behind those of an element that has one. */
  ghost predicate Extends(g: Flow, f: Flow) {
    && g.elements == f.elements
    && forall id :: f.Rules(id) <= g.Rules(id) && (f.Rules(id) == [] ==> g.Rules(id) == [])
  }

  /** Rules behind the first one never matter: a run takes the same course, to the same state, without them. */
  lemma {:induction false} FurtherRulesIdle(f: Flow, g: Flow, env: nat -> Answer, start: Run, n: nat)
    requires Extends(g, f)
    ensures After(g, env, start, n) == After(f, env, start, n)
  {
    hide RunElement, MarkCompleted, MarkFailed, MarkStopped, AddFailure;
    if n > 0 {
      FurtherRulesIdle(f, g, env, start, n - 1);
      var before := After(f, env, start, n - 1);
      if before.Going? && before.id in f.elements {
        assert f.Rules(f.elements[before.id].id) <= g.Rules(f.elements[before.id].id);
      }
    }
  }

  /** A declared rule says where the run goes. */
  ghost predicate LeadsAsDeclared(rules: seq<FlowCompiler.JslTransition>, failed: bool, r: Run) {
    if rules == [] then r.Returned? && r.job.status == (if failed then FAILED else COMPLETED)
    else if rules[0].end then r.Returned? && r.job.status == COMPLETED
    else if rules[0].fail then r.Returned? && r.job.status == FAILED
    else if rules[0].stop then r.Returned? && r.job.status == STOPPED
    else r.Going? && r.id == rules[0].target
  }

  /**
  From declaration to course: at every turn of every run of an accepted flow that nothing interrupts, the first rule declared
  for the element completes, fails or stops the job or leads on to its target.
  */
  lemma RunsAsDeclared(declared: FlowCompiler.JslFlow, f: Flow, env: nat -> Answer, start: string, j: Job, n: nat, r: Run, next: Run)
    requires FlowCompiler.WellFormed(declared) && FlowCompiler.Added(declared, f, declared.elements.Keys)
    requires start in declared.elements && r == After(f, env, Going(start, j), n) && next == After(f, env, Going(start, j), n + 1)
    requires r.Going? && env(n).cancelled.None? && env(n).saveError.None?
    ensures r.id in declared.elements && !declared.elements[r.id].JslUnknown?
    ensures LeadsAsDeclared(declared.elements[r.id].transitions, Fails(f.elements[r.id], env(n)), next)
  {
    hide After, Turn, SavedFirst;
    FlowCompiler.CompiledIsSafe(declared, f);
    LookupsSucceed(f, env, start, j, n);
    AfterNext(f, env, Going(start, j), n);
    TurnByFirstRule(f, env(n), r.id, r.job);
    FlowCompiler.CompiledAsDeclared(declared, f, r.id);
  }

  /** A run begins at the current step of a job that is restarted or resumed, and at the flow's start otherwise. */
  lemma BeginsAt(f: Flow, env: nat -> Answer, j: Job)
    requires env(0).cancelled.None?
    ensures var id := if (j.status == RESTARTING || j.status == STARTED) && j.currentStepName != "" then j.currentStepName else f.start;
            if id in f.elements then Visited(f, env, Going(StartOf(f, j), j), 1) == [id]
            else var r := After(f, env, Going(StartOf(f, j), j), 1); r.Returned? && r.ending == NotFound
  {
    hide RunElement, MarkFailed, AddFailure;
    var start := Going(StartOf(f, j), j);
    AfterNone(f, env, start);
    AfterNext(f, env, start, 0);
    assert Visited(f, env, start, 0) == [];
  }

  predicate ByTransition(r: Run) {
    r.Returned? && (r.ending.ByRule? || r.ending.NoRule?)
  }

  /** The element's own error in a turn. */
  predicate Fails(e: Element, a: Answer) {
    if e.Split? then a.branches != [] else a.error.Some?
  }

  /** The ending that the flow has for an element: its first rule or, without one, its own error. */
  function EndingAt(f: Flow, id: string, a: Answer): Ending
    requires id in f.elements
  {
    match f.FirstRule(f.elements[id].id)
    case Some(rule) => ByRule(rule)
    case None => NoRule(Fails(f.elements[id], a))
  }

  lemma TurnEnds(f: Flow, a: Answer, id: string, j: Job)
    requires ByTransition(Turn(f, a, Going(id, j)))
    ensures id in f.elements && a.cancelled.None?
    ensures Turn(f, a, Going(id, j)).ending == EndingAt(f, id, a)
  {
    hide FindExecution, Prepared, Note, MarkFailed, MarkCompleted, MarkStopped, AddFailure;
  }

  /** How a run ends by its transitions: by the first rule of the element visited last or, without one, by that element's error. */
  lemma {:induction false} EndingIsLastRule(f: Flow, env: nat -> Answer, id: string, j: Job, turns: nat)
    requires ByTransition(After(f, env, Going(id, j), turns))
    ensures var v := Visited(f, env, Going(id, j), turns);
            && v != [] && v[|v| - 1] in f.elements
            && After(f, env, Going(id, j), turns).ending == EndingAt(f, v[|v| - 1], env(|v| - 1))
  {
    hide Turn, EndingAt;
    var before := After(f, env, Going(id, j), turns - 1);
    if before.Returned? {
      ReturnedStays(f, env(turns - 1), before);
      EndingIsLastRule(f, env, id, j, turns - 1);
      assert Visited(f, env, Going(id, j), turns) == Visited(f, env, Going(id, j), turns - 1);
    } else {
      TurnEnds(f, env(turns - 1), before.id, before.job);
      VisitedIsPath(f, env, id, j, turns - 1);
    }
  }

  /**
  The fate of a job is in its flow: two runs from the same element that both end by their transitions visit the same
  elements. If one ends by a rule, both end by that rule and with the same status, whatever statuses and errors occurred;
  otherwise the error of the last element alone decides.
  */
  lemma SameEnding(f: Flow, id: string, env: nat -> Answer, j: Job, n: nat, env': nat -> Answer, j': Job, n': nat,
                   r: Run, r': Run, v: seq<string>, v': seq<string>)
    requires r == After(f, env, Going(id, j), n) && v == Visited(f, env, Going(id, j), n) && ByTransition(r)
    requires r' == After(f, env', Going(id, j'), n') && v' == Visited(f, env', Going(id, j'), n') && ByTransition(r')
    ensures v == v' && v != [] && v[|v| - 1] in f.elements
    ensures r.ending.ByRule? ==> r'.ending == r.ending && r'.job.status == r.job.status
    ensures r.ending.NoRule? ==>
              var failed := Fails(f.elements[v[|v| - 1]], env'(|v| - 1));
              r'.ending == NoRule(failed) && r'.job.status == if failed then FAILED else COMPLETED
  {
    hide After, Visited, Path, Fails;
    VisitedIsPath(f, env, id, j, n);
    VisitedIsPath(f, env', id, j', n');
    PathDeterminism(f, id, env, j, n, env', j', n');
    EndingIsLastRule(f, env, id, j, n);
    EndingIsLastRule(f, env', id, j', n');
    EveryReturnIsFinal(f, env, id, j, n);
    EveryReturnIsFinal(f, env', id, j', n');
  }

  /** An undisturbed run follows the path as long as it goes on through elements of the flow. */
  lemma {:induction false} UndisturbedFollows(f: Flow, env: nat -> Answer, id: string, j: Job, turns: nat)
    requires Undisturbed(env) && forall i :: 0 <= i < turns ==> Path(f, id, i).Some? && Path(f, id, i).value in f.elements
    requires Path(f, id, turns).Some?
    ensures After(f, env, Going(id, j), turns).Going? && After(f, env, Going(id, j), turns).id == Path(f, id, turns).value
  {
    hide Turn, Path, NextOf;
    if turns == 0 {
      assert Path(f, id, 0) == Some(id) by { PathStart(f, id); }
    } else {
      UndisturbedFollows(f, env, id, j, turns - 1);
      var before := After(f, env, Going(id, j), turns - 1);
      PathNext(f, id, turns);
      UndisturbedTurn(f, env(turns - 1), before.id, before.job);
    }
  }

  lemma PathStart(f: Flow, id: string)
    ensures Path(f, id, 0) == Some(id)
  {
  }

  lemma PathNext(f: Flow, id: string, n: nat)
    requires n > 0 && Path(f, id, n - 1).Some?
    ensures Path(f, id, n) == NextOf(f, Path(f, id, n - 1).value)
  {
  }

  lemma UndisturbedTurn(f: Flow, a: Answer, id: string, j: Job)
    requires a.cancelled.None? && a.saveError.None? && id in f.elements
    ensures var r := Turn(f, a, Going(id, j));
            if NextOf(f, id).Some? then r.Going? && r.id == NextOf(f, id).value else ByTransition(r)
    ensures f.elements[id].Step? || f.elements[id].Decision? ==>
              (a.error.Some? ==> a.error.value.message in Turn(f, a, Going(id, j)).job.failures)
  {
    hide FindExecution, Prepared, NextOf;
    NextIs(f, id);
  }

  lemma NextIs(f: Flow, id: string)
    requires id in f.elements
    ensures NextOf(f, id) == match f.FirstRule(f.elements[id].id)
                             case None => None
                             case Some(rule) => if rule.end || rule.fail || rule.stop then None else Some(rule.target)
  {
  }

  /**
  As coded failing steps do not fail a job that some run completes by a rule: every run that is not cancelled completes it
  by the same rule, on the same elements, though each failing step or decision is on the list of failures.
  */
  lemma CompletedDespiteFailure(f: Flow, id: string, env: nat -> Answer, j: Job, n: nat, env': nat -> Answer, j': Job,
                                r: Run, r': Run, v: seq<string>)
    requires r == After(f, env, Going(id, j), n) && v == Visited(f, env, Going(id, j), n)
    requires r.Returned? && r.ending.ByRule? && r.ending.rule.end
    requires Undisturbed(env') && r' == After(f, env', Going(id, j'), n)
    ensures r'.Returned? && r'.ending == r.ending && r'.job.status == COMPLETED
    ensures Visited(f, env', Going(id, j'), n) == v
    ensures forall i :: 0 <= i < |v| && v[i] in f.elements && !f.elements[v[i]].Split? && env'(i).error.Some? ==>
              env'(i).error.value.message in r'.job.failures
  {
    hide After, Visited, Path, Turn, NextOf;
    VisitedIsPath(f, env, id, j, n);
    forall i | 0 <= i < |v|
      ensures After(f, env', Going(id, j'), i).Going? && After(f, env', Going(id, j'), i).id == v[i]
    {
      UndisturbedFollows(f, env', id, j', i);
    }
    var last := |v| - 1;
    var before := After(f, env', Going(id, j'), last);
    PathNext(f, id, |v|);
    UndisturbedTurn(f, env'(last), before.id, before.job);
    AfterNext(f, env', Going(id, j'), last);
    ReturnedForGood(f, env', Going(id, j'), |v|, n);
    SameEnding(f, id, env, j, n, env', j', n, r, r', v, Visited(f, env', Going(id, j'), n));
    EveryReturnIsFinal(f, env', id, j', n);
    forall i | 0 <= i < |v| && v[i] in f.elements && !f.elements[v[i]].Split? && env'(i).error.Some?
      ensures env'(i).error.value.message in r'.job.failures
    {
      UndisturbedTurn(f, env'(i), v[i], After(f, env', Going(id, j'), i).job);
      AfterNext(f, env', Going(id, j'), i);
      HistoryKept(f, env', Going(id, j'), i + 1, n);
    }
  }

  lemma AfterNext(f: Flow, env: nat -> Answer, start: Run, n: nat)
    ensures After(f, env, start, n + 1) == Turn(f, env(n), After(f, env, start, n))
  {
  }

  /** From declaration to return: every run of a flow that the conversion accepts looks up only elements it has. */
  lemma CompiledFlowRunsSafely(declared: FlowCompiler.JslFlow, f: Flow, env: nat -> Answer, j: Job, turns: nat, r: Run)
    requires FlowCompiler.WellFormed(declared) && FlowCompiler.Added(declared, f, declared.elements.Keys)
    requires r == After(f, env, Going(f.start, j), turns)
    ensures if r.Going? then r.id in declared.elements
            else !r.ending.NotFound? && (r.ending.ByRule? ==> Exclusive(r.ending.rule)) && Final(r.job, r.ending)
  {
    hide After, Final;
    FlowCompiler.CompiledIsSafe(declared, f);
    LookupsSucceed(f, env, f.start, j, turns);
    if r.Returned? {
      EveryReturnIsFinal(f, env, f.start, j, turns);
    }
  }

  // ---------- Histories ----------

  /** What a turn keeps: failures are only added, never twice, and completed step executions are never touched again. */
  ghost predicate Keeps(j: Job, k: Job) {
    && j.failures <= k.failures && (Distinct(j.failures) ==> Distinct(k.failures))
    && KeepsExecutions(j.stepExecutions, k.stepExecutions)
  }

  ghost predicate KeepsExecutions(before: seq<StepExecution>, now: seq<StepExecution>) {
    && |before| <= |now|
    && forall i :: 0 <= i < |before| ==>
         now[i].name == before[i].name && (before[i].status == COMPLETED ==> now[i].status == COMPLETED)
  }

  /** From any moment of a run to any later one. */
  lemma {:induction false} HistoryKept(f: Flow, env: nat -> Answer, start: Run, n: nat, m: nat)
    requires n <= m
    ensures Keeps(After(f, env, start, n).job, After(f, env, start, m).job)
    decreases m
  {
    hide RunElement, Turn;
    if n < m {
      HistoryKept(f, env, start, n, m - 1);
      TurnKeeps(f, env(m - 1), After(f, env, start, m - 1));
    }
  }

  lemma TurnKeeps(f: Flow, a: Answer, r: Run)
    ensures Keeps(r.job, Turn(f, a, r).job)
  {
    hide RunElement, FindExecution;
    if r.Going? && r.id in f.elements {
      ElementKeeps(f.elements[r.id], a, r.job);
    }
  }

  lemma ElementKeeps(e: Element, a: Answer, j: Job)
    ensures Keeps(j, RunElement(e, a, j).job)
  {
    hide FindExecution, Prepared;
    if e.Step? {
      PreparedExtends(j.stepExecutions, e.id);
    }
  }

  lemma PreparedExtends(executions: seq<StepExecution>, name: string)
    ensures executions <= Prepared(executions, name)
    ensures FindExecution(executions, name) == |executions| ==> FindExecution(Prepared(executions, name), name) == |executions|
  {
    var prepared := Prepared(executions, name);
    var i := FindExecution(prepared, name);
    assert i < |executions| ==> prepared[i] == executions[i];
  }

  /** No execution of the step is open. */
  ghost predicate OnlyCompleted(executions: seq<StepExecution>, name: string) {
    forall i :: 0 <= i < |executions| && executions[i].name == name ==> executions[i].status == COMPLETED
  }

  /**
  Running a step: the first open execution of it is run, a new one exactly if there is none, and nothing else changes.
  An execution that could not be saved stays as it was.
  */
  lemma StepExecutionsAfter(name: string, a: Answer, j: Job)
    ensures var e, k := Step(name), RunElement(Step(name), a, j).job;
            var unsaved := SavedFirst(e, j.stepExecutions) && a.saveError.Some?;
            && k.currentStepName == name
            && (OnlyCompleted(j.stepExecutions, name) ==>
                  k.stepExecutions == j.stepExecutions + [StepExecution(name, if unsaved then STARTING else a.stepStatus)])
            && (forall i :: FirstOpen(j.stepExecutions, name, i) ==>
                  k.stepExecutions == if unsaved then j.stepExecutions else j.stepExecutions[i := StepExecution(name, a.stepStatus)])
            && (OnlyCompleted(j.stepExecutions, name) || exists i :: FirstOpen(j.stepExecutions, name, i))
  {
    hide FirstOpen, SavedFirst;
    PreparedExtends(j.stepExecutions, name);
    FoundIsFirstOpen(j.stepExecutions, name);
    UnsavedIff(Step(name), a, j);
    var i := FindExecution(j.stepExecutions, name);
    assert FirstOpen(j.stepExecutions, name, i) || i == |j.stepExecutions|;
  }

  /**
  A restart does not skip the completed step it resumes at, as one branch of the code intends: in every run the step is
  executed once more, as a new execution that stays in the history beside the completed ones.
  */
  lemma CompletedStepRunsAgain(f: Flow, env: nat -> Answer, j: Job, turns: nat, r: Run, executions: seq<StepExecution>)
    requires j.currentStepName != "" && (j.status == RESTARTING || j.status == STARTED)
    requires j.currentStepName in f.elements && f.elements[j.currentStepName] == Step(j.currentStepName)
    requires OnlyCompleted(j.stepExecutions, j.currentStepName)
    requires env(0).cancelled.None? && env(0).saveError.None? && turns > 0
    requires r == After(f, env, Going(StartOf(f, j), j), turns)
    requires executions == j.stepExecutions + [StepExecution(j.currentStepName, env(0).stepStatus)]
    ensures KeepsExecutions(executions, r.job.stepExecutions)
    ensures turns == 1 ==> r.job.stepExecutions == executions
  {
    hide After, RunElement;
    var start := Going(StartOf(f, j), j);
    StepExecutionsAfter(j.currentStepName, env(0), j);
    AfterNone(f, env, start);
    AfterNext(f, env, start, 0);
    HistoryKept(f, env, start, 1, turns);
  }

  lemma AfterNone(f: Flow, env: nat -> Answer, start: Run)
    ensures After(f, env, start, 0) == start
  {
  }

  // ---------- The run in place ----------

  class JobExecution {
    var status: BatchStatus
    var exitStatus: string
    var endTime: Option<int>
    var failures: seq<string>
    var currentStepName: string
    var stepExecutions: seq<StepExecution>

    constructor ()
      ensures Value() == Job(STARTING, "UNKNOWN", None, [], "", [])
    {
      status, exitStatus, endTime := STARTING, "UNKNOWN", None;
      failures, currentStepName, stepExecutions := [], "", [];
    }

    ghost function Value(): Job
      reads this
    {
      Job(status, exitStatus, endTime, failures, currentStepName, stepExecutions)
    }

    method MarkAsCompleted(now: int)
      modifies this
      ensures Value() == MarkCompleted(old(Value()), now)
    {
      status, exitStatus, endTime := COMPLETED, "COMPLETED", Some(now);
    }

    method MarkAsStopped(now: int)
      modifies this
      ensures Value() == MarkStopped(old(Value()), now)
    {
      status, exitStatus, endTime := STOPPED, "STOPPED", Some(now);
    }

    method AddFailureException(message: string)
      modifies `failures
      ensures Value() == AddFailure(old(Value()), message)
    {
      for i := 0 to |failures|
        invariant message !in failures[..i]
      {
        if failures[i] == message {
          return;
        }
      }
      failures := failures + [message];
    }

    method MarkAsFailed(message: string, now: int)
      modifies this
      ensures Value() == MarkFailed(old(Value()), message, now)
    {
      status, exitStatus, endTime := FAILED, "FAILED", Some(now);
      AddFailureException(message);
    }

    method FindOpenExecution(name: string) returns (found: nat)
      ensures found == FindExecution(stepExecutions, name)
    {
      found := 0;
      while found < |stepExecutions|
        invariant found <= |stepExecutions|
        invariant forall j :: 0 <= j < found ==> stepExecutions[j].name != name || stepExecutions[j].status == COMPLETED
      {
        if stepExecutions[found].name == name && stepExecutions[found].status != COMPLETED {
          FoundIs(stepExecutions, name, found);
          return;
        }
        found := found + 1;
      }
      FoundIs(stepExecutions, name, found);
    }

    /** The error of a step or a decision. */
    method RecordError(error: Option<Failure>, now: int)
      modifies this
      ensures Value() == Note(old(Value()), error, now)
    {
      if error.Some? {
        AddFailureException(error.value.message);
        if error.value.canceled {
          MarkAsStopped(now);
        } else {
          MarkAsFailed(error.value.message, now);
        }
      }
    }

    method ExecuteStep(name: string, a: Answer) returns (error: Option<string>, unsaved: bool)
      modifies this
      ensures Effect(Value(), error, unsaved) == RunElement(Step(name), a, old(Value()))
    {
      currentStepName := name;
      var found := FindOpenExecution(name);
      if found == |stepExecutions| {
        PreparedExtends(stepExecutions, name);
        stepExecutions := stepExecutions + [StepExecution(name, STARTING)];
      }
      assert stepExecutions == Prepared(old(stepExecutions), name) && found == FindExecution(stepExecutions, name);
      if stepExecutions[found].status == STARTING && a.saveError.Some? {
        AddFailureException(a.saveError.value);
        MarkAsFailed(a.saveError.value, a.now);
        return a.saveError, true;
      }
      stepExecutions := stepExecutions[found := StepExecution(name, a.stepStatus)];
      RecordError(a.error, a.now);
      return if a.error.Some? then Some(a.error.value.message) else None, false;
    }
  }

  lemma FoundIs(executions: seq<StepExecution>, name: string, i: nat)
    requires i <= |executions|
    requires forall j :: 0 <= j < i ==> executions[j].name != name || executions[j].status == COMPLETED
    requires i < |executions| ==> executions[i].name == name && executions[i].status != COMPLETED
    ensures FindExecution(executions, name) == i
  {
    var k := FindExecution(executions, name);
    if k < i {
      assert false;
    }
  }

  /** The errors of a split's steps, collected when all have finished. */
  method JoinErrors(messages: seq<string>) returns (joined: Option<string>)
    ensures joined == if messages == [] then None else Some(Joined(messages))
  {
    if |messages| == 0 {
      return None;
    }
    var i := |messages| - 1;
    var text := messages[i];
    while i > 0
      invariant 0 <= i < |messages| && text == Joined(messages[i..])
    {
      i := i - 1;
      text := messages[i] + "\n" + text;
    }
    assert messages[0..] == messages;
    return Some(text);
  }

  /**
  The main loop. Cyclic flows run until they are cancelled, so the caller knows a number of turns after which the run has
  returned: any at which the context is cancelled, or by RunEndsIff the number of elements.
  */
  method RunFlow(flow: FlowDefinition, job: JobExecution, env: nat -> Answer, ghost horizon: nat)
      returns (ok: bool, ending: Ending, turns: nat)
    requires After(flow.Value(), env, Going(StartOf(flow.Value(), job.Value()), job.Value()), horizon).Returned?
    modifies job
    ensures After(flow.Value(), env, old(Going(StartOf(flow.Value(), job.Value()), job.Value())), turns)
            == Returned(job.Value(), ending)
    ensures ok <==> ending.ByRule? || ending.NoRule?
    ensures Final(job.Value(), ending) && Keeps(old(job.Value()), job.Value())
  {
    hide RunElement, Final, Keeps, Safe, MarkCompleted, MarkFailed, MarkStopped, AddFailure;
    var currentElementID := flow.startElement;
    if job.currentStepName != "" && (job.status == RESTARTING || job.status == STARTED) {
      currentElementID := job.currentStepName;
    }
    turns := 0;
    ghost var f, start := flow.Value(), Going(currentElementID, job.Value());
    while true
      invariant turns <= horizon && After(f, env, start, horizon).Returned?
      invariant f == flow.Value() && After(f, env, start, turns) == Going(currentElementID, job.Value())
      decreases horizon - turns
    {
      if turns == horizon {
        assert false;
      }
      var a := env(turns);
      turns := turns + 1;
      var next;
      next, ending := TakeTurn(flow, job, currentElementID, a);
      if next.None? {
        EveryReturnIsFinal(f, env, start.id, start.job, turns);
        HistoryKept(f, env, start, 0, turns);
        ok := ending.ByRule? || ending.NoRule?;
        return;
      }
      currentElementID := next.value;
    }
  }

  /** One iteration of the main loop. `ending` matters only when there is no next element. */
  method TakeTurn(flow: FlowDefinition, job: JobExecution, id: string, a: Answer) returns (next: Option<string>, ending: Ending)
    modifies job
    ensures Turn(flow.Value(), a, Going(id, old(job.Value())))
            == match next case Some(n) => Going(n, job.Value()) case None => Returned(job.Value(), ending)
  {
    hide FindExecution, Prepared, MarkCompleted, MarkFailed, MarkStopped, AddFailure, Note;
    if a.cancelled.Some? {
      job.AddFailureException(a.cancelled.value);
      job.MarkAsStopped(a.now);
      return None, Cancelled;
    }
    if id !in flow.elements {
      job.AddFailureException(NotFoundMessage(id));
      job.MarkAsFailed(NotFoundMessage(id), a.now);
      return None, NotFound;
    }
    var element := flow.elements[id];
    var error: Option<string>, unsaved := None, false;
    match element {
      case Step(name) =>
        error, unsaved := job.ExecuteStep(name, a);
        if unsaved {
          return None, SaveFailed;
        }
      case Decision(_) =>
        job.RecordError(a.error, a.now);
        error := if a.error.Some? then Some(a.error.value.message) else None;
      case Split(_, _) =>
        error := JoinErrors(a.branches);
    }
    var rule := flow.GetTransitionRule(element.id, a.exitStatus, error.Some?);
    if rule.None? {
      if error.None? {
        job.MarkAsCompleted(a.now);
      } else {
        job.MarkAsFailed(error.value, a.now);
      }
      return None, NoRule(error.Some?);
    }
    if rule.value.end {
      job.MarkAsCompleted(a.now);
      return None, ByRule(rule.value);
    }
    if rule.value.fail {
      job.MarkAsFailed(FailMessage(element.id), a.now);
      return None, ByRule(rule.value);
    }
    if rule.value.stop {
      job.MarkAsStopped(a.now);
      return None, ByRule(rule.value);
    }
    return Some(rule.value.target), NotFound;
  }
}
