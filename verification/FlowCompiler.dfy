/**
The conversion of a declared flow into a core flow: two passes over a map whose iteration order is arbitrary. Component
lookups, property resolution and builders are a flag of the element: `builds` says that they all succeed.
*/
module FlowCompiler {
  import opened FlowDefinitions
  import opened Options

  datatype JslTransition = JslTransition(on: string, target: string, end: bool, fail: bool, stop: bool)

  /** A step with a worker is a partition controller; `works` says that the step defines a chunk or a tasklet. */
  datatype JslElement =
    | JslStep(id: string, worker: Option<string>, works: bool, builds: bool, transitions: seq<JslTransition>)
    | JslDecision(id: string, builds: bool, transitions: seq<JslTransition>)
    | JslSplit(id: string, steps: seq<string>, builds: bool, transitions: seq<JslTransition>)
    | JslUnknown

  datatype JslFlow = JslFlow(start: string, elements: map<string, JslElement>)

  /** What the first pass keeps of an element. Of a step that is both a controller and a worker it keeps nothing. */
  datatype Built = BuiltStep | BuiltPartition | BuiltDecision | BuiltSplit | NotKept

  function Rules(e: JslElement): seq<JslTransition> {
    if e.JslUnknown? then [] else e.transitions
  }

  /** A step that may be run inside a split. */
  predicate IsPlainStep(flow: JslFlow, id: string) {
    id in flow.elements && flow.elements[id].JslStep? && flow.elements[id].worker.None?
  }

  /** What the first pass demands of an element, apart from the order of the pass. */
  predicate Buildable(flow: JslFlow, id: string)
    requires id in flow.elements
  {
    var e := flow.elements[id];
    match e
    case JslStep(_, worker, works, builds, _) => e.id != "" && e.id == id && builds && (worker.Some? || works)
    case JslDecision(_, builds, ts) => e.id != "" && e.id == id && ts != [] && builds
    case JslSplit(_, steps, builds, _) =>
      e.id != "" && e.id == id && steps != [] && builds && forall i :: 0 <= i < |steps| ==> IsPlainStep(flow, steps[i])
    case JslUnknown => false
  }

  predicate ValidTransition(t: JslTransition, elements: map<string, JslElement>) {
    t.on != "" && Exclusive(Dropped(t)) && (t.target != "" ==> t.target in elements)
  }

  /** The rule without the status it was declared for. */
  function Dropped(t: JslTransition): Transition {
    Transition(t.target, t.end, t.fail, t.stop)
  }

  /** What the second pass demands: a partition's worker that can be built, and valid rules. */
  predicate Finishable(flow: JslFlow, id: string)
    requires id in flow.elements
  {
    var e := flow.elements[id];
    && (e.JslStep? && e.worker.Some? ==> !e.works && WorkerBuilds(flow, e.worker.value))
    && AllValid(Rules(e), flow.elements)
  }

  predicate AllValid(ts: seq<JslTransition>, elements: map<string, JslElement>) {
    forall i :: 0 <= i < |ts| ==> ValidTransition(ts[i], elements)
  }

  predicate WorkerBuilds(flow: JslFlow, worker: string) {
    worker in flow.elements && flow.elements[worker].JslStep? && flow.elements[worker].works && flow.elements[worker].builds
  }

  ghost predicate WellFormed(flow: JslFlow) {
    && flow.start in flow.elements
    && (forall id :: id in flow.elements ==> Buildable(flow, id) && Finishable(flow, id))
  }

  /** An order in which a range over the map may visit its keys. */
  ghost predicate IsOrder(order: seq<string>, keys: set<string>) {
    && (forall i :: 0 <= i < |order| ==> order[i] in keys)
    && (forall id :: id in keys ==> id in order)
    && (forall i, j :: 0 <= i < j < |order| ==> order[i] != order[j])
  }

  /** The steps of the element visited at turn `i`, if it is a split, have been visited before. */
  predicate StepsBuilt(flow: JslFlow, order: seq<string>, i: nat)
    requires i < |order| && order[i] in flow.elements
  {
    var e := flow.elements[order[i]];
    e.JslSplit? ==> forall j :: 0 <= j < |e.steps| ==> e.steps[j] in order[..i]
  }

  ghost predicate SplitsComeLate(flow: JslFlow, order: seq<string>)
    requires forall i :: 0 <= i < |order| ==> order[i] in flow.elements
  {
    forall i :: 0 <= i < |order| ==> StepsBuilt(flow, order, i)
  }

  // ---------- The passes ----------

  method ValidateTransition(t: JslTransition, elements: map<string, JslElement>) returns (ok: bool)
    ensures ok <==> ValidTransition(t, elements)
  {
    if t.on == "" {
      return false;
    }
    var exclusiveCount := 0;
    if t.end {
      exclusiveCount := exclusiveCount + 1;
    }
    if t.fail {
      exclusiveCount := exclusiveCount + 1;
    }
    if t.stop {
      exclusiveCount := exclusiveCount + 1;
    }
    if t.target != "" {
      exclusiveCount := exclusiveCount + 1;
    }
    if exclusiveCount == 0 {
      return false;
    }
    if exclusiveCount > 1 {
      return false;
    }
    return t.target != "" ==> t.target in elements;
  }

  function BuiltOf(e: JslElement): Built
    requires !e.JslUnknown?
  {
    match e
    case JslStep(_, worker, works, _, _) => if worker.None? then BuiltStep else if works then NotKept else BuiltPartition
    case JslDecision(_, _, _) => BuiltDecision
    case JslSplit(_, _, _, _) => BuiltSplit
  }

  function CoreOf(e: JslElement): Element
    requires !e.JslUnknown?
  {
    match e
    case JslStep(id, _, _, _, _) => Step(id)
    case JslDecision(id, _, _) => Decision(id)
    case JslSplit(id, steps, _, _) => Split(id, steps)
  }

  ghost predicate Consistent(flow: JslFlow, built: map<string, Built>) {
    forall k :: k in built ==> k in flow.elements && !flow.elements[k].JslUnknown? && built[k] == BuiltOf(flow.elements[k])
  }

  lemma ConsistentNext(flow: JslFlow, built: map<string, Built>, id: string)
    requires Consistent(flow, built) && id in flow.elements && Buildable(flow, id)
    ensures Consistent(flow, built[id := BuiltOf(flow.elements[id])])
  {
  }

  /** One turn of the first pass; `built` holds what the turns before it built. */
  method BuildElement(flow: JslFlow, id: string, built: map<string, Built>) returns (result: Option<Built>)
    requires id in flow.elements
    requires Consistent(flow, built)
    ensures result.Some? <==> Buildable(flow, id) && (flow.elements[id].JslSplit? ==>
                                forall i :: 0 <= i < |flow.elements[id].steps| ==> flow.elements[id].steps[i] in built)
    ensures result.Some? ==> result.value == BuiltOf(flow.elements[id])
  {
    var e := flow.elements[id];
    match e {
      case JslStep(_, worker, works, builds, _) =>
        if e.id == "" || e.id != id || !builds || (!works && worker.None?) {
          return None;
        }
        return Some(if worker.None? then BuiltStep else if works then NotKept else BuiltPartition);
      case JslDecision(_, builds, ts) =>
        if e.id == "" || e.id != id || |ts| == 0 || !builds {
          return None;
        }
        return Some(BuiltDecision);
      case JslSplit(_, steps, builds, _) =>
        if e.id == "" || e.id != id || |steps| == 0 {
          return None;
        }
        for i := 0 to |steps|
          invariant forall j :: 0 <= j < i ==> steps[j] in built && IsPlainStep(flow, steps[j])
        {
          if steps[i] !in built || built[steps[i]] != BuiltStep {
            return None;
          }
        }
        return if builds then Some(BuiltSplit) else None;
      case JslUnknown => return None;
    }
  }

  method FirstPass(flow: JslFlow, order: seq<string>) returns (ok: bool)
    requires IsOrder(order, flow.elements.Keys)
    ensures ok <==> (forall id :: id in flow.elements ==> Buildable(flow, id)) && SplitsComeLate(flow, order)
  {
    hide Buildable, Consistent;
    var builtElements: map<string, Built> := map[];
    assert Consistent(flow, builtElements) by {
      ConsistentNothing(flow);
    }
    for i := 0 to |order|
      invariant forall k :: k in builtElements <==> k in order[..i]
      invariant Consistent(flow, builtElements)
      invariant forall j :: 0 <= j < i ==> Buildable(flow, order[j]) && StepsBuilt(flow, order, j)
    {
      var built := BuildElement(flow, order[i], builtElements);
      if built.None? {
        assert !Buildable(flow, order[i]) || !StepsBuilt(flow, order, i);
        return false;
      }
      ConsistentNext(flow, builtElements, order[i]);
      builtElements := builtElements[order[i] := built.value];
      assert order[..i + 1] == order[..i] + [order[i]];
    }
    return true;
  }

  lemma ConsistentNothing(flow: JslFlow)
    ensures Consistent(flow, map[])
  {
  }

  lemma NotUnknown(flow: JslFlow, id: string)
    requires id in flow.elements && Buildable(flow, id)
    ensures !flow.elements[id].JslUnknown?
  {
  }

  /** `core` is the flow as far as the elements `ids` have been added. */
  ghost predicate Added(flow: JslFlow, core: Flow, ids: set<string>) {
    && core.start == flow.start && core.elements.Keys == ids <= flow.elements.Keys
    && (forall id :: id in ids ==> !flow.elements[id].JslUnknown? && core.elements[id] == CoreOf(flow.elements[id]))
    && (forall id :: id in ids ==> RulesMatch(core.Rules(id), Rules(flow.elements[id])))
    && (forall id :: id !in ids ==> core.Rules(id) == [])
  }

  ghost predicate RulesMatch(rules: seq<Transition>, declared: seq<JslTransition>) {
    |rules| == |declared| && forall i :: 0 <= i < |rules| ==> rules[i] == Dropped(declared[i])
  }

  lemma RulesMatchNothing()
    ensures RulesMatch([], [])
  {
  }

  lemma RulesMatchNext(rules: seq<Transition>, declared: seq<JslTransition>, t: JslTransition)
    requires RulesMatch(rules, declared)
    ensures RulesMatch(rules + [Dropped(t)], declared + [t])
  {
  }

  method AddRules(from: string, ts: seq<JslTransition>, elements: map<string, JslElement>, def: FlowDefinition) returns (ok: bool)
    requires def.Value().Rules(from) == []
    modifies def`transitions
    ensures ok <==> AllValid(ts, elements)
    ensures ok ==> RulesMatch(def.Value().Rules(from), ts)
    ensures forall k :: k != from ==> def.Value().Rules(k) == old(def.Value()).Rules(k)
  {
    hide ValidTransition, RulesMatch;
    RulesMatchNothing();
    for i := 0 to |ts|
      invariant RulesMatch(def.Value().Rules(from), ts[..i])
      invariant forall k :: k != from ==> def.Value().Rules(k) == old(def.Value()).Rules(k)
      invariant AllValid(ts[..i], elements)
    {
      var t := ts[i];
      var valid := ValidateTransition(t, elements);
      if !valid {
        return false;
      }
      assert ts[..i + 1] == ts[..i] + [t];
      RulesMatchNext(def.Value().Rules(from), ts[..i], t);
      def.AddTransitionRule(from, t.on, t.target, t.end, t.fail, t.stop);
    }
    assert ts[..|ts|] == ts;
    return true;
  }

  /** One turn of the second pass. */
  method FinishElement(flow: JslFlow, id: string, def: FlowDefinition) returns (ok: bool)
    requires id in flow.elements && !flow.elements[id].JslUnknown?
    requires Added(flow, def.Value(), def.elements.Keys) && id !in def.elements
    modifies def
    ensures ok <==> Finishable(flow, id)
    ensures ok ==> def.elements.Keys == old(def.elements.Keys) + {id} && Added(flow, def.Value(), def.elements.Keys)
  {
    hide AllValid, RulesMatch, WorkerBuilds;
    var e := flow.elements[id];
    if e.JslStep? && e.worker.Some? {
      if e.works || !WorkerBuilds(flow, e.worker.value) {
        return false;
      }
    }
    var added := def.AddElement(id, CoreOf(e));
    ok := AddRules(id, e.transitions, flow.elements, def);
  }

  /** The two orders are those of the two ranges over the map. Only the first one can matter. */
  method Convert(flow: JslFlow, order: seq<string>, again: seq<string>) returns (def: FlowDefinition?)
    requires IsOrder(order, flow.elements.Keys) && IsOrder(again, flow.elements.Keys)
    ensures def != null <==> WellFormed(flow) && SplitsComeLate(flow, order)
    ensures def != null ==> fresh(def) && Added(flow, def.Value(), flow.elements.Keys)
  {
    hide Buildable, Finishable, Added, SplitsComeLate;
    var result := new FlowDefinition(flow.start);
    if flow.start !in flow.elements {
      return null;
    }
    var ok := FirstPass(flow, order);
    if !ok {
      return null;
    }
    AddedNothing(flow);
    assert result.Value() == Flow(flow.start, map[], map[]) && result.elements.Keys == {};
    for i := 0 to |again|
      invariant fresh(result)
      invariant result.elements.Keys == set j | 0 <= j < i :: again[j]
      invariant Added(flow, result.Value(), result.elements.Keys)
      invariant forall j :: 0 <= j < i ==> Finishable(flow, again[j])
    {
      NotUnknown(flow, again[i]);
      ok := FinishElement(flow, again[i], result);
      if !ok {
        return null;
      }
    }
    assert result.elements.Keys == flow.elements.Keys;
    return result;
  }

  lemma AddedNothing(flow: JslFlow)
    ensures Added(flow, Flow(flow.start, map[], map[]), {})
  {
  }

  // ---------- Main results ----------

  /** What the conversion accepts is safe to run. */
  lemma CompiledIsSafe(flow: JslFlow, core: Flow)
    requires WellFormed(flow) && Added(flow, core, flow.elements.Keys)
    ensures Safe(core)
  {
    forall id, i | id in core.elements && 0 <= i < |core.Rules(id)|
      ensures SafeRule(core, core.Rules(id)[i])
    {
      assert Finishable(flow, id);
      assert ValidTransition(Rules(flow.elements[id])[i], flow.elements);
    }
    forall id | id in core.elements ensures core.elements[id].id == id {
      assert Buildable(flow, id);
    }
  }

  function One(b: bool): nat {
    if b then 1 else 0
  }

  /** A rule that a flow may declare: for some status, and saying one thing. */
  predicate Sayable(flow: JslFlow, t: JslTransition) {
    && t.on != "" && One(t.target != "") + One(t.end) + One(t.fail) + One(t.stop) == 1
    && (t.target != "" ==> t.target in flow.elements)
  }

  /** A step that works itself and can be built. */
  predicate Works(flow: JslFlow, id: string) {
    id in flow.elements && flow.elements[id].JslStep? && flow.elements[id].works && flow.elements[id].builds
  }

  /** What both passes together demand of an element. */
  ghost predicate Sound(flow: JslFlow, id: string)
    requires id in flow.elements
  {
    var e := flow.elements[id];
    && !e.JslUnknown? && e.id == id != "" && e.builds
    && (forall i :: 0 <= i < |e.transitions| ==> Sayable(flow, e.transitions[i]))
    && match e {
         case JslStep(_, None, works, _, _) => works
         case JslStep(_, Some(worker), works, _, _) => !works && Works(flow, worker)
         case JslDecision(_, _, ts) => ts != []
         case JslSplit(_, steps, _, _) =>
           steps != [] && forall i :: 0 <= i < |steps| ==>
             steps[i] in flow.elements && flow.elements[steps[i]].JslStep? && flow.elements[steps[i]].worker.None?
         case JslUnknown => false
       }
  }

  /**
  What a flow has to be to be accepted at all: its start exists, every element is of a known kind under its own ID, its rules
  say one thing each, steps work themselves or through one worker that does, decisions have rules, and splits consist of steps
  without workers.
  */
  lemma WellFormedIff(flow: JslFlow)
    ensures WellFormed(flow) <==> flow.start in flow.elements && forall id :: id in flow.elements ==> Sound(flow, id)
  {
    hide Sound;
    forall id | id in flow.elements ensures Buildable(flow, id) && Finishable(flow, id) <==> Sound(flow, id) {
      SoundIff(flow, id);
    }
  }

  lemma SoundIff(flow: JslFlow, id: string)
    requires id in flow.elements
    ensures Buildable(flow, id) && Finishable(flow, id) <==> Sound(flow, id)
  {
    var e := flow.elements[id];
    if !e.JslUnknown? {
      forall i | 0 <= i < |e.transitions|
        ensures ValidTransition(e.transitions[i], flow.elements) <==> Sayable(flow, e.transitions[i])
      {
      }
    }
  }

  /** Every element of the core flow is the declared one, of the same kind, and its rules are the declared ones in order. */
  lemma CompiledAsDeclared(flow: JslFlow, core: Flow, id: string)
    requires WellFormed(flow) && Added(flow, core, flow.elements.Keys)
    ensures core.start == flow.start && (id in core.elements <==> id in flow.elements)
    ensures id in flow.elements ==>
              && id != "" && core.elements[id].id == id
              && match flow.elements[id] {
                   case JslStep(_, _, _, _, _) => core.elements[id].Step?
                   case JslDecision(_, _, ts) => core.elements[id].Decision? && ts != []
                   case JslSplit(_, steps, _, _) => core.elements[id].Split? && core.elements[id].steps == steps != []
                   case JslUnknown => false
                 }
    ensures id in flow.elements && !flow.elements[id].JslUnknown? ==>
              && |core.Rules(id)| == |flow.elements[id].transitions|
              && forall i :: 0 <= i < |core.Rules(id)| ==>
                   var rule, declared := core.Rules(id)[i], flow.elements[id].transitions[i];
                   && rule.target == declared.target && rule.end == declared.end && rule.fail == declared.fail && rule.stop == declared.stop
                   && declared.on != ""
  {
    if id in flow.elements {
      assert Buildable(flow, id) && Finishable(flow, id);
      assert RulesMatch(core.Rules(id), Rules(flow.elements[id]));
      forall i | 0 <= i < |Rules(flow.elements[id])| ensures Rules(flow.elements[id])[i].on != "" {
        assert ValidTransition(Rules(flow.elements[id])[i], flow.elements);
      }
    }
  }

  /** The steps of an accepted split are plain steps of the flow. */
  lemma SplitStepsExist(flow: JslFlow, core: Flow, id: string, i: nat)
    requires WellFormed(flow) && Added(flow, core, flow.elements.Keys)
    requires id in core.elements && core.elements[id].Split? && i < |core.elements[id].steps|
    ensures core.elements[id].steps[i] in core.elements && core.elements[core.elements[id].steps[i]].Step?
  {
    assert Buildable(flow, id);
    assert IsPlainStep(flow, flow.elements[id].steps[i]);
  }

  /** A well-formed flow is accepted whatever the map order if and only if it has no split. */
  lemma OrderMattersIff(flow: JslFlow)
    requires WellFormed(flow)
    ensures (forall order :: IsOrder(order, flow.elements.Keys) ==> SplitsComeLate(flow, order))
            <==> (forall id :: id in flow.elements ==> !flow.elements[id].JslSplit?)
  {
    if id :| id in flow.elements && flow.elements[id].JslSplit? {
      var rest := AnOrder(flow.elements.Keys - {id});
      var order := [id] + rest;
      assert IsOrder(order, flow.elements.Keys);
      assert Buildable(flow, id);
      assert !StepsBuilt(flow, order, 0) by {
        assert flow.elements[order[0]].steps[0] !in order[..0];
      }
    } else {
      forall order | IsOrder(order, flow.elements.Keys) ensures SplitsComeLate(flow, order) {
      }
    }
  }

  /** Some order always works: every well-formed flow can be accepted. */
  lemma SomeOrderWorks(flow: JslFlow)
    requires WellFormed(flow)
    ensures exists order :: IsOrder(order, flow.elements.Keys) && SplitsComeLate(flow, order)
  {
    var splits := set id | id in flow.elements && flow.elements[id].JslSplit?;
    var first := AnOrder(flow.elements.Keys - splits);
    var last := AnOrder(splits);
    var order := first + last;
    assert IsOrder(order, flow.elements.Keys);
    forall i | 0 <= i < |order| ensures StepsBuilt(flow, order, i) {
      var e := flow.elements[order[i]];
      if e.JslSplit? {
        assert Buildable(flow, order[i]);
        forall j | 0 <= j < |e.steps| ensures e.steps[j] in order[..i] {
          assert IsPlainStep(flow, e.steps[j]);
          assert e.steps[j] in first;
          assert first <= order[..i];
        }
      }
    }
    assert SplitsComeLate(flow, order);
  }

  lemma AnOrder(keys: set<string>) returns (order: seq<string>)
    ensures IsOrder(order, keys)
  {
    if keys == {} {
      order := [];
    } else {
      var k :| k in keys;
      var rest := AnOrder(keys - {k});
      order := [k] + rest;
    }
  }
}
