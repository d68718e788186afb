/** The compiled flow of a job: its elements and their transition rules. */
module FlowDefinitions {
  import opened Options

  datatype Transition = Transition(target: string, end: bool, fail: bool, stop: bool)

  datatype Element = Step(id: string) | Decision(id: string) | Split(id: string, steps: seq<string>)

  datatype Flow = Flow(start: string, elements: map<string, Element>, transitions: map<string, seq<Transition>>) {
    function Rules(from: string): seq<Transition> {
      if from in transitions then transitions[from] else []
    }

    /** The rule that is applied, whatever the exit status and whether or not there was an error. */
    function FirstRule(from: string): Option<Transition> {
      if Rules(from) == [] then None else Some(Rules(from)[0])
    }
  }

  /** Exactly one of to, end, fail and stop. */
  predicate Exclusive(t: Transition) {
    || (t.target != "" && !t.end && !t.fail && !t.stop)
    || (t.target == "" && t.end && !t.fail && !t.stop)
    || (t.target == "" && !t.end && t.fail && !t.stop)
    || (t.target == "" && !t.end && !t.fail && t.stop)
  }

  /** Every element lies under its own ID, every rule is exclusive, and every target exists. */
  ghost predicate Safe(f: Flow) {
    && f.start in f.elements
    && (forall id :: id in f.elements ==> f.elements[id].id == id)
    && (forall id :: id in f.elements ==> forall i :: 0 <= i < |f.Rules(id)| ==> SafeRule(f, f.Rules(id)[i]))
  }

  predicate SafeRule(f: Flow, t: Transition) {
    Exclusive(t) && (t.target != "" ==> t.target in f.elements)
  }

  class FlowDefinition {
    const startElement: string
    var elements: map<string, Element>
    var transitions: map<string, seq<Transition>>

    constructor (start: string)
      ensures Value() == Flow(start, map[], map[])
    {
      startElement, elements, transitions := start, map[], map[];
    }

    ghost function Value(): Flow
      reads this
    {
      Flow(startElement, elements, transitions)
    }

    method AddElement(id: string, element: Element) returns (ok: bool)
      modifies `elements
      ensures ok <==> id !in old(elements)
      ensures elements == if ok then old(elements)[id := element] else old(elements)
    {
      if id in elements {
        return false;
      }
      elements := elements[id := element];
      return true;
    }

    /** The status the rule was declared for is dropped. */
    method AddTransitionRule(from: string, status: string, target: string, end: bool, fail: bool, stop: bool)
      modifies `transitions
      ensures Value().Rules(from) == old(Value()).Rules(from) + [Transition(target, end, fail, stop)]
      ensures forall id :: id != from ==> Value().Rules(id) == old(Value()).Rules(id)
    {
      var rules := if from in transitions then transitions[from] else [];
      transitions := transitions[from := rules + [Transition(target, end, fail, stop)]];
    }

    function GetTransitionRule(from: string, status: string, isError: bool): (rule: Option<Transition>)
      reads this
      ensures rule == Value().FirstRule(from)
    {
      if from !in transitions || |transitions[from]| == 0 then None else Some(transitions[from][0])
    }
  }
}
