/** The engine of app/agents/graph.py: named nodes, declared edges, one step at a time. What a node does
    with the state, and where it wants to go next, is a parameter. */
module StateGraph {
  import opened Wrappers

  const END := "end"

  datatype Graph = Graph(nodes: set<string>, edges: map<string, seq<string>>, entry: string, maxSteps: nat)

  /** What a node comes to: it decided where to go next, or it raised. */
  datatype Decision<S> = Moved(state: S, next: string) | Raised(state: S, what: string)

  datatype Step = Step(node: string, next: string)

  datatype Outcome =
    | Settled
    | BudgetSpent
    | ForbiddenMove(node: string, next: string)
    | NodeRaised(node: string, what: string)

  /** How a run ended: the steps reported, the state as the last node left it, and why it stopped. */
  datatype Run<S> = Run(steps: seq<Step>, state: S, outcome: Outcome)

  type Behaviour<!S> = (string, S) -> Decision<S>

  // ------------------------------------------------------------------ a graph that can be built

  datatype Problem = NoEntry | EdgesMismatch | Undefined(node: string) | NoEdges(node: string)

  predicate TargetsOk(g: Graph, node: string)
    requires node in g.edges
  {
    g.edges[node] != [] && forall t <- g.edges[node] :: t == END || t in g.nodes
  }

  predicate Valid(g: Graph) {
    g.entry in g.nodes && g.edges.Keys == g.nodes && forall node <- g.edges :: TargetsOk(g, node)
  }

  /** The graph is refused for what is wrong with it. */
  ghost predicate Has(g: Graph, problem: Problem) {
    match problem
    case NoEntry => g.entry !in g.nodes
    case EdgesMismatch => g.edges.Keys != g.nodes
    case Undefined(node) => node in g.edges && exists t <- g.edges[node] :: t != END && t !in g.nodes
    case NoEdges(node) => node in g.edges && g.edges[node] == []
  }

  /** `__post_init__`: a graph is refused exactly when something in it is undefined or without a way out. */
  method Check(g: Graph) returns (problem: Option<Problem>)
    ensures problem.None? <==> Valid(g)
    ensures problem.Some? ==> Has(g, problem.value)
  {
    if g.entry !in g.nodes {
      return Some(NoEntry);
    }
    if g.edges.Keys != g.nodes {
      return Some(EdgesMismatch);
    }
    var left := g.edges.Keys;
    while left != {}
      invariant left <= g.edges.Keys
      invariant forall node <- g.edges.Keys - left :: TargetsOk(g, node)
      decreases |left|
    {
      var node :| node in left;
      var targets := g.edges[node];
      for i := 0 to |targets|
        invariant forall j :: 0 <= j < i ==> targets[j] == END || targets[j] in g.nodes
      {
        if targets[i] != END && targets[i] !in g.nodes {
          return Some(Undefined(node));
        }
      }
      if targets == [] {
        return Some(NoEdges(node));
      }
      left := left - {node};
    }
    assert g.edges.Keys - left == g.edges.Keys;
    return None;
  }

  // ------------------------------------------------------------------ a run

  /** The loop from `current` on, with `steps` taken so far. */
  function RunFrom<S>(g: Graph, behave: Behaviour<S>, current: string, state: S, steps: seq<Step>): Run<S>
    decreases g.maxSteps - |steps|
  {
    if current == END then Run(steps, state, Settled)
    else if |steps| >= g.maxSteps then Run(steps, state, BudgetSpent)
    else
      match behave(current, state)
      case Raised(state', what) => Run(steps, state', NodeRaised(current, what))
      case Moved(state', next) =>
        if current !in g.edges || next !in g.edges[current] then Run(steps, state', ForbiddenMove(current, next))
        else RunFrom(g, behave, next, state', steps + [Step(current, next)])
  }

  /** `run`. */
  method RunGraph<S>(g: Graph, behave: Behaviour<S>, initial: S) returns (run: Run<S>)
    requires Valid(g)
    ensures run == RunFrom(g, behave, g.entry, initial, [])
  {
    var steps: seq<Step>, state, current := [], initial, g.entry;
    while current != END
      invariant current == END || current in g.nodes
      invariant RunFrom(g, behave, g.entry, initial, []) == RunFrom(g, behave, current, state, steps)
      decreases g.maxSteps - |steps|, if current == END then 0 else 1
    {
      if |steps| >= g.maxSteps {
        return Run(steps, state, BudgetSpent);
      }
      match behave(current, state)
      case Raised(state', what) =>
        return Run(steps, state', NodeRaised(current, what));
      case Moved(state', next) =>
        if next !in g.edges[current] {
          return Run(steps, state', ForbiddenMove(current, next));
        }
        assert TargetsOk(g, current);
        steps, state, current := steps + [Step(current, next)], state', next;
    }
    return Run(steps, state, Settled);
  }

  /** Steps over declared edges, each from where the one before led, from the entry to `at`. */
  ghost predicate IsWalk(g: Graph, steps: seq<Step>, at: string) {
    && (forall i :: 0 <= i < |steps| ==> IsStep(g, steps, i))
    && at == if steps == [] then g.entry else steps[|steps| - 1].next
  }

  ghost predicate IsStep(g: Graph, steps: seq<Step>, i: nat)
    requires i < |steps|
  {
    && steps[i].node != END && steps[i].node in g.nodes && steps[i].node in g.edges
    && steps[i].next in g.edges[steps[i].node]
    && steps[i].node == if i == 0 then g.entry else steps[i - 1].next
  }

  lemma WalkOn(g: Graph, steps: seq<Step>, at: string, next: string)
    requires Valid(g) && IsWalk(g, steps, at) && at != END && at in g.nodes && next in g.edges[at]
    ensures IsWalk(g, steps + [Step(at, next)], next) && (next == END || next in g.nodes)
  {
    var all := steps + [Step(at, next)];
    assert TargetsOk(g, at);
    forall i | 0 <= i < |all|
      ensures IsStep(g, all, i)
    {
      assert i < |steps| ==> IsStep(g, steps, i);
    }
  }

  /** Why a run that has come to `at` stops there. */
  ghost predicate StopsAt<S>(g: Graph, run: Run<S>, at: string) {
    && IsWalk(g, run.steps, at) && (at == END || at in g.nodes)
    && match run.outcome
       case Settled => at == END
       case BudgetSpent => at != END && |run.steps| == g.maxSteps
       case NodeRaised(node, _) => at == node != END && |run.steps| < g.maxSteps
       case ForbiddenMove(node, next) =>
         at == node != END && |run.steps| < g.maxSteps && node in g.edges && next !in g.edges[node]
  }

  lemma {:induction false} RunEndsAsDeclared<S(!new)>(g: Graph, behave: Behaviour<S>, current: string, state: S,
                                                      steps: seq<Step>)
    requires Valid(g) && IsWalk(g, steps, current) && (current == END || current in g.nodes) && |steps| <= g.maxSteps
    ensures var run := RunFrom(g, behave, current, state, steps);
            |run.steps| <= g.maxSteps && exists at :: StopsAt(g, run, at)
    decreases g.maxSteps - |steps|
  {
    if current != END && |steps| < g.maxSteps {
      var d := behave(current, state);
      if d.Moved? && d.next in g.edges[current] {
        WalkOn(g, steps, current, d.next);
        RunEndsAsDeclared(g, behave, d.next, d.state, steps + [Step(current, d.next)]);
      } else {
        assert StopsAt(g, RunFrom(g, behave, current, state, steps), current);
      }
    } else {
      assert StopsAt(g, RunFrom(g, behave, current, state, steps), current);
    }
  }

  /** Whatever the nodes do, a run is a walk over declared edges from the entry, of at most `maxSteps`
      steps; it returns normally only at END, and fails only for the reason it gives. */
  lemma RunIsDeclaredWalk<S(!new)>(g: Graph, behave: Behaviour<S>, initial: S)
    requires Valid(g)
    ensures var run := RunFrom(g, behave, g.entry, initial, []);
            |run.steps| <= g.maxSteps && exists at :: StopsAt(g, run, at)
  {
    RunEndsAsDeclared(g, behave, g.entry, initial, []);
  }

  /** The states between the steps from `from` on: each step is what its node made of the state before it, and
      the run's last state and reason to stop are what the last node came to. */
  ghost predicate Drives<S(!new)>(behave: Behaviour<S>, run: Run<S>, states: seq<S>, from: nat) {
    && from <= |run.steps| && |states| == |run.steps| - from + 1
    && (forall i :: 0 <= i < |states| - 1 ==> StepDone(behave, run.steps[from + i], states[i], states[i + 1]))
    && var last := states[|states| - 1];
    match run.outcome
    case Settled => run.state == last
    case BudgetSpent => run.state == last
    case NodeRaised(node, what) => behave(node, last) == Raised(run.state, what)
    case ForbiddenMove(node, next) => behave(node, last) == Moved(run.state, next)
  }

  ghost predicate StepDone<S(!new)>(behave: Behaviour<S>, step: Step, before: S, after: S) {
    behave(step.node, before) == Moved(after, step.next)
  }

  lemma {:induction false} RunIsDriven<S(!new)>(g: Graph, behave: Behaviour<S>, current: string, state: S,
                                                steps: seq<Step>)
    returns (states: seq<S>)
    ensures states != [] && states[0] == state
    ensures Drives(behave, RunFrom(g, behave, current, state, steps), states, |steps|)
    decreases g.maxSteps - |steps|
  {
    states := [state];
    if current != END && |steps| < g.maxSteps {
      var d := behave(current, state);
      if d.Moved? && current in g.edges && d.next in g.edges[current] {
        var more := steps + [Step(current, d.next)];
        var rest := RunIsDriven(g, behave, d.next, d.state, more);
        StepsGrow(g, behave, d.next, d.state, more);
        states := [state] + rest;
        OneStepBefore(behave, RunFrom(g, behave, current, state, steps), rest, |steps|, state);
      }
    }
  }

  lemma OneStepBefore<S(!new)>(behave: Behaviour<S>, run: Run<S>, rest: seq<S>, from: nat, state: S)
    requires Drives(behave, run, rest, from + 1) && rest != []
    requires StepDone(behave, run.steps[from], state, rest[0])
    ensures Drives(behave, run, [state] + rest, from)
  {
    var states := [state] + rest;
    forall i | 0 <= i < |states| - 1
      ensures StepDone(behave, run.steps[from + i], states[i], states[i + 1])
    {
      assert i > 0 ==> StepDone(behave, run.steps[from + 1 + (i - 1)], rest[i - 1], rest[i - 1 + 1]);
    }
  }

  /** And every step of it is the node's doing: the state goes from node to node, as each of them leaves it. */
  lemma RunIsTheNodesDoing<S(!new)>(g: Graph, behave: Behaviour<S>, initial: S) returns (states: seq<S>)
    ensures states != [] && states[0] == initial
    ensures Drives(behave, RunFrom(g, behave, g.entry, initial, []), states, 0)
  {
    states := RunIsDriven(g, behave, g.entry, initial, []);
  }

  /** A smaller budget only cuts a run short. */
  lemma {:induction false} BudgetOnlyTruncates<S(!new)>(g: Graph, budget: nat, behave: Behaviour<S>, current: string,
                                                        state: S, steps: seq<Step>)
    requires |steps| <= budget <= g.maxSteps
    ensures var run, cut := RunFrom(g, behave, current, state, steps),
                            RunFrom(g.(maxSteps := budget), behave, current, state, steps);
            steps <= cut.steps <= run.steps && (cut == run || (cut.outcome.BudgetSpent? && |cut.steps| == budget))
    decreases budget - |steps|
  {
    if current != END && |steps| < budget {
      var d := behave(current, state);
      if d.Moved? && current in g.edges && d.next in g.edges[current] {
        BudgetOnlyTruncates(g, budget, behave, d.next, d.state, steps + [Step(current, d.next)]);
      }
    } else {
      StepsGrow(g, behave, current, state, steps);
    }
  }

  lemma {:induction false} StepsGrow<S(!new)>(g: Graph, behave: Behaviour<S>, current: string, state: S,
                                              steps: seq<Step>)
    ensures steps <= RunFrom(g, behave, current, state, steps).steps
    decreases g.maxSteps - |steps|
  {
    if current != END && |steps| < g.maxSteps {
      var d := behave(current, state);
      if d.Moved? && current in g.edges && d.next in g.edges[current] {
        StepsGrow(g, behave, d.next, d.state, steps + [Step(current, d.next)]);
      }
    }
  }
}
