/**
 * Turning compiled steps into a branching graph (app/planner/planner.py, `generate_graph`).
 *
 * The planner keeps a last decision node and a list of open conditional leaves as it goes.
 * `Sources` says, without that state, which steps lead into a given step.
 */
module Planner {
  import opened Wrappers
  import opened Text
  import opened ExecutionGraph
  import opened GraphValidator

  datatype RunbookStep = RunbookStep(stepId: string, description: string, condition: Option<string>)

  /** A compiled step; its action type has already been inferred. */
  datatype CompiledStep = CompiledStep(stepId: string, description: string, actionType: Option<string>)

  datatype PlanError = EmptyPlan | Invalid(error: ValidationError)

  type StepIndex = map<string, RunbookStep>

  /** `{s.step_id: s for s in steps}`: of steps with one id, the last. */
  function IndexSteps(steps: seq<RunbookStep>): StepIndex
  {
    if steps == [] then map[]
    else IndexSteps(steps[..|steps| - 1])[steps[|steps| - 1].stepId := steps[|steps| - 1]]
  }

  predicate IsConditionalStep(step: RunbookStep)
  {
    var d := Lower(step.description);
    step.condition.Some? || StartsWith(d, "if ") || StartsWith(d, "when ") || StartsWith(d, "unless ")
    || StartsWith(d, "else ")
  }

  function ConditionText(step: RunbookStep): string
  {
    if Truthy(step.condition) then step.condition.value else step.description
  }

  /** The structured form of a condition; only its presence depends on the text here. */
  function ParseCondition(text: string): Option<Branch>
  {
    if text == "" then None else Some(Branch(text))
  }

  function NodeOf(step: CompiledStep): Node
  {
    Node("node_" + step.stepId, step.stepId, step.description, step.actionType)
  }

  function ConditionalEdge(source: Node, target: Node, step: RunbookStep): Edge
  {
    Edge(source.id, target.id, Some(ConditionText(step)), ParseCondition(ConditionText(step)))
  }

  function DefaultEdge(source: Node, target: Node): Edge
  {
    Edge(source.id, target.id, None, None)
  }

  // ---- The plan, declaratively ----

  /** Whether step `i` is conditional; the first step never is. */
  predicate Conditional(index: StepIndex, nodes: seq<Node>, i: nat)
    requires i < |nodes|
  {
    i > 0 && nodes[i].stepId in index && IsConditionalStep(index[nodes[i].stepId])
  }

  ghost function Flags(index: StepIndex, nodes: seq<Node>): (flags: seq<bool>)
    ensures |flags| == |nodes|
  {
    seq(|nodes|, i requires 0 <= i < |nodes| => Conditional(index, nodes, i))
  }

  /** The last unconditional step before `i`. */
  ghost function Checkpoint(flags: seq<bool>, i: nat): (j: nat)
    requires 0 < i <= |flags| && !flags[0]
    ensures j < i && !flags[j]
    ensures forall k :: j < k < i ==> flags[k]
  {
    if flags[i - 1] then Checkpoint(flags, i - 1) else i - 1
  }

  /** Step `j` leads into step `i`. */
  ghost predicate Leads(flags: seq<bool>, j: nat, i: nat)
    requires |flags| > 0 && !flags[0]
  {
    && j < i && 0 < i < |flags|
    && if flags[i] then j == Checkpoint(flags, i)
       else if flags[i - 1] then Checkpoint(flags, i) < j < i
       else j == i - 1
  }

  ghost function EdgesInto(index: StepIndex, nodes: seq<Node>, i: nat): seq<Edge>
    requires 0 < i < |nodes|
  {
    var flags := Flags(index, nodes);
    var c := Checkpoint(flags, i);
    if flags[i] then [ConditionalEdge(nodes[c], nodes[i], index[nodes[i].stepId])]
    else if c < i - 1 then DefaultEdges(nodes[c + 1..i], nodes[i])
    else [DefaultEdge(nodes[i - 1], nodes[i])]
  }

  function DefaultEdges(sources: seq<Node>, target: Node): (edges: seq<Edge>)
    ensures |edges| == |sources|
  {
    seq(|sources|, k requires 0 <= k < |sources| => DefaultEdge(sources[k], target))
  }

  /** The edges into steps 1 to k - 1. */
  ghost function EdgesBefore(index: StepIndex, nodes: seq<Node>, k: nat): seq<Edge>
    requires k <= |nodes|
  {
    if k <= 1 then [] else EdgesBefore(index, nodes, k - 1) + EdgesInto(index, nodes, k - 1)
  }

  ghost function PlanOf(steps: seq<RunbookStep>, compiled: seq<CompiledStep>): Graph
    requires compiled != []
  {
    var nodes := Nodes(compiled);
    Graph(nodes, EdgesBefore(IndexSteps(steps), nodes, |nodes|), Some(nodes[0].id))
  }

  ghost function Nodes(compiled: seq<CompiledStep>): (nodes: seq<Node>)
    ensures |nodes| == |compiled|
  {
    seq(|compiled|, i requires 0 <= i < |compiled| => NodeOf(compiled[i]))
  }

  // ---- The planner ----

  method BuildNodes(compiled: seq<CompiledStep>) returns (nodes: seq<Node>)
    ensures nodes == Nodes(compiled)
  {
    nodes := [];
    for i := 0 to |compiled|
      invariant |nodes| == i && forall k :: 0 <= k < i ==> nodes[k] == NodeOf(compiled[k])
    {
      nodes := nodes + [NodeOf(compiled[i])];
    }
  }

  method BuildIndex(steps: seq<RunbookStep>) returns (index: StepIndex)
    ensures index == IndexSteps(steps)
  {
    index := map[];
    for i := 0 to |steps|
      invariant index == IndexSteps(steps[..i])
    {
      assert steps[..i + 1][..i] == steps[..i];
      index := index[steps[i].stepId := steps[i]];
    }
    assert steps[..|steps|] == steps;
  }

  method MergeLeaves(leaves: seq<Node>, target: Node) returns (edges: seq<Edge>)
    ensures edges == DefaultEdges(leaves, target)
  {
    edges := [];
    for k := 0 to |leaves|
      invariant |edges| == k && forall l :: 0 <= l < k ==> edges[l] == DefaultEdge(leaves[l], target)
    {
      edges := edges + [DefaultEdge(leaves[k], target)];
    }
  }

  /** The routing state before step `i`: the open leaves are the conditional steps since the last decision node. */
  ghost predicate Routed(index: StepIndex, nodes: seq<Node>, i: nat, edges: seq<Edge>, last: Node, leaves: seq<Node>)
  {
    && 0 < i <= |nodes|
    && edges == EdgesBefore(index, nodes, i)
    && var c := Checkpoint(Flags(index, nodes), i); last == nodes[c] && leaves == nodes[c + 1..i]
  }

  lemma RouteBranch(index: StepIndex, nodes: seq<Node>, i: nat, edges: seq<Edge>, last: Node, leaves: seq<Node>)
    requires Routed(index, nodes, i, edges, last, leaves) && i < |nodes| && Conditional(index, nodes, i)
    ensures Routed(index, nodes, i + 1, edges + [ConditionalEdge(last, nodes[i], index[nodes[i].stepId])],
                   last, leaves + [nodes[i]])
  {
    var c := Checkpoint(Flags(index, nodes), i);
    assert Checkpoint(Flags(index, nodes), i + 1) == c;
    assert nodes[c + 1..i] + [nodes[i]] == nodes[c + 1..i + 1];
  }

  lemma RouteMerge(index: StepIndex, nodes: seq<Node>, i: nat, edges: seq<Edge>, last: Node, leaves: seq<Node>)
    requires Routed(index, nodes, i, edges, last, leaves) && i < |nodes| && !Conditional(index, nodes, i)
    ensures Routed(index, nodes, i + 1,
                   edges + (if leaves != [] then DefaultEdges(leaves, nodes[i])
                            else [DefaultEdge(nodes[i - 1], nodes[i])]),
                   nodes[i], [])
  {
    assert Checkpoint(Flags(index, nodes), i + 1) == i;
  }

  method RouteEdges(index: StepIndex, nodes: seq<Node>) returns (edges: seq<Edge>)
    requires nodes != []
    ensures edges == EdgesBefore(index, nodes, |nodes|)
  {
    edges := [];
    var lastNonConditional := nodes[0];
    var leaves: seq<Node> := [];
    assert Routed(index, nodes, 1, edges, lastNonConditional, leaves);
    for i := 1 to |nodes|
      invariant Routed(index, nodes, i, edges, lastNonConditional, leaves)
    {
      var thisNode := nodes[i];
      var prevNode := nodes[i - 1];
      if Conditional(index, nodes, i) {
        RouteBranch(index, nodes, i, edges, lastNonConditional, leaves);
        edges := edges + [ConditionalEdge(lastNonConditional, thisNode, index[thisNode.stepId])];
        leaves := leaves + [thisNode];
      } else {
        RouteMerge(index, nodes, i, edges, lastNonConditional, leaves);
        if leaves != [] {
          var merged := MergeLeaves(leaves, thisNode);
          edges := edges + merged;
          leaves := [];
        } else {
          edges := edges + [DefaultEdge(prevNode, thisNode)];
        }
        lastNonConditional := thisNode;
      }
    }
  }

  method GenerateGraph(steps: seq<RunbookStep>, compiled: seq<CompiledStep>)
    returns (r: Result<Graph, PlanError>)
    ensures compiled == [] ==> r == Err(EmptyPlan)
    ensures compiled != [] ==> r == Ok(PlanOf(steps, compiled))
  {
    if compiled == [] {
      return Err(EmptyPlan);
    }
    var index := BuildIndex(steps);
    var nodes := BuildNodes(compiled);
    var edges := RouteEdges(index, nodes);
    var graph := Graph(nodes, edges, Some(nodes[0].id));
    PlanIsConnected(steps, compiled);
    var valid := ValidateGraph(graph);
    r := match valid
      case Ok(_) => Ok(graph)
      case Err(e) => Err(Invalid(e));
  }

  // ---- Structure of the plan ----

  /** The edges of a plan join exactly the steps that lead into one another. */
  lemma {:induction false} EdgesBeforeMembers(index: StepIndex, nodes: seq<Node>, k: nat)
    requires nodes != [] && k <= |nodes|
    ensures forall e :: e in EdgesBefore(index, nodes, k) ==>
      exists j: nat, i: nat :: 0 < i < k && Joins(index, nodes, e, j, i)
    ensures forall j: nat, i: nat :: i < k && Leads(Flags(index, nodes), j, i) ==>
      exists e :: e in EdgesBefore(index, nodes, k) && Joins(index, nodes, e, j, i)
  {
    if k > 1 {
      EdgesBeforeMembers(index, nodes, k - 1);
      forall e | e in EdgesBefore(index, nodes, k)
        ensures exists j: nat, i: nat :: 0 < i < k && Joins(index, nodes, e, j, i)
      {
        if e in EdgesBefore(index, nodes, k - 1) {
          var j: nat, i: nat :| 0 < i < k - 1 && Joins(index, nodes, e, j, i);
        } else {
          var j := EdgeIntoHasSource(index, nodes, k - 1, e);
        }
      }
      forall j: nat, i: nat | i < k && Leads(Flags(index, nodes), j, i)
        ensures exists e :: e in EdgesBefore(index, nodes, k) && Joins(index, nodes, e, j, i)
      {
        if i < k - 1 {
          var e :| e in EdgesBefore(index, nodes, k - 1) && Joins(index, nodes, e, j, i);
        } else {
          var e := SourceHasEdge(index, nodes, i, j);
        }
      }
    }
  }

  /** `e` is the edge from step `j` to step `i`: conditional exactly when step `i` is. */
  ghost predicate Joins(index: StepIndex, nodes: seq<Node>, e: Edge, j: nat, i: nat)
  {
    && nodes != [] && i < |nodes|
    && Leads(Flags(index, nodes), j, i)
    && e == if Conditional(index, nodes, i)
            then ConditionalEdge(nodes[j], nodes[i], index[nodes[i].stepId])
            else DefaultEdge(nodes[j], nodes[i])
  }

  lemma EdgeIntoHasSource(index: StepIndex, nodes: seq<Node>, i: nat, e: Edge) returns (j: nat)
    requires 0 < i < |nodes| && e in EdgesInto(index, nodes, i)
    ensures Joins(index, nodes, e, j, i)
  {
    var flags := Flags(index, nodes);
    var c := Checkpoint(flags, i);
    if flags[i] {
      j := c;
    } else if c < i - 1 {
      var k :| 0 <= k < i - c - 1 && e == DefaultEdge(nodes[c + 1..i][k], nodes[i]);
      j := c + 1 + k;
    } else {
      j := i - 1;
    }
  }

  lemma SourceHasEdge(index: StepIndex, nodes: seq<Node>, i: nat, j: nat) returns (e: Edge)
    requires 0 < i < |nodes| && Leads(Flags(index, nodes), j, i)
    ensures e in EdgesInto(index, nodes, i) && Joins(index, nodes, e, j, i)
  {
    var flags := Flags(index, nodes);
    var c := Checkpoint(flags, i);
    if flags[i] {
      e := ConditionalEdge(nodes[j], nodes[i], index[nodes[i].stepId]);
    } else if c < i - 1 {
      e := DefaultEdge(nodes[j], nodes[i]);
      assert DefaultEdges(nodes[c + 1..i], nodes[i])[j - c - 1] == e;
    } else {
      e := DefaultEdge(nodes[j], nodes[i]);
    }
  }

  /** Validation accepts every plan, whatever the step ids. */
  lemma PlanIsConnected(steps: seq<RunbookStep>, compiled: seq<CompiledStep>)
    requires compiled != []
    ensures var g := PlanOf(steps, compiled);
      EntryExists(g) && EndpointsExist(g) && AllReachable(g)
  {
    var g := PlanOf(steps, compiled);
    var index := IndexSteps(steps);
    EdgesBeforeMembers(index, g.nodes, |g.nodes|);
    assert g.nodes[0] in g.nodes;
    assert g.entry.value[0] == 'n';
    forall e | e in g.edges
      ensures e.source in NodeIds(g) && e.target in NodeIds(g)
    {
      var j: nat, i: nat :| 0 < i < |g.nodes| && Joins(index, g.nodes, e, j, i);
      assert g.nodes[j] in g.nodes && g.nodes[i] in g.nodes;
    }
    forall id | id in NodeIds(g)
      ensures Reachable(g.edges, g.entry.value, id)
    {
      var n :| n in g.nodes && n.id == id;
      var i :| 0 <= i < |g.nodes| && g.nodes[i] == n;
      StepReachable(steps, compiled, i);
    }
  }

  lemma {:induction false} StepReachable(steps: seq<RunbookStep>, compiled: seq<CompiledStep>, i: nat)
    requires i < |compiled|
    ensures var g := PlanOf(steps, compiled);
      Reachable(g.edges, g.nodes[0].id, g.nodes[i].id)
  {
    var g := PlanOf(steps, compiled);
    var index := IndexSteps(steps);
    var flags := Flags(index, g.nodes);
    if i == 0 {
      ReachableRefl(g.edges, g.nodes[0].id);
    } else {
      var j := if flags[i] then Checkpoint(flags, i) else i - 1;
      assert Leads(flags, j, i);
      EdgesBeforeMembers(index, g.nodes, |g.nodes|);
      var e :| e in g.edges && Joins(index, g.nodes, e, j, i);
      StepReachable(steps, compiled, j);
      assert HasEdge(g.edges, g.nodes[j].id, g.nodes[i].id);
      ReachableStep(g.edges, g.nodes[0].id, g.nodes[j].id, g.nodes[i].id);
    }
  }

  /** Between n - 1 and 2(n - 1) edges: each conditional step may later be merged once. */
  lemma {:induction false} EdgeCount(index: StepIndex, nodes: seq<Node>, k: nat)
    requires 0 < k <= |nodes|
    ensures k - 1 <= |EdgesBefore(index, nodes, k)|
    ensures |EdgesBefore(index, nodes, k)| + (k - 1 - Checkpoint(Flags(index, nodes), k)) <= 2 * (k - 1)
  {
    if k > 1 {
      EdgeCount(index, nodes, k - 1);
    }
  }
}
