/** The shape of every plan: edges go forward, and no node mixes default and conditional edges. */
module PlanShape {
  import opened Wrappers
  import opened ExecutionGraph
  import opened Planner

  ghost predicate DistinctSteps(compiled: seq<CompiledStep>)
  {
    forall i, j :: 0 <= i < j < |compiled| ==> compiled[i].stepId != compiled[j].stepId
  }

  ghost predicate DistinctIds(nodes: seq<Node>)
  {
    forall i, j :: 0 <= i < |nodes| && 0 <= j < |nodes| && nodes[i].id == nodes[j].id ==> i == j
  }

  ghost predicate Described(steps: seq<RunbookStep>)
  {
    forall s :: s in steps ==> s.description != ""
  }

  ghost function EdgeBetween(index: StepIndex, nodes: seq<Node>, j: nat, i: nat): Edge
    requires j < |nodes| && i < |nodes|
  {
    if Conditional(index, nodes, i) then ConditionalEdge(nodes[j], nodes[i], index[nodes[i].stepId])
    else DefaultEdge(nodes[j], nodes[i])
  }

  lemma {:induction false} OutgoingAppend(a: seq<Edge>, b: seq<Edge>, id: string)
    ensures Outgoing(a + b, id) == Outgoing(a, id) + Outgoing(b, id)
    decreases |b|
  {
    if b == [] {
      assert a + b == a;
    } else {
      var front, last := b[..|b| - 1], b[|b| - 1];
      OutgoingAppend(a, front, id);
      assert (a + b)[..|a + b| - 1] == a + front && (a + b)[|a + b| - 1] == last;
    }
  }

  lemma {:induction false} OutgoingOfMerge(sources: seq<Node>, target: Node, id: string)
    requires DistinctIds(sources)
    ensures Outgoing(DefaultEdges(sources, target), id) == []
      || exists k :: 0 <= k < |sources| && sources[k].id == id
           && Outgoing(DefaultEdges(sources, target), id) == [DefaultEdge(sources[k], target)]
    ensures Outgoing(DefaultEdges(sources, target), id) == [] ==> forall k :: 0 <= k < |sources| ==> sources[k].id != id
  {
    if sources != [] {
      var n := |sources| - 1;
      var front := sources[..n];
      var edges := DefaultEdges(sources, target);
      assert edges[..n] == DefaultEdges(front, target) && edges[n] == DefaultEdge(sources[n], target);
      OutgoingOfMerge(front, target, id);
      assert forall k :: 0 <= k < n ==> front[k] == sources[k];
      assert sources[n].id == id ==> forall k :: 0 <= k < n ==> front[k].id != id;
    }
  }

  lemma OutgoingOfInto(index: StepIndex, nodes: seq<Node>, i: nat, j: nat)
    requires 0 < i < |nodes| && j < |nodes| && DistinctIds(nodes)
    ensures Outgoing(EdgesInto(index, nodes, i), nodes[j].id)
         == if Leads(Flags(index, nodes), j, i) then [EdgeBetween(index, nodes, j, i)] else []
  {
    var flags := Flags(index, nodes);
    var c := Checkpoint(flags, i);
    if !flags[i] && c < i - 1 {
      var leaves := nodes[c + 1..i];
      assert forall k :: 0 <= k < |leaves| ==> leaves[k] == nodes[c + 1 + k];
      OutgoingOfMerge(leaves, nodes[i], nodes[j].id);
      if c < j < i {
        assert leaves[j - c - 1] == nodes[j];
      }
    }
  }

  // ---- Outgoing edges ----

  /** Step `j` is a decision: unconditional and followed by a conditional step. */
  ghost predicate IsDecision(flags: seq<bool>, j: nat)
  {
    j + 1 < |flags| && !flags[j] && flags[j + 1]
  }

  ghost function OutgoingOf(index: StepIndex, nodes: seq<Node>, j: nat, k: nat): seq<Edge>
    requires j < |nodes| && k <= |nodes|
  {
    Outgoing(EdgesBefore(index, nodes, k), nodes[j].id)
  }

  lemma OutgoingGrows(index: StepIndex, nodes: seq<Node>, j: nat, k: nat)
    requires j < |nodes| && 0 < k < |nodes| && DistinctIds(nodes)
    ensures OutgoingOf(index, nodes, j, k + 1)
         == OutgoingOf(index, nodes, j, k)
            + if Leads(Flags(index, nodes), j, k) then [EdgeBetween(index, nodes, j, k)] else []
  {
    OutgoingAppend(EdgesBefore(index, nodes, k), EdgesInto(index, nodes, k), nodes[j].id);
    OutgoingOfInto(index, nodes, k, j);
  }

  ghost predicate ConditionalFrom(index: StepIndex, nodes: seq<Node>, j: nat, e: Edge)
    requires j < |nodes|
  {
    exists i :: 0 <= i < |nodes| && Conditional(index, nodes, i)
             && e == ConditionalEdge(nodes[j], nodes[i], index[nodes[i].stepId])
  }

  /** Before step `k`, step `j` has only conditional edges, and one as soon as the step after it is planned. */
  ghost predicate OnlyConditional(index: StepIndex, nodes: seq<Node>, j: nat, k: nat)
    requires j < |nodes| && k <= |nodes|
  {
    var out := OutgoingOf(index, nodes, j, k);
    (forall e :: e in out ==> ConditionalFrom(index, nodes, j, e)) && (k > j + 1 ==> out != [])
  }

  lemma DecisionLeadsToConditional(index: StepIndex, nodes: seq<Node>, j: nat, k: nat)
    requires j < |nodes| && k < |nodes| && IsDecision(Flags(index, nodes), j) && Leads(Flags(index, nodes), j, k)
    ensures ConditionalFrom(index, nodes, j, EdgeBetween(index, nodes, j, k))
  {
    assert Conditional(index, nodes, k);
  }

  lemma DecisionStep(index: StepIndex, nodes: seq<Node>, j: nat, k: nat)
    requires j < |nodes| && 0 < k < |nodes| && DistinctIds(nodes) && IsDecision(Flags(index, nodes), j)
    requires OnlyConditional(index, nodes, j, k)
    ensures OnlyConditional(index, nodes, j, k + 1)
  {
    OutgoingGrows(index, nodes, j, k);
    var out := OutgoingOf(index, nodes, j, k);
    if Leads(Flags(index, nodes), j, k) {
      var last := EdgeBetween(index, nodes, j, k);
      DecisionLeadsToConditional(index, nodes, j, k);
      forall e | e in out + [last]
        ensures ConditionalFrom(index, nodes, j, e)
      {
        assert e in out || e == last;
      }
    }
  }

  /** A decision has only conditional edges, one of them to the step after it. */
  lemma {:induction false} DecisionEdges(index: StepIndex, nodes: seq<Node>, j: nat, k: nat)
    requires j < |nodes| && 0 < k <= |nodes| && DistinctIds(nodes) && IsDecision(Flags(index, nodes), j)
    ensures OnlyConditional(index, nodes, j, k)
  {
    if k > 1 {
      DecisionEdges(index, nodes, j, k - 1);
      DecisionStep(index, nodes, j, k - 1);
    }
  }

  /** Some unconditional step between `j` and `k` has closed the block that `j` opened or belongs to. */
  ghost predicate Merged(flags: seq<bool>, j: nat, k: nat)
    requires k <= |flags|
  {
    exists m :: j < m < k && !flags[m]
  }

  lemma OrdinaryLeads(flags: seq<bool>, j: nat, i: nat)
    requires 0 < i < |flags| && !flags[0] && !IsDecision(flags, j)
    ensures Leads(flags, j, i) <==> j < i && !flags[i] && !Merged(flags, j, i)
    ensures Merged(flags, j, i + 1) <==> Merged(flags, j, i) || (j < i && !flags[i])
  {
    var c := Checkpoint(flags, i);
    if j < c {
      assert Merged(flags, j, i);
    }
  }

  /** Before step `k`, step `j` has one edge, a default edge, if a later unconditional step is planned, else none. */
  ghost predicate OneDefaultOnceMerged(index: StepIndex, nodes: seq<Node>, j: nat, k: nat)
    requires j < |nodes| && k <= |nodes|
  {
    var out := OutgoingOf(index, nodes, j, k);
    if Merged(Flags(index, nodes), j, k) then |out| == 1 && IsDefault(out[0]) else out == []
  }

  lemma OrdinaryStep(index: StepIndex, nodes: seq<Node>, j: nat, k: nat)
    requires j < |nodes| && 0 < k < |nodes| && DistinctIds(nodes) && !IsDecision(Flags(index, nodes), j)
    requires OneDefaultOnceMerged(index, nodes, j, k)
    ensures OneDefaultOnceMerged(index, nodes, j, k + 1)
  {
    var flags := Flags(index, nodes);
    OutgoingGrows(index, nodes, j, k);
    OrdinaryLeads(flags, j, k);
    if Leads(flags, j, k) {
      assert IsDefault(EdgeBetween(index, nodes, j, k));
    }
  }

  /** Any step that is not a decision has one edge, a default edge, once a later unconditional step is planned. */
  lemma {:induction false} OrdinaryEdges(index: StepIndex, nodes: seq<Node>, j: nat, k: nat)
    requires j < |nodes| && 0 < k <= |nodes| && DistinctIds(nodes) && !IsDecision(Flags(index, nodes), j)
    ensures OneDefaultOnceMerged(index, nodes, j, k)
  {
    if k > 1 {
      OrdinaryEdges(index, nodes, j, k - 1);
      OrdinaryStep(index, nodes, j, k - 1);
    }
  }

  /** A node's outgoing edges: none, exactly one default edge, or conditional edges only. */
  ghost predicate Unmixed(out: seq<Edge>)
  {
    out == [] || (|out| == 1 && IsDefault(out[0])) || forall e :: e in out ==> e.branch.Some?
  }

  lemma {:induction false} IndexDescribed(steps: seq<RunbookStep>, id: string)
    requires Described(steps) && id in IndexSteps(steps)
    ensures ConditionText(IndexSteps(steps)[id]) != ""
  {
    var last := steps[|steps| - 1];
    assert last in steps;
    if id != last.stepId {
      var front := steps[..|steps| - 1];
      assert forall s :: s in front ==> s in steps;
      IndexDescribed(front, id);
    }
  }

  lemma PlanIsUnmixed(steps: seq<RunbookStep>, compiled: seq<CompiledStep>, j: nat)
    requires j < |compiled| && DistinctSteps(compiled) && Described(steps)
    ensures var g := PlanOf(steps, compiled);
      Unmixed(Outgoing(g.edges, g.nodes[j].id))
  {
    var g := PlanOf(steps, compiled);
    var index := IndexSteps(steps);
    DistinctNodes(compiled);
    if IsDecision(Flags(index, g.nodes), j) {
      DecisionEdges(index, g.nodes, j, |g.nodes|);
      forall e | e in Outgoing(g.edges, g.nodes[j].id)
        ensures e.branch.Some?
      {
        assert ConditionalFrom(index, g.nodes, j, e);
        var i :| 0 <= i < |g.nodes| && Conditional(index, g.nodes, i)
              && e == ConditionalEdge(g.nodes[j], g.nodes[i], index[g.nodes[i].stepId]);
        IndexDescribed(steps, g.nodes[i].stepId);
      }
    } else {
      OrdinaryEdges(index, g.nodes, j, |g.nodes|);
    }
  }

  lemma DistinctNodes(compiled: seq<CompiledStep>)
    requires DistinctSteps(compiled)
    ensures DistinctIds(Nodes(compiled))
  {
    var nodes := Nodes(compiled);
    forall i, j | 0 <= i < |nodes| && 0 <= j < |nodes| && nodes[i].id == nodes[j].id
      ensures i == j
    {
      assert nodes[i].id[5..] == compiled[i].stepId && nodes[j].id[5..] == compiled[j].stepId;
    }
  }

  /** Every edge of a plan goes from an earlier step to a later one. */
  lemma PlanGoesForward(steps: seq<RunbookStep>, compiled: seq<CompiledStep>, j: nat, i: nat)
    requires j < |compiled| && i < |compiled| && DistinctSteps(compiled)
    requires var g := PlanOf(steps, compiled); HasEdge(g.edges, g.nodes[j].id, g.nodes[i].id)
    ensures j < i
  {
    var g := PlanOf(steps, compiled);
    DistinctNodes(compiled);
    EdgesBeforeMembers(IndexSteps(steps), g.nodes, |g.nodes|);
    var e :| e in g.edges && e.source == g.nodes[j].id && e.target == g.nodes[i].id;
    var j': nat, i': nat :| 0 < i' < |g.nodes| && Joins(IndexSteps(steps), g.nodes, e, j', i');
  }

  /** The number of edges of a plan with n steps. */
  lemma PlanEdgeCount(steps: seq<RunbookStep>, compiled: seq<CompiledStep>)
    requires compiled != []
    ensures |compiled| - 1 <= |PlanOf(steps, compiled).edges| <= 2 * (|compiled| - 1)
  {
    var g := PlanOf(steps, compiled);
    EdgeCount(IndexSteps(steps), g.nodes, |g.nodes|);
  }

  /** The last step, or a step of the block of conditional steps that ends the plan. */
  ghost predicate InFinalBlock(flags: seq<bool>, j: nat)
  {
    j < |flags| && (j == |flags| - 1 || (flags[j] && forall m :: j < m < |flags| ==> flags[m]))
  }

  /** The leaves of a plan are exactly its last step and the steps of a final conditional block. */
  lemma PlanLeaves(steps: seq<RunbookStep>, compiled: seq<CompiledStep>, j: nat)
    requires j < |compiled| && DistinctSteps(compiled)
    ensures var g := PlanOf(steps, compiled);
      Outgoing(g.edges, g.nodes[j].id) == [] <==> InFinalBlock(Flags(IndexSteps(steps), g.nodes), j)
  {
    var g := PlanOf(steps, compiled);
    var flags := Flags(IndexSteps(steps), g.nodes);
    DistinctNodes(compiled);
    if IsDecision(flags, j) {
      DecisionEdges(IndexSteps(steps), g.nodes, j, |g.nodes|);
    } else {
      OrdinaryEdges(IndexSteps(steps), g.nodes, j, |g.nodes|);
    }
  }
}
