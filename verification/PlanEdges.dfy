/** The edges of a plan, read off the runbook (app/planner/planner.py:81-126). */
module PlanEdges {
  import opened Wrappers
  import opened Text
  import opened ExecutionGraph
  import opened Planner

  /** `steps[k]` is the last step of the runbook with the id. */
  ghost predicate IsLastWith(steps: seq<RunbookStep>, id: string, k: int)
  {
    && 0 <= k < |steps| && steps[k].stepId == id
    && forall l :: k < l < |steps| ==> steps[l].stepId != id
  }

  /** It has a condition, or its lower-cased description begins with a condition word. */
  ghost predicate StatesCondition(step: RunbookStep)
  {
    var d := Lower(step.description);
    step.condition.Some? || "if " <= d || "when " <= d || "unless " <= d || "else " <= d
  }

  /** Compiled step `i` runs only on a condition; the first step never does. */
  ghost predicate NeedsCondition(steps: seq<RunbookStep>, compiled: seq<CompiledStep>, i: nat)
    requires i < |compiled|
  {
    i > 0 && exists k :: IsLastWith(steps, compiled[i].stepId, k) && StatesCondition(steps[k])
  }

  /** The text of the condition: the step's own when it is not empty, else the description. */
  ghost predicate IsConditionOf(steps: seq<RunbookStep>, id: string, text: string)
  {
    exists k ::
      && IsLastWith(steps, id, k)
      && text == if steps[k].condition.Some? && steps[k].condition.value != "" then steps[k].condition.value
                 else steps[k].description
  }

  /**
   * Which steps lead into step `i`: into a conditional one the last unconditional one before it; into an
   * unconditional one all the conditional ones just before it, or else its predecessor.
   */
  ghost predicate LeadsInto(steps: seq<RunbookStep>, compiled: seq<CompiledStep>, j: nat, i: nat)
  {
    && j < i < |compiled|
    && if NeedsCondition(steps, compiled, i) then
         !NeedsCondition(steps, compiled, j) && forall l :: j < l < i ==> NeedsCondition(steps, compiled, l)
       else if NeedsCondition(steps, compiled, i - 1) then
         forall l :: j <= l < i ==> NeedsCondition(steps, compiled, l)
       else j == i - 1
  }

  /** The edge carries a condition exactly when its target needs one, parsed unless it is empty. */
  ghost predicate Carries(steps: seq<RunbookStep>, compiled: seq<CompiledStep>, e: Edge, i: nat)
    requires i < |compiled|
  {
    if NeedsCondition(steps, compiled, i) then
      && e.condition.Some? && IsConditionOf(steps, compiled[i].stepId, e.condition.value)
      && (e.branch.Some? <==> e.condition.value != "")
    else e.condition.None? && e.branch.None?
  }

  ghost predicate IsEdge(steps: seq<RunbookStep>, compiled: seq<CompiledStep>, e: Edge, j: nat, i: nat)
  {
    && LeadsInto(steps, compiled, j, i) && Carries(steps, compiled, e, i)
    && e.source == "node_" + compiled[j].stepId && e.target == "node_" + compiled[i].stepId
  }

  lemma {:induction false} IndexHoldsTheLast(steps: seq<RunbookStep>, id: string)
    ensures id in IndexSteps(steps) ==> exists k :: IsLastWith(steps, id, k) && IndexSteps(steps)[id] == steps[k]
    ensures forall k :: IsLastWith(steps, id, k) ==> id in IndexSteps(steps) && IndexSteps(steps)[id] == steps[k]
  {
    if steps != [] {
      var front, last := steps[..|steps| - 1], steps[|steps| - 1];
      IndexHoldsTheLast(front, id);
      if last.stepId == id {
        assert IsLastWith(steps, id, |steps| - 1);
      } else {
        assert forall k :: IsLastWith(steps, id, k) <==> IsLastWith(front, id, k);
      }
    }
  }

  lemma ConditionalNeedsCondition(steps: seq<RunbookStep>, compiled: seq<CompiledStep>, i: nat)
    requires i < |compiled|
    ensures Conditional(IndexSteps(steps), Nodes(compiled), i) <==> NeedsCondition(steps, compiled, i)
  {
    var id := compiled[i].stepId;
    IndexHoldsTheLast(steps, id);
    assert Nodes(compiled)[i].stepId == id;
  }

  lemma LeadingIsLeadingInto(steps: seq<RunbookStep>, compiled: seq<CompiledStep>, j: nat, i: nat)
    requires compiled != []
    ensures Leads(Flags(IndexSteps(steps), Nodes(compiled)), j, i) <==> i > 0 && LeadsInto(steps, compiled, j, i)
  {
    var flags := Flags(IndexSteps(steps), Nodes(compiled));
    forall l: nat | l < |compiled|
      ensures flags[l] <==> NeedsCondition(steps, compiled, l)
    {
      ConditionalNeedsCondition(steps, compiled, l);
    }
    if 0 < i < |compiled| {
      var c := Checkpoint(flags, i);
      assert j < c ==> !NeedsCondition(steps, compiled, c);
    }
  }

  /** An edge that joins two steps says what the runbook says, and conversely. */
  lemma JoiningIsEdge(steps: seq<RunbookStep>, compiled: seq<CompiledStep>, e: Edge, j: nat, i: nat)
    requires compiled != [] && Joins(IndexSteps(steps), Nodes(compiled), e, j, i)
    ensures IsEdge(steps, compiled, e, j, i)
  {
    LeadingIsLeadingInto(steps, compiled, j, i);
    ConditionalNeedsCondition(steps, compiled, i);
    IndexHoldsTheLast(steps, compiled[i].stepId);
  }

  lemma LeadingHasEdge(steps: seq<RunbookStep>, compiled: seq<CompiledStep>, j: nat, i: nat) returns (e: Edge)
    requires LeadsInto(steps, compiled, j, i)
    ensures e in PlanOf(steps, compiled).edges && IsEdge(steps, compiled, e, j, i)
  {
    var g := PlanOf(steps, compiled);
    LeadingIsLeadingInto(steps, compiled, j, i);
    EdgesBeforeMembers(IndexSteps(steps), g.nodes, |g.nodes|);
    e :| e in g.edges && Joins(IndexSteps(steps), g.nodes, e, j, i);
    JoiningIsEdge(steps, compiled, e, j, i);
  }

  /**
   * A plan in the runbook's own terms: each of its edges leads into a later step as the conditions of the steps say
   * and carries the condition of its target, if that needs one; and each step that leads into another has its edge.
   */
  lemma PlanReadsTheRunbook(steps: seq<RunbookStep>, compiled: seq<CompiledStep>)
    requires compiled != []
    ensures var g := PlanOf(steps, compiled);
      && (forall e :: e in g.edges ==> exists j: nat, i: nat :: IsEdge(steps, compiled, e, j, i))
      && (forall j: nat, i: nat :: LeadsInto(steps, compiled, j, i) ==>
            exists e :: e in g.edges && IsEdge(steps, compiled, e, j, i))
      && g.entry == Some("node_" + compiled[0].stepId)
      && |g.nodes| == |compiled|
      && forall i :: 0 <= i < |compiled| ==>
           g.nodes[i].id == "node_" + compiled[i].stepId && g.nodes[i].name == compiled[i].description
  {
    var g := PlanOf(steps, compiled);
    EdgesBeforeMembers(IndexSteps(steps), g.nodes, |g.nodes|);
    forall e | e in g.edges
      ensures exists j: nat, i: nat :: IsEdge(steps, compiled, e, j, i)
    {
      var j: nat, i: nat :| 0 < i < |g.nodes| && Joins(IndexSteps(steps), g.nodes, e, j, i);
      JoiningIsEdge(steps, compiled, e, j, i);
    }
    forall j: nat, i: nat | LeadsInto(steps, compiled, j, i)
      ensures exists e :: e in g.edges && IsEdge(steps, compiled, e, j, i)
    {
      var e := LeadingHasEdge(steps, compiled, j, i);
    }
  }
}
