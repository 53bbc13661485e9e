/** What an engine run says about the graph it runs (app/runtime/engine.py:229-765), edge by edge. */
module GraphRuns {
  import opened Wrappers
  import opened ExecutionGraph
  import opened Planner
  import opened PlanShape
  import opened ExecutionEngine
  import opened ExecutionHistory
  import opened PlannedRuns

  // ---- Which edge is taken ----

  /** The first edge with property `p` leads to `next`. */
  ghost predicate FirstLeadsTo(edges: seq<Edge>, p: Edge -> bool, next: string)
  {
    exists k :: 0 <= k < |edges| && p(edges[k]) && edges[k].target == next && forall j :: 0 <= j < k ==> !p(edges[j])
  }

  ghost predicate NoneHas(edges: seq<Edge>, p: Edge -> bool)
  {
    forall e :: e in edges ==> !p(e)
  }

  /** It leaves the node with a branch condition that holds. */
  ghost function Holding(node: string, holds: Branch -> bool): Edge -> bool
  {
    (e: Edge) => e.source == node && e.branch.Some? && holds(e.branch.value)
  }

  /** It leaves the node with neither a branch nor a condition text. */
  ghost function Plain(node: string): Edge -> bool
  {
    (e: Edge) => e.source == node && e.branch.None? && (e.condition.None? || e.condition.value == "")
  }

  /** A branch that holds decides, and only without one a plain edge; an empty target counts as none. */
  ghost predicate Takes(edges: seq<Edge>, node: string, holds: Branch -> bool, next: string)
  {
    && next != ""
    && (FirstLeadsTo(edges, Holding(node, holds), next)
        || (FirstLeadsTo(edges, Plain(node), next)
            && (NoneHas(edges, Holding(node, holds)) || FirstLeadsTo(edges, Holding(node, holds), ""))))
  }

  ghost predicate IsLeaf(edges: seq<Edge>, node: string)
  {
    forall e :: e in edges ==> e.source != node
  }

  // ---- The two searches ----

  /** `found` is where the first edge with property `p` leads, if there is one. */
  ghost predicate Finds(edges: seq<Edge>, p: Edge -> bool, found: Option<string>)
  {
    if found.Some? then FirstLeadsTo(edges, p, found.value) else NoneHas(edges, p)
  }

  ghost function FoundBy(front: Option<string>, last: Edge, p: Edge -> bool): Option<string>
  {
    if front.Some? then front else if p(last) then Some(last.target) else None
  }

  lemma FindsSnoc(front: seq<Edge>, last: Edge, p: Edge -> bool, found: Option<string>)
    requires Finds(front, p, found)
    ensures Finds(front + [last], p, FoundBy(found, last, p))
  {
    var edges := front + [last];
    if found.Some? {
      var k :| 0 <= k < |front| && p(front[k]) && front[k].target == found.value
        && forall j :: 0 <= j < k ==> !p(front[j]);
      assert p(edges[k]) && edges[k].target == found.value && forall j :: 0 <= j < k ==> edges[j] == front[j];
    } else if p(last) {
      assert p(edges[|front|]) && forall j :: 0 <= j < |front| ==> edges[j] == front[j] && front[j] in front;
    }
  }

  /** The first such edge is one. */
  lemma FirstIsOne(edges: seq<Edge>, p: Edge -> bool, a: string, b: string)
    requires FirstLeadsTo(edges, p, a)
    ensures FirstLeadsTo(edges, p, b) ==> a == b
    ensures !NoneHas(edges, p)
  {
  }

  lemma {:induction false} FirstHoldingAppend(a: seq<Edge>, b: seq<Edge>, holds: Branch -> bool)
    ensures FirstHolding(a + b, holds)
         == if FirstHolding(a, holds).Some? then FirstHolding(a, holds) else FirstHolding(b, holds)
  {
    if a == [] {
      assert a + b == b;
    } else {
      assert (a + b)[1..] == a[1..] + b;
      FirstHoldingAppend(a[1..], b, holds);
    }
  }

  lemma {:induction false} FirstDefaultAppend(a: seq<Edge>, b: seq<Edge>)
    ensures FirstDefault(a + b) == if FirstDefault(a).Some? then FirstDefault(a) else FirstDefault(b)
  {
    if a == [] {
      assert a + b == b;
    } else {
      assert (a + b)[1..] == a[1..] + b;
      FirstDefaultAppend(a[1..], b);
    }
  }

  lemma {:induction false} BranchSearch(edges: seq<Edge>, node: string, holds: Branch -> bool)
    ensures Finds(edges, Holding(node, holds), FirstHolding(Outgoing(edges, node), holds))
  {
    if edges != [] {
      var front, last := edges[..|edges| - 1], edges[|edges| - 1];
      var out := Outgoing(front, node);
      BranchSearch(front, node, holds);
      FindsSnoc(front, last, Holding(node, holds), FirstHolding(out, holds));
      FirstHoldingAppend(out, [last], holds);
      assert [last][1..] == [] && front + [last] == edges && out + [] == out;
      assert FirstHolding(Outgoing(edges, node), holds)
          == FoundBy(FirstHolding(out, holds), last, Holding(node, holds));
    }
  }

  lemma {:induction false} PlainSearch(edges: seq<Edge>, node: string)
    ensures Finds(edges, Plain(node), FirstDefault(Outgoing(edges, node)))
  {
    if edges != [] {
      var front, last := edges[..|edges| - 1], edges[|edges| - 1];
      var out := Outgoing(front, node);
      PlainSearch(front, node);
      FindsSnoc(front, last, Plain(node), FirstDefault(out));
      FirstDefaultAppend(out, [last]);
      assert [last][1..] == [] && front + [last] == edges && out + [] == out;
      assert FirstDefault(Outgoing(edges, node)) == FoundBy(FirstDefault(out), last, Plain(node));
    }
  }

  /** The route is the edge taken, and there is none exactly when no edge is. */
  lemma RouteTakes(edges: seq<Edge>, node: string, holds: Branch -> bool, next: string)
    ensures Route(Outgoing(edges, node), holds) == Some(next) <==> Takes(edges, node, holds, next)
  {
    var branch, plain := FirstHolding(Outgoing(edges, node), holds), FirstDefault(Outgoing(edges, node));
    BranchSearch(edges, node, holds);
    PlainSearch(edges, node);
    if branch.Some? {
      FirstIsOne(edges, Holding(node, holds), branch.value, next);
      FirstIsOne(edges, Holding(node, holds), branch.value, "");
    }
    if plain.Some? {
      FirstIsOne(edges, Plain(node), plain.value, next);
    }
    if FirstLeadsTo(edges, Holding(node, holds), next) {
      FirstIsOne(edges, Holding(node, holds), next, next);
    }
    if FirstLeadsTo(edges, Plain(node), next) {
      FirstIsOne(edges, Plain(node), next, next);
    }
    if FirstLeadsTo(edges, Holding(node, holds), "") {
      FirstIsOne(edges, Holding(node, holds), "", next);
    }
  }

  // ---- One visit ----

  /** Nothing keeps the engine from running the node: neither the limit, nor a policy, nor a gate, nor a fault. */
  ghost predicate Clear(skill: Skill, maxNodes: int, r: Rows, node: string, bypass: Option<string>, v: Visit)
  {
    && |r.runs| < maxNodes && (exists n :: n in skill.graph.nodes && n.id == node)
    && v.permitted && v.faults == {} && (skill.mode == AUTO || bypass == Some(node))
  }

  /**
   * Where a visit that succeeds leads: to the target of the edge taken; at a leaf to completion; and to a failure
   * exactly when the node has edges and none is taken.
   */
  lemma SucceedingVisit(skill: Skill, maxNodes: int, r: Rows, node: string, bypass: Option<string>, world: World)
    requires Clear(skill, maxNodes, r, node, bypass, world.visits(r.clock))
    requires world.visits(r.clock).outcome == Succeeded
    ensures var next := Iterate(skill, maxNodes, r, node, bypass, world);
      var edges, v := skill.graph.edges, world.visits(r.clock);
      && next.rows.runs == r.runs + [NodeRun(node, COMPLETED, r.clock)] && next.rows.approvals == r.approvals
      && (forall to :: next.Go? && next.node == to <==> Takes(edges, node, v.holds, to))
      && (next.Stop? && next.rows.record.status == COMPLETED <==> IsLeaf(edges, node))
      && (next.Stop? && next.rows.record.status == FAILED && next.rows.record.category == Some(VALIDATION_ERROR)
          <==> !IsLeaf(edges, node) && forall to :: !Takes(edges, node, v.holds, to))
  {
    var edges, v := skill.graph.edges, world.visits(r.clock);
    var out := Outgoing(edges, node);
    assert node in NodeIds(skill.graph);
    forall to
      ensures Route(out, v.holds) == Some(to) <==> Takes(edges, node, v.holds, to)
    {
      RouteTakes(edges, node, v.holds, to);
    }
    assert out != [] ==> out[0] in out;
    if IsLeaf(edges, node) {
      LeafTakesNothing(edges, node, v.holds);
    } else {
      var e :| e in edges && e.source == node;
      assert e in out;
    }
  }

  lemma LeafTakesNothing(edges: seq<Edge>, node: string, holds: Branch -> bool)
    requires IsLeaf(edges, node)
    ensures forall to :: !Takes(edges, node, holds, to)
  {
  }

  /** A denied node never runs, whatever the mode: the execution fails as a policy violation, without an approval. */
  lemma DeniedVisit(skill: Skill, maxNodes: int, r: Rows, node: string, bypass: Option<string>, world: World)
    requires |r.runs| < maxNodes && (exists n :: n in skill.graph.nodes && n.id == node)
    requires var v := world.visits(r.clock); !v.permitted && v.faults == {}
    ensures var s := Loop(skill, maxNodes, r, node, bypass, world);
      && s.runs == r.runs && s.approvals == r.approvals
      && s.record.status == FAILED && s.record.category == Some(POLICY_VIOLATION)
  {
    assert node in NodeIds(skill.graph);
  }

  /** A body that fails ends the execution with its category; one that breaks, as a runtime error, its run left open. */
  lemma FailingVisit(skill: Skill, maxNodes: int, r: Rows, node: string, bypass: Option<string>, world: World)
    requires Clear(skill, maxNodes, r, node, bypass, world.visits(r.clock))
    ensures var s := Loop(skill, maxNodes, r, node, bypass, world);
      match world.visits(r.clock).outcome
      case Succeeded => true
      case NodeFailed(category) =>
        && s.runs == r.runs + [NodeRun(node, FAILED, r.clock)] && s.approvals == r.approvals
        && s.record.status == FAILED && s.record.category == Some(category)
      case Broke =>
        && s.runs == r.runs + [NodeRun(node, RUNNING, r.clock)] && s.approvals == r.approvals
        && s.record.status == FAILED && s.record.category == Some(RUNTIME_ERROR)
  {
    assert node in NodeIds(skill.graph);
  }

  /** What a node meets that cannot run: the limit, a missing node, a manual gate, or a gate that asks. */
  lemma BarredVisit(skill: Skill, maxNodes: int, r: Rows, node: string, world: World)
    requires var v := world.visits(r.clock); v.permitted && v.faults == {}
    ensures var s := Loop(skill, maxNodes, r, node, None, world);
      && (|r.runs| >= maxNodes ==>
            s.record.status == FAILED && s.record.category == Some(RUNTIME_ERROR) && s.runs == r.runs)
      && (|r.runs| < maxNodes && (forall n :: n in skill.graph.nodes ==> n.id != node) ==>
            s.record.status == FAILED && s.record.category == Some(RUNTIME_ERROR) && s.runs == r.runs)
      && (|r.runs| < maxNodes && (exists n :: n in skill.graph.nodes && n.id == node) && skill.mode == MANUAL ==>
            s.record.status == FAILED && s.record.category == Some(VALIDATION_ERROR) && s.runs == r.runs)
      && (|r.runs| < maxNodes && (exists n :: n in skill.graph.nodes && n.id == node) && skill.mode == HUMAN_IN_LOOP
          ==>
            && s.record == r.record.(cursor := Some(node)) && s.runs == r.runs
            && s.approvals == r.approvals + [Approval(node, r.clock, None, None)])
  {
    assert node in NodeIds(skill.graph) <==> exists n :: n in skill.graph.nodes && n.id == node;
  }

  /** A rejection runs nothing and fails the execution, with the decision stored. */
  lemma RejectionFails(skill: Skill, maxNodes: int, r: Rows, world: World)
    requires r.record.status == RUNNING && r.approvals != [] && r.approvals[|r.approvals| - 1].decision == None
    requires world.bundleFound && world.audited
    ensures var s := After(skill, maxNodes, r, Resume(REJECTED, world));
      && s.runs == r.runs && s.record.status == FAILED && s.record.category == Some(APPROVAL_REJECTED)
      && |s.approvals| == |r.approvals| && s.approvals[|r.approvals| - 1].decision == Some(REJECTED)
  {
  }

  // ---- The runs of one loop ----

  function EndedAs(outcome: Outcome): Status
  {
    match outcome
    case Succeeded => COMPLETED
    case NodeFailed(_) => FAILED
    case Broke => RUNNING
  }

  /** Run `k` is of a node of the graph, was permitted when it began, and is stored as its body ended. */
  ghost predicate RanPermitted(skill: Skill, s: Rows, world: World, k: nat)
    requires k < |s.runs|
  {
    var run := s.runs[k];
    var v := world.visits(run.startedAt);
    && (exists n :: n in skill.graph.nodes && n.id == run.node)
    && v.permitted && BEFORE_NODE !in v.faults && run.status == EndedAs(v.outcome)
  }

  /** The node of run `k` succeeded, and the edge taken there led to the node of the next run. */
  ghost predicate WentOn(skill: Skill, s: Rows, world: World, k: nat)
    requires k + 1 < |s.runs|
  {
    var run := s.runs[k];
    var v := world.visits(run.startedAt);
    && v.outcome == Succeeded && AFTER_NODE !in v.faults
    && Takes(skill.graph.edges, run.node, v.holds, s.runs[k + 1].node)
  }

  ghost predicate Traced(skill: Skill, s: Rows, world: World, from: nat)
  {
    && (forall k :: from <= k < |s.runs| ==> RanPermitted(skill, s, world, k))
    && (forall k :: from <= k < |s.runs| - 1 ==> WentOn(skill, s, world, k))
  }

  /** The execution completed where the last run is of a leaf that succeeded. */
  ghost predicate CompletesAtLeaf(skill: Skill, s: Rows, world: World)
  {
    s.record.status == COMPLETED ==>
      s.runs != [] && var run := s.runs[|s.runs| - 1];
      run.status == COMPLETED && IsLeaf(skill.graph.edges, run.node) && world.visits(run.startedAt).outcome == Succeeded
  }

  /** What one iteration that ends the loop adds. */
  lemma LastVisitTraced(skill: Skill, maxNodes: int, r: Rows, node: string, bypass: Option<string>, world: World)
    requires r.record.status == RUNNING && Iterate(skill, maxNodes, r, node, bypass, world).Stop?
    ensures var s := Iterate(skill, maxNodes, r, node, bypass, world).rows;
      && r.runs <= s.runs && Traced(skill, s, world, |r.runs|) && CompletesAtLeaf(skill, s, world)
      && (|s.runs| > |r.runs| ==> s.runs[|r.runs|].node == node)
  {
    var s := Iterate(skill, maxNodes, r, node, bypass, world).rows;
    assert |s.runs| <= |r.runs| + 1;
    if |s.runs| > |r.runs| {
      assert s.runs[|r.runs|].startedAt == r.clock && node in NodeIds(skill.graph);
      assert RanPermitted(skill, s, world, |r.runs|);
    }
  }

  lemma GoingVisitTraced(skill: Skill, maxNodes: int, r: Rows, node: string, bypass: Option<string>, world: World)
    requires Iterate(skill, maxNodes, r, node, bypass, world).Go?
    ensures var next := Iterate(skill, maxNodes, r, node, bypass, world); var v := world.visits(r.clock);
      && next.rows.runs == r.runs + [NodeRun(node, COMPLETED, r.clock)] && next.rows.record.status == r.record.status
      && RanPermitted(skill, next.rows, world, |r.runs|) && v.outcome == Succeeded && AFTER_NODE !in v.faults
      && Takes(skill.graph.edges, node, v.holds, next.node)
  {
    var next := Iterate(skill, maxNodes, r, node, bypass, world);
    assert node in NodeIds(skill.graph);
    RouteTakes(skill.graph.edges, node, world.visits(r.clock).holds, next.node);
  }

  /**
   * Every run of a loop is of a node that was permitted then; each next one is where the edge taken leads; and the
   * execution completes only at a leaf.
   */
  lemma {:induction false} RunsFollowTheGraph(skill: Skill, maxNodes: int, r: Rows, node: string,
                                              bypass: Option<string>, world: World)
    requires r.record.status == RUNNING
    ensures var s := Loop(skill, maxNodes, r, node, bypass, world);
      && r.runs <= s.runs && Traced(skill, s, world, |r.runs|) && CompletesAtLeaf(skill, s, world)
      && (|s.runs| > |r.runs| ==> s.runs[|r.runs|].node == node)
    decreases maxNodes - |r.runs|
  {
    match Iterate(skill, maxNodes, r, node, bypass, world)
    case Stop(_) =>
      LastVisitTraced(skill, maxNodes, r, node, bypass, world);
    case Go(rows, next) =>
      GoingVisitTraced(skill, maxNodes, r, node, bypass, world);
      RunsFollowTheGraph(skill, maxNodes, rows, next, None, world);
      var s := Loop(skill, maxNodes, rows, next, None, world);
      assert s.runs[|r.runs|] == rows.runs[|r.runs|];
      assert RanPermitted(skill, s, world, |r.runs|);
      assert |s.runs| > |rows.runs| ==> WentOn(skill, s, world, |r.runs|);
  }

  // ---- Progress on plans ----

  /** The bundle is found, audit entries are written, and every visit is permitted, succeeds and meets no fault. */
  ghost predicate Smooth(world: World)
  {
    && world.bundleFound && world.audited
    && forall t :: world.visits(t).permitted && world.visits(t).outcome == Succeeded && world.visits(t).faults == {}
  }

  ghost predicate SomeBranchHolds(edges: seq<Edge>, node: string, holds: Branch -> bool)
  {
    exists e :: e in edges && e.source == node && e.branch.Some? && holds(e.branch.value)
  }

  /** At every decision of the graph some branch holds, whenever it is made. */
  ghost predicate Decides(g: Graph, world: World)
  {
    forall t, e :: e in g.edges && e.branch.Some? ==> SomeBranchHolds(g.edges, e.source, world.visits(t).holds)
  }

  /** Every target in a plan is a node, so it has a name. */
  lemma TargetIsNamed(steps: seq<RunbookStep>, compiled: seq<CompiledStep>, e: Edge)
    requires compiled != [] && e in PlanOf(steps, compiled).edges
    ensures e.target != ""
  {
    var g := PlanOf(steps, compiled);
    EdgesBeforeMembers(IndexSteps(steps), g.nodes, |g.nodes|);
    var j: nat, i: nat :| 0 < i < |g.nodes| && Joins(IndexSteps(steps), g.nodes, e, j, i);
    assert e.target[0] == 'n';
  }

  /** Unmixed outgoing edges with named targets route somewhere, if at a decision some branch holds. */
  lemma UnmixedRoutes(edges: seq<Edge>, node: string, holds: Branch -> bool)
    requires var out := Outgoing(edges, node); out != [] && Unmixed(out) && forall e :: e in out ==> e.target != ""
    requires (forall e :: e in Outgoing(edges, node) ==> e.branch.Some?) ==> SomeBranchHolds(edges, node, holds)
    ensures Truthy(Route(Outgoing(edges, node), holds))
  {
    var out := Outgoing(edges, node);
    FirstHoldingIsEdge(out, holds);
    if forall e :: e in out ==> e.branch.Some? {
      var f :| f in edges && f.source == node && f.branch.Some? && holds(f.branch.value);
      assert f in out;
    } else {
      assert FirstDefault(out) == Some(out[0].target);
    }
  }

  /** A step of a plan is a leaf or has an edge to take. */
  lemma SomeEdgeIsTaken(steps: seq<RunbookStep>, compiled: seq<CompiledStep>, i: nat, world: World, t: nat)
    requires i < |compiled| && DistinctSteps(compiled) && Described(steps)
    requires Decides(PlanOf(steps, compiled), world)
    ensures var g := PlanOf(steps, compiled);
      IsLeaf(g.edges, g.nodes[i].id) || exists to :: Takes(g.edges, g.nodes[i].id, world.visits(t).holds, to)
  {
    var g := PlanOf(steps, compiled);
    var node, holds := g.nodes[i].id, world.visits(t).holds;
    var out := Outgoing(g.edges, node);
    PlanIsUnmixed(steps, compiled, i);
    forall e | e in out
      ensures e.target != ""
    {
      TargetIsNamed(steps, compiled, e);
    }
    if out != [] {
      assert out[0] in out;
      UnmixedRoutes(g.edges, node, holds);
      RouteTakes(g.edges, node, holds, Route(out, holds).value);
    } else {
      assert forall e :: e in g.edges && e.source == node ==> e in out;
    }
  }

  /** At a step of a plan that is ready, a smooth visit completes the execution or moves on to a later step. */
  lemma SmoothVisit(steps: seq<RunbookStep>, compiled: seq<CompiledStep>, mode: Mode, maxNodes: int, r: Rows,
                    p: seq<nat>, i: nat, bypass: Option<string>, world: World)
    returns (j: nat)
    requires i < |compiled| <= maxNodes && DistinctSteps(compiled) && Described(steps)
    requires Smooth(world) && Decides(PlanOf(steps, compiled), world)
    requires var g := PlanOf(steps, compiled);
      Ready(g, r, p, i) && (mode == AUTO || bypass == Some(g.nodes[i].id))
    ensures var g := PlanOf(steps, compiled);
      match Iterate(Skill(g, mode), maxNodes, r, g.nodes[i].id, bypass, world)
      case Stop(rows) => rows.record.status == COMPLETED
      case Go(rows, next) =>
        && i < j < |compiled| && next == g.nodes[j].id && Ready(g, rows, p + [i], j) && rows.approvals == r.approvals
  {
    var g := PlanOf(steps, compiled);
    NoStructuralFailure(steps, compiled, maxNodes, r, p, i);
    assert Clear(Skill(g, mode), maxNodes, r, g.nodes[i].id, bypass, world.visits(r.clock));
    SucceedingVisit(Skill(g, mode), maxNodes, r, g.nodes[i].id, bypass, world);
    SomeEdgeIsTaken(steps, compiled, i, world, r.clock);
    j := 0;
    if Iterate(Skill(g, mode), maxNodes, r, g.nodes[i].id, bypass, world).Go? {
      j := GoOnPlan(steps, compiled, mode, maxNodes, r, p, i, bypass, world);
    }
  }

  lemma {:induction false} SmoothLoop(steps: seq<RunbookStep>, compiled: seq<CompiledStep>, maxNodes: int, r: Rows,
                                      p: seq<nat>, i: nat, world: World)
    requires i < |compiled| <= maxNodes && DistinctSteps(compiled) && Described(steps)
    requires Smooth(world) && Decides(PlanOf(steps, compiled), world) && Ready(PlanOf(steps, compiled), r, p, i)
    ensures var g := PlanOf(steps, compiled);
      Loop(Skill(g, AUTO), maxNodes, r, g.nodes[i].id, None, world).record.status == COMPLETED
    decreases |compiled| - i
  {
    var g := PlanOf(steps, compiled);
    var j := SmoothVisit(steps, compiled, AUTO, maxNodes, r, p, i, None, world);
    var next := Iterate(Skill(g, AUTO), maxNodes, r, g.nodes[i].id, None, world);
    if next.Go? {
      SmoothLoop(steps, compiled, maxNodes, next.rows, p + [i], j, world);
    }
  }

  lemma BegunIsReady(steps: seq<RunbookStep>, compiled: seq<CompiledStep>, mode: Mode, r: Rows)
    requires compiled != []
    ensures var g := PlanOf(steps, compiled);
      Truthy(g.entry) && g.entry == Some(g.nodes[0].id) && Ready(g, Begun(Skill(g, mode), Cleared(r)), [], 0)
  {
    assert PlanOf(steps, compiled).entry.value[0] == 'n';
  }

  /** Under AUTO a smooth attempt at a plan completes, at a leaf. */
  lemma SmoothAttemptCompletes(steps: seq<RunbookStep>, compiled: seq<CompiledStep>, maxNodes: int, r: Rows,
                               world: World)
    requires 0 < |compiled| <= maxNodes && DistinctSteps(compiled) && Described(steps)
    requires Smooth(world) && Decides(PlanOf(steps, compiled), world)
    ensures var g := PlanOf(steps, compiled); var s := After(Skill(g, AUTO), maxNodes, r, Begin(world));
      s.record.status == COMPLETED && s.runs != [] && IsLeaf(g.edges, s.runs[|s.runs| - 1].node)
  {
    var g := PlanOf(steps, compiled);
    var s := Begun(Skill(g, AUTO), Cleared(r));
    BegunIsReady(steps, compiled, AUTO, r);
    SmoothLoop(steps, compiled, maxNodes, s, [], 0, world);
    RunsFollowTheGraph(Skill(g, AUTO), maxNodes, s, g.nodes[0].id, None, world);
  }

  // ---- Progress through approvals ----

  /** Paused at step `i`, with its approval outstanding. */
  ghost predicate PausedAt(g: Graph, r: Rows, p: seq<nat>, i: nat)
  {
    && Ready(g, r, p, i) && AwaitsDecision(r)
    && r.record.cursor == Some(g.nodes[i].id) && Awaited(r) == Some(g.nodes[i].id)
  }

  /** Without a bypass the loop pauses at once. */
  lemma LoopPauses(steps: seq<RunbookStep>, compiled: seq<CompiledStep>, maxNodes: int, r: Rows, p: seq<nat>, i: nat,
                   world: World)
    requires i < |compiled| <= maxNodes && Smooth(world) && Ready(PlanOf(steps, compiled), r, p, i)
    ensures var g := PlanOf(steps, compiled);
      PausedAt(g, Loop(Skill(g, HUMAN_IN_LOOP), maxNodes, r, g.nodes[i].id, None, world), p, i)
  {
    NoStructuralFailure(steps, compiled, maxNodes, r, p, i);
  }

  /** An approval runs its step and then completes the execution or pauses at a later step. */
  lemma ApprovalMovesOn(steps: seq<RunbookStep>, compiled: seq<CompiledStep>, maxNodes: int, r: Rows, p: seq<nat>,
                        i: nat, world: World)
    returns (j: nat)
    requires i < |compiled| <= maxNodes && DistinctSteps(compiled) && Described(steps)
    requires Smooth(world) && Decides(PlanOf(steps, compiled), world) && PausedAt(PlanOf(steps, compiled), r, p, i)
    ensures var g := PlanOf(steps, compiled);
      var s := After(Skill(g, HUMAN_IN_LOOP), maxNodes, r, Resume(APPROVED, world));
      s.record.status == COMPLETED || (i < j < |compiled| && PausedAt(g, s, p + [i], j))
  {
    var g := PlanOf(steps, compiled);
    var skill, node := Skill(g, HUMAN_IN_LOOP), g.nodes[i].id;
    var decided := Decide(r, APPROVED);
    assert Ready(g, decided, p, i);
    j := SmoothVisit(steps, compiled, HUMAN_IN_LOOP, maxNodes, decided, p, i, Some(node), world);
    var next := Iterate(skill, maxNodes, decided, node, Some(node), world);
    if next.Go? {
      LoopPauses(steps, compiled, maxNodes, next.rows, p + [i], j, world);
    }
  }

  ghost function ApprovedTimes(skill: Skill, maxNodes: int, r: Rows, world: World, n: nat): Rows
    decreases n
  {
    if n == 0 then r
    else ApprovedTimes(skill, maxNodes, After(skill, maxNodes, r, Resume(APPROVED, world)), world, n - 1)
  }

  ghost predicate CompletesAfter(skill: Skill, maxNodes: int, r: Rows, world: World, n: nat)
  {
    ApprovedTimes(skill, maxNodes, r, world, n).record.status == COMPLETED
  }

  lemma OneMoreApproval(skill: Skill, maxNodes: int, r: Rows, world: World, m: nat)
    requires CompletesAfter(skill, maxNodes, After(skill, maxNodes, r, Resume(APPROVED, world)), world, m)
    ensures CompletesAfter(skill, maxNodes, r, world, m + 1)
  {
  }

  /** Under HUMAN_IN_LOOP an execution paused on a plan completes after as many approvals as it passes steps. */
  lemma {:induction false} ApprovalsComplete(steps: seq<RunbookStep>, compiled: seq<CompiledStep>, maxNodes: int,
                                             r: Rows, p: seq<nat>, i: nat, world: World)
    returns (n: nat)
    requires i < |compiled| <= maxNodes && DistinctSteps(compiled) && Described(steps)
    requires Smooth(world) && Decides(PlanOf(steps, compiled), world) && PausedAt(PlanOf(steps, compiled), r, p, i)
    ensures n <= |compiled| - i
    ensures CompletesAfter(Skill(PlanOf(steps, compiled), HUMAN_IN_LOOP), maxNodes, r, world, n)
    decreases |compiled| - i, 1
  {
    var skill := Skill(PlanOf(steps, compiled), HUMAN_IN_LOOP);
    var j := ApprovalMovesOn(steps, compiled, maxNodes, r, p, i, world);
    var s := After(skill, maxNodes, r, Resume(APPROVED, world));
    if s.record.status == COMPLETED {
      assert CompletesAfter(skill, maxNodes, s, world, 0);
      OneMoreApproval(skill, maxNodes, r, world, 0);
      n := 1;
    } else {
      n := LaterApprovals(steps, compiled, maxNodes, r, s, p, i, j, world);
    }
  }

  lemma {:induction false} LaterApprovals(steps: seq<RunbookStep>, compiled: seq<CompiledStep>, maxNodes: int, r: Rows,
                                          s: Rows, p: seq<nat>, i: nat, j: nat, world: World)
    returns (n: nat)
    requires i < j < |compiled| <= maxNodes && DistinctSteps(compiled) && Described(steps)
    requires Smooth(world) && Decides(PlanOf(steps, compiled), world)
    requires PausedAt(PlanOf(steps, compiled), s, p + [i], j)
    requires s == After(Skill(PlanOf(steps, compiled), HUMAN_IN_LOOP), maxNodes, r, Resume(APPROVED, world))
    ensures n <= |compiled| - i
    ensures CompletesAfter(Skill(PlanOf(steps, compiled), HUMAN_IN_LOOP), maxNodes, r, world, n)
    decreases |compiled| - i, 0
  {
    var m := ApprovalsComplete(steps, compiled, maxNodes, s, p + [i], j, world);
    OneMoreApproval(Skill(PlanOf(steps, compiled), HUMAN_IN_LOOP), maxNodes, r, world, m);
    n := m + 1;
  }

  /** From its beginning: after at most as many approvals as the plan has steps. */
  lemma SmoothApprovalsComplete(steps: seq<RunbookStep>, compiled: seq<CompiledStep>, maxNodes: int, r: Rows,
                                world: World)
    returns (n: nat)
    requires 0 < |compiled| <= maxNodes && DistinctSteps(compiled) && Described(steps)
    requires Smooth(world) && Decides(PlanOf(steps, compiled), world)
    ensures var skill := Skill(PlanOf(steps, compiled), HUMAN_IN_LOOP);
      n <= |compiled| && CompletesAfter(skill, maxNodes, After(skill, maxNodes, r, Begin(world)), world, n)
  {
    var g := PlanOf(steps, compiled);
    var s := Begun(Skill(g, HUMAN_IN_LOOP), Cleared(r));
    BegunIsReady(steps, compiled, HUMAN_IN_LOOP, r);
    LoopPauses(steps, compiled, maxNodes, s, [], 0, world);
    n := ApprovalsComplete(steps, compiled, maxNodes, After(Skill(g, HUMAN_IN_LOOP), maxNodes, r, Begin(world)), [], 0,
                           world);
  }
}
