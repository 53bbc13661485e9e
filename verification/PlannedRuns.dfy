/**
 * Executing planned graphs: what the planner's structure (app/planner/planner.py) gives the
 * engine's loop (app/runtime/engine.py).
 */
module PlannedRuns {
  import opened Wrappers
  import opened ExecutionGraph
  import opened Planner
  import opened PlanShape
  import opened ExecutionEngine
  import opened ExecutionHistory

  /** Step `p[k]` is the step of run `k`. */
  ghost predicate Visits(nodes: seq<Node>, runs: seq<NodeRun>, p: seq<nat>)
  {
    && |p| == |runs|
    && (forall k :: 0 <= k < |p| ==> p[k] < |nodes| && runs[k].node == nodes[p[k]].id)
  }

  /** The runs follow edges of the graph, from its entry, through ever later steps. */
  ghost predicate Ascends(g: Graph, runs: seq<NodeRun>, p: seq<nat>)
  {
    && Visits(g.nodes, runs, p)
    && (|p| > 0 ==> p[0] == 0)
    && (forall k :: 0 < k < |p| ==> p[k - 1] < p[k])
    && (forall k :: 0 < k < |runs| ==> HasEdge(g.edges, runs[k - 1].node, runs[k].node))
  }

  ghost predicate AllCompleted(runs: seq<NodeRun>)
  {
    forall k :: 0 <= k < |runs| ==> runs[k].status == COMPLETED
  }

  /** Neither the depth limit nor a missing node: a runtime error is an exception from outside the loop. */
  ghost predicate OnlyExceptionsRaise(r: Rows)
  {
    r.record.note == NOTHING || r.record.note == EXCEPTION
  }

  /** A completed run has executed a last step of the plan, unless its rows were cleared since. */
  ghost predicate EndsAtLeaf(flags: seq<bool>, r: Rows, p: seq<nat>)
  {
    r.record.status == COMPLETED && p != [] ==> AllCompleted(r.runs) && InFinalBlock(flags, p[|p| - 1])
  }

  /** Step `i` may run next: it continues the path. */
  ghost predicate Ready(g: Graph, r: Rows, p: seq<nat>, i: nat)
  {
    && i < |g.nodes| && Ascends(g, r.runs, p) && AllCompleted(r.runs)
    && r.record.status == RUNNING && r.record.note == NOTHING
    && if |p| == 0 then i == 0 else p[|p| - 1] < i && HasEdge(g.edges, r.runs[|p| - 1].node, g.nodes[i].id)
  }

  /** While paused, the cursor is at the step to run next. */
  ghost predicate PausedOnPath(g: Graph, r: Rows, p: seq<nat>)
  {
    Resumable(r) ==> exists i: nat :: Ready(g, r, p, i) && r.record.cursor == Some(g.nodes[i].id)
  }

  ghost predicate OnPlan(g: Graph, flags: seq<bool>, r: Rows, p: seq<nat>)
  {
    Ascends(g, r.runs, p) && OnlyExceptionsRaise(r) && EndsAtLeaf(flags, r, p) && PausedOnPath(g, r, p)
  }

  /** Strictly increasing indices leave room below the number of steps. */
  lemma {:induction false} AscentIsShort(p: seq<nat>, i: nat)
    requires forall k :: 0 < k < |p| ==> p[k - 1] < p[k]
    requires |p| > 0 ==> p[|p| - 1] < i
    ensures |p| <= i
    decreases |p|
  {
    if |p| > 1 {
      var q := p[..|p| - 1];
      assert forall k :: 0 <= k < |q| ==> q[k] == p[k];
      AscentIsShort(q, p[|p| - 1]);
    }
  }

  /** An edge leaving step `i` leads to a later step. */
  lemma EdgeGoesForward(steps: seq<RunbookStep>, compiled: seq<CompiledStep>, i: nat, e: Edge) returns (j: nat)
    requires i < |compiled| && DistinctSteps(compiled)
    requires var g := PlanOf(steps, compiled); e in g.edges && e.source == g.nodes[i].id
    ensures i < j < |compiled| && e.target == PlanOf(steps, compiled).nodes[j].id
  {
    var g := PlanOf(steps, compiled);
    EdgesBeforeMembers(IndexSteps(steps), g.nodes, |g.nodes|);
    var j': nat, i': nat :| 0 < i' < |g.nodes| && Joins(IndexSteps(steps), g.nodes, e, j', i');
    j := i';
    DistinctNodes(compiled);
  }

  lemma ExtendPath(g: Graph, r: Rows, p: seq<nat>, i: nat, run: NodeRun)
    requires Ready(g, r, p, i) && run.node == g.nodes[i].id
    ensures Ascends(g, r.runs + [run], p + [i])
  {
    var runs, q := r.runs + [run], p + [i];
    forall k | 0 < k < |runs|
      ensures HasEdge(g.edges, runs[k - 1].node, runs[k].node)
    {
      assert k < |r.runs| ==> runs[k - 1] == r.runs[k - 1] && runs[k] == r.runs[k];
    }
  }

  /** At step `i` of a plan the loop neither hits the depth limit nor misses the node. */
  lemma NoStructuralFailure(steps: seq<RunbookStep>, compiled: seq<CompiledStep>, maxNodes: int, r: Rows,
                            p: seq<nat>, i: nat)
    requires i < |compiled| <= maxNodes
    requires Ready(PlanOf(steps, compiled), r, p, i)
    ensures var g := PlanOf(steps, compiled);
      |r.runs| < maxNodes && g.nodes[i].id in NodeIds(g)
  {
    var g := PlanOf(steps, compiled);
    AscentIsShort(p, i);
    assert g.nodes[i] in g.nodes;
  }

  /** The loop stopped at `node` without running it: paused there, or failed. */
  ghost predicate StoppedBefore(r: Rows, rows: Rows, node: string)
  {
    && rows.runs == r.runs
    && (rows.record.status == RUNNING ==> rows.record.cursor == Some(node) && rows.record.note == NOTHING)
    && rows.record.status != COMPLETED && OnlyExceptionsRaise(rows)
  }

  /** The loop stopped after running `node`. */
  ghost predicate StoppedAfter(g: Graph, r: Rows, rows: Rows, node: string)
  {
    && rows.record.status != RUNNING && OnlyExceptionsRaise(rows)
    && exists status ::
         && rows.runs == r.runs + [NodeRun(node, status, r.clock)]
         && (rows.record.status == COMPLETED ==> status == COMPLETED && Outgoing(g.edges, node) == [])
  }

  lemma StopCases(skill: Skill, maxNodes: int, r: Rows, node: string, bypass: Option<string>, world: World)
    requires |r.runs| < maxNodes && node in NodeIds(skill.graph)
    requires r.record.status == RUNNING && r.record.note == NOTHING
    ensures var next := Iterate(skill, maxNodes, r, node, bypass, world);
      next.Stop? ==> StoppedBefore(r, next.rows, node) || StoppedAfter(skill.graph, r, next.rows, node)
  {
    var next := Iterate(skill, maxNodes, r, node, bypass, world);
    if next.Stop? && next.rows.runs != r.runs {
      var status := next.rows.runs[|r.runs|].status;
      assert next.rows.runs == r.runs + [NodeRun(node, status, r.clock)];
    }
  }

  /** Where the loop stops at step `i` of a plan: before running it, or after. */
  lemma StopOnPlan(steps: seq<RunbookStep>, compiled: seq<CompiledStep>, r: Rows, rows: Rows, p: seq<nat>, i: nat)
    returns (q: seq<nat>)
    requires i < |compiled| && DistinctSteps(compiled)
    requires var g := PlanOf(steps, compiled);
      Ready(g, r, p, i) && (StoppedBefore(r, rows, g.nodes[i].id) || StoppedAfter(g, r, rows, g.nodes[i].id))
    ensures var g := PlanOf(steps, compiled);
      OnPlan(g, Flags(IndexSteps(steps), g.nodes), rows, q)
  {
    var g := PlanOf(steps, compiled);
    if StoppedBefore(r, rows, g.nodes[i].id) {
      q := p;
      assert rows.record.status == RUNNING ==> Ready(g, rows, p, i);
    } else {
      q := p + [i];
      ExtendPath(g, r, p, i, rows.runs[|r.runs|]);
      PlanLeaves(steps, compiled, i);
    }
  }

  lemma EndOnPlan(steps: seq<RunbookStep>, compiled: seq<CompiledStep>, mode: Mode, maxNodes: int, r: Rows,
                  p: seq<nat>, i: nat, bypass: Option<string>, world: World)
    returns (q: seq<nat>)
    requires i < |compiled| <= maxNodes && DistinctSteps(compiled)
    requires var g := PlanOf(steps, compiled);
      Ready(g, r, p, i) && Iterate(Skill(g, mode), maxNodes, r, g.nodes[i].id, bypass, world).Stop?
    ensures var g := PlanOf(steps, compiled);
      OnPlan(g, Flags(IndexSteps(steps), g.nodes),
             Iterate(Skill(g, mode), maxNodes, r, g.nodes[i].id, bypass, world).rows, q)
  {
    var g := PlanOf(steps, compiled);
    NoStructuralFailure(steps, compiled, maxNodes, r, p, i);
    StopCases(Skill(g, mode), maxNodes, r, g.nodes[i].id, bypass, world);
    q := StopOnPlan(steps, compiled, r, Iterate(Skill(g, mode), maxNodes, r, g.nodes[i].id, bypass, world).rows, p, i);
  }

  /** Where the loop goes on from step `i` of a plan. */
  lemma GoOnPlan(steps: seq<RunbookStep>, compiled: seq<CompiledStep>, mode: Mode, maxNodes: int, r: Rows,
                 p: seq<nat>, i: nat, bypass: Option<string>, world: World)
    returns (j: nat)
    requires i < |compiled| && DistinctSteps(compiled)
    requires Ready(PlanOf(steps, compiled), r, p, i)
    requires var g := PlanOf(steps, compiled);
      Iterate(Skill(g, mode), maxNodes, r, g.nodes[i].id, bypass, world).Go?
    ensures var g := PlanOf(steps, compiled);
      var next := Iterate(Skill(g, mode), maxNodes, r, g.nodes[i].id, bypass, world);
      && i < j < |compiled| && next.node == g.nodes[j].id && Ready(g, next.rows, p + [i], j)
      && next.rows.approvals == r.approvals
  {
    var g := PlanOf(steps, compiled);
    var next := Iterate(Skill(g, mode), maxNodes, r, g.nodes[i].id, bypass, world);
    var out := Outgoing(g.edges, g.nodes[i].id);
    RouteIsEdge(out, world.visits(r.clock).holds);
    var e :| e in out && e.target == next.node;
    j := EdgeGoesForward(steps, compiled, i, e);
    ExtendPath(g, r, p, i, NodeRun(g.nodes[i].id, COMPLETED, r.clock));
    assert HasEdge(g.edges, g.nodes[i].id, g.nodes[j].id);
  }

  /** Where the loop is cut off at step `i` of a plan. */
  lemma CutOnPlan(steps: seq<RunbookStep>, compiled: seq<CompiledStep>, mode: Mode, maxNodes: int, r: Rows,
                  p: seq<nat>, i: nat, bypass: Option<string>, world: World, cut: Cut)
    returns (q: seq<nat>)
    requires i < |compiled| && DistinctSteps(compiled) && !AwaitsDecision(r)
    requires Ready(PlanOf(steps, compiled), r, p, i)
    ensures var g := PlanOf(steps, compiled);
      OnPlan(g, Flags(IndexSteps(steps), g.nodes),
             CutAt(Skill(g, mode), maxNodes, r, g.nodes[i].id, bypass, world, cut), q)
  {
    var g := PlanOf(steps, compiled);
    var s := CutAt(Skill(g, mode), maxNodes, r, g.nodes[i].id, bypass, world, cut);
    q := p;
    if s.runs != r.runs {
      q := p + [i];
      assert s.runs == r.runs + [NodeRun(g.nodes[i].id, cut.status, r.clock)];
      ExtendPath(g, r, p, i, s.runs[|r.runs|]);
    }
  }

  /** The last iteration of the loop, at step `i` of a plan. */
  lemma LastOnPlan(steps: seq<RunbookStep>, compiled: seq<CompiledStep>, mode: Mode, maxNodes: int, r: Rows,
                   p: seq<nat>, i: nat, bypass: Option<string>, world: World, n: nat, cut: Cut)
    returns (q: seq<nat>)
    requires i < |compiled| <= maxNodes && DistinctSteps(compiled) && !AwaitsDecision(r)
    requires var g := PlanOf(steps, compiled);
      Ready(g, r, p, i) && (n > 0 ==> Iterate(Skill(g, mode), maxNodes, r, g.nodes[i].id, bypass, world).Stop?)
    ensures var g := PlanOf(steps, compiled);
      OnPlan(g, Flags(IndexSteps(steps), g.nodes),
             CutLoop(Skill(g, mode), maxNodes, r, g.nodes[i].id, bypass, world, n, cut), q)
  {
    if n == 0 {
      q := CutOnPlan(steps, compiled, mode, maxNodes, r, p, i, bypass, world, cut);
    } else {
      q := EndOnPlan(steps, compiled, mode, maxNodes, r, p, i, bypass, world);
    }
  }

  /** The loop, cut off after `n` iterations, leaves rows on path `q`. */
  ghost predicate KeepsToPlan(g: Graph, flags: seq<bool>, skill: Skill, maxNodes: int, r: Rows, node: string,
                              bypass: Option<string>, world: World, n: nat, cut: Cut, q: seq<nat>)
  {
    OnPlan(g, flags, CutLoop(skill, maxNodes, r, node, bypass, world, n, cut), q)
  }

  lemma OneMoreVisit(g: Graph, flags: seq<bool>, skill: Skill, maxNodes: int, r: Rows, node: string,
                     bypass: Option<string>, rows: Rows, next: string, world: World, n: nat, cut: Cut, q: seq<nat>)
    requires n > 0 && Iterate(skill, maxNodes, r, node, bypass, world) == Go(rows, next)
    requires KeepsToPlan(g, flags, skill, maxNodes, rows, next, None, world, n - 1, cut, q)
    ensures KeepsToPlan(g, flags, skill, maxNodes, r, node, bypass, world, n, cut, q)
  {
  }

  /** One run of the loop, ended or cut off anywhere, extends the path. */
  lemma {:induction false} LoopOnPlan(steps: seq<RunbookStep>, compiled: seq<CompiledStep>, mode: Mode, maxNodes: int,
                                      r: Rows, p: seq<nat>, i: nat, bypass: Option<string>, world: World,
                                      n: nat, cut: Cut)
    returns (q: seq<nat>)
    requires i < |compiled| <= maxNodes && DistinctSteps(compiled) && !AwaitsDecision(r)
    requires Ready(PlanOf(steps, compiled), r, p, i)
    ensures var g := PlanOf(steps, compiled);
      KeepsToPlan(g, Flags(IndexSteps(steps), g.nodes), Skill(g, mode), maxNodes, r, g.nodes[i].id, bypass, world,
                  n, cut, q)
    decreases n, 1
  {
    var g := PlanOf(steps, compiled);
    var next := Iterate(Skill(g, mode), maxNodes, r, g.nodes[i].id, bypass, world);
    if n > 0 && next.Go? {
      var j := GoOnPlan(steps, compiled, mode, maxNodes, r, p, i, bypass, world);
      q := LoopGoesOnPlan(steps, compiled, mode, maxNodes, r, p, i, bypass, next.rows, j, world, n, cut);
    } else {
      q := LastOnPlan(steps, compiled, mode, maxNodes, r, p, i, bypass, world, n, cut);
    }
  }

  lemma {:induction false} LoopGoesOnPlan(steps: seq<RunbookStep>, compiled: seq<CompiledStep>, mode: Mode,
                                          maxNodes: int, r: Rows, p: seq<nat>, i: nat, bypass: Option<string>,
                                          rows: Rows, j: nat, world: World, n: nat, cut: Cut)
    returns (q: seq<nat>)
    requires i < j < |compiled| <= maxNodes && DistinctSteps(compiled) && !AwaitsDecision(rows) && n > 0
    requires var g := PlanOf(steps, compiled);
      && Iterate(Skill(g, mode), maxNodes, r, g.nodes[i].id, bypass, world) == Go(rows, g.nodes[j].id)
      && Ready(g, rows, p + [i], j)
    ensures var g := PlanOf(steps, compiled);
      KeepsToPlan(g, Flags(IndexSteps(steps), g.nodes), Skill(g, mode), maxNodes, r, g.nodes[i].id, bypass, world,
                  n, cut, q)
    decreases n, 0
  {
    var g := PlanOf(steps, compiled);
    q := LoopOnPlan(steps, compiled, mode, maxNodes, rows, p + [i], j, None, world, n - 1, cut);
    OneMoreVisit(g, Flags(IndexSteps(steps), g.nodes), Skill(g, mode), maxNodes, r, g.nodes[i].id, bypass,
                 rows, g.nodes[j].id, world, n, cut, q);
  }

  lemma BeginOnPlan(steps: seq<RunbookStep>, compiled: seq<CompiledStep>, mode: Mode, maxNodes: int, r: Rows,
                    world: World, n: nat, cut: Cut)
    returns (p: seq<nat>)
    requires 0 < |compiled| <= maxNodes && DistinctSteps(compiled) && OnlyExceptionsRaise(r)
    ensures var g := PlanOf(steps, compiled);
      OnPlan(g, Flags(IndexSteps(steps), g.nodes),
             After(Skill(g, mode), maxNodes, r, DiedBeginning(world, n, cut)), p)
  {
    var g := PlanOf(steps, compiled);
    assert g.entry.value[0] == 'n';
    p := [];
    if world.bundleFound && world.audited {
      var s := Begun(Skill(g, mode), Cleared(r));
      assert Ready(g, s, [], 0);
      p := LoopOnPlan(steps, compiled, mode, maxNodes, s, [], 0, None, world, n, cut);
    }
  }

  /** An approved step is ready to run. */
  lemma ApproveOnPlan(steps: seq<RunbookStep>, compiled: seq<CompiledStep>, mode: Mode, maxNodes: int, r: Rows,
                      p: seq<nat>, world: World, n: nat, cut: Cut)
    returns (q: seq<nat>)
    requires 0 < |compiled| <= maxNodes && DistinctSteps(compiled) && Resumable(r)
    requires var g := PlanOf(steps, compiled); OnPlan(g, Flags(IndexSteps(steps), g.nodes), r, p)
    ensures var g := PlanOf(steps, compiled);
      r.record.cursor.Some? && OnPlan(g, Flags(IndexSteps(steps), g.nodes),
        After(Skill(g, mode), maxNodes, r, DiedResuming(APPROVED, world, n, cut)), q)
  {
    var g := PlanOf(steps, compiled);
    var i: nat :| Ready(g, r, p, i) && r.record.cursor == Some(g.nodes[i].id);
    assert Ready(g, Decide(r, APPROVED), p, i);
    q := p;
    if world.bundleFound && world.audited {
      q := LoopOnPlan(steps, compiled, mode, maxNodes, Decide(r, APPROVED), p, i, Awaited(r), world, n, cut);
    }
  }

  lemma ResumeOnPlan(steps: seq<RunbookStep>, compiled: seq<CompiledStep>, mode: Mode, maxNodes: int, r: Rows,
                     p: seq<nat>, e: Event)
    returns (q: seq<nat>)
    requires 0 < |compiled| <= maxNodes && DistinctSteps(compiled) && (e.Resume? || e.DiedResuming?)
    requires var g := PlanOf(steps, compiled); OnPlan(g, Flags(IndexSteps(steps), g.nodes), r, p)
    ensures var g := PlanOf(steps, compiled);
      OnPlan(g, Flags(IndexSteps(steps), g.nodes), After(Skill(g, mode), maxNodes, r, e), q)
  {
    q := p;
    if Resumable(r) && e.verdict == APPROVED {
      if e.Resume? {
        q := ApproveOnPlan(steps, compiled, mode, maxNodes, r, p, e.world, Limit(maxNodes) + 1, AtNode);
        WholeApproval(Skill(PlanOf(steps, compiled), mode), maxNodes, r, e.world);
      } else {
        q := ApproveOnPlan(steps, compiled, mode, maxNodes, r, p, e.world, e.n, e.cut);
      }
    }
  }

  lemma EventOnPlan(steps: seq<RunbookStep>, compiled: seq<CompiledStep>, mode: Mode, maxNodes: int, r: Rows,
                    p: seq<nat>, e: Event)
    returns (q: seq<nat>)
    requires 0 < |compiled| <= maxNodes && DistinctSteps(compiled)
    requires var g := PlanOf(steps, compiled); OnPlan(g, Flags(IndexSteps(steps), g.nodes), r, p)
    ensures var g := PlanOf(steps, compiled);
      OnPlan(g, Flags(IndexSteps(steps), g.nodes), After(Skill(g, mode), maxNodes, r, e), q)
  {
    match e
    case Begin(world) =>
      WholeBegin(Skill(PlanOf(steps, compiled), mode), maxNodes, r, world);
      q := BeginOnPlan(steps, compiled, mode, maxNodes, r, world, Limit(maxNodes) + 1, AtNode);
    case Cancel =>
      q := p;
    case DiedClearing =>
      q := [];
    case DiedBeginning(world, n, cut) =>
      q := BeginOnPlan(steps, compiled, mode, maxNodes, r, world, n, cut);
    case _ =>
      q := ResumeOnPlan(steps, compiled, mode, maxNodes, r, p, e);
  }

  /**
   * Every history of a planned graph: runs ascend the plan along its edges, so the depth limit
   * and the missing-node failure never occur, and a completed run ends at a leaf of the plan.
   */
  lemma {:induction false} HistoryOnPlan(steps: seq<RunbookStep>, compiled: seq<CompiledStep>, mode: Mode,
                                         maxNodes: int, events: seq<Event>)
    returns (p: seq<nat>)
    requires 0 < |compiled| <= maxNodes && DistinctSteps(compiled)
    ensures var g := PlanOf(steps, compiled);
      OnPlan(g, Flags(IndexSteps(steps), g.nodes), History(Skill(g, mode), maxNodes, events), p)
  {
    var g := PlanOf(steps, compiled);
    if events == [] {
      p := [];
      assert Ascends(g, [], p);
    } else {
      var front, last := events[..|events| - 1], events[|events| - 1];
      p := HistoryOnPlan(steps, compiled, mode, maxNodes, front);
      p := EventOnPlan(steps, compiled, mode, maxNodes, History(Skill(g, mode), maxNodes, front), p, last);
    }
  }
}
