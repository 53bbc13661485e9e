/**
 * What holds over every history of one execution: begun, paused, resumed, cancelled and begun again by
 * a retry, in any order, with the process dying inside any of them (app/runtime/engine.py, app/jobs/worker.py).
 */
module ExecutionHistory {
  import opened Wrappers
  import opened ExecutionGraph
  import opened ExecutionEngine

  /** Where in its last iteration the loop is cut off: at the node, or with the node run stored as it then was. */
  datatype Cut = AtNode | InNode(status: Status)

  /**
   * A command obeyed whole, or one in which the process dies.  Each meets a world of its own.  `Begin` is a
   * worker's attempt: it clears the node runs and approvals of the attempt before.
   */
  datatype Event =
    | Begin(world: World)
    | Resume(verdict: Verdict, world: World)
    | Cancel
    | DiedClearing
    | DiedBeginning(world: World, n: nat, cut: Cut)
    | DiedResuming(verdict: Verdict, world: World, n: nat, cut: Cut)

  const FRESH := Rows(Record(PENDING, None, None, NOTHING), [], [], 0)

  function Cleared(r: Rows): Rows
  {
    r.(runs := [], approvals := [])
  }

  /** What one iteration has stored when it is cut off; a node run only once the checks before it have passed. */
  ghost function CutAt(skill: Skill, maxNodes: int, r: Rows, node: string, bypass: Option<string>, world: World,
                       cut: Cut): Rows
  {
    var v := world.visits(r.clock);
    if |r.runs| >= maxNodes || node !in NodeIds(skill.graph) then r
    else
      var at := r.(record := r.record.(cursor := Some(node)));
      var runs := BEFORE_NODE !in v.faults && v.permitted
                  && (bypass == Some(node) || EvaluateGate(skill.mode) == CONTINUE);
      if cut.InNode? && runs then AddRun(at, node, cut.status) else at
  }

  /** What the loop has stored when it is cut off after `n` whole iterations, unless it ended before. */
  ghost function CutLoop(skill: Skill, maxNodes: int, r: Rows, node: string, bypass: Option<string>, world: World,
                         n: nat, cut: Cut): Rows
    decreases n
  {
    if n == 0 then CutAt(skill, maxNodes, r, node, bypass, world, cut)
    else
      match Iterate(skill, maxNodes, r, node, bypass, world)
      case Stop(rows) => rows
      case Go(rows, next) => CutLoop(skill, maxNodes, rows, next, None, world, n - 1, cut)
  }

  ghost function CutFromCursor(skill: Skill, maxNodes: int, r: Rows, bypass: Option<string>, world: World,
                               n: nat, cut: Cut): Rows
  {
    match r.record.cursor
    case None => r
    case Some(node) => CutLoop(skill, maxNodes, r, node, bypass, world, n, cut)
  }

  /** The beginning is stored before its audit entry is written. */
  ghost function CutBegin(skill: Skill, maxNodes: int, r: Rows, world: World, n: nat, cut: Cut): Rows
  {
    if !world.bundleFound || !Truthy(skill.graph.entry) then r
    else if !world.audited then Begun(skill, r)
    else CutFromCursor(skill, maxNodes, Begun(skill, r), None, world, n, cut)
  }

  predicate Resumable(r: Rows)
  {
    r.record.status == RUNNING && AwaitsDecision(r)
  }

  function Awaited(r: Rows): Option<string>
    requires AwaitsDecision(r)
  {
    Some(r.approvals[|r.approvals| - 1].node)
  }

  /** The decision is stored before anything else happens. */
  ghost function CutResume(skill: Skill, maxNodes: int, r: Rows, verdict: Verdict, world: World, n: nat, cut: Cut): Rows
  {
    if !Resumable(r) then r
    else if !world.audited || !world.bundleFound || verdict == REJECTED then Decide(r, verdict)
    else CutFromCursor(skill, maxNodes, Decide(r, verdict), Awaited(r), world, n, cut)
  }

  ghost function After(skill: Skill, maxNodes: int, r: Rows, e: Event): Rows
  {
    match e
    case Begin(world) => Started(skill, maxNodes, Cleared(r), world).rows
    case Resume(verdict, world) => Resumed(skill, maxNodes, r, verdict, world).rows
    case Cancel => Cancelled(r).rows
    case DiedClearing => Cleared(r)
    case DiedBeginning(world, n, cut) => CutBegin(skill, maxNodes, Cleared(r), world, n, cut)
    case DiedResuming(verdict, world, n, cut) => CutResume(skill, maxNodes, r, verdict, world, n, cut)
  }

  /** The rows after any events. */
  ghost function History(skill: Skill, maxNodes: int, events: seq<Event>): Rows
  {
    if events == [] then FRESH
    else After(skill, maxNodes, History(skill, maxNodes, events[..|events| - 1]), events[|events| - 1])
  }

  // ---- A whole command is one cut off late ----

  function Limit(maxNodes: int): nat { if maxNodes < 0 then 0 else maxNodes }

  /** The loop ends of itself within the limit, so cutting it off later changes nothing. */
  lemma {:induction false} WholeLoop(skill: Skill, maxNodes: int, r: Rows, node: string, bypass: Option<string>,
                                     world: World, n: nat, cut: Cut)
    requires n > 0 && n > maxNodes - |r.runs|
    ensures CutLoop(skill, maxNodes, r, node, bypass, world, n, cut) == Loop(skill, maxNodes, r, node, bypass, world)
    decreases n
  {
    match Iterate(skill, maxNodes, r, node, bypass, world)
    case Stop(rows) =>
    case Go(rows, next) => WholeLoop(skill, maxNodes, rows, next, None, world, n - 1, cut);
  }

  lemma WholeBegin(skill: Skill, maxNodes: int, r: Rows, world: World)
    ensures After(skill, maxNodes, r, Begin(world))
         == After(skill, maxNodes, r, DiedBeginning(world, Limit(maxNodes) + 1, AtNode))
  {
    if Truthy(skill.graph.entry) {
      WholeLoop(skill, maxNodes, Begun(skill, Cleared(r)), skill.graph.entry.value, None, world,
                Limit(maxNodes) + 1, AtNode);
    }
  }

  lemma WholeApproval(skill: Skill, maxNodes: int, r: Rows, world: World)
    requires Resumable(r) ==> r.record.cursor.Some?
    ensures After(skill, maxNodes, r, Resume(APPROVED, world))
         == After(skill, maxNodes, r, DiedResuming(APPROVED, world, Limit(maxNodes) + 1, AtNode))
  {
    if Resumable(r) {
      WholeLoop(skill, maxNodes, Decide(r, APPROVED), r.record.cursor.value, Awaited(r), world,
                Limit(maxNodes) + 1, AtNode);
    }
  }

  // ---- Depth ----

  lemma IterateDepth(skill: Skill, maxNodes: int, r: Rows, node: string, bypass: Option<string>, world: World)
    requires |r.runs| <= Limit(maxNodes)
    ensures |Iterate(skill, maxNodes, r, node, bypass, world).rows.runs| <= Limit(maxNodes)
  {
  }

  lemma {:induction false} LoopDepth(skill: Skill, maxNodes: int, r: Rows, node: string, bypass: Option<string>,
                                     world: World, n: nat, cut: Cut)
    requires |r.runs| <= Limit(maxNodes)
    ensures |CutLoop(skill, maxNodes, r, node, bypass, world, n, cut).runs| <= Limit(maxNodes)
    decreases n
  {
    if n > 0 {
      IterateDepth(skill, maxNodes, r, node, bypass, world);
      match Iterate(skill, maxNodes, r, node, bypass, world)
      case Stop(rows) =>
      case Go(rows, next) => LoopDepth(skill, maxNodes, rows, next, None, world, n - 1, cut);
    }
  }

  lemma EventDepth(skill: Skill, maxNodes: int, r: Rows, e: Event)
    requires |r.runs| <= Limit(maxNodes)
    ensures |After(skill, maxNodes, r, e).runs| <= Limit(maxNodes)
    decreases e.Begin? || e.Resume?
  {
    match e
    case Begin(world) =>
      WholeBegin(skill, maxNodes, r, world);
      EventDepth(skill, maxNodes, r, DiedBeginning(world, Limit(maxNodes) + 1, AtNode));
    case Resume(verdict, world) =>
      if r.record.cursor.Some? && verdict == APPROVED {
        WholeApproval(skill, maxNodes, r, world);
        EventDepth(skill, maxNodes, r, DiedResuming(verdict, world, Limit(maxNodes) + 1, AtNode));
      }
    case Cancel =>
    case DiedClearing =>
    case DiedBeginning(world, n, cut) =>
      if Truthy(skill.graph.entry) {
        LoopDepth(skill, maxNodes, Begun(skill, Cleared(r)), skill.graph.entry.value, None, world, n, cut);
      }
    case DiedResuming(verdict, world, n, cut) =>
      if Resumable(r) && r.record.cursor.Some? {
        LoopDepth(skill, maxNodes, Decide(r, verdict), r.record.cursor.value, Awaited(r), world, n, cut);
      }
  }

  /** The node runs of one attempt never exceed the limit, however often it pauses, on any graph. */
  lemma {:induction false} DepthNeverExceeded(skill: Skill, maxNodes: int, events: seq<Event>)
    ensures |History(skill, maxNodes, events).runs| <= Limit(maxNodes)
  {
    if events != [] {
      var front, last := events[..|events| - 1], events[|events| - 1];
      DepthNeverExceeded(skill, maxNodes, front);
      EventDepth(skill, maxNodes, History(skill, maxNodes, front), last);
    }
  }

  // ---- Approval gates ----

  /** Approval `k` was granted, before the present time. */
  ghost predicate Granted(r: Rows, k: nat)
    requires k < |r.approvals|
  {
    var a := r.approvals[k];
    a.decision == Some(APPROVED) && a.decidedAt.Some? && a.decidedAt.value < r.clock
  }

  /** Run `k` is of the node of approval `k`, which was granted before the run began. */
  ghost predicate RanOnGrant(r: Rows, k: nat)
    requires k < |r.approvals| && k < |r.runs|
  {
    Granted(r, k) && r.approvals[k].node == r.runs[k].node && r.approvals[k].decidedAt.value < r.runs[k].startedAt
  }

  ghost predicate RunsWereGranted(r: Rows)
  {
    && |r.runs| <= |r.approvals| <= |r.runs| + 1
    && (forall k :: 0 <= k < |r.runs| ==> RanOnGrant(r, k))
  }

  ghost predicate AllGranted(r: Rows)
  {
    forall k :: 0 <= k < |r.approvals| ==> Granted(r, k)
  }

  /** At most the last approval is undecided, and then the cursor is at its node, which has not run. */
  ghost predicate OnlyLastUndecided(r: Rows)
  {
    && (forall k :: 0 <= k < |r.approvals| - 1 ==> Granted(r, k))
    && (AwaitsDecision(r) ==> |r.approvals| == |r.runs| + 1 && r.record.cursor == Awaited(r))
  }

  ghost predicate Gated(r: Rows)
  {
    RunsWereGranted(r) && OnlyLastUndecided(r)
  }

  /** Grants and granted runs survive later rows. */
  lemma GrantsPersist(r: Rows, s: Rows, n: nat)
    requires n <= |r.approvals| && n <= |s.approvals| && r.approvals[..n] == s.approvals[..n]
    requires r.runs <= s.runs && r.clock <= s.clock
    ensures forall k :: 0 <= k < n && Granted(r, k) ==> Granted(s, k)
    ensures forall k :: 0 <= k < n && k < |r.runs| && RanOnGrant(r, k) ==> RanOnGrant(s, k)
  {
    forall k | 0 <= k < n
      ensures Granted(r, k) ==> Granted(s, k)
      ensures k < |r.runs| && RanOnGrant(r, k) ==> RanOnGrant(s, k)
    {
      assert r.approvals[..n][k] == s.approvals[..n][k];
    }
  }

  /** No approval is outstanding, or just the one of the bypassed node, which is about to run. */
  ghost predicate MayRun(r: Rows, node: string, bypass: Option<string>)
  {
    && r.record.status == RUNNING && RunsWereGranted(r) && AllGranted(r)
    && match bypass
       case None => |r.approvals| == |r.runs|
       case Some(b) => b == node && |r.approvals| == |r.runs| + 1 && r.approvals[|r.runs|].node == node
  }

  /** What one iteration adds: nothing, an approval request without a bypass, or a run of the node. */
  ghost predicate Adds(r: Rows, node: string, bypass: Option<string>, s: Rows)
  {
    || (s.runs == r.runs && s.approvals == r.approvals && s.clock == r.clock)
    || (bypass != Some(node) && s.runs == r.runs && Paused(r, node) == s.(record := r.record))
    || (exists status :: AddRun(r, node, status) == s.(record := r.record))
  }

  lemma IterateAdds(skill: Skill, maxNodes: int, r: Rows, node: string, bypass: Option<string>, world: World)
    requires skill.mode == HUMAN_IN_LOOP
    ensures var s := Iterate(skill, maxNodes, r, node, bypass, world).rows;
      && Adds(r, node, bypass, s) && (|s.runs| > |r.runs| ==> bypass == Some(node))
      && (|s.approvals| > |r.approvals| ==> s.record.cursor == Some(node))
  {
    var s := Iterate(skill, maxNodes, r, node, bypass, world).rows;
    if |s.runs| > |r.runs| {
      assert AddRun(r, node, s.runs[|r.runs|].status) == s.(record := r.record);
    }
  }

  lemma CutAdds(skill: Skill, maxNodes: int, r: Rows, node: string, bypass: Option<string>, world: World, cut: Cut)
    requires skill.mode == HUMAN_IN_LOOP
    ensures var s := CutAt(skill, maxNodes, r, node, bypass, world, cut);
      && Adds(r, node, bypass, s) && (|s.runs| > |r.runs| ==> bypass == Some(node)) && s.approvals == r.approvals
  {
    var s := CutAt(skill, maxNodes, r, node, bypass, world, cut);
    if |s.runs| > |r.runs| {
      assert AddRun(r, node, s.runs[|r.runs|].status) == s.(record := r.record);
    }
  }

  /** Rows that run the node on its grant, or ask for one, stay gated. */
  lemma AddingKeepsGated(r: Rows, node: string, bypass: Option<string>, s: Rows)
    requires MayRun(r, node, bypass) && Adds(r, node, bypass, s) && (|s.runs| > |r.runs| ==> bypass == Some(node))
    requires |s.approvals| > |r.approvals| ==> s.record.cursor == Some(node) && bypass == None
    ensures Gated(s)
  {
    GrantsPersist(r, s, |r.approvals|);
    assert r.approvals != [] ==> Granted(r, |r.approvals| - 1);
    if |s.runs| > |r.runs| {
      assert Granted(r, |r.runs|);
      assert RanOnGrant(s, |r.runs|);
    }
  }

  lemma GoingKeepsMayRun(skill: Skill, maxNodes: int, r: Rows, node: string, bypass: Option<string>, world: World)
    requires skill.mode == HUMAN_IN_LOOP && MayRun(r, node, bypass)
    requires Iterate(skill, maxNodes, r, node, bypass, world).Go?
    ensures var next := Iterate(skill, maxNodes, r, node, bypass, world); MayRun(next.rows, next.node, None)
  {
    var s := Iterate(skill, maxNodes, r, node, bypass, world).rows;
    GrantsPersist(r, s, |r.approvals|);
    assert Granted(r, |r.runs|);
    assert RanOnGrant(s, |r.runs|);
  }

  lemma {:induction false} LoopGated(skill: Skill, maxNodes: int, r: Rows, node: string, bypass: Option<string>,
                                     world: World, n: nat, cut: Cut)
    requires skill.mode == HUMAN_IN_LOOP && MayRun(r, node, bypass)
    ensures Gated(CutLoop(skill, maxNodes, r, node, bypass, world, n, cut))
    decreases n
  {
    if n == 0 {
      CutAdds(skill, maxNodes, r, node, bypass, world, cut);
      AddingKeepsGated(r, node, bypass, CutAt(skill, maxNodes, r, node, bypass, world, cut));
    } else {
      IterateAdds(skill, maxNodes, r, node, bypass, world);
      match Iterate(skill, maxNodes, r, node, bypass, world)
      case Stop(rows) =>
        AddingKeepsGated(r, node, bypass, rows);
      case Go(rows, next) =>
        GoingKeepsMayRun(skill, maxNodes, r, node, bypass, world);
        LoopGated(skill, maxNodes, rows, next, None, world, n - 1, cut);
    }
  }

  lemma DecideGated(r: Rows, verdict: Verdict)
    requires Gated(r) && Resumable(r)
    ensures verdict == APPROVED ==> MayRun(Decide(r, verdict), r.record.cursor.value, r.record.cursor)
    ensures Gated(Decide(r, verdict)) && Gated(Failed(Decide(r, verdict), APPROVAL_REJECTED))
  {
    var s := Decide(r, verdict);
    GrantsPersist(r, s, |r.runs|);
    GrantsPersist(s, Failed(s, APPROVAL_REJECTED), |s.approvals|);
    assert verdict == APPROVED ==> Granted(s, |r.runs|);
  }

  lemma EventGated(skill: Skill, maxNodes: int, r: Rows, e: Event)
    requires skill.mode == HUMAN_IN_LOOP && Gated(r)
    ensures Gated(After(skill, maxNodes, r, e))
    decreases e.Begin? || e.Resume?
  {
    match e
    case Begin(world) =>
      WholeBegin(skill, maxNodes, r, world);
      EventGated(skill, maxNodes, r, DiedBeginning(world, Limit(maxNodes) + 1, AtNode));
    case Resume(verdict, world) =>
      if verdict == APPROVED {
        WholeApproval(skill, maxNodes, r, world);
        EventGated(skill, maxNodes, r, DiedResuming(verdict, world, Limit(maxNodes) + 1, AtNode));
      } else if Resumable(r) {
        DecideGated(r, verdict);
      }
    case Cancel =>
      GrantsPersist(r, Cancelled(r).rows, |r.approvals|);
    case DiedClearing =>
    case DiedBeginning(world, n, cut) =>
      if Truthy(skill.graph.entry) {
        LoopGated(skill, maxNodes, Begun(skill, Cleared(r)), skill.graph.entry.value, None, world, n, cut);
      }
    case DiedResuming(verdict, world, n, cut) =>
      if Resumable(r) {
        DecideGated(r, verdict);
        if verdict == APPROVED {
          LoopGated(skill, maxNodes, Decide(r, verdict), r.record.cursor.value, Awaited(r), world, n, cut);
        }
      }
  }

  /** Under HUMAN_IN_LOOP every history is gated: wherever the process dies, no node runs without its grant. */
  lemma {:induction false} HistoryGated(skill: Skill, maxNodes: int, events: seq<Event>)
    requires skill.mode == HUMAN_IN_LOOP
    ensures Gated(History(skill, maxNodes, events))
  {
    if events != [] {
      var front, last := events[..|events| - 1], events[|events| - 1];
      HistoryGated(skill, maxNodes, front);
      EventGated(skill, maxNodes, History(skill, maxNodes, front), last);
    }
  }

  // ---- The other modes ----

  /** AUTO asks for no approval; MANUAL runs no node and completes nothing. */
  ghost predicate Ungated(mode: Mode, r: Rows)
  {
    && (mode != HUMAN_IN_LOOP ==> r.approvals == [])
    && (mode == MANUAL ==> r.runs == [] && r.record.status != COMPLETED)
  }

  lemma {:induction false} LoopUngated(skill: Skill, maxNodes: int, r: Rows, node: string, bypass: Option<string>,
                                       world: World, n: nat, cut: Cut)
    requires Ungated(skill.mode, r)
    requires skill.mode == MANUAL ==> bypass == None
    ensures Ungated(skill.mode, CutLoop(skill, maxNodes, r, node, bypass, world, n, cut))
    decreases n
  {
    if n > 0 {
      match Iterate(skill, maxNodes, r, node, bypass, world)
      case Stop(rows) =>
      case Go(rows, next) => LoopUngated(skill, maxNodes, rows, next, None, world, n - 1, cut);
    }
  }

  lemma EventUngated(skill: Skill, maxNodes: int, r: Rows, e: Event)
    requires Ungated(skill.mode, r) && skill.mode != HUMAN_IN_LOOP
    ensures Ungated(skill.mode, After(skill, maxNodes, r, e))
    decreases e.Begin? || e.Resume?
  {
    match e
    case Begin(world) =>
      WholeBegin(skill, maxNodes, r, world);
      EventUngated(skill, maxNodes, r, DiedBeginning(world, Limit(maxNodes) + 1, AtNode));
    case Resume(_, _) =>
    case Cancel =>
    case DiedClearing =>
    case DiedBeginning(world, n, cut) =>
      if Truthy(skill.graph.entry) {
        LoopUngated(skill, maxNodes, Begun(skill, Cleared(r)), skill.graph.entry.value, None, world, n, cut);
      }
    case DiedResuming(_, _, _, _) =>
  }

  lemma {:induction false} UngatedModes(skill: Skill, maxNodes: int, events: seq<Event>)
    ensures Ungated(skill.mode, History(skill, maxNodes, events))
  {
    if events != [] && skill.mode != HUMAN_IN_LOOP {
      var front, last := events[..|events| - 1], events[|events| - 1];
      UngatedModes(skill, maxNodes, front);
      EventUngated(skill, maxNodes, History(skill, maxNodes, front), last);
    }
  }
}
