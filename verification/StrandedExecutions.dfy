/**
 * Executions that no decision can move (app/runtime/engine.py, app/jobs/worker.py): a command that fails or
 * dies after its first write can leave one running on paper, with nothing left to decide.
 */
module StrandedExecutions {
  import opened Wrappers
  import opened ExecutionGraph
  import opened ExecutionEngine
  import opened ExecutionHistory

  predicate Stranded(r: Rows)
  {
    r.record.status == RUNNING && !AwaitsDecision(r)
  }

  /** Whether the loop ends in its first `n` iterations. */
  ghost predicate EndsWithin(skill: Skill, maxNodes: int, r: Rows, node: string, bypass: Option<string>, world: World,
                             n: nat)
    decreases n
  {
    && n > 0
    && match Iterate(skill, maxNodes, r, node, bypass, world)
       case Stop(_) => true
       case Go(rows, next) => EndsWithin(skill, maxNodes, rows, next, None, world, n - 1)
  }

  /** Whether an attempt gets as far as its first write. */
  predicate Begins(skill: Skill, world: World)
  {
    world.bundleFound && Truthy(skill.graph.entry)
  }

  /** Whether the loop is entered and ends before the process dies, after a beginning ... */
  ghost predicate BeginEnds(skill: Skill, maxNodes: int, r: Rows, world: World, n: nat)
    requires Begins(skill, world)
  {
    world.audited && EndsWithin(skill, maxNodes, Begun(skill, Cleared(r)), skill.graph.entry.value, None, world, n)
  }

  /** ... and after a decision. */
  ghost predicate ApprovalEnds(skill: Skill, maxNodes: int, r: Rows, world: World, n: nat)
    requires Resumable(r)
  {
    && world.audited && world.bundleFound && r.record.cursor.Some?
    && EndsWithin(skill, maxNodes, Decide(r, APPROVED), r.record.cursor.value, Awaited(r), world, n)
  }

  /** The events that leave an execution stranded. */
  ghost predicate Strands(skill: Skill, maxNodes: int, r: Rows, e: Event)
  {
    match e
    case Begin(world) => if Begins(skill, world) then !world.audited else r.record.status == RUNNING
    case Resume(_, world) => if Resumable(r) then !world.audited || !world.bundleFound else Stranded(r)
    case Cancel => false
    case DiedClearing => r.record.status == RUNNING
    case DiedBeginning(world, n, _) =>
      if Begins(skill, world) then !BeginEnds(skill, maxNodes, r, world, n) else r.record.status == RUNNING
    case DiedResuming(verdict, world, n, _) =>
      if Resumable(r) then verdict == REJECTED || !ApprovalEnds(skill, maxNodes, r, world, n) else Stranded(r)
  }

  /** The loop ends by failing, completing or pausing; until then it is running with nothing to decide. */
  lemma IterateStrandsIff(skill: Skill, maxNodes: int, r: Rows, node: string, bypass: Option<string>, world: World)
    requires Stranded(r)
    ensures var next := Iterate(skill, maxNodes, r, node, bypass, world); Stranded(next.rows) <==> next.Go?
  {
  }

  /** A loop cut off leaves the execution stranded exactly when it had not ended. */
  lemma {:induction false} CutLoopStrandsIff(skill: Skill, maxNodes: int, r: Rows, node: string,
                                             bypass: Option<string>, world: World, n: nat, cut: Cut)
    requires Stranded(r)
    ensures Stranded(CutLoop(skill, maxNodes, r, node, bypass, world, n, cut))
       <==> !EndsWithin(skill, maxNodes, r, node, bypass, world, n)
    decreases n
  {
    if n > 0 {
      IterateStrandsIff(skill, maxNodes, r, node, bypass, world);
      match Iterate(skill, maxNodes, r, node, bypass, world)
      case Stop(rows) =>
      case Go(rows, next) => CutLoopStrandsIff(skill, maxNodes, rows, next, None, world, n - 1, cut);
    }
  }

  lemma {:induction false} LoopEndsWithin(skill: Skill, maxNodes: int, r: Rows, node: string, bypass: Option<string>,
                                          world: World, n: nat)
    requires n > 0 && n > maxNodes - |r.runs|
    ensures EndsWithin(skill, maxNodes, r, node, bypass, world, n)
    decreases n
  {
    match Iterate(skill, maxNodes, r, node, bypass, world)
    case Stop(rows) =>
    case Go(rows, next) => LoopEndsWithin(skill, maxNodes, rows, next, None, world, n - 1);
  }

  lemma DyingStrandsIff(skill: Skill, maxNodes: int, r: Rows, e: Event)
    requires e.DiedBeginning? || e.DiedResuming?
    ensures Stranded(After(skill, maxNodes, r, e)) <==> Strands(skill, maxNodes, r, e)
  {
    match e
    case DiedBeginning(world, n, cut) =>
      if Begins(skill, world) {
        CutLoopStrandsIff(skill, maxNodes, Begun(skill, Cleared(r)), skill.graph.entry.value, None, world, n, cut);
      }
    case DiedResuming(verdict, world, n, cut) =>
      if Resumable(r) && verdict == APPROVED && r.record.cursor.Some? {
        CutLoopStrandsIff(skill, maxNodes, Decide(r, verdict), r.record.cursor.value, Awaited(r), world, n, cut);
      }
  }

  /** The exact condition, for whatever rows and whatever happens to them. */
  lemma StrandedIff(skill: Skill, maxNodes: int, r: Rows, e: Event)
    ensures Stranded(After(skill, maxNodes, r, e)) <==> Strands(skill, maxNodes, r, e)
  {
    var late := Limit(maxNodes) + 1;
    match e
    case Begin(world) =>
      if Begins(skill, world) {
        var s := Begun(skill, Cleared(r));
        WholeBegin(skill, maxNodes, r, world);
        DyingStrandsIff(skill, maxNodes, r, DiedBeginning(world, late, AtNode));
        LoopEndsWithin(skill, maxNodes, s, skill.graph.entry.value, None, world, late);
      }
    case Resume(verdict, world) =>
      if Resumable(r) && verdict == APPROVED && r.record.cursor.Some? {
        WholeApproval(skill, maxNodes, r, world);
        DyingStrandsIff(skill, maxNodes, r, DiedResuming(verdict, world, late, AtNode));
        LoopEndsWithin(skill, maxNodes, Decide(r, verdict), r.record.cursor.value, Awaited(r), world, late);
      }
    case Cancel =>
    case DiedClearing =>
    case DiedBeginning(_, _, _) => DyingStrandsIff(skill, maxNodes, r, e);
    case DiedResuming(_, _, _, _) => DyingStrandsIff(skill, maxNodes, r, e);
  }

  /** A stranded execution refuses every resume: only another attempt or a cancellation moves it. */
  lemma {:induction false} StrandedUntilBegunOrCancelled(skill: Skill, maxNodes: int, r: Rows, events: seq<Event>)
    requires Stranded(r) && forall e :: e in events ==> e.Resume? || e.DiedResuming?
    ensures AfterAll(skill, maxNodes, r, events) == r
    decreases |events|
  {
    if events != [] {
      assert events[0] in events;
      StrandedUntilBegunOrCancelled(skill, maxNodes, r, events[1..]);
    }
  }

  ghost function AfterAll(skill: Skill, maxNodes: int, r: Rows, events: seq<Event>): Rows
    decreases |events|
  {
    if events == [] then r else AfterAll(skill, maxNodes, After(skill, maxNodes, r, events[0]), events[1..])
  }
}
