/**
 * Running a compiled skill node by node, with approval gates and pauses
 * (app/runtime/engine.py, app/runtime/governance.py).
 *
 * `Loop` says what one uninterrupted run of the engine leaves in the tables; the class does
 * it step by step.  Time is a counter that every reading of the clock advances.
 */
module ExecutionEngine {
  import opened Wrappers
  import opened ExecutionGraph

  datatype Mode = AUTO | HUMAN_IN_LOOP | MANUAL

  datatype Gate = CONTINUE | PAUSE_APPROVAL | STOP_MANUAL

  datatype Status = PENDING | RUNNING | COMPLETED | FAILED | CANCELLED

  datatype Category =
    | QUERY_ERROR | ACTION_ERROR | VALIDATION_ERROR | APPROVAL_REJECTED | RUNTIME_ERROR | TIMEOUT | POLICY_VIOLATION

  datatype Verdict = APPROVED | REJECTED

  /** What a runtime error was, as its audit entry tells. */
  datatype Note = NOTHING | DEPTH_EXCEEDED | NODE_MISSING | EXCEPTION

  datatype Record = Record(status: Status, cursor: Option<string>, category: Option<Category>, note: Note)

  datatype NodeRun = NodeRun(node: string, status: Status, startedAt: nat)

  datatype Approval = Approval(node: string, requestedAt: nat, decision: Option<Verdict>, decidedAt: Option<nat>)

  /** The rows of one execution, in insertion order, and the time of the next clock reading. */
  datatype Rows = Rows(record: Record, runs: seq<NodeRun>, approvals: seq<Approval>, clock: nat)

  /** The categories a failing node body is filed under. */
  type NodeCategory = c: Category | c in {QUERY_ERROR, ACTION_ERROR, VALIDATION_ERROR, TIMEOUT} witness QUERY_ERROR

  /** How the body of a node ends; `Broke` is an exception only the loop's outer handler catches. */
  datatype Outcome = Succeeded | NodeFailed(category: NodeCategory) | Broke

  /**
   * Where something else may raise: the policy or the gate before the node, its audit entry or a branch
   * condition after it, or the audit entry with which the loop ends there.
   */
  datatype Fault = BEFORE_NODE | AFTER_NODE | AT_EXIT

  /** What the engine meets at one node: the policy decision, the body, the branch conditions afterwards, and faults. */
  datatype Visit = Visit(permitted: bool, outcome: Outcome, holds: Branch -> bool, faults: set<Fault>)

  /** What one command meets: whether its bundle is found, whether its own audit entry is written, and the visits. */
  datatype World = World(bundleFound: bool, audited: bool, visits: nat -> Visit)

  datatype Skill = Skill(graph: Graph, mode: Mode)

  datatype EngineError =
    | BundleMissing | NoEntryNode | NotResumable | NoPendingApproval | BundleIsNone | AuditFailed | NotCancellable

  /** The rows that a command leaves, and the exception it raises, if any. */
  datatype Reply = Reply(rows: Rows, error: Option<EngineError>)

  function EvaluateGate(mode: Mode): Gate
  {
    match mode
    case AUTO => CONTINUE
    case HUMAN_IN_LOOP => PAUSE_APPROVAL
    case MANUAL => STOP_MANUAL
  }

  // ---- Routing ----

  function FirstHolding(out: seq<Edge>, holds: Branch -> bool): Option<string>
  {
    if out == [] then None
    else if out[0].branch.Some? && holds(out[0].branch.value) then Some(out[0].target)
    else FirstHolding(out[1..], holds)
  }

  function FirstDefault(out: seq<Edge>): Option<string>
  {
    if out == [] then None
    else if IsDefault(out[0]) then Some(out[0].target)
    else FirstDefault(out[1..])
  }

  /** The next node: a branch whose condition holds, else the default edge; an empty target counts as none. */
  function Route(out: seq<Edge>, holds: Branch -> bool): Option<string>
  {
    var branch := FirstHolding(out, holds);
    if Truthy(branch) then branch
    else
      var fallback := FirstDefault(out);
      if Truthy(fallback) then fallback else None
  }

  lemma {:induction false} FirstHoldingIsEdge(out: seq<Edge>, holds: Branch -> bool)
    ensures FirstHolding(out, holds).Some? ==>
      exists e :: e in out && e.target == FirstHolding(out, holds).value && e.branch.Some? && holds(e.branch.value)
    ensures FirstHolding(out, holds).None? ==> forall e :: e in out && e.branch.Some? ==> !holds(e.branch.value)
  {
    if out != [] {
      FirstHoldingIsEdge(out[1..], holds);
      assert out == [out[0]] + out[1..];
    }
  }

  lemma {:induction false} FirstDefaultIsEdge(out: seq<Edge>)
    ensures FirstDefault(out).Some? ==> exists e :: e in out && e.target == FirstDefault(out).value && IsDefault(e)
  {
    if out != [] {
      FirstDefaultIsEdge(out[1..]);
      assert out == [out[0]] + out[1..];
    }
  }

  lemma RouteIsEdge(out: seq<Edge>, holds: Branch -> bool)
    ensures Route(out, holds).Some? ==> exists e :: e in out && Some(e.target) == Route(out, holds)
  {
    FirstHoldingIsEdge(out, holds);
    FirstDefaultIsEdge(out);
  }

  // ---- One node, and the loop ----

  datatype Next = Go(rows: Rows, node: string) | Stop(rows: Rows)

  function Failed(r: Rows, category: Category): Rows
  {
    r.(record := r.record.(status := FAILED, category := Some(category)))
  }

  function Raised(r: Rows, note: Note): Rows
  {
    r.(record := r.record.(status := FAILED, category := Some(RUNTIME_ERROR), note := note))
  }

  /** The node run that the engine opens at the current time, closed with `status`. */
  function AddRun(r: Rows, node: string, status: Status): Rows
  {
    r.(runs := r.runs + [NodeRun(node, status, r.clock)], clock := r.clock + 1)
  }

  /** The rows at the end of the loop; when the audit entry about it fails, the outer handler saves a failure. */
  function Exit(r: Rows, v: Visit): Rows
  {
    if AT_EXIT in v.faults then Raised(r, EXCEPTION) else r
  }

  function Completed(r: Rows): Rows
  {
    r.(record := r.record.(status := COMPLETED, cursor := None))
  }

  /** The rows after pausing at the node: a new approval is outstanding. */
  function Paused(r: Rows, node: string): Rows
  {
    r.(approvals := r.approvals + [Approval(node, r.clock, None, None)], clock := r.clock + 1)
  }

  ghost function Iterate(skill: Skill, maxNodes: int, r: Rows, node: string, bypass: Option<string>, world: World): Next
  {
    var v := world.visits(r.clock);
    var at := r.(record := r.record.(cursor := Some(node)));
    if |r.runs| >= maxNodes then Stop(Exit(Raised(r, DEPTH_EXCEEDED), v))
    else if node !in NodeIds(skill.graph) then Stop(Raised(r, NODE_MISSING))
    else if BEFORE_NODE in v.faults then Stop(Raised(at, EXCEPTION))
    else if !v.permitted then Stop(Exit(Failed(at, POLICY_VIOLATION), v))
    else if bypass != Some(node) && EvaluateGate(skill.mode) == PAUSE_APPROVAL then Stop(Exit(Paused(at, node), v))
    else if bypass != Some(node) && EvaluateGate(skill.mode) == STOP_MANUAL then
      Stop(Exit(Failed(at, VALIDATION_ERROR), v))
    else
      match v.outcome
      case NodeFailed(category) => Stop(Exit(Failed(AddRun(at, node, FAILED), category), v))
      case Broke => Stop(Raised(AddRun(at, node, RUNNING), EXCEPTION))
      case Succeeded =>
        var done := AddRun(at, node, COMPLETED);
        var out := Outgoing(skill.graph.edges, node);
        if AFTER_NODE in v.faults then Stop(Raised(done, EXCEPTION))
        else if out == [] then Stop(Exit(Completed(done), v))
        else
          match Route(out, v.holds)
          case None => Stop(Exit(Failed(done, VALIDATION_ERROR), v))
          case Some(next) => Go(done, next)
  }

  ghost function Loop(skill: Skill, maxNodes: int, r: Rows, node: string, bypass: Option<string>, world: World): Rows
    decreases maxNodes - |r.runs|
  {
    match Iterate(skill, maxNodes, r, node, bypass, world)
    case Stop(rows) => rows
    case Go(rows, next) => Loop(skill, maxNodes, rows, next, None, world)
  }

  ghost function LoopFromCursor(skill: Skill, maxNodes: int, r: Rows, bypass: Option<string>, world: World): Rows
  {
    match r.record.cursor
    case None => Exit(Completed(r), world.visits(r.clock))
    case Some(node) => Loop(skill, maxNodes, r, node, bypass, world)
  }

  // ---- Commands ----

  /** The rows with which a run of the graph begins. */
  function Begun(skill: Skill, r: Rows): Rows
  {
    r.(record := Record(RUNNING, skill.graph.entry, None, NOTHING))
  }

  ghost function Started(skill: Skill, maxNodes: int, r: Rows, world: World): Reply
  {
    if !world.bundleFound then Reply(r, Some(BundleMissing))
    else if !Truthy(skill.graph.entry) then Reply(r, Some(NoEntryNode))
    else if !world.audited then Reply(Begun(skill, r), Some(AuditFailed))
    else Reply(LoopFromCursor(skill, maxNodes, Begun(skill, r), None, world), None)
  }

  predicate AwaitsDecision(r: Rows)
  {
    r.approvals != [] && r.approvals[|r.approvals| - 1].decision.None?
  }

  function Decide(r: Rows, verdict: Verdict): Rows
    requires AwaitsDecision(r)
  {
    var last := |r.approvals| - 1;
    var decided := r.approvals[last].(decision := Some(verdict), decidedAt := Some(r.clock));
    r.(approvals := r.approvals[last := decided], clock := r.clock + 1)
  }

  /** The decision is saved first; what fails after that leaves it saved. */
  ghost function Resumed(skill: Skill, maxNodes: int, r: Rows, verdict: Verdict, world: World): Reply
  {
    if r.record.status != RUNNING then Reply(r, Some(NotResumable))
    else if !AwaitsDecision(r) then Reply(r, Some(NoPendingApproval))
    else
      var decided := Decide(r, verdict);
      if !world.audited then Reply(decided, Some(AuditFailed))
      else if !world.bundleFound then Reply(decided, Some(BundleIsNone))
      else
        match verdict
        case APPROVED =>
          var node := r.approvals[|r.approvals| - 1].node;
          Reply(LoopFromCursor(skill, maxNodes, decided, Some(node), world), None)
        case REJECTED =>
          var rejected := Failed(decided, APPROVAL_REJECTED);
          Reply(rejected, if AT_EXIT in world.visits(decided.clock).faults then Some(AuditFailed) else None)
  }

  ghost function Cancelled(r: Rows): Reply
  {
    if r.record.status != PENDING && r.record.status != RUNNING then Reply(r, Some(NotCancellable))
    else Reply(r.(record := r.record.(status := CANCELLED)), None)
  }

  /** The engine with the rows of one execution. */
  class Engine {
    const skill: Skill
    const maxNodes: int
    var record: Record
    var runs: seq<NodeRun>
    var approvals: seq<Approval>
    var clock: nat

    constructor (skill: Skill, maxNodes: int)
      ensures this.skill == skill && this.maxNodes == maxNodes
      ensures Tables() == Rows(Record(PENDING, None, None, NOTHING), [], [], 0)
    {
      this.skill := skill;
      this.maxNodes := maxNodes;
      record, runs, approvals, clock := Record(PENDING, None, None, NOTHING), [], [], 0;
    }

    ghost function Tables(): Rows
      reads this
    {
      Rows(record, runs, approvals, clock)
    }

    method Fail(category: Category)
      modifies this`record
      ensures Tables() == Failed(old(Tables()), category)
    {
      record := record.(status := FAILED, category := Some(category));
    }

    method Raise(note: Note)
      modifies this`record
      ensures Tables() == Raised(old(Tables()), note)
    {
      record := record.(status := FAILED, category := Some(RUNTIME_ERROR), note := note);
    }

    /** Saves the node run of the node at the cursor and runs its body. */
    method RunNode(node: string, outcome: Outcome) returns (halted: bool)
      modifies this`record, this`runs, this`clock
      ensures halted <==> outcome != Succeeded
      ensures Tables() == match outcome
        case Succeeded => AddRun(old(Tables()), node, COMPLETED)
        case NodeFailed(category) => Failed(AddRun(old(Tables()), node, FAILED), category)
        case Broke => Raised(AddRun(old(Tables()), node, RUNNING), EXCEPTION)
    {
      runs := runs + [NodeRun(node, RUNNING, clock)];
      var at := |runs| - 1;
      clock := clock + 1;
      match outcome {
        case Succeeded =>
          runs := runs[at := runs[at].(status := COMPLETED)];
          halted := false;
        case NodeFailed(category) =>
          runs := runs[at := runs[at].(status := FAILED)];
          Fail(category);
          halted := true;
        case Broke =>
          Raise(EXCEPTION);
          halted := true;
      }
    }

    /** The audit entry with which the loop ends is written, or the outer handler saves a failure. */
    method Leave(visit: Visit)
      modifies this`record
      ensures Tables() == Exit(old(Tables()), visit)
    {
      if AT_EXIT in visit.faults {
        Raise(EXCEPTION);
      }
    }

    method RunLoop(bypass: Option<string>, world: World)
      modifies this
      ensures Tables() == LoopFromCursor(skill, maxNodes, old(Tables()), bypass, world)
    {
      ghost var goal := LoopFromCursor(skill, maxNodes, Tables(), bypass, world);
      var current := record.cursor;
      var executedCount := |runs|;
      var bypassGateNode := bypass;
      var visit := world.visits(clock);
      while current.Some?
        invariant executedCount == |runs|
        invariant current.Some? ==> goal == Loop(skill, maxNodes, Tables(), current.value, bypassGateNode, world)
        invariant current.None? ==> goal == Exit(Completed(Tables()), visit)
        decreases current.Some?, maxNodes - executedCount
      {
        var node := current.value;
        visit := world.visits(clock);
        if executedCount >= maxNodes {
          Raise(DEPTH_EXCEEDED);
          Leave(visit);
          return;
        }
        if node !in NodeIds(skill.graph) {
          Raise(NODE_MISSING);
          return;
        }
        record := record.(cursor := Some(node));
        if BEFORE_NODE in visit.faults {
          Raise(EXCEPTION);
          return;
        }
        if !visit.permitted {
          Fail(POLICY_VIOLATION);
          Leave(visit);
          return;
        }
        if bypassGateNode != Some(node) {
          match EvaluateGate(skill.mode) {
            case PAUSE_APPROVAL =>
              approvals := approvals + [Approval(node, clock, None, None)];
              clock := clock + 1;
              Leave(visit);
              return;
            case STOP_MANUAL =>
              Fail(VALIDATION_ERROR);
              Leave(visit);
              return;
            case CONTINUE =>
          }
        }
        var halted := RunNode(node, visit.outcome);
        if halted {
          if visit.outcome != Broke {
            Leave(visit);
          }
          return;
        }
        executedCount := executedCount + 1;
        bypassGateNode := None;
        if AFTER_NODE in visit.faults {
          Raise(EXCEPTION);
          return;
        }
        var outgoing := Outgoing(skill.graph.edges, node);
        if outgoing == [] {
          current := None;
          break;
        }
        var next := Route(outgoing, visit.holds);
        if next.None? {
          Fail(VALIDATION_ERROR);
          Leave(visit);
          return;
        }
        current := next;
      }
      record := record.(status := COMPLETED, cursor := None);
      Leave(visit);
    }

    /** Begins the execution; the rows of an earlier attempt, if any, stay as they are. */
    method Execute(world: World) returns (r: Result<Status, EngineError>)
      modifies this
      ensures var reply := Started(skill, maxNodes, old(Tables()), world);
        && Tables() == reply.rows
        && r == if reply.error.Some? then Err(reply.error.value) else Ok(record.status)
    {
      if !world.bundleFound {
        return Err(BundleMissing);
      }
      if !Truthy(skill.graph.entry) {
        return Err(NoEntryNode);
      }
      record := Record(RUNNING, skill.graph.entry, None, NOTHING);
      if !world.audited {
        return Err(AuditFailed);
      }
      RunLoop(None, world);
      return Ok(record.status);
    }

    method Resume(verdict: Verdict, world: World) returns (r: Result<Status, EngineError>)
      modifies this
      ensures var reply := Resumed(skill, maxNodes, old(Tables()), verdict, world);
        && Tables() == reply.rows
        && r == if reply.error.Some? then Err(reply.error.value) else Ok(record.status)
    {
      if record.status != RUNNING {
        return Err(NotResumable);
      }
      if approvals == [] || approvals[|approvals| - 1].decision.Some? {
        return Err(NoPendingApproval);
      }
      var last := |approvals| - 1;
      var node := approvals[last].node;
      approvals := approvals[last := approvals[last].(decision := Some(verdict), decidedAt := Some(clock))];
      clock := clock + 1;
      assert Tables() == Decide(old(Tables()), verdict);
      if !world.audited {
        return Err(AuditFailed);
      }
      if !world.bundleFound {
        return Err(BundleIsNone);
      }
      if verdict == APPROVED {
        RunLoop(Some(node), world);
      } else {
        Fail(APPROVAL_REJECTED);
        if AT_EXIT in world.visits(clock).faults {
          return Err(AuditFailed);
        }
      }
      return Ok(record.status);
    }

    method Cancel() returns (r: Result<Status, EngineError>)
      modifies this`record
      ensures var reply := Cancelled(old(Tables()));
        && Tables() == reply.rows
        && r == if reply.error.Some? then Err(reply.error.value) else Ok(CANCELLED)
      ensures if old(record.status) == PENDING || old(record.status) == RUNNING
              then r == Ok(CANCELLED) && record == old(record).(status := CANCELLED)
              else r == Err(NotCancellable) && record == old(record)
    {
      if record.status != PENDING && record.status != RUNNING {
        return Err(NotCancellable);
      }
      record := record.(status := CANCELLED);
      return Ok(CANCELLED);
    }
  }
}
