/**
 * The engine's gate inside the step protocol (app/runtime/engine.py:122-371, app/jobs/worker.py:126-167): which
 * connector calls workers can make when their steps, crashes, recoveries and resumes interleave in any way.
 *
 * What a worker reads of the execution's rows, which others may have written meanwhile, is arbitrary: the
 * approval it decides, the cursor it goes on from, the next node of a route.
 */
module ApprovedCalls {
  import opened Wrappers
  import opened JobQueue
  import opened Worker
  import opened ActionLedger
  import opened DurableProtocol
  import opened DurableRuns
  import EE = ExecutionEngine

  /** How far a worker is with its job: about to call the engine, at a node, in the node, or done with the engine. */
  datatype Desk = Taken | AtNode(node: string, bypass: Option<string>) | InNode(node: string, acted: bool) | Over

  /** `grants` lists every approval that was saved as granted. */
  datatype Joint = Joint(system: System, desks: map<string, Desk>, grants: seq<Key>)

  const START := Joint(INIT, map[], [])

  /**
   * Besides the steps of the protocol: beginning at an entry node, deciding an approval, passing the gate of a
   * node, ending the loop, and leaving a node whose body has run.
   */
  datatype Deed =
    | Act(step: Step)
    | Begin(worker: string, entry: string)
    | Decide(worker: string, node: string, cursor: string)
    | Pass(worker: string)
    | Stop(worker: string)
    | Leave(worker: string, next: Option<string>)

  function KeyAt(s: System, w: string, node: string): Key
    requires w in s.held
  {
    Key(s.held[w].tenant, s.held[w].execution, node)
  }

  predicate Sits(j: Joint, w: string)
  {
    w in j.system.held && w in j.desks && w !in j.system.flights
  }

  /** The gate lets a node pass that is just approved, and any node of an execution that needs no approval. */
  predicate Passes(mode: EE.Mode, node: string, bypass: Option<string>)
  {
    bypass == Some(node) || EE.EvaluateGate(mode) == EE.CONTINUE
  }

  ghost predicate Enabled(modes: string -> EE.Mode, j: Joint, deed: Deed)
  {
    match deed
    case Act(step) =>
      Possible(j.system, step) && (step.Look? ==>
        step.worker in j.desks && j.desks[step.worker] == InNode(step.node, false))
    case Begin(w, _) => Sits(j, w) && j.desks[w].Taken? && j.system.held[w].action.EXECUTE?
    case Decide(w, _, _) => Sits(j, w) && j.desks[w].Taken? && j.system.held[w].action.RESUME?
    case Pass(w) =>
      && Sits(j, w) && j.desks[w].AtNode?
      && Passes(modes(j.system.held[w].execution), j.desks[w].node, j.desks[w].bypass)
    case Stop(w) => Sits(j, w)
    case Leave(w, _) => Sits(j, w) && j.desks[w].InNode?
  }

  function DesksAfter(desks: map<string, Desk>, step: Step): map<string, Desk>
  {
    match step
    case Claim(w, _, _) => desks[w := Taken]
    case Finish(w, _, _, _) => desks - {w}
    case Crash(w) => desks - {w}
    case Look(w, node) => desks[w := InNode(node, true)]
    case _ => desks
  }

  ghost function Done(modes: string -> EE.Mode, j: Joint, deed: Deed): Joint
    requires Enabled(modes, j, deed)
  {
    match deed
    case Act(step) => j.(system := Next(j.system, step), desks := DesksAfter(j.desks, step))
    case Begin(w, entry) => j.(desks := j.desks[w := AtNode(entry, None)])
    case Decide(w, node, cursor) =>
      if j.system.held[w].action.approved then
        j.(desks := j.desks[w := AtNode(cursor, Some(node))], grants := j.grants + [KeyAt(j.system, w, node)])
      else j.(desks := j.desks[w := Over])
    case Pass(w) => j.(desks := j.desks[w := InNode(j.desks[w].node, false)])
    case Stop(w) => j.(desks := j.desks[w := Over])
    case Leave(w, next) =>
      j.(desks := j.desks[w := if next.Some? then AtNode(next.value, None) else Over])
  }

  /** The state after a sequence of deeds; a deed that is not enabled does not happen. */
  ghost function After(modes: string -> EE.Mode, deeds: seq<Deed>): Joint
  {
    if deeds == [] then START
    else
      var j := After(modes, deeds[..|deeds| - 1]);
      if Enabled(modes, j, deeds[|deeds| - 1]) then Done(modes, j, deeds[|deeds| - 1]) else j
  }

  function CallsTo(calls: seq<Call>, k: Key): nat
  {
    if calls == [] then 0
    else CallsTo(calls[..|calls| - 1], k) + if calls[|calls| - 1].key == k then 1 else 0
  }

  // ---- Licences ----

  /** The worker may yet call for `k` without a further grant. */
  predicate Licensed(j: Joint, w: string, k: Key)
  {
    && w in j.system.held && w in j.desks && KeyAt(j.system, w, k.node) == k
    && match j.desks[w]
       case AtNode(node, bypass) => bypass == Some(k.node)
       case InNode(node, acted) =>
         node == k.node && (acted ==> w in j.system.flights && j.system.flights[w].Ready?)
       case _ => false
  }

  ghost function Licences(j: Joint, k: Key): set<string>
  {
    set w | w in j.desks && Licensed(j, w, k)
  }

  /** A worker with an action run in progress is in the node it runs. */
  ghost predicate FliesInNode(j: Joint)
  {
    forall w :: w in j.system.flights ==>
      w in j.system.held && w in j.desks && j.desks[w] == InNode(j.system.flights[w].node, true)
  }

  ghost predicate Covered(j: Joint, k: Key)
  {
    CallsTo(j.system.calls, k) + |Licences(j, k)| <= Occurrences(j.grants, k)
  }

  lemma SetsDifferAt(a: set<string>, b: set<string>, w: string)
    requires a - {w} == b - {w}
    ensures |b| == |a| - (if w in a then 1 else 0) + (if w in b then 1 else 0)
  {
    assert w in a ==> a == (a - {w}) + {w};
    assert w in b ==> b == (b - {w}) + {w};
  }

  /** Only `w` may have gained or lost a licence. */
  lemma OneWorkerMoves(j: Joint, t: Joint, w: string, k: Key)
    requires forall v :: v != w ==> (v in Licences(j, k) <==> v in Licences(t, k))
    ensures |Licences(t, k)| == |Licences(j, k)|
      - (if w in Licences(j, k) then 1 else 0) + (if w in Licences(t, k) then 1 else 0)
  {
    assert Licences(j, k) - {w} == Licences(t, k) - {w};
    SetsDifferAt(Licences(j, k), Licences(t, k), w);
  }

  /** Steps that leave workers, flights and calls alone leave the licences alone. */
  lemma NobodyMoves(j: Joint, t: Joint, k: Key)
    requires Covered(j, k) && FliesInNode(j)
    requires t.system.held == j.system.held && t.system.flights == j.system.flights && t.desks == j.desks
    requires t.system.calls == j.system.calls && t.grants == j.grants
    ensures Covered(t, k) && FliesInNode(t)
  {
    assert Licences(t, k) == Licences(j, k);
  }

  // ---- Every deed keeps calls covered by grants ----

  ghost predicate SameFor(j: Joint, t: Joint, v: string)
  {
    && (v in t.desks <==> v in j.desks) && (v in t.desks ==> t.desks[v] == j.desks[v])
    && (v in t.system.held <==> v in j.system.held) && (v in t.system.held ==> t.system.held[v] == j.system.held[v])
    && (v in t.system.flights <==> v in j.system.flights)
    && (v in t.system.flights ==> t.system.flights[v] == j.system.flights[v])
  }

  /** A step of one worker that calls nothing and gains no licence. */
  lemma MoveKeepsCovered(j: Joint, t: Joint, w: string, k: Key)
    requires Covered(j, k) && FliesInNode(j) && forall v :: v != w ==> SameFor(j, t, v)
    requires t.system.calls == j.system.calls && t.grants == j.grants
    requires w in t.system.flights ==>
      w in t.system.held && w in t.desks && t.desks[w] == InNode(t.system.flights[w].node, true)
    requires w in Licences(t, k) ==> w in Licences(j, k)
    ensures Covered(t, k) && FliesInNode(t)
  {
    forall v | v != w
      ensures v in Licences(j, k) <==> v in Licences(t, k)
      ensures v in t.system.flights ==>
        v in t.system.held && v in t.desks && t.desks[v] == InNode(t.system.flights[v].node, true)
    {
      assert SameFor(j, t, v);
    }
    OneWorkerMoves(j, t, w, k);
  }

  lemma InvokeKeepsCovered(j: Joint, w: string, success: bool, externalId: Option<string>, k: Key)
    requires Covered(j, k) && FliesInNode(j) && Possible(j.system, Invoke(w, success, externalId))
    ensures var t := j.(system := Invoking(j.system, w, success, externalId)); Covered(t, k) && FliesInNode(t)
  {
    var t := j.(system := Invoking(j.system, w, success, externalId));
    OneWorkerMoves(j, t, w, k);
    assert t.system.calls[..|j.system.calls|] == j.system.calls;
  }

  lemma LookKeepsCovered(j: Joint, w: string, node: string, k: Key)
    requires Covered(j, k) && FliesInNode(j) && Possible(j.system, Look(w, node))
    requires w in j.desks && j.desks[w] == InNode(node, false)
    ensures var t := Joint(Looked(j.system, w, node), j.desks[w := InNode(node, true)], j.grants);
      Covered(t, k) && FliesInNode(t)
  {
    LookAnswersOrReadies(j.system, w, node);
    MoveKeepsCovered(j, Joint(Looked(j.system, w, node), j.desks[w := InNode(node, true)], j.grants), w, k);
  }

  /** Claiming, saving, crashing and finishing. */
  lemma WorkerKeepsCovered(j: Joint, step: Step, k: Key)
    requires Covered(j, k) && FliesInNode(j) && Possible(j.system, step)
    requires step.Claim? || step.Save? || step.SaveFails? || step.Finish? || step.Crash?
    ensures var t := j.(system := Next(j.system, step), desks := DesksAfter(j.desks, step));
      Covered(t, k) && FliesInNode(t)
  {
    var t := j.(system := Next(j.system, step), desks := DesksAfter(j.desks, step));
    MoveKeepsCovered(j, t, step.worker, k);
  }

  lemma ActKeepsCovered(j: Joint, step: Step, k: Key)
    requires Covered(j, k) && FliesInNode(j) && Possible(j.system, step)
    requires step.Look? ==> step.worker in j.desks && j.desks[step.worker] == InNode(step.node, false)
    ensures var t := j.(system := Next(j.system, step), desks := DesksAfter(j.desks, step));
      Covered(t, k) && FliesInNode(t)
  {
    var t := j.(system := Next(j.system, step), desks := DesksAfter(j.desks, step));
    match step
    case Look(w, node) => LookKeepsCovered(j, w, node, k);
    case Invoke(w, success, externalId) => InvokeKeepsCovered(j, w, success, externalId, k);
    case Enqueue(_) => NobodyMoves(j, t, k);
    case CancelJob(_, _, _) => NobodyMoves(j, t, k);
    case ReadJob(_, _) => NobodyMoves(j, t, k);
    case ResumeJob(_, _) => NobodyMoves(j, t, k);
    case Recover(_) => NobodyMoves(j, t, k);
    case _ => WorkerKeepsCovered(j, step, k);
  }

  /** A granting decision licenses its worker, once. */
  lemma GrantKeepsCovered(j: Joint, w: string, node: string, cursor: string, k: Key)
    requires Covered(j, k) && FliesInNode(j) && Sits(j, w) && j.desks[w].Taken?
    ensures var t := j.(desks := j.desks[w := AtNode(cursor, Some(node))],
                        grants := j.grants + [KeyAt(j.system, w, node)]);
      Covered(t, k) && FliesInNode(t)
  {
    var t := j.(desks := j.desks[w := AtNode(cursor, Some(node))], grants := j.grants + [KeyAt(j.system, w, node)]);
    assert t.grants[..|j.grants|] == j.grants;
    OneWorkerMoves(j, t, w, k);
  }

  /** Passing a gate, and leaving a node, license nothing. */
  lemma DeskKeepsCovered(modes: string -> EE.Mode, j: Joint, deed: Deed, k: Key)
    requires Covered(j, k) && FliesInNode(j) && modes(k.execution) != EE.AUTO
    requires Enabled(modes, j, deed) && !deed.Act?
    ensures Covered(Done(modes, j, deed), k) && FliesInNode(Done(modes, j, deed))
  {
    if deed.Decide? && j.system.held[deed.worker].action.approved {
      GrantKeepsCovered(j, deed.worker, deed.node, deed.cursor, k);
    } else {
      MoveKeepsCovered(j, Done(modes, j, deed), deed.worker, k);
    }
  }

  lemma {:induction false} CallsStayCovered(modes: string -> EE.Mode, deeds: seq<Deed>, k: Key)
    requires modes(k.execution) != EE.AUTO
    ensures Covered(After(modes, deeds), k) && FliesInNode(After(modes, deeds))
  {
    if deeds == [] {
      assert Licences(START, k) == {};
    } else {
      var front, deed := deeds[..|deeds| - 1], deeds[|deeds| - 1];
      CallsStayCovered(modes, front, k);
      var j := After(modes, front);
      if Enabled(modes, j, deed) {
        if deed.Act? {
          ActKeepsCovered(j, deed.step, k);
        } else {
          DeskKeepsCovered(modes, j, deed, k);
        }
      }
    }
  }

  /**
   * However steps interleave, and even while a job is with several workers: unless its execution runs without
   * approvals, a node is called at most once for each time it was approved.
   */
  lemma CallsAreApproved(modes: string -> EE.Mode, deeds: seq<Deed>, k: Key)
    requires modes(k.execution) != EE.AUTO
    ensures CallsTo(After(modes, deeds).system.calls, k) <= Occurrences(After(modes, deeds).grants, k)
  {
    CallsStayCovered(modes, deeds, k);
  }

  lemma {:induction false} LoggedCallCounts(calls: seq<Call>, c: Call)
    requires c in calls
    ensures CallsTo(calls, c.key) > 0
  {
    var front, last := calls[..|calls| - 1], calls[|calls| - 1];
    assert calls == front + [last];
    if c in front {
      LoggedCallCounts(front, c);
    }
  }

  lemma {:induction false} CountedKeyIsListed(keys: seq<Key>, k: Key)
    requires Occurrences(keys, k) > 0
    ensures k in keys
  {
    if keys[|keys| - 1] != k {
      CountedKeyIsListed(keys[..|keys| - 1], k);
    }
  }

  /** So no call is logged, at any time, before its node was approved. */
  lemma EveryCallWasApproved(modes: string -> EE.Mode, deeds: seq<Deed>, c: Call)
    requires c in After(modes, deeds).system.calls && modes(c.key.execution) != EE.AUTO
    ensures c.key in After(modes, deeds).grants
  {
    CallsAreApproved(modes, deeds, c.key);
    LoggedCallCounts(After(modes, deeds).system.calls, c);
    CountedKeyIsListed(After(modes, deeds).grants, c.key);
  }

  /** The gate only restricts the protocol: whatever holds over its runs holds here. */
  lemma {:induction false} GatedRunsAreRuns(modes: string -> EE.Mode, deeds: seq<Deed>) returns (steps: seq<Step>)
    ensures After(modes, deeds).system == Run(steps)
  {
    steps := [];
    if deeds != [] {
      var front, deed := deeds[..|deeds| - 1], deeds[|deeds| - 1];
      steps := GatedRunsAreRuns(modes, front);
      if Enabled(modes, After(modes, front), deed) && deed.Act? {
        RunSnoc(INIT, steps, deed.step);
        steps := steps + [deed.step];
      }
    }
  }
}
