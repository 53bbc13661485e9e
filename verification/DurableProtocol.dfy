/**
 * The durable execution protocol as steps over shared tables: queue, workers and action runs
 * (app/jobs/queue.py, app/jobs/worker.py, app/actions/engine.py, app/web/routes.py).
 *
 * A worker's action run is three steps, looking for a saved success, calling the connector and
 * saving the outcome, and the process may crash between any two steps.
 */
module DurableProtocol {
  import opened Wrappers
  import opened JobQueue
  import opened Worker
  import opened ActionLedger

  /** An action run in progress: about to call, or called and not yet saved. */
  datatype Flight = Ready(node: string) | Made(node: string, success: bool, externalId: Option<string>)

  /**
   * `reading` holds what each resume request has read and not yet written; `lost` lists the
   * successful calls whose success was never saved; `claims` and `resumes` count per job.
   */
  datatype System = System(
    jobs: Table, held: map<string, Job>, reading: map<string, Job>, flights: map<string, Flight>,
    rows: seq<ActionRow>, calls: seq<Call>, lost: seq<Key>, answers: seq<Answer>,
    claims: map<string, nat>, resumes: map<string, nat>)

  const INIT := System(map[], map[], map[], map[], [], [], [], [], map[], map[])

  datatype Step =
    | Enqueue(job: Job)
    | Claim(worker: string, id: string, now: int)
    | Look(worker: string, node: string)
    | Invoke(worker: string, success: bool, externalId: Option<string>)
    | Save(worker: string, audited: bool)
    | SaveFails(worker: string)
    | Finish(worker: string, result: AttemptResult, now: int, retryAt: int)
    | Crash(worker: string)
    | CancelJob(tenant: string, id: string, now: int)
    | ReadJob(client: string, id: string)
    | ResumeJob(client: string, approved: bool)
    | Recover(now: int)

  function FlightKey(s: System, w: string): Key
    requires w in s.held && w in s.flights
  {
    Key(s.held[w].tenant, s.held[w].execution, s.flights[w].node)
  }

  /** A job as it is first submitted, for an execution of its own. */
  predicate IsNew(s: System, job: Job)
  {
    && job.id !in s.jobs && job.status == QUEUED && job.attempts == 0 && job.worker == None
    && ':' !in job.execution && forall id :: id in s.jobs ==> s.jobs[id].execution != job.execution
  }

  /** The row as the resume route writes it. */
  function Requeued(job: Job, approved: bool): Job
  {
    job.(status := QUEUED, worker := None, runAt := None, action := RESUME(approved))
  }

  /** Whether the code can take a step; recovery and the resume route look at no worker. */
  ghost predicate Possible(s: System, step: Step)
  {
    match step
    case Enqueue(job) => IsNew(s, job)
    case Claim(w, id, now) => w !in s.held && w != SUSPENDED && IsNext(s.jobs, id, now)
    case Look(w, _) => w in s.held && w !in s.flights
    case Invoke(w, _, _) => w in s.flights && w in s.held && s.flights[w].Ready?
    case Save(w, _) => w in s.flights && w in s.held && s.flights[w].Made?
    case SaveFails(w) => w in s.flights && w in s.held && s.flights[w].Made?
    case Finish(w, _, _, _) => w in s.held && w !in s.flights
    case Crash(w) => w in s.held
    case CancelJob(tenant, id, _) => Cancellable(s.jobs, tenant, id)
    case ReadJob(_, id) => id in s.jobs
    case ResumeJob(client, _) => client in s.reading
    case Recover(_) => true
  }

  ghost predicate Unheld(s: System, id: string)
  {
    forall w :: w in s.held ==> s.held[w].id != id
  }

  /** The job has not been claimed since `client` read it. */
  predicate StillAsRead(s: System, client: string)
    requires client in s.reading
  {
    var read := s.reading[client];
    read.id in s.jobs && s.jobs[read.id].attempts == read.attempts
  }

  /** A step that takes no job from under a worker and overtakes no claim. */
  ghost predicate Guarded(s: System, step: Step)
  {
    match step
    case Recover(_) => s.held == map[]
    case ResumeJob(client, _) => client in s.reading ==> Unheld(s, s.reading[client].id) && StillAsRead(s, client)
    case _ => true
  }

  function LostBy(s: System, w: string): seq<Key>
  {
    if w in s.flights && w in s.held && s.flights[w].Made? && s.flights[w].success then [FlightKey(s, w)] else []
  }

  /** The success that the lookup returns. */
  ghost function SavedSuccess(rows: seq<ActionRow>, k: Key): (row: ActionRow)
    requires SuccessfulRows(rows, k) > 0
    ensures row in rows && Matches(row, k)
  {
    NoRowNoMatch(rows, k);
    var row :| row in rows && Matches(row, k);
    row
  }

  /** What the lookup finds: an answer if some success is saved, else the node is about to be called. */
  ghost function Looked(s: System, w: string, node: string): System
    requires w in s.held
  {
    var k := Key(s.held[w].tenant, s.held[w].execution, node);
    if SuccessfulRows(s.rows, k) == 0 then s.(flights := s.flights[w := Ready(node)])
    else s.(answers := s.answers + [Answer(k, SavedSuccess(s.rows, k).externalId)])
  }

  function Enqueuing(s: System, job: Job): System
  {
    if FireTaken(s.jobs, job.fireId) then s
    else s.(jobs := s.jobs[job.id := job], claims := s.claims[job.id := 0], resumes := s.resumes[job.id := 0])
  }

  function Claiming(s: System, w: string, id: string, now: int): System
    requires id in s.jobs
  {
    var job := Claimed(s.jobs[id], w, now);
    s.(jobs := s.jobs[id := job], held := s.held[w := job], claims := Bump(s.claims, id))
  }

  function Invoking(s: System, w: string, success: bool, externalId: Option<string>): System
    requires w in s.held && w in s.flights
  {
    s.(flights := s.flights[w := Made(s.flights[w].node, success, externalId)],
       calls := s.calls + [Call(FlightKey(s, w), success, externalId)])
  }

  function Saving(s: System, w: string, audited: bool): System
    requires w in s.held && w in s.flights && s.flights[w].Made?
  {
    var k, f := FlightKey(s, w), s.flights[w];
    s.(flights := s.flights - {w},
       rows := s.rows + RowsOf(k, Returned(f.success, f.externalId), Persistence(true, audited)),
       answers := if f.success && audited then s.answers + [Answer(k, f.externalId)] else s.answers)
  }

  function FailingToSave(s: System, w: string): System
    requires w in s.held && w in s.flights
  {
    s.(flights := s.flights - {w}, rows := s.rows + [RowFor(FlightKey(s, w), false, None)],
       lost := s.lost + LostBy(s, w))
  }

  function Finishing(s: System, w: string, result: AttemptResult, now: int, retryAt: int): System
    requires w in s.held
  {
    s.(jobs := Written(s.jobs, s.held[w], result, now, retryAt), held := s.held - {w})
  }

  function Crashing(s: System, w: string): System
  {
    s.(held := s.held - {w}, flights := s.flights - {w}, lost := s.lost + LostBy(s, w))
  }

  function Cancelling(s: System, id: string, now: int): System
    requires id in s.jobs
  {
    s.(jobs := s.jobs[id := s.jobs[id].(status := CANCELLED, completedAt := Some(now))])
  }

  /** The resume route writes back the row as it read it, in a transaction of its own. */
  function Resuming(s: System, client: string, approved: bool): System
    requires client in s.reading
  {
    var read := s.reading[client];
    s.(jobs := Updated(s.jobs, read.tenant, Requeued(read, approved)), resumes := Bump(s.resumes, read.id),
       reading := s.reading - {client})
  }

  function Recovering(s: System, now: int): System
  {
    s.(jobs := RecoveredTable(s.jobs, now))
  }

  ghost function Next(s: System, step: Step): System
    requires Possible(s, step)
  {
    match step
    case Enqueue(job) => Enqueuing(s, job)
    case Claim(w, id, now) => Claiming(s, w, id, now)
    case Look(w, node) => Looked(s, w, node)
    case Invoke(w, success, externalId) => Invoking(s, w, success, externalId)
    case Save(w, audited) => Saving(s, w, audited)
    case SaveFails(w) => FailingToSave(s, w)
    case Finish(w, result, now, retryAt) => Finishing(s, w, result, now, retryAt)
    case Crash(w) => Crashing(s, w)
    case CancelJob(_, id, now) => Cancelling(s, id, now)
    case ReadJob(client, id) => s.(reading := s.reading[client := s.jobs[id]])
    case ResumeJob(client, approved) => Resuming(s, client, approved)
    case Recover(now) => Recovering(s, now)
  }

  function Bump(counts: map<string, nat>, id: string): map<string, nat>
  {
    counts[id := (if id in counts then counts[id] else 0) + 1]
  }

  /** A step that is not possible does not happen. */
  ghost function Do(s: System, step: Step): System
  {
    if Possible(s, step) then Next(s, step) else s
  }

  ghost function RunFrom(s: System, steps: seq<Step>): System
    decreases |steps|
  {
    if steps == [] then s else RunFrom(Do(s, steps[0]), steps[1..])
  }

  ghost function Run(steps: seq<Step>): System
  {
    RunFrom(INIT, steps)
  }

  /** Every step of the run is guarded where it is taken. */
  ghost predicate Orderly(s: System, steps: seq<Step>)
    decreases |steps|
  {
    steps != [] ==> Guarded(s, steps[0]) && Orderly(Do(s, steps[0]), steps[1..])
  }

  /** One job is never with two workers at a time. */
  ghost predicate Exclusive(s: System)
  {
    forall v, w :: v in s.held && w in s.held && s.held[v].id == s.held[w].id ==> v == w
  }

  ghost predicate NeverDoublyHeld(s: System, steps: seq<Step>)
    decreases |steps|
  {
    Exclusive(s) && (steps != [] ==> NeverDoublyHeld(Do(s, steps[0]), steps[1..]))
  }

  /** A look changes no table: it gives an answer or makes its worker ready to call. */
  lemma LookAnswersOrReadies(s: System, w: string, node: string)
    requires w in s.held
    ensures var t := Looked(s, w, node); var k := Key(s.held[w].tenant, s.held[w].execution, node);
      && t == s.(flights := t.flights, answers := t.answers)
      && (t.flights == s.flights || (t.flights == s.flights[w := Ready(node)] && SuccessfulRows(s.rows, k) == 0))
  {
  }

  /** The steps of one action run, saved or not, have the effect of one run of the action engine. */
  lemma UninterruptedStepsAreOneRun(s: System, w: string, node: string, result: CallResult, p: Persistence)
    requires w in s.held && w !in s.flights
    ensures var k := Key(s.held[w].tenant, s.held[w].execution, node); var t := ActionSteps(s, w, node, result, p);
      exists r :: Runs(k, s.rows, s.calls, result, p, t.rows, t.calls, r)
        && t == s.(rows := t.rows, calls := t.calls, lost := t.lost, answers := s.answers + AnswersOf(k, r))
  {
    var k := Key(s.held[w].tenant, s.held[w].execution, node);
    var t := ActionSteps(s, w, node, result, p);
    NoRowNoMatch(s.rows, k);
    if SuccessfulRows(s.rows, k) > 0 {
      var row :| row in s.rows && Matches(row, k) && t.answers == s.answers + [Answer(k, row.externalId)];
      assert Runs(k, s.rows, s.calls, result, p, t.rows, t.calls, Ok(ActionResult(true, row.externalId)));
    } else {
      assert t.flights == s.flights;
      assert Runs(k, s.rows, s.calls, result, p, t.rows, t.calls, ResultOf(result, p));
    }
  }

  /** A run that reports a success gives an answer. */
  function AnswersOf(k: Key, r: Result<ActionResult, ActionError>): seq<Answer>
  {
    if r.Ok? && r.value.success then [Answer(k, r.value.externalId)] else []
  }

  /** Looking, calling and saving without interruption. */
  ghost function ActionSteps(s: System, w: string, node: string, result: CallResult, p: Persistence): System
    requires w in s.held && w !in s.flights
  {
    var looked := Looked(s, w, node);
    if w !in looked.flights then looked
    else
      var call := CallOf(FlightKey(looked, w), result);
      var called := Invoking(looked, w, call.success, call.externalId);
      if result.Returned? && p.saved then Saving(called, w, p.audited) else FailingToSave(called, w)
  }
}
