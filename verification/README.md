# RunbookMind in Dafny

A model of the parts of RunbookMind whose correctness is not visible from one function, with proofs
about them. `dafny verify dfyconfig.toml` checks everything.

RunbookMind compiles runbooks into branching execution graphs and runs them through a durable,
retrying job queue with human approval gates. The model covers eight components:

| component | files | what is shown |
|---|---|---|
| field matching | `EditDistance`, `FieldVotes`, `FieldMatching`, `StableSort`, `Text` | the distance table is the minimum over all edit scripts although it skips two cells on equal characters, the distance is a metric, and the matcher pipeline elects the field that the term and the schema alone single out |
| planning | `ExecutionGraph`, `GraphValidator`, `Planner`, `PlanShape`, `PlanEdges` | the stateful routing equals a stateless definition, its graphs always validate, go forward and never mix edge kinds, and their edges and conditions are those the runbook states; validation is exactly reachability |
| execution | `ExecutionEngine`, `ExecutionHistory`, `StrandedExecutions`, `PlannedRuns`, `GraphRuns` | the loop refines a recursive specification; its runs follow the graph edge by edge, and on a plan a smooth execution completes; depth, approval and path guarantees over every history of begin, resume and cancel, each with a world of its own and the process dying anywhere inside; exactly when an execution is stranded |
| durable jobs | `JobQueue`, `Worker`, `ActionLedger`, `DurableProtocol`, `DurableRuns`, `OrderlyRuns`, `DoubleHolds`, `ClaimBudget`, `ActionProtocol`, `RepeatedCalls`, `ApprovedCalls`, `SettledJobs`, `DurableScenarios` | a step system over shared tables with crashes, recoveries and resumes between any two steps: no lost job, bounded attempts and claims, exactly when one job can come to two workers and when a connector call can be repeated, no call without its approval, and no settled job moved but by a resume |
| scheduling | `CronPattern`, `Calendar`, `Cron`, `CronMeaning`, `YearlyCron`, `Scheduler`, `SchedulerHistory`, `YearlyTicks` | least-match search against a verified calendar; each fire at most once and on time over any run with crashed ticks; exactly when one schedule stops all |
| limits | `RateLimiter`, `Connector` | the pruned list refines the full history in every window; the circuit record is a function of the call log |
| vault | `SecretStore`, `SecretCache`, `Vault`, `SharedVault` | versions are 1 to k with k current over every history; every answer, cached or not, is the plaintext of the requested enabled version, and how stale it can be when other services write too |
| policies | `PolicyRules`, `PolicyEngine`, `PolicyLaws` | deny-overrides within the top priority, said key by key, with the first such rule named; independent of every listing order; exactly when simulation agrees |

Code that changes state is modelled by classes and loops whose contracts tie the new state to a
function of the old one; the theorems are about those functions. Facts from outside the code, such
as branch conditions, policy decisions, call outcomes, clock readings, fresh ids and crashes, are
parameters, and each command or step has its own, so every theorem holds for all of them.  What an operation
means is stated in the terms of its caller as well: the words of a runbook, the fields of a cron expression, the
keys of a policy, the columns of a row.

Some promises turned out to hold only under a condition. Each is kept as the code has it, with an
input on which it fails and the exact condition under which it holds:

- *A node's connector call succeeds once.* It can succeed twice after a crash between call and save
  (`CrashCanRepeatACall`), and, with nothing lost, while one job is with two workers (`RecoveryCanRepeatACall`,
  `ResumeCanRepeatACall`); then its answers can differ too (`AnswersCanDiffer`). While no job is with two workers,
  calls succeed at most once more than successes were lost (`CallsSucceedOncePlusLosses`) and answers agree
  (`AnswersAgree`). A repeat without a loss, or a second answer, may follow if and only if a double hold may
  (`RepeatIffDoubleHold`): after a recovery, if and only if some worker then holds a job with attempts left
  (`RecoveryMayRepeat`); after a resume, if and only if some worker then holds that job (`ResumeMayRepeat`); before
  either, never (`OrderlyNeverRepeats`).
- *A job is with one worker.* Orphan recovery also takes jobs that a live worker is running: afterwards,
  without a further unguarded step, a job can come to two workers if and only if some worker held a job with attempts
  left (`RecoveryMayDoublyHold`). The resume route reads the job and writes it back in two transactions and looks at
  no worker: afterwards it can if and only if a worker held that job at the write (`ResumeMayDoublyHold`).
- *A job is claimed at most `max_attempts` times.* The resume route does not reset `attempt_count`, so the bound is
  max(1, `max_attempts`) plus the resumes. The attempts of a row never exceed it (`AttemptsAreBounded`), and in runs
  without an unguarded recovery or resume they count the claims (`ClaimsAreBoundedAndExclusive`). Elsewhere a stale
  copy written back lowers the attempts of the row and adds claims (`StaleCopyAddsAClaim`), yet no more than
  2^max(1, `max_attempts`) - 1 for each start, in every run (`ClaimsStayInBudget`).
- *An approved execution goes on.* The decision is stored before its audit entry is written, the bundle is loaded and
  the loop is entered. If the process dies before the loop ends, or the entry is not written, or the bundle is gone,
  the execution is running with nothing left to decide. `StrandedIff` says for every command and every point of death
  exactly when; until another attempt or a cancellation every later resume is refused
  (`StrandedUntilBegunOrCancelled`). No node runs without its grant either way (`HistoryGated`, `CallsAreApproved`).
- *The next run of a schedule is found.* The search looks 365 days ahead, so a run once a year is missed exactly when
  the next one is farther away (`YearlyRunIsFound`): for a day that every year has, during the day after a run that a
  leap day follows (`EveryYearRunIsFound`, `NewYearIsMissed`); for 29 February, outside the time from 1 March before a
  leap year to its leap day (`LeapDayRunIsFound`, `LeapDayIsMissed`).
- *A tick moves every due schedule on.* It commits if and only if every due row has a next run and every misfire is
  audited (`CommitsUnlessOneIsBad`). One due schedule without a next run stops all (`ScheduleWithoutRunStopsAll`):
  for good if it never has one (`OneBrokenScheduleStopsAll`, `ZeroMinuteStepIsBroken`), and if it runs once a year,
  exactly during the day after its run before a leap day (`YearlyTickCommitsIff`, `YearlyScheduleStopsAll`).
- *Simulation predicts evaluation.* It ignores priorities (`SimulationIgnoresPriority`); the two agree if and only if
  a matching denial is never outranked by every other match (`SimulationAgreesIff`), and on all contexts if and only if
  no denial and no rule outranking it meet in a context of just their keys that no denial of that priority matches
  (`SimulationAlwaysAgreesIff`).
- *A rotated secret is served.* A service hears only of its own rotations. With other services on the table, a
  numbered version is always served right; the current one is served right or, after a rotation by another service, as
  it was at a resolution at most one time-to-live ago (`ServedIsRecent`), which can be several versions back
  (`OlderVersionIsServed`).

Where the code and its documentation part without a promise being broken: the pipeline of matchers is described as
ranked, and lists substrings before spelling, but similar spelling scores higher (`StageOrder`), and the final
threshold of 0.6 rejects nothing (`VoteRange`).

## Model

| member | source | states |
|---|---|---|
| `EditDistance.TableDistance` | app/schema/intelligence.py:11-25 | what the nested loops leave in the last cell is the length of a shortest insert/delete/substitute script |
| `EditDistance.FillRow` | app/schema/intelligence.py:19-23 | the inner loop fills one row with the distances of all prefixes and touches no other row |
| `EditDistance.ShortcutIsFullRecurrence` | app/schema/intelligence.py:20-23 | taking only the diagonal on equal characters loses nothing against all three minima |
| `EditDistance.Cell` | app/schema/intelligence.py:20-23 | the code's rule for one cell computes the distance of the two prefixes |
| `EditDistance.Neighbours` | app/schema/intelligence.py:18-23 | adjacent cells differ by at most one |
| `EditDistance.NoScriptIsShorter` | app/schema/intelligence.py:18-25 | no edit script from one string to the other is shorter than the computed distance |
| `EditDistance.ShortestScript` | app/schema/intelligence.py:18-25 | some script has exactly that length |
| `EditDistance.DistanceIsShortest` | app/schema/intelligence.py:11-25 | the distance is the minimum over all scripts, each run edit by edit |
| `EditDistance.Symmetric` | app/schema/intelligence.py:11-25 | the distance does not depend on the order of the strings |
| `EditDistance.ZeroIffEqual` | app/schema/intelligence.py:11-25 | distance zero means equal strings, and conversely |
| `EditDistance.Triangle` | app/schema/intelligence.py:11-25 | the triangle inequality |
| `EditDistance.Bounds` | app/schema/intelligence.py:11-25 | at most the longer length, at least the difference of lengths |
| `EditDistance.LevenshteinSimilarity` | app/schema/intelligence.py:4-26 | similarity lies in [0, 1] and is 1 exactly for equal non-empty strings, shortcuts included |
| `EditDistance.SimilarityLaws` | app/schema/intelligence.py:4-26 | similarity is symmetric, in [0, 1], and 1 only for equality |
| `FieldMatching.Score` | app/schema/intelligence.py:29-96 | each stage votes, in field order, for exactly the fields that merit it: equal, synonym, overlapping, or similar by at least 0.6, the last with 0.7 and a tenth of the similarity, rounded |
| `FieldMatching.Tally` | app/schema/intelligence.py:124-126 | the dictionary keeps each field's best vote, its keys in order of first vote |
| `FieldMatching.RunPipeline` | app/schema/intelligence.py:119-126 | after all stages the dictionary tallies the whole ballot |
| `FieldMatching.BestItem` | app/schema/intelligence.py:131-133 | the head of the stable descending sort wins the ballot |
| `FieldMatching.ResolveField` | app/schema/intelligence.py:110-139 | the first field equal to the term with 1.0, else the first synonym with 0.9, else the most similar up to rounding with that confidence, else the first overlapping with 0.75, else none with 0.5 |
| `FieldVotes.WinnerIsResolved` | app/schema/intelligence.py:99-139 | the winner of the ballot is that field, said without votes |
| `FieldVotes.ResemblingMoreVotesMore` | app/schema/intelligence.py:85-96 | a field more similar to the term never gets the lower spelling vote |
| `FieldVotes.BallotMembers` | app/schema/intelligence.py:122-126 | the ballot holds exactly the votes of the stages that match a listed field |
| `FieldVotes.VoteRange` | app/schema/intelligence.py:135-139 | every vote is at least 0.75, so the 0.6 threshold never rejects |
| `FieldVotes.StageOrder` | app/schema/intelligence.py:99-137 | exact beats synonym beats similar spelling beats substring, with the winning score and field of each |
| `FieldVotes.TiesGoToTheFirstField` | app/schema/intelligence.py:122-133 | a constant-score stage elects the first schema field it matches |
| `StableSort.SortLaws` | app/schema/intelligence.py:132-132 | the sort is a permutation in descending key order |
| `StableSort.SortStable` | app/governance/policy_engine.py:56-60 | equal keys keep their order |
| `GraphValidator.Search.Dfs` | app/planner/planner.py:181-189 | the search terminates and adds only reachable nodes, closed under edges |
| `GraphValidator.ValidateGraph` | app/planner/planner.py:140-198 | accepts exactly when entry and endpoints exist and every node is reachable; each error names its fault |
| `GraphValidator.OrphansAreUnreachable` | app/planner/planner.py:170-178 | the orphan check is implied by the reachability check |
| `GraphValidator.MapEdges` | app/planner/planner.py:158-168 | adjacency lists and counters agree with the edges, or an edge with an unknown endpoint is found |
| `Planner.RouteEdges` | app/planner/planner.py:81-126 | the loop over last decision and open leaves yields the edges of the stateless definition |
| `Planner.RouteBranch` | app/planner/planner.py:101-110 | a conditional step branches from the last unconditional one and opens a leaf |
| `Planner.RouteMerge` | app/planner/planner.py:111-126 | an unconditional step closes all open leaves, or follows its predecessor |
| `Planner.GenerateGraph` | app/planner/planner.py:48-138 | never fails validation; an empty compilation is refused |
| `PlanEdges.PlanReadsTheRunbook` | app/planner/planner.py:81-126 | an edge carries a condition exactly when its target has one or begins with if, when, unless or else, and its text is the condition, or the description without one; edges lead from the last unconditional step into each conditional one, and from all of these into the next unconditional one |
| `Planner.PlanIsConnected` | app/planner/planner.py:135-198 | every plan passes every validation rule, whatever the step ids |
| `Planner.EdgesBeforeMembers` | app/planner/planner.py:86-126 | edges join exactly the steps that lead into one another, conditional exactly when the target is |
| `PlanShape.PlanGoesForward` | app/planner/planner.py:86-126 | every edge leads from an earlier to a later step |
| `PlanShape.PlanIsUnmixed` | app/planner/planner.py:101-126 | a node's outgoing edges are none, one default edge, or all conditional |
| `PlanShape.PlanEdgeCount` | app/planner/planner.py:86-126 | between n - 1 and 2(n - 1) edges |
| `PlanShape.PlanLeaves` | app/planner/planner.py:86-126 | the leaves are exactly the last step and the steps of a final conditional block |
| `ExecutionEngine.RouteIsEdge` | app/runtime/engine.py:721-762 | the next node is the target of an outgoing edge |
| `ExecutionEngine.FirstHoldingIsEdge` | app/runtime/engine.py:730-736 | a branch is taken only on a condition that holds, and none is missed |
| `ExecutionEngine.FirstDefaultIsEdge` | app/runtime/engine.py:738-743 | the fallback is an edge without a condition |
| `GraphRuns.RouteTakes` | app/runtime/engine.py:721-762 | the next node is the target of the first edge of the graph that leaves the node with a branch that holds, else of the first with neither branch nor condition, and there is none exactly when no edge is taken |
| `GraphRuns.SucceedingVisit` | app/runtime/engine.py:716-781 | a visit that succeeds goes on to the edge taken, completes exactly at a leaf, and fails exactly when a node with edges has none to take |
| `GraphRuns.DeniedVisit` | app/runtime/engine.py:252-292 | a node that a policy denies is neither run nor put up for approval: the execution fails as a policy violation |
| `GraphRuns.FailingVisit` | app/runtime/engine.py:374-716 | a body that fails ends the execution with its category and a failed run; one that breaks, as a runtime error with its run left open |
| `GraphRuns.BarredVisit` | app/runtime/engine.py:229-358 | the limit and a missing node fail as runtime errors and a manual gate as a validation error, without a run; a gate that asks leaves one more approval and the cursor there |
| `GraphRuns.RejectionFails` | app/runtime/engine.py:134-184 | a rejection runs nothing and fails the execution, with the decision stored |
| `GraphRuns.RunsFollowTheGraph` | app/runtime/engine.py:229-781 | every node run was permitted when it began and is stored as its body ended, the next run is where the edge taken leads, and completion is at a leaf that succeeded |
| `GraphRuns.SmoothAttemptCompletes` | app/runtime/engine.py:210-781 | under AUTO, on a plan within the limit, an attempt that is permitted, succeeds and has a branch that holds at every decision completes at a leaf |
| `GraphRuns.SmoothApprovalsComplete` | app/runtime/engine.py:122-169 | under HUMAN_IN_LOOP such an execution completes after at most as many approvals as the plan has steps |
| `ExecutionEngine.Engine.RunNode` | app/runtime/engine.py:360-716 | the node run is stored before the body and closed by its outcome |
| `ExecutionEngine.Engine.RunLoop` | app/runtime/engine.py:210-794 | the loop terminates on any graph and leaves the rows of the recursive specification, with exceptions before, in and after a node and from the audit entry that ends it |
| `ExecutionEngine.Engine.Execute` | app/runtime/engine.py:68-120 | starts at the entry node; without a bundle or entry nothing is written; a failing audit entry leaves the execution begun |
| `ExecutionEngine.Engine.Resume` | app/runtime/engine.py:122-184 | needs a running execution and an undecided approval; approval bypasses the gate of that node only; a failing audit entry or missing bundle leaves the decision stored |
| `ExecutionEngine.Engine.Cancel` | app/runtime/engine.py:186-208 | only a pending or running execution is cancelled |
| `ExecutionHistory.WholeLoop` | app/runtime/engine.py:210-794 | the loop ends of itself within the limit: cut off later it has stored what the whole loop stores |
| `ExecutionHistory.DepthNeverExceeded` | app/runtime/engine.py:225-246 | on any graph, over any attempts, pauses, resumes and deaths, an attempt never stores more node runs than the limit |
| `ExecutionHistory.HistoryGated` | app/runtime/engine.py:122-371 | under HUMAN_IN_LOOP, over any attempts and wherever the process dies inside one, run k is of the node of approval k, granted before it; at most the last is undecided, and it is the cursor's |
| `ExecutionHistory.LoopGated` | app/runtime/engine.py:294-358 | one run of the loop, ended or cut off anywhere, keeps that correspondence |
| `ExecutionHistory.UngatedModes` | app/runtime/governance.py:8-22 | over all such histories AUTO asks for no approval, and MANUAL runs no node and completes nothing |
| `StrandedExecutions.StrandedIff` | app/runtime/engine.py:80-184 | for any rows and any command, whole or with the process dying anywhere inside, exactly when it leaves the execution running with nothing to decide: missing bundle, unwritten audit entry, death before the loop has ended |
| `StrandedExecutions.StrandedUntilBegunOrCancelled` | app/runtime/engine.py:134-140 | such an execution refuses every resume |
| `PlannedRuns.HistoryOnPlan` | app/runtime/engine.py:229-250 | on a plan within the limit, over any attempts and deaths, all runs ascend one path from the entry; neither the depth limit nor a missing node is ever hit; a completed execution whose runs were not cleared has ended at a leaf |
| `PlannedRuns.LoopOnPlan` | app/runtime/engine.py:721-762 | one run of the loop, ended or cut off anywhere, extends the path |
| `PlannedRuns.NoStructuralFailure` | app/runtime/engine.py:231-250 | at a step of a plan the limit is not reached and the node exists |
| `JobQueue.Queue.Enqueue` | app/jobs/queue.py:18-65 | stores the job unless its id or its fire id is taken |
| `JobQueue.Queue.Dequeue` | app/jobs/queue.py:67-141 | claims a due job minimal by (priority, created_at), and returns nothing only when none is due |
| `JobQueue.Queue.Cancel` | app/jobs/queue.py:231-252 | only a waiting job of the tenant is cancelled |
| `JobQueue.Queue.UpdateJob` | app/jobs/queue.py:254-284 | writes exactly the listed columns of the tenant's row |
| `JobQueue.Queue.GetQueueDepth` | app/jobs/queue.py:286-301 | counts the waiting jobs of a tenant, or of all |
| `Worker.BackgroundWorker.RecoverOrphanedJobs` | app/jobs/worker.py:57-106 | in one transaction every running row but the suspended ones is requeued or failed by its attempts; one failing audit entry undoes all |
| `Worker.BackgroundWorker.HandleFailure` | app/jobs/worker.py:201-226 | retries while attempts are left, else fails |
| `Worker.BackgroundWorker.ProcessJob` | app/jobs/worker.py:126-226 | one attempt leaves the engine's rows; a completed execution's job is completed, a paused one's is suspended under HIL_SUSPENDED, and a failed one's waits for its retry or fails |
| `Worker.AttemptIsCommand` | app/jobs/worker.py:140-178 | an attempt is exactly a begin or a resume of the execution's history |
| `ActionLedger.ActionEngine.GetSuccessful` | app/storage/sqlite.py:1083-1115 | finds a saved success of the key exactly when there is one |
| `ActionLedger.ActionEngine.Execute` | app/actions/engine.py:164-305 | a saved success answers without a call; otherwise one call, and rows and result by how call, save and audit entry went |
| `ActionLedger.KeysDiffer` | app/actions/engine.py:183-184 | idempotency keys of colon-free execution ids never collide |
| `ActionLedger.ColonsCollide` | app/actions/engine.py:183-184 | two nodes share a key when an execution id has a colon |
| `ActionLedger.OneRowIsUnique` | app/storage/sqlite.py:1083-1115 | with one saved success the lookup has one answer |
| `DurableProtocol.UninterruptedStepsAreOneRun` | app/actions/engine.py:182-305 | looking, calling and saving, saved and audited or not, meet the same specification as one run of the action engine |
| `DurableRuns.StepKeepsRunInv` | app/jobs/queue.py:67-133 | every step the code can take, unguarded recovery and resume included, keeps identities, own executions and the bounds of rows and copies |
| `DurableRuns.AttemptsAreBounded` | app/jobs/queue.py:100-111 | after any steps the attempts of a job are at most max(1, max_attempts) + resumes, and fewer while it waits |
| `DurableRuns.JobsAreNeverLost` | app/jobs/worker.py:57-101 | no step loses a job or changes its identity |
| `DurableRuns.JobsStayFound` | app/jobs/queue.py:143-183 | from its submission on a job is found by its own tenant, and by no other |
| `SettledJobs.SettledForGood` | app/jobs/worker.py:183-226 | after the attempt of its only holder a job that completed, paused or failed for good stays so and unclaimed, over any steps, recoveries included, until it is resumed |
| `SettledJobs.RetriesWait` | app/jobs/worker.py:201-214 | after a failure with attempts left the job is claimed next only from its retry time on, unless it is resumed |
| `OrderlyRuns.StepKeepsJobInv` | app/jobs/queue.py:67-133 | a guarded step keeps every copy equal to its row and every claim counted |
| `OrderlyRuns.ClaimsAreBoundedAndExclusive` | app/jobs/queue.py:100-111 | after an orderly run no job has two holders and its claims are its attempts, within the bound |
| `DoubleHolds.DoubleHoldIffInReach` | app/jobs/queue.py:67-133 | a double hold may follow if and only if one exists or a job with a worker waits to be claimed |
| `DoubleHolds.RecoveryMayDoublyHold` | app/jobs/worker.py:57-101 | after a recovery, if and only if some worker held a job with attempts left |
| `DoubleHolds.ResumeMayDoublyHold` | app/web/routes.py:943-973 | after a resume is written, if and only if some worker held that job then |
| `ClaimBudget.ClaimsStayInBudget` | app/jobs/worker.py:201-226 | over any steps a job is claimed at most 2^max(1, max_attempts) - 1 times for each of its starts |
| `DurableScenarios.StaleCopyAddsAClaim` | app/jobs/queue.py:254-284 | a stale copy lowers attempt_count: two attempts, no resume, three claims |
| `DurableScenarios.CrashCanRepeatACall` | app/actions/engine.py:206-230 | an orderly run with a crash between call and save calls successfully twice |
| `DurableScenarios.RecoveryCanRepeatACall` | app/jobs/worker.py:57-78 | recovery beside a live worker: two holders and two successful calls, none lost |
| `DurableScenarios.ResumeCanRepeatACall` | app/web/routes.py:964-973 | a resume beside a live worker does the same |
| `DurableScenarios.AnswersCanDiffer` | app/actions/engine.py:182-230 | saved, the two successful calls after a recovery answer differently for one node, with nothing lost |
| `ActionProtocol.StepKeepsActionInv` | app/actions/engine.py:182-305 | any step from a state without a double hold keeps the accounts of calls, saved successes and losses of every node |
| `ActionProtocol.CallsSucceedOncePlusLosses` | app/actions/engine.py:182-230 | in any run in which no job is with two workers, a node's calls succeed at most once beyond those lost before saving |
| `ActionProtocol.AnswersAgree` | app/actions/engine.py:185-198 | in such a run all answers of a node carry the external id of one successful call |
| `RepeatedCalls.RepeatIffDoubleHold` | app/actions/engine.py:182-230 | some orderly continuation succeeds twice more than it lost, and some answers twice differently, if and only if some orderly continuation gives one job to two workers |
| `RepeatedCalls.RecoveryMayRepeat` | app/jobs/worker.py:57-101 | after an orderly run and a recovery: if and only if some worker holds a job with attempts left |
| `RepeatedCalls.ResumeMayRepeat` | app/web/routes.py:943-973 | after an orderly run and the write of a resume: if and only if some worker holds that job |
| `RepeatedCalls.OrderlyNeverRepeats` | app/actions/engine.py:182-230 | after an orderly run neither can follow without an unguarded step |
| `ApprovedCalls.CallsAreApproved` | app/runtime/engine.py:122-371 | however the steps of any workers interleave, double holds included, an execution that is not AUTO calls a node's connector at most once for each time that node was approved before |
| `ApprovedCalls.EveryCallWasApproved` | app/runtime/engine.py:122-371 | at no time is a call logged whose node was not approved before |
| `ApprovedCalls.GatedRunsAreRuns` | app/jobs/worker.py:126-167 | the gate only restricts the step protocol: every gated run is one of its runs |
| `CronPattern.StepMatchesMultiples` | app/jobs/scheduler.py:19-24 | a step matches exactly the multiples of its number |
| `CronPattern.SignedStepMatchesAlike` | app/jobs/scheduler.py:19-24 | a sign before the number of a step changes nothing |
| `CronPattern.ListMatchesItsNumbers` | app/jobs/scheduler.py:25-30 | a comma list matches exactly its numbers |
| `CronPattern.LiteralMatchesOne` | app/jobs/scheduler.py:31-33 | a number matches exactly itself |
| `CronPattern.SplitJoin` | app/jobs/scheduler.py:26-26 | splitting at commas undoes joining |
| `Calendar.DateOfDayNumber` | app/jobs/scheduler.py:46-56 | day by day, the calendar counts days since 0001-01-01 |
| `Calendar.DayNumberDateOf` | app/jobs/scheduler.py:46-56 | and back: every valid date is reached at its day number |
| `Calendar.Anniversary` | app/jobs/scheduler.py:46-56 | from one anniversary to the next are 365 days, 366 across a leap day |
| `Calendar.LeapDayAfterMarch` | app/jobs/scheduler.py:46-56 | 29 February comes 365 days after 1 March of the year before |
| `Cron.GetNextRun` | app/jobs/scheduler.py:36-63 | the loop computes the least-match search |
| `CronMeaning.MatchesAsMeant` | app/jobs/scheduler.py:15-33 | a field written as any, every k-th, a list or one number matches exactly the values meant |
| `CronMeaning.NextRunAsMeant` | app/jobs/scheduler.py:36-63 | the result is the first minute of the next 525600 whose minute, hour, weekday (Sunday 0), and day and month by the calendar are meant; an error says there is none |
| `CronMeaning.SundayRunsOnSunday` | app/jobs/scheduler.py:58-62 | asked on Friday 2024-01-05, a schedule for nine on Sundays runs on Sunday 2024-01-07 at nine |
| `Cron.NextRunIsLeast` | app/jobs/scheduler.py:36-63 | the result is the least matching minute of the next 525600, strictly after base; the errors mean what they say |
| `Cron.FoundIffSomeMinuteMatches` | app/jobs/scheduler.py:45-63 | without a zero step it raises if and only if no minute matches |
| `Cron.WeeklyRunIsFound` | app/jobs/scheduler.py:45-63 | with any day and month, it succeeds if and only if minute, hour and weekday are satisfiable, within 10080 minutes, within 1440 with any weekday |
| `YearlyCron.YearlyRunIsFound` | app/jobs/scheduler.py:44-63 | for one moment of the year, on any day some year has, it raises if and only if the next is more than 525600 minutes away |
| `YearlyCron.EveryYearRunIsFound` | app/jobs/scheduler.py:44-63 | for a day every year has, if and only if its last run is under a day old and a leap day comes before the next |
| `YearlyCron.LeapDayRunIsFound` | app/jobs/scheduler.py:44-63 | for 29 February, if and only if the time is not between 1 March before a leap year and its leap day |
| `YearlyCron.NewYearIsMissed` | app/jobs/scheduler.py:36-63 | a New Year schedule raises at New Year of every leap year |
| `YearlyCron.LeapDayIsMissed` | app/jobs/scheduler.py:36-63 | a 29 February schedule raises on 1 January of every common year before a common year |
| `Scheduler.CronScheduler.EvaluateSchedules` | app/jobs/scheduler.py:246-379 | schedules change only on commit, jobs row by row, over every crash point, enqueue failure and audit failure |
| `Scheduler.CronScheduler.EvaluateRow` | app/jobs/scheduler.py:267-372 | one due row: an audited misfire only moves on, otherwise one job with the fire id; no next run or a failing audit entry ends the tick |
| `Scheduler.CronScheduler.SaveSchedule` | app/jobs/scheduler.py:109-144 | an existing schedule keeps all but three columns |
| `Scheduler.CronScheduler.DeleteSchedule` | app/jobs/scheduler.py:216-233 | deletes the tenant's schedule only |
| `SchedulerHistory.DueSchedulesTrigger` | app/jobs/scheduler.py:273-372 | every enabled schedule that is due and within the lag gets its job, a first attempt at its bundle, unless that run has one or the table is locked |
| `SchedulerHistory.OnlyTriggersEnqueue` | app/jobs/scheduler.py:250-346 | every job a tick adds is that of such a schedule |
| `SchedulerHistory.FiresOnceAndOnTime` | app/jobs/scheduler.py:246-374 | over any run each fire has at most one job, created within the lag limit |
| `SchedulerHistory.CommittedTickMovesOn` | app/jobs/scheduler.py:273-374 | a committed tick moves each due schedule to its next run after now, which never fired, and marks it triggered unless it came too late; others stay |
| `SchedulerHistory.RowFiresUnless` | app/jobs/scheduler.py:277-372 | exactly when a row's fire has a job after a tick |
| `SchedulerHistory.CommitsUnlessOneIsBad` | app/jobs/scheduler.py:273-377 | a tick commits if and only if every due row has a next run and every misfire is audited |
| `SchedulerHistory.ScheduleWithoutRunStopsAll` | app/jobs/scheduler.py:273-379 | while a due schedule has no next run at the time of any tick, no schedule moves |
| `SchedulerHistory.OneBrokenScheduleStopsAll` | app/jobs/scheduler.py:239-244 | a due schedule that never has a next run stops all schedules for good |
| `SchedulerHistory.ZeroMinuteStepIsBroken` | app/jobs/scheduler.py:19-24 | a zero minute step or a wrong field count never has a next run |
| `YearlyTicks.YearlyTickCommitsIff` | app/jobs/scheduler.py:273-379 | where nothing else stops it, a tick with a due yearly schedule commits if and only if it is not in the day after that schedule's moment with a leap day before the next |
| `YearlyTicks.YearlyScheduleStopsAll` | app/jobs/scheduler.py:44-63 | all through that day no schedule moves |
| `RateLimiter.Limiter.CheckLimit` | app/connectors/base.py:31-45 | refuses if and only if the full history has the limit in the last 60 seconds, though it keeps a pruned list |
| `RateLimiter.PrunedAgrees` | app/connectors/base.py:38-39 | pruning early loses nothing that is recent later |
| `RateLimiter.NoWindowExceedsTheLimit` | app/connectors/base.py:31-45 | every half-open 60-second window has at most the limit |
| `Connector.BaseConnector.EvaluateCircuitBreaker` | app/connectors/base.py:96-126 | the state transition before a call |
| `Connector.BaseConnector.HandleSuccess` | app/connectors/base.py:128-139 | success resets the count and closes a half-open circuit |
| `Connector.BaseConnector.HandleFailure` | app/connectors/base.py:141-152 | the fifth failure in a row, or a failed trial, opens the circuit |
| `Connector.BaseConnector.Delegate` | app/connectors/base.py:66-79 | the record stays the one determined by the call log |
| `Connector.BaseConnector.Execute` | app/connectors/base.py:58-79 | count = length of the failure run, CLOSED iff under 5, OPEN iff a timestamp is set, and no call within 30 s of an opening |
| `Connector.SpacedAppend` | app/connectors/base.py:107-121 | a call after every cooldown keeps all calls clear of all openings |
| `SecretStore.Store.SaveSecret` | app/storage/sqlite.py:2011-2054 | clears the current mark of the name, then inserts or updates |
| `SecretStore.VersionsStayFound` | app/storage/sqlite.py:2056-2088 | whatever is saved or disabled later, a version is found by its id, unchanged, by its own tenant and by no other |
| `SecretStore.HistoryStaysNumbered` | app/vault/service.py:47-78 | over every history each name is numbered 1 to k, with k current |
| `SecretStore.Store.GetSecretByName` | app/storage/sqlite.py:2090-2136 | finds a row of the version, or the current one, exactly when there is one |
| `SecretStore.Store.DisableSecret` | app/storage/sqlite.py:2176-2194 | disables an enabled row of the tenant |
| `SecretStore.NextVersionKeepsNumbering` | app/vault/service.py:167-192 | a fresh row keeps every name numbered 1 to k with k current if and only if its version is k + 1 |
| `SecretStore.DisablingKeepsNumbering` | app/storage/sqlite.py:2176-2194 | disabling does not disturb the numbering |
| `SecretStore.SelectionIsUnique` | app/storage/sqlite.py:2090-2136 | a lookup has at most one answer, and a known name has a current version |
| `SecretCache.Cache.Get` | app/vault/cache.py:15-25 | serves up to expiry and drops after it |
| `SecretCache.Cache.Invalidate` | app/vault/cache.py:34-47 | drops one version, or every entry of the name |
| `SecretCache.ServesTheLastSet` | app/vault/cache.py:15-52 | over every sequence of operations a lookup serves the last value set, unless invalidated or cleared since or expired |
| `Vault.VaultService.CreateSecret` | app/vault/service.py:47-78 | creates version 1 of a new, well-named, non-empty secret, else the source's error |
| `Vault.VaultService.RotateSecret` | app/vault/service.py:154-197 | adds version k + 1 as the current one and drops the whole name from the cache |
| `Vault.VaultService.DisableSecret` | app/vault/service.py:199-210 | disables once and keeps the cache coherent |
| `Vault.VaultService.ResolveSecret` | app/vault/service.py:126-152 | the value served is for the requested or current version, which is enabled now, and its plaintext while no other service changes the table |
| `Vault.SavingKeepsCoherent` | app/vault/service.py:192-195 | saving a version and dropping the name keeps every cache entry true |
| `Vault.DisablingKeepsCoherent` | app/vault/service.py:199-210 | disabling falsifies no entry |
| `SharedVault.ServedIsRecent` | app/vault/service.py:126-152 | over all changes by this and other services, what is served is the answering row's plaintext, or, for the current version, what answered at most one time-to-live ago and another service rotated since |
| `SharedVault.EntriesAreReadRecently` | app/vault/cache.py:15-52 | every entry was read from the table at a resolution that its expiry outlives by at most the time-to-live |
| `SharedVault.OlderVersionIsServed` | app/vault/service.py:138-152 | after two foreign rotations within one time-to-live a version older than the one before is served |
| `PolicyEngine.Evaluate` | app/governance/policy_engine.py:14-113 | allows iff the kill switch is off and no matching rule of the top matched priority denies; names the first rule, by policy and place in it, that decides |
| `PolicyRules.PermittedMeans` | app/governance/policy_engine.py:38-221 | permitted means: of the rules of enabled policies of the kind whose every key has in the context the value named or one listed, none of the highest priority denies |
| `PolicyEngine.CollectMatches` | app/governance/policy_engine.py:31-48 | collects the matching rules of applicable policies in order |
| `PolicyRules.TopMembers` | app/governance/policy_engine.py:55-60 | sorting and filtering selects exactly the matches of the highest priority |
| `PolicyEngine.Simulate` | app/governance/policy_engine.py:115-154 | denies iff some matching rule denies, lists every denial, names the last |
| `PolicyLaws.OrderIrrelevant` | app/governance/policy_engine.py:38-71 | policies that decide alike give the same answer, in any order or number |
| `PolicyLaws.PolicyOrderIrrelevant` | app/governance/policy_engine.py:38-71 | any permutation of the policies gives the same answer |
| `PolicyLaws.RuleOrderIrrelevant` | app/governance/policy_engine.py:40-41 | any permutation of the rules inside policies gives the same answer |
| `PolicyLaws.OutrankedPolicyIrrelevant` | app/governance/policy_engine.py:55-60 | adding a policy that matches nothing or is outranked changes nothing |
| `PolicyLaws.SimulationAgreesIff` | app/governance/policy_engine.py:115-154 | evaluation equals simulation of the concatenated rules if and only if, when a match denies, one of top priority does |
| `PolicyLaws.SimulationAlwaysAgreesIff` | app/governance/policy_engine.py:115-154 | they agree on every context if and only if no denial is separated from a rule outranking it by a context of just the keys of both |
| `PolicyLaws.SimulationAgrees` | app/governance/policy_engine.py:115-154 | so they are equal when the applicable policies have one priority |
| `PolicyLaws.SimulationIgnoresPriority` | app/governance/policy_engine.py:128-137 | a lower-priority denial separates the two |

## Left out

- SQLite: SQL text, connections, lock waits and migrations; each locked method is one atomic step. Audit entries are modelled where they are written inside an open transaction or decide the result of an action, and dropped elsewhere.
- Timestamps as ISO strings: times are numbers. Strings with and without microseconds do not sort like times, so nothing is claimed about string order; `NULL` and empty strings are told apart.
- Text: lower-casing, stripping and digits are ASCII, so non-ASCII letters and digits in terms, step descriptions and cron fields are not covered.
- Floating point: similarities and scores are exact reals, and rounding to two decimals is half-up on them.
- FieldMatching.Round2: does not model Python's half-even rounding of binary floats, because only its monotone effect on the band 0.76 to 0.8 matters.
- StableSort.SortDescending: stands for Python's built-in stable sort, by the properties its documentation promises.
- Planner.ParseCondition: keeps only whether a condition text is empty; the regular expressions and how a branch is evaluated are left to an arbitrary predicate.
- Action-type inference, compiled queries and confidences of plan nodes, which routing does not use.
- The recursion limit of the Python interpreter, which the validator's search could meet on long graphs.
- GraphValidator.ValidateGraph: reports one unknown endpoint per error, where the source names the source before the target.
- ExecutionEngine.Engine.RunLoop: a failing save of the engine's own rows, and a failing audit entry about a failure in the outer handler, are not outcomes; exceptions of policies, bodies, branch conditions and every other audit entry are.
- ExecutionEngine.Engine.Cancel: the audit entry after a stored cancellation changes no row and is not modelled.
- ExecutionEngine.Engine.RunNode: the body of a query or action node is an arbitrary outcome; the context it changes is part of the arbitrary branch conditions of the visit.
- What a bundle holds besides graph and mode, initial input and the context payload of executions, collaboration approval requests, and the callbacks that resume an execution without its job.
- Concurrent `cancel` during a running loop, whose later save overwrites it; in `ExecutionHistory` the commands of one execution are sequential, though the process may die inside one.
- Worker.AttemptIsCommand: a first attempt that finds rows of its execution, because a stale copy lowered its attempts or because clearing failed and was only logged, begins without clearing them.
- Worker.BackgroundWorker.HandleFailure: the back-off time is a parameter; the policy computing it is not part of this model.
- DurableProtocol.IsNew: jobs are submitted for an execution of their own with a colon-free id, as every producer in the repository does, and start queued with no attempts.
- ActionLedger.ActionEngine.Execute: a call that raised counts as a failure, even if it had its effect outside.
- Which nodes an attempt runs inside the step protocol: a worker's attempt there is any sequence of action runs ended by any result, which `ApprovedCalls` restricts by the gates; clearing node runs and approvals does not touch the action table.
- The rows of executions inside `ApprovedCalls`: what a worker reads of them is arbitrary there, so two workers may decide one approval, as they may in the code, and each such decision counts as a grant.
- Cron.NextRun: splitting the expression at blanks, and dates beyond year 9999, where `datetime` overflows.
- Scheduler.ScheduledJob: the fire id is the pair of schedule and time instead of a joined string, and the inserted PENDING execution row is not modelled.
- RateLimiter.Limiter.CheckLimit: assumes a clock that does not go back.
- Connector.BaseConnector.Execute: one record and one process; timestamps are numbers, so an unparsable opening time does not occur; health fields and `consecutive_failures` are dropped.
- SecretStore.Encrypt: cryptography is a box with decrypt(encrypt(p)) = p.
- Vault.VaultService.ResolveSecret: the policy decision, with its 5-second cache, is a parameter, and the clock is read once per call.
- Vault.VaultService.CreateSecret: assumes that the drawn row id is fresh, as does rotation; a colliding id would overwrite another row.
- PolicyRules.RuleMatches: context values and criteria are strings.
- Policy storage and version history, LLM services, connectors to outside systems, reports, the investigation loop, metrics, notifications and the web routes other than the resume route's table update: input/output or thin wrappers.
- Listing and lookup methods of schedules and jobs beyond those above, approval escalation, promotion and risk scores: each is settled by one guard.
