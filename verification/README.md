# TaskForge: a verified model of the job platform's core

TaskForge is a distributed job platform: an API that creates, cancels and retries jobs, workers that claim and
execute them from a Postgres table, a scheduler that promotes, reaps and dead-letters them, and workflows that
chain jobs along a DAG. This project models the parts of it that are hard to get right and proves what they
promise, for all inputs and over whole runs.

`dafny verify dfyconfig.toml` checks everything (Dafny 4.11).

## How it is organised

**Workflow graphs and runs**

* `Graph` has walks, reachability and cycles. `CycleDetection` is the recursive search with its mutable
  `graph`, `visited` and `inStack`, proved to accept exactly the acyclic edge lists and to leave behind a
  finishing order, which ranks every edge.
* `Orchestration` is the stored run: starting it, one orchestration call statement by statement, and exactly when
  such a call creates two jobs for one node. `WorkflowRun` is the protocol over a map from node to status: an
  outcome is recorded (and leaves a note), a call takes a note and settles what it will start, starts the nodes
  one by one, and closes the run. Outcomes may arrive between any two of these steps. `RunRefinement` proves that
  the stored rows implement the protocol step by step, and that they follow every schedule without overlap.
* `WorkflowLiveness` gives the exact condition under which no run of a workflow can get stuck, and
  `RunRefinement.RowsNeverStuckIff` carries it over to the stored rows of every workflow. `RunMarks` says exactly when
  the mark of a run is final; `ParallelEdges` has the run in which it is not.
* `WorkflowLayout` is the memoised depth computation of the web page and its columns.

**The life of a job**

* `JobCell` is one job row with all executors working on it, in any process, and 23 kinds of atomic change. A
  handler that reads a row and writes it later is two events.
* `ClaimSelection` is the claim query. `Fleet` puts any number of rows and worker processes together: claims that
  hold row locks between select and commit, workers that crash, are reaped while alive, or shut down step by step,
  requests and scheduler passes. `FleetRuns` follows a claim from its select to its commit. `FleetWrites` says what
  each statement writes, column by column, and that a job put back waits for its run time.
* `FleetFutures` says what can still happen to a job: when Completed is final, and when a manual retry can leave it
  Failed below its limit. `LostJobs` says exactly when a Claimed or Running job is lost.
* `CrashStop` is the same machine under seven named assumptions, under which no job is lost; `FleetExamples` has for
  each of them a run that keeps the other six and ends with a lost job.
* `JobActions` has the imperative form of executing, failing, cancelling and retrying a job, and proves that each
  undisturbed call is a run of the events of `JobCell`.
* `SchedulerPasses` is the heartbeat reaper and the dead-letter pass, each proved to be a run of the fleet.
  `RecurringJobs` is the cron promoter, and `RecurringFutures` says which cron jobs ever recur.

**Primitives**

* `WorkerLoop` (semaphore and poll loop), `LeaderLock` (lease lock and leader election), `RateLimiter`,
  `RetryBackoff`, `Pagination`.

## What the proofs found

* A run of an accepted workflow **can** get stuck. The fan-in test only asks whether the upstreams are finished,
  not whether their conditions hold, and the node is looked at only by a call for an upstream whose condition
  holds. If the upstream that finishes last does not match, nobody starts the node. `NeverStuckIff` gives the exact
  condition: the workflow has a node, it is acyclic, and every upstream that can finish last is covered for both
  outcomes, by an `Always` edge or by one of each other kind. A lone `OnSuccess` edge never is enough
  (`LoneSuccessStrands`). All-`Always` workflows meet it (`AllAlwaysNeverStuck`).
* The test for an existing downstream job reads the snapshot taken before the loop, so two parallel edges that
  accept the same outcome create two jobs (`ParallelEdgesDuplicate`); `CallKeepsUniqueIff` says exactly when, and
  `OverlappingCallsIff` for two calls that overlap because the first one's lock has run out.
* With two jobs for one node the mark of a run can turn from Completed to Failed (`MarkCanChange`). It is final if and
  only if the run is marked Failed, or all its rows are finished and either they say what the mark says or no outcome
  waits and no call is open (`MarkFinalIff`). Without parallel edges that match together it always is
  (`SingleMarkFinal`).
* A Completed job is not always final. It stays Completed through every continuation if and only if nobody is left
  who may write its row, no shutdown has in hand what it read from `activeJobs`, and none can still come to read the
  job there (`CompletedForGoodIff`). Left alone by everybody outside, it is taken out of Completed by exactly two
  events (`CompletedLeftIff`): the failure handler, when the workflow lookup after the completion throws
  (`CompletedFailsAfterAll`), and the release of a shutdown, with nothing thrown at all (`ReleaseRevivesCompleted`),
  even when the executor has left `activeJobs` in the meantime (`LateReleaseRevivesCompleted`).
* A Claimed or Running job **can** be lost. Short of a new cancel request it keeps its status for ever if and only if
  nobody is left who may write its row, no shutdown puts it back, and its owner, if it has one, is out of the
  reaper's sight: the worker row is Offline, no reaper pass has it on its list, and no heartbeat or Draining write can
  show it again (`LostForGoodIff`; a Running job cannot even be cancelled, `RunningForGoodIff`). In crash-stop runs
  that never happens (`NoJobLost`, `CrashStopLosesNothing`), and dropping any one of their seven assumptions lets it
  happen (`EachAssumptionNeeded`). Among the ways: a claim commits, a shutdown still sees an empty `activeJobs`, marks
  the worker Offline, and the reaper never looks at Offline workers (`ShutdownCanStrandAClaim`); a retried job is
  claimed by the worker whose first executor has not left yet, which then strikes the shared id off `activeJobs`
  (`LingererHidesARun`); a shutdown puts back a job that another worker has claimed since the shutdown read it
  (`ReleaseMeetsAClaim`); a job is cancelled while Claimed, retried, and then started (`RetryCanOrphanARun`).
* A manual retry can leave the job Failed with attempts to spare, where the dead-letter pass never takes it, if and
  only if a failure handler had already decided to give up when the retry landed and the limit is positive
  (`RetryLeavesUnspentIff`, `OverlapLeavesFailedUnspent`).
* With a limit of zero or less a job still runs once, so the bound on attempts is `max(1, maxAttempts)`. Both
  bounds of `BoundedAttempts` are attained (`TwoExecutors`).
* A cron job recurs if and only if it is created with a run time in the future and its expression has a next time at
  some moment from then on (`RecursIff`, `RecursAgain`). Without a future run time it is queued at once and never
  recurs.
* The retry delay is capped only for jobs that have a retry policy (`BoundedIff`).
* A client following the cursor loses exactly the rows that share the creation time of a page's last row
  (`LostIff`); nothing is lost exactly when no tie straddles a page boundary (`CompleteIff`).
* The feature table of the repository's own README and the comment in redis.service.ts speak of a token bucket. The
  code is a counter with a fixed window opened by the first request, and that is what is modelled. Within one
  window length up to `2 * limit - 1` requests pass, and that number is attained (`AnyInterval`,
  `AnyIntervalTight`).

## What is assumed

* Each database statement, each transaction and each Lua script is one atomic step; a statement that writes a
  locked row waits for the lock; `SKIP LOCKED` skips rows of other open claims. A process has one poll loop, and at
  most one recurring promoter has a row in hand at a time.
* Workflow runs: recording an outcome in the run's row and calling the orchestration for it is glue the
  repository does not contain (the worker only emits an event), so the model supplies it. The run lock makes calls
  of one run mutually exclusive. In a *reliable* run every note is eventually worked off with a queue available;
  safety results also hold in unreliable runs, where notes are lost, single releases fail for want of a queue, or a
  call throws half way.
* Crash-stop runs (`CrashStop.Permitted`): a job is claimed only when the executor of its last attempt has left, and
  only when no shutdown has it in hand to put it back; only dead processes go stale; no claim straddles the start of a
  shutdown; executors still active when a shutdown reads `activeJobs` do not act again; a shutdown's release succeeds;
  a retry lands only when no executor or promoter may still write the row. `Fleet` assumes none of this.
* A failure handler that throws rejects a promise that nobody handles (worker.service.ts:107, 254-256), which ends a
  Node process of the required version (package.json:21-22): it is a crash of its worker.
* Lock tokens are unique and the clock of Redis does not run backwards. The cron library's next time is later
  than now. Jitter draws lie in `[0, 1)` and arithmetic on delays is exact.

## Model

| member | source | states |
|---|---|---|
| CycleDetection.CycleDetector.DeclareNodes | apps/api/src/workflows/workflows.module.ts:147-148 | every declared key, repeated or not, gets exactly one entry without successors |
| CycleDetection.CycleDetector.AddEdges | apps/api/src/workflows/workflows.module.ts:149-152 | the graph holds for each key its successors; undeclared upstreams are added, undeclared downstreams are not |
| CycleDetection.SuccessorsExact | apps/api/src/workflows/workflows.module.ts:149-152 | the successors of a key are the downstream keys of its edges, one for each edge, in edge order |
| CycleDetection.CycleDetector.Dfs | apps/api/src/workflows/workflows.module.ts:157-169 | true only if there is a cycle; otherwise the node and all it visited are finished after their successors and the search path is restored |
| CycleDetection.CycleDetector.DetectCycles | apps/api/src/workflows/workflows.module.ts:146-176 | ends on every node and edge list and accepts it exactly when the edge relation has no cycle; acceptance yields a finishing order of distinct keys in which every edge leads to an earlier key |
| CycleDetection.BackEdge | apps/api/src/workflows/workflows.module.ts:163-165 | an edge back into the current search path closes a cycle |
| CycleDetection.LeaveNode | apps/api/src/workflows/workflows.module.ts:167-168 | leaving a node keeps path and finished keys disjoint, together all visited keys, and successors first |
| CycleDetection.DownsFirstIsFinishOrder | apps/api/src/workflows/workflows.module.ts:171-175 | once every upstream key is finished, the order of finishing ranks all edges |
| Graph.FinishOrderExcludesCycles | apps/api/src/workflows/workflows.module.ts:145-176 | a graph that has such an order has no cycle, so acceptance is sound |
| Orchestration.RunRecord.StartRun | apps/api/src/workflows/workflows.module.ts:107-131 | queues one row for each node that no edge leads to, in node order; without a queue the first such node aborts it and nothing is created |
| Orchestration.StatusOf | apps/api/src/scheduler/scheduler.service.ts:322 | the first row of the node decides |
| Orchestration.EligibleExact | apps/api/src/scheduler/scheduler.service.ts:311-316 | the filter takes exactly the edges out of the node that are Always, or OnSuccess when it completed, or OnFailure when it did not, in order and with multiplicity |
| Orchestration.EligibleMeans | apps/api/src/scheduler/scheduler.service.ts:311-316 | the same by membership |
| Orchestration.RunRecord.StartDownstream | apps/api/src/scheduler/scheduler.service.ts:318-362 | one turn of the loop adds one Queued row of the target exactly when the target is declared, has no row in the snapshot, the first rows of all its upstreams are Completed or Failed there, and the edge finds a queue |
| Orchestration.RunRecord.CloseWhenComplete | apps/api/src/scheduler/scheduler.service.ts:364-382 | closes the run exactly when the first row of every node is terminal in the table as it is now, as Failed exactly when some row is Failed or DeadLetter |
| Orchestration.RunRecord.OrchestrateWorkflowStep | apps/api/src/scheduler/scheduler.service.ts:296-386 | a call that misses the lock changes nothing; otherwise it adds, in edge order, one Queued row for each edge that fires on the table as it found it and finds a queue, and then closes the run if it can |
| Orchestration.CallStarts | apps/api/src/scheduler/scheduler.service.ts:311-362 | an edge fires exactly when it leaves the node, its condition accepts the outcome, its target is declared and has no row, and all upstreams of the target are Completed or Failed; the call adds one row for each edge that fires and finds a queue, and no other |
| Orchestration.ReleasedNodes | apps/api/src/scheduler/scheduler.service.ts:318-361 | a call starts exactly the targets of its eligible edges that find a queue, exist, have no row in the snapshot, and whose upstreams are all Completed or Failed in it |
| Orchestration.ReleasedUnique | apps/api/src/scheduler/scheduler.service.ts:328-330 | the released rows are distinct if and only if no startable node is the target of two eligible edges that find a queue |
| Orchestration.CallKeepsUniqueIff | apps/api/src/scheduler/scheduler.service.ts:318-362 | one call keeps one run-job per node if and only if no startable node is the target of two of its eligible edges that find a queue |
| Orchestration.OverlappingCallsIff | apps/api/src/scheduler/scheduler.service.ts:296-362 | two calls of one run that overlap keep one run-job per node if and only if neither releases a node twice and no node is startable and targeted in both |
| Orchestration.SerialCallsDisjoint | apps/api/src/scheduler/scheduler.service.ts:328-330 | calls that do not overlap never start the same node twice between them |
| Orchestration.ParallelEdgesDuplicate | apps/api/src/scheduler/scheduler.service.ts:328-330 | an Always edge beside an OnSuccess edge produces two jobs for one node |
| WorkflowRun.StartSafe | apps/api/src/scheduler/scheduler.service.ts:318-362 | what a call starts has no run-job even at that moment, all its upstreams are finished, and the run is not yet marked |
| WorkflowRun.StepSafe | apps/api/src/scheduler/scheduler.service.ts:296-386 | every step, in any interleaving, with lost notes and calls that throw, keeps the safety invariant |
| WorkflowRun.StepSingle | apps/api/src/scheduler/scheduler.service.ts:296-386 | with one run-job for each node every step keeps the notes true, the triggers and the mark |
| WorkflowRun.FanInSafety | apps/api/src/scheduler/scheduler.service.ts:313-362 | for arbitrary conditions: a node has a run-job only if all its ancestors are Completed or Failed, and, with one run-job for each node, it is a root or an edge into it is Always, or OnSuccess from a completed upstream, or OnFailure from a failed one |
| WorkflowRun.CompletionCorrect | apps/api/src/scheduler/scheduler.service.ts:364-382 | a run is marked Completed only if every node completed, Failed only if every node finished and some failed |
| WorkflowRun.CompletionFinal | apps/api/src/scheduler/scheduler.service.ts:328-382 | after the mark no step of any kind starts a node or changes its status, and with one run-job for each node none changes the mark |
| WorkflowLiveness.CompletingIsLast | apps/api/src/scheduler/scheduler.service.ts:319-326 | the upstream whose outcome completes a fan-in has no other upstream of the node among its descendants |
| WorkflowLiveness.Sufficient | apps/api/src/scheduler/scheduler.service.ts:313-382 | with a node, no cycle, and both outcomes of every last upstream covered, every quiet state has all nodes finished and the run marked |
| WorkflowLiveness.UncoveredStrands | apps/api/src/scheduler/scheduler.service.ts:313-326 | a last upstream with an outcome that none of its edges accepts strands its downstream node in some run |
| WorkflowLiveness.LoneSuccessStrands | apps/api/src/scheduler/scheduler.service.ts:313-326 | a last upstream whose only edges are OnSuccess lets some run get stuck |
| WorkflowLiveness.CycleStrands | apps/api/src/workflows/workflows.module.ts:107-114 | a node on a cycle never starts |
| WorkflowLiveness.EmptyStrands | apps/api/src/workflows/workflows.module.ts:107-133 | a run without nodes is never marked |
| WorkflowLiveness.NeverStuckIff | apps/api/src/scheduler/scheduler.service.ts:313-382 | no run of a workflow can get stuck if and only if it has a node, has no cycle, and every upstream that can finish last has an Always edge or both an OnSuccess and an OnFailure edge |
| WorkflowLiveness.AllAlwaysNeverStuck | apps/api/src/scheduler/scheduler.service.ts:313-382 | accepted workflows whose edges are all Always never get stuck |
| RunRefinement.StepSimulates | apps/api/src/scheduler/scheduler.service.ts:296-386 | each step on the stored rows, with outcomes arriving between any two, is a step of the protocol or invisible to it |
| RunRefinement.ClosingMeans | apps/api/src/scheduler/scheduler.service.ts:364-378 | the completion test and, with one row for each node, the verdict over the rows are those over the nodes |
| RunRefinement.CallIsRun | apps/api/src/scheduler/scheduler.service.ts:296-386 | an undisturbed call, as the method promises it, is a run of the single steps |
| RunRefinement.TraceMimicked | apps/api/src/scheduler/scheduler.service.ts:296-386 | the rows can follow every schedule without overlap, parallel edges or not |
| RunRefinement.RowsRefine | apps/api/src/scheduler/scheduler.service.ts:318-362 | every reachable table shows a reachable protocol state; without matching parallel edges it has at most one run-job for each node |
| RunRefinement.RowsNeverStuckIff | apps/api/src/scheduler/scheduler.service.ts:313-382 | the same exact condition for stuck runs, on the stored rows, for every workflow the schema admits; each run-job that finishes leaves a note of its own |
| RunMarks.MarkFinalIff | apps/api/src/scheduler/scheduler.service.ts:364-382 | the mark of a reachable run is final if and only if it is Failed, or all rows are finished and either they say what the mark says or no note is pending and no call open |
| RunMarks.SingleMarkFinal | apps/api/src/scheduler/scheduler.service.ts:364-382 | without matching parallel edges every mark is final and is what the rows say |
| ParallelEdges.MarkCanChange | apps/api/src/scheduler/scheduler.service.ts:329-381 | with matching parallel edges a run marked Completed can be marked Failed later |
| WorkflowLayout.Upstreams | apps/web/src/pages/WorkflowsPage.tsx:21 | exactly the upstream keys of the edges into a key |
| WorkflowLayout.DagLayout.GetDepth | apps/web/src/pages/WorkflowsPage.tsx:17-25 | ends on every graph and only adds to memo and visited set; on an acyclic one it returns the number of edges of the longest walk into the key, whatever was computed before |
| WorkflowLayout.DagLayout.DeepestUpstream | apps/web/src/pages/WorkflowsPage.tsx:22 | one more than the greatest upstream depth, zero without upstreams |
| WorkflowLayout.DagLayout.Columns | apps/web/src/pages/WorkflowsPage.tsx:27-31 | each column lists the nodes of its depth, and every node has a column |
| WorkflowLayout.NodesAtExact | apps/web/src/pages/WorkflowsPage.tsx:27-31 | a column has the nodes of its depth in node order and with their multiplicity |
| WorkflowLayout.MaxDepth | apps/web/src/pages/WorkflowsPage.tsx:28 | the greatest depth, or zero |
| WorkflowLayout.DepthUnique | apps/web/src/pages/WorkflowsPage.tsx:17-25 | a key has one depth, so the order of calls cannot matter |
| WorkflowLayout.EdgeDeepens | apps/web/src/pages/WorkflowsPage.tsx:17-25 | every edge leads to a strictly greater depth |
| WorkflowLayout.LayoutLeftToRight | apps/web/src/pages/WorkflowsPage.tsx:27-31 | on an acyclic graph the columns partition the nodes and every edge points to a strictly later column |
| JobCell.ResolveLimit | apps/api/src/worker/worker.service.ts:270 | the job's own limit, else its policy's, else 3 |
| JobCell.FailReadBounded | apps/api/src/worker/worker.service.ts:267-285 | the failure handler's read of the counter keeps the bounds on executors and attempts |
| JobCell.StepBounded | apps/api/src/worker/worker.service.ts:181-323 | every event, with the failure handler split into read and write, keeps the bounds on executors and attempts |
| JobCell.StepClaimsCovered | apps/api/src/worker/worker.service.ts:133-165 | every event keeps claims below entries into Queued |
| JobCell.StepStaysSpent | apps/api/src/worker/worker.service.ts:285-306 | every event but a manual retry keeps Failed rows, and rows about to be marked Failed, spent |
| JobCell.RetrySpentIff | apps/api/src/jobs/jobs.service.ts:212-221 | a manual retry keeps that exactly when nobody was giving up or the limit is not positive |
| ClaimSelection.First | apps/api/src/worker/worker.service.ts:147 | a row that no other precedes by priority, then run time |
| ClaimSelection.SelectCandidates | apps/api/src/worker/worker.service.ts:137-150 | takes only rows that are Queued, due, in an open queue and unlocked, none twice, by falling priority and then rising run time; a row that could be taken is left out only when all free slots are full and no row taken comes after it |
| ClaimSelection.SelectionIff | apps/api/src/worker/worker.service.ts:137-150 | that is exactly what a selection of the first min(freeSlots, n) of the n eligible rows is |
| ClaimSelection.SelectionKeysUnique | apps/api/src/worker/worker.service.ts:147-148 | any two such selections agree position by position on priority and run time |
| Fleet.OpenClaimStable | apps/api/src/worker/worker.service.ts:133-165 | open claims hold disjoint rows, and until a claim ends nobody changes or takes its rows |
| FleetRuns.ClaimIsAtomic | apps/api/src/worker/worker.service.ts:133-165 | however long a claim stays open and whatever happens meanwhile, its commit claims exactly the rows it selected, for its own worker, at the priority, run time and attempt count the select read |
| FleetWrites.ClaimTakes | apps/api/src/worker/worker.service.ts:137-150 | a claim of the fleet locks exactly such rows and changes no other column |
| FleetWrites.CommitWrites | apps/api/src/worker/worker.service.ts:152-165 | the commit makes every locked row Claimed for the worker, hands it over with its attempt count, and touches no other row |
| FleetWrites.NoEarlyClaim | apps/api/src/worker/worker.service.ts:137-150 | a job put back with a run time by its failure handler, the reaper, a shutdown or a manual retry is in no claim before that time, whatever happens in between, unless it is put back again |
| FleetWrites.CreationWrites | apps/api/src/jobs/jobs.service.ts:47-70 | a created row is Queued or Scheduled, unowned and without attempts; no other row changes |
| FleetWrites.RegistrationWrites | apps/api/src/worker/worker.service.ts:439-448 | a worker registers Online, with nothing in hand |
| FleetWrites.PromotionWrites | apps/api/src/scheduler/scheduler.service.ts:113-129 | exactly the Scheduled one-off jobs that are due become Queued; nothing else changes |
| FleetWrites.ReapWrites | apps/api/src/scheduler/scheduler.service.ts:199-209 | exactly the Claimed and Running jobs of the worker become Queued, unowned and due at the time of the reset; nothing else of them changes |
| FleetWrites.ReleaseWrites | apps/api/src/worker/worker.service.ts:418-423 | exactly the jobs read from activeJobs become Queued, unowned and due at the time of the release, whatever their status was; nothing else of them changes |
| FleetWrites.CancelWrites | apps/api/src/jobs/jobs.service.ts:178-189 | the status is tested at the read; the write sets Cancelled and no other column, whatever the status is by then |
| FleetWrites.RetryWrites | apps/api/src/jobs/jobs.service.ts:204-221 | the status is tested at the read; the write queues the row with no attempts, no owner and the given run time, whatever the status is by then |
| FleetWrites.PromoterWrites | apps/api/src/scheduler/scheduler.service.ts:134-148 | a due recurring row is tested at the read; the write sets Queued and no other column |
| FleetWrites.DeadLetterWrites | apps/api/src/scheduler/scheduler.service.ts:236-259 | spent Failed rows are taken at the read; the write sets DeadLetter and no other column |
| FleetWrites.StartWrites | apps/api/src/worker/worker.service.ts:190-203 | Running, one more attempt, and an execution numbered after the claim's snapshot |
| FleetWrites.FailureWrites | apps/api/src/worker/worker.service.ts:285-306 | below the limit, by the count the handler read, Queued without owner at the given run time, else Failed without owner; no other column changes |
| Fleet.BoundedAttempts | apps/api/src/worker/worker.service.ts:181-323 | in every interleaving live executors plus one for Queued or Scheduled stay within 1 + R and attempts within max(1, limit) + R, R counting reaper resets, shutdown releases and manual retries; with R = 0 a job is never run twice at once |
| Fleet.ClaimsNeverDouble | apps/api/src/worker/worker.service.ts:127-176 | over any run the claims of a job never exceed the times it entered Queued |
| Fleet.FailedJobsAreSpent | apps/api/src/worker/worker.service.ts:285-306 | a Failed job has used up its limit unless a manual retry overlapped a failure handler that was giving up |
| LostJobs.LostForGoodIff | apps/api/src/scheduler/scheduler.service.ts:187-215 | in every reachable state a Claimed or Running job keeps its status through every continuation without a new cancel request if and only if nobody may write its row, no shutdown has it in hand or can come to have it, and its owner, if any, is out of the reaper's sight |
| LostJobs.RunningForGoodIff | apps/api/src/jobs/jobs.service.ts:178-189 | a Running job stays Running through every continuation under exactly the same condition |
| LostJobs.CrashStopLosesNothing | apps/api/src/scheduler/scheduler.service.ts:187-215 | in crash-stop runs every Claimed or Running job can leave its status |
| CrashStop.NoJobLost | apps/api/src/worker/worker.service.ts:400-431 | in crash-stop runs every Claimed or Running job is owned by a worker row that is Online or Draining, and if that worker lives it has a live executor or its shutdown is about to put the job back |
| CrashStop.ReaperReturnsAll | apps/api/src/scheduler/scheduler.service.ts:195-215 | when the reaper is about to mark a worker Offline, no Claimed or Running job is owned by it any more |
| CrashStop.RecordsGapFree | apps/api/src/worker/worker.service.ts:190-203 | in crash-stop runs the executions since the last manual retry are numbered 1 to attemptCount without gap or repeat |
| CrashStop.StepInv | apps/api/src/worker/worker.service.ts:181-431 | every crash-stop event keeps at most one executor per job, its ownership, activeJobs in step with the executors, and jobs about to be released free of executors |
| FleetExamples.EachAssumptionNeeded | apps/api/src/worker/worker.service.ts:400-431 | for each crash-stop assumption a run that keeps all the others ends with a job that is lost for good |
| FleetExamples.LingererHidesARun | apps/api/src/worker/worker.service.ts:257-260 | a job claimed again before its first executor has left is lost, Running at an Offline worker, with no crash, reap, cancel or retry |
| FleetExamples.ReleaseMeetsAClaim | apps/api/src/worker/worker.service.ts:418-423 | a job claimed elsewhere between a shutdown's read of activeJobs and its write is lost, Running without an owner |
| FleetExamples.ShutdownCanStrandAClaim | apps/api/src/worker/worker.service.ts:400-431 | a claim that straddles the start of a shutdown is lost, Claimed by an Offline worker out of the reaper's sight |
| FleetExamples.CompletedFailsAfterAll | apps/api/src/worker/worker.service.ts:252-256 | a Completed job is Queued again when something throws after the completion |
| FleetExamples.ReleaseRevivesCompleted | apps/api/src/worker/worker.service.ts:417-423 | a Completed job is Queued again by a shutdown, with nothing thrown |
| FleetExamples.LateReleaseRevivesCompleted | apps/api/src/worker/worker.service.ts:417-423 | a Completed job that no worker lists any more is Queued again by a release whose ids were read before |
| FleetExamples.RetryCanOrphanARun | apps/api/src/jobs/jobs.service.ts:204-221 | a job cancelled while Claimed, retried and then started is Running without an owner, and lost should its process end |
| FleetExamples.OverlapLeavesFailedUnspent | apps/api/src/scheduler/scheduler.service.ts:241-243 | a reachable state has a Failed job below its limit, which the dead-letter pass ignores |
| FleetExamples.TwoExecutors | apps/api/src/scheduler/scheduler.service.ts:199-209 | one reaper reset lets a job with limit 1 run twice at once, so both bounds with R are attained |
| FleetFutures.CompletedForGoodIff | apps/api/src/worker/worker.service.ts:228-260 | a Completed job stays Completed through every continuation if and only if no executor, promoter or request may still write its row, no living worker's shutdown has read it from activeJobs for a statement in flight, and none that has not read activeJobs for the last time lists it |
| FleetFutures.CompletedLeftIff | apps/api/src/worker/worker.service.ts:228-260 | for a job left alone from outside exactly a failure handler entered after the completion and the write of a shutdown that read it from activeJobs, however long ago, take it out of Completed |
| FleetFutures.RetryLeavesUnspentIff | apps/api/src/jobs/jobs.service.ts:204-221 | a manual retry can leave the job Failed below its limit if and only if a failure handler was giving up when it landed and the limit is positive |
| JobActions.JobTables.CancelJob | apps/api/src/jobs/jobs.service.ts:178-199 | NotFound outside the project, refused unless Queued, Scheduled or Claimed, otherwise only the status changes |
| JobActions.JobTables.RetryJob | apps/api/src/jobs/jobs.service.ts:204-225 | NotFound outside the project, refused unless Failed, Cancelled or DeadLetter, otherwise queued anew with no attempts and no owner |
| JobActions.JobTables.HandleJobFailure | apps/api/src/worker/worker.service.ts:266-306 | below the job's own limit, else its policy's, else 3, the row is Queued without owner at a run time one retry delay ahead, rounded down to the millisecond; else Failed without owner; the execution is Failed; nothing else changes |
| JobActions.JobTables.ExecuteJob | apps/api/src/worker/worker.service.ts:181-261 | for each place where an execution may throw: status, attempts, owner and run time of the job, and the execution record with its number and status; nothing else changes |
| JobActions.ExecutionPlayed | apps/api/src/worker/worker.service.ts:181-323 | one undisturbed execution, whatever throws, is a run of the job's events and leaves the rows of that run |
| JobActions.CancelPlayed | apps/api/src/jobs/jobs.service.ts:178-189 | a cancel is accepted exactly when its events are possible and has their effect |
| JobActions.RetryPlayed | apps/api/src/jobs/jobs.service.ts:204-221 | a retry is accepted exactly when its events are possible and has their effect |
| JobActions.FailsExactlyLimitTimes | apps/api/src/worker/worker.service.ts:254-306 | a job whose handler always throws is claimed exactly max(1, limit) times, each time at least the retry delay after the attempt before, less a millisecond, ends Failed and spent, and from first to last claim takes at least the sum of the delays, less a millisecond each |
| JobActions.TimeRounds | apps/api/src/worker/worker.service.ts:287-294 | the new run time lies the delay ahead, cut off to whole milliseconds |
| RecurringJobs.JobTable.PromoteRecurringJobs | apps/api/src/scheduler/scheduler.service.ts:134-178 | exactly the due recurring rows are Queued; for each of them whose expression has a next time a Scheduled recurring row is added for that time, with its expression, its work and its lineage; afterwards no recurring row is due |
| RecurringJobs.WriteExact | apps/api/src/scheduler/scheduler.service.ts:143-172 | in every run the promotion of an occurrence adds one for the next time of the expression its lineage was founded with, under that expression and with the founder's work, or none if there is no next time |
| RecurringJobs.WriteKeeps | apps/api/src/scheduler/scheduler.service.ts:143-172 | and it keeps the lineage invariant: a strictly later plan and no second Scheduled row |
| RecurringJobs.LineageTheorem | apps/api/src/scheduler/scheduler.service.ts:134-178 | in every reachable state a lineage has at most one Scheduled occurrence, its planned times strictly increase, exactly the rows with an expression recur, every later occurrence is recurring with the founder's expression and work, and there is exactly one Scheduled occurrence while the founder's expression has next times, inserts succeed and none is cancelled |
| RecurringFutures.RecursIff | apps/api/src/jobs/jobs.service.ts:47-63 | a cron job just created can ever be followed by another occurrence if and only if it was given a run time in the future and its expression has a next time at some moment from then on |
| RecurringFutures.RecursAgain | apps/api/src/scheduler/scheduler.service.ts:134-178 | a Scheduled occurrence, first or later, of a reachable state can be followed by one more Scheduled occurrence of its lineage whenever the founder's expression has a next time when it is due |
| SchedulerPasses.Database.ReaperScan | apps/api/src/scheduler/scheduler.service.ts:183-215 | each Claimed or Running job of a worker that is Online or Draining and three heartbeats late is Queued once, unowned, due at the time its worker is handled; each such worker is Offline; nothing else changes |
| SchedulerPasses.ReaperPassIsRun | apps/api/src/scheduler/scheduler.service.ts:183-215 | an undisturbed pass from any reachable state is a run of the fleet to the tables ReaperScan leaves, changes nothing else of any worker, and then no Claimed or Running job is left at a worker found stale |
| SchedulerPasses.Database.MoveToDlq | apps/api/src/scheduler/scheduler.service.ts:235-261 | each Failed job with at least its limit of attempts is DeadLetter with exactly one snapshot of its queue and attempt count; nothing else changes |
| SchedulerPasses.DlqPassIsRun | apps/api/src/scheduler/scheduler.service.ts:235-261 | an undisturbed pass from any reachable state, reads first, is a run of the fleet to the table MoveToDlq leaves |
| SchedulerPasses.DeadLetteringComplete | apps/api/src/scheduler/scheduler.service.ts:235-261 | in every reachable state without an overlapping manual retry the pass leaves no Failed job |
| WorkerLoop.Semaphore.Acquire | apps/api/src/worker/worker.service.ts:20-26 | takes a permit if there is one, else waits at the end of the queue |
| WorkerLoop.Semaphore.Release | apps/api/src/worker/worker.service.ts:28-35 | gives the permit to the first waiter, else back |
| WorkerLoop.SemaphoreTheorem | apps/api/src/worker/worker.service.ts:12-40 | after any balanced use permits plus held is the maximum, someone waits only when no permit is free, and permits are granted in order of arrival |
| WorkerLoop.NoExecutorWaits | apps/api/src/worker/worker.service.ts:99-131 | in every reachable state of the poll loop no executor waits, and active jobs, running executors and the maximum are ordered, even with releases during a claim |
| WorkerLoop.ActiveJobs | apps/api/src/worker/worker.service.ts:181-260 | activeJobs lists a job from the activation of its executor until the first executor of that job finishes, and no longer |
| WorkerLoop.HandsOutAll | apps/api/src/worker/worker.service.ts:99-128 | in every reachable state the claimed jobs are those handed to executeJob and those still to be handed out, each once and in order |
| WorkerLoop.NoPollAfterStop | apps/api/src/worker/worker.service.ts:99-128 | once isShuttingDown is set no poll begins |
| LeaderLock.RedisStore.AcquireLock | apps/api/src/redis/redis.service.ts:81-85 | succeeds exactly when no live lease exists and then stores one |
| LeaderLock.RedisStore.RenewLock | apps/api/src/redis/redis.service.ts:87-96 | succeeds exactly for the token of the live lease and then extends it |
| LeaderLock.RedisStore.ReleaseLock | apps/api/src/redis/redis.service.ts:98-107 | deletes exactly for the token of the live lease |
| LeaderLock.Scheduler.AcquireLeadership | apps/api/src/scheduler/scheduler.service.ts:22-36 | true exactly when the lease is free or the remembered token holds it; then the lease is this instance's for a whole ttl, else the token is forgotten |
| LeaderLock.LeasesDisjoint | apps/api/src/redis/redis.service.ts:81-107 | after a success of one instance at t no other instance succeeds before t + ttl unless the first released the lock itself |
| LeaderLock.LeadersDisjoint | apps/api/src/scheduler/scheduler.service.ts:22-36 | leadership is never released, so leaderships of different instances are a whole ttl apart |
| LeaderLock.HolderUndisturbed | apps/api/src/redis/redis.service.ts:87-107 | while a success is in force no other instance and no stale token takes, renews or deletes the lock |
| RateLimiter.Counted | apps/api/src/redis/redis.service.ts:55-58 | a key that is live after a request counts one more than was seen before |
| RateLimiter.RedisCounters.CheckRateLimit | apps/api/src/redis/redis.service.ts:48-76 | admits below the limit, reports the remainder, stores the counted key and touches no other |
| RateLimiter.AllowedIff | apps/api/src/redis/redis.service.ts:55-63 | over any trace a request passes if and only if it is among the first limit requests of its window |
| RateLimiter.WindowAdmits | apps/api/src/redis/redis.service.ts:55-63 | each window admits exactly min(requests, limit) |
| RateLimiter.AnyInterval | apps/api/src/redis/redis.service.ts:48-76 | every interval one window long, however aligned, admits at most 2 * limit - 1 requests |
| RateLimiter.AnyIntervalTight | apps/api/src/redis/redis.service.ts:48-76 | for every positive limit a trace attains that number |
| RetryBackoff.NominalDelay | apps/api/src/worker/worker.service.ts:328-340 | the delay before jitter: constant, growing by the base, or doubling |
| RetryBackoff.CalculateRetryDelay | apps/api/src/worker/worker.service.ts:325-347 | the delay with jitter for exponential backoff only, under the cap; without a policy uncapped doubling |
| RetryBackoff.DelayExact | apps/api/src/worker/worker.service.ts:325-347 | the delay in closed form: the policy's own base and maximum, zero counting as 1000 and 60000, constant, linear or doubling, jitter for exponential backoff only and only if the policy wants it, then the cap; without a policy 1000 * 2^attempt |
| RetryBackoff.JitterBounds | apps/api/src/worker/worker.service.ts:342 | jitter stays within 20 percent and leaves the other strategies alone |
| RetryBackoff.BoundedIff | apps/api/src/worker/worker.service.ts:326-346 | the delays of a job are bounded if and only if it has a retry policy, and then by the cap |
| RetryBackoff.DelayMonotone | apps/api/src/worker/worker.service.ts:325-347 | a later attempt never waits less, for all strategies and independent jitter draws |
| RetryBackoff.TotalWaitBound | apps/api/src/worker/worker.service.ts:285-347 | failing all m attempts waits at most (m - 1) * cap, and under exponential backoff at most 1.2 * base * (2^m - 2) |
| RetryBackoff.DefaultTotalWait | apps/api/src/worker/worker.service.ts:326 | without a policy the total is exactly 1000 * (2^m - 2) ms |
| Pagination.ListJobs | apps/api/src/jobs/jobs.service.ts:130-161 | the first limit rows of the listing, 50 without a limit, whether there are more, and the last row's time as the next cursor |
| Pagination.ListingIff | apps/api/src/jobs/jobs.service.ts:131-145 | the listing has exactly the project's rows that meet every filter given and are older than the cursor |
| Pagination.CursorDecreases | apps/api/src/jobs/jobs.service.ts:143-158 | each page moves the cursor strictly back and leaves strictly fewer rows, so following it always ends |
| Pagination.CrawlKeepsOrder | apps/api/src/jobs/jobs.service.ts:143-160 | the pages together keep the order of the listing and repeat no row |
| Pagination.LostIff | apps/api/src/jobs/jobs.service.ts:143-158 | a row of the listing is never returned if and only if it comes after the last row of some page but the final one and shares its creation time |
| Pagination.CompleteIff | apps/api/src/jobs/jobs.service.ts:143-160 | the pages together equal the listing if and only if no two rows with equal creation times meet at a multiple of the page size |
| Pagination.DistinctTimesComplete | apps/api/src/jobs/jobs.service.ts:143-160 | with distinct creation times the pages are the full filtered list |

## Left out

- JobCell and Fleet model worker.service.ts on values, as events of a state machine, because its handlers interleave between any two statements; `JobActions` has the undisturbed calls in imperative form.
- Orchestration.RunRecord.OrchestrateWorkflowStep: is the call with nothing in between; outcomes that arrive between its creates, or before it re-reads the table, are steps of `RunRefinement.RowStep`. Creating a job and its run-job is one step.
- WorkflowRun.FanInSafety: assumes that a run's lock outlasts its call; the lock's 5000 ms lease may run out during a slow call, and then two calls of one run could overlap. `Orchestration.OverlappingCallsIff` says when two such calls keep one run-job per node; the run machine has one open call.
- WorkflowRun.CompletionCorrect: is about runs with one run-job for each node; with matching parallel edges the mark also counts the further jobs, and `RunMarks.MarkFinalIff` says when it can change.
- CrashStop.NoJobLost: holds under the seven assumptions listed above, none of which can be spared; `LostJobs.LostForGoodIff` has the exact condition without any of them.
- SchedulerPasses.Database.ReaperScan: is the pass with nothing in between; in `Fleet` a pass is single events, a worker found stale may be reset any time later, and everything may interleave.
- RecurringJobs.JobTable.PromoteRecurringJobs: reads the clock once for the whole pass, and in the runs of LineageTheorem the clock may move between rows.
- Pagination.ListJobs: ids are numbers in the order of the id column, the cursor is the time stamp itself, and the table does not change between pages; empty filter strings count as absent.
- RetryBackoff.CalculateRetryDelay: uses reals, so rounding of the floating-point delay is not modelled; attempts are not negative.
- JobActions.JobTables.ExecuteJob: the semaphore and activeJobs around it are in `WorkerLoop`; a failure handler that itself throws ends the process, the event `Crash` in `Fleet`.
- WorkerLoop does not model the length of the poll delay, LISTEN/NOTIFY wake-ups or logging, which do not affect job state.
- The per-run outcome recorded in WorkflowRunJob is set by no code of the repository; only Completed and Failed are recorded in the model.
- The lookup of a project's queue is a yes-or-no input for each edge; which queue is picked does not matter to the run.
- getExecutionLogs pages like listJobs, ascending, and would repeat the same proofs.
- createJob's capacity and idempotency checks, batchCreate, DLQ requeue and discard, and queue administration are single checks over reads.
- Event outbox, WebSocket fan-out, queue statistics, cleanup and AI summaries do not change job state.
- Authentication, roles and project membership are table lookups and library calls.
- Cron parsing is a parameter: a partial function from expression and time to the next time.
- Database errors appear as events that do not happen or fail (a rolled-back claim, a skipped promotion, a heartbeat, reaper or shutdown statement that is lost, a call that throws); connection pools and retries are not modelled.
- The rest of the React pages, seeds, diagnostics and deployment files have no counterpart.
