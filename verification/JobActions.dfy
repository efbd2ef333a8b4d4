/** The stored rows behind a job, and what one undisturbed execution, cancel or retry does to them: each is a
    run of the events of JobCell. */
module JobActions {
  import opened Common
  import opened JobCell
  import opened RetryBackoff

  type JobId = string

  datatype JobRow = JobRow(
    projectId: string, status: JobStatus, attemptCount: nat, maxAttempts: Option<int>, policy: Option<RetryPolicy>,
    runAt: int, claimedBy: Option<WorkerId>)

  datatype ExecutionStatus = ExecutionRunning | ExecutionCompleted | ExecutionFailed

  datatype ExecutionRow = ExecutionRow(attemptNumber: nat, worker: WorkerId, status: ExecutionStatus)

  /** Where an execution throws, if it does: before the row is Running, up to the completing transaction, or
      after it, in the workflow lookup that follows. */
  datatype Course = StartThrows | HandlerThrows | ReportThrows | AllWell

  datatype Reply = Done | NotFound | BadStatus

  function LimitOf(row: JobRow): int {
    ResolveLimit(row.maxAttempts, if row.policy.Some? then Some(row.policy.value.maxAttempts) else None)
  }

  /** A time stamp has no fraction of a millisecond: it is cut off towards zero. */
  function TimeAfter(now: nat, delay: real): int {
    var time := now as real + delay;
    if time >= 0.0 then time.Floor else -(-time).Floor
  }

  /** The time stamp is the delay ahead, up to less than a millisecond, and rounded down from 1970 on. */
  lemma TimeRounds(now: nat, delay: real)
    ensures delay - 1.0 < (TimeAfter(now, delay) - now) as real < delay + 1.0
    ensures now as real + delay >= 0.0 ==> (TimeAfter(now, delay) - now) as real <= delay
  {
  }

  /** What the failure handler makes of the row. */
  function AfterFailure(row: JobRow, now: nat, draw: real): JobRow {
    if row.attemptCount < LimitOf(row) then
      row.(status := Queued, runAt := TimeAfter(now, RetryDelay(row.policy, row.attemptCount, draw)), claimedBy := None)
    else row.(status := Failed, claimedBy := None)
  }

  function Started(row: JobRow): JobRow {
    row.(status := Running, attemptCount := row.attemptCount + 1)
  }

  function AfterExecution(row: JobRow, course: Course, now: nat, draw: real): JobRow {
    match course
    case StartThrows => AfterFailure(row, now, draw)
    case HandlerThrows => AfterFailure(Started(row), now, draw)
    case ReportThrows => AfterFailure(Started(row).(status := Completed), now, draw)
    case AllWell => Started(row).(status := Completed)
  }

  /** What an execution leaves, column by column; the run time of a job put back is in TimeRounds. */
  lemma ExecutionLeaves(before: JobRow, course: Course, now: nat, draw: real)
    ensures var after := AfterExecution(before, course, now, draw);
            var limit := if before.maxAttempts.Some? then before.maxAttempts.value
                         else if before.policy.Some? then before.policy.value.maxAttempts else 3;
            && after == before.(status := after.status, attemptCount := after.attemptCount, runAt := after.runAt,
                                claimedBy := after.claimedBy)
            && after.attemptCount == before.attemptCount + (if course.StartThrows? then 0 else 1)
            && after.status == (if course.AllWell? then Completed
                                else if after.attemptCount < limit then Queued else Failed)
            && after.claimedBy == (if course.AllWell? then before.claimedBy else None)
            && (after.status != Queued ==> after.runAt == before.runAt)
            && (after.status == Queued ==>
                  after.runAt == TimeAfter(now, RetryDelay(before.policy, after.attemptCount, draw)))
  {
    hide TimeAfter, RetryDelay;
  }

  function RecordsAfter(rows: seq<ExecutionRow>, course: Course, worker: WorkerId, snapshot: nat): seq<ExecutionRow> {
    match course
    case StartThrows => rows
    case AllWell => rows + [ExecutionRow(snapshot + 1, worker, ExecutionCompleted)]
    case _ => rows + [ExecutionRow(snapshot + 1, worker, ExecutionFailed)]
  }

  class JobTables {
    var jobs: map<JobId, JobRow>
    var executions: map<JobId, seq<ExecutionRow>>

    constructor (jobs: map<JobId, JobRow>)
      ensures this.jobs == jobs && executions == map id | id in jobs :: []
    {
      this.jobs, executions := jobs, map id | id in jobs :: [];
    }

    method CancelJob(id: JobId, projectId: string) returns (reply: Reply)
      modifies `jobs
      ensures reply.NotFound? <==> id !in old(jobs) || old(jobs)[id].projectId != projectId
      ensures reply.Done? ==> old(jobs)[id].status in {Queued, Scheduled, Claimed}
      ensures reply.BadStatus? ==> old(jobs)[id].status !in {Queued, Scheduled, Claimed}
      ensures jobs == if reply.Done? then old(jobs)[id := old(jobs)[id].(status := Cancelled)] else old(jobs)
    {
      if id !in jobs || jobs[id].projectId != projectId { return NotFound; }
      var job := jobs[id];
      if job.status !in {Queued, Scheduled, Claimed} { return BadStatus; }
      jobs := jobs[id := job.(status := Cancelled)];
      return Done;
    }

    method RetryJob(id: JobId, projectId: string, now: nat) returns (reply: Reply)
      modifies `jobs
      ensures reply.NotFound? <==> id !in old(jobs) || old(jobs)[id].projectId != projectId
      ensures reply.Done? ==> old(jobs)[id].status in {Failed, Cancelled, DeadLetter}
      ensures reply.BadStatus? ==> old(jobs)[id].status !in {Failed, Cancelled, DeadLetter}
      ensures jobs == if reply.Done?
                      then old(jobs)[id := old(jobs)[id].(status := Queued, attemptCount := 0, runAt := now,
                                                          claimedBy := None)]
                      else old(jobs)
    {
      if id !in jobs || jobs[id].projectId != projectId { return NotFound; }
      var job := jobs[id];
      if job.status !in {Failed, Cancelled, DeadLetter} { return BadStatus; }
      jobs := jobs[id := job.(status := Queued, attemptCount := 0, runAt := now, claimedBy := None)];
      return Done;
    }

    /** handleJobFailure; execution is the index of the attempt's execution row, when it got one. */
    method HandleJobFailure(id: JobId, execution: Option<nat>, now: nat, draw: real)
      requires execution.Some? ==> id in executions && execution.value < |executions[id]|
      modifies this
      ensures jobs == if id in old(jobs) then old(jobs)[id := AfterFailure(old(jobs)[id], now, draw)] else old(jobs)
      ensures id in old(jobs) ==>
                var row := old(jobs)[id];
                var limit := if row.maxAttempts.Some? then row.maxAttempts.value
                             else if row.policy.Some? then row.policy.value.maxAttempts else 3;
                var delay := RetryDelay(row.policy, row.attemptCount, draw);
                if row.attemptCount < limit then
                  && jobs[id] == row.(status := Queued, runAt := jobs[id].runAt, claimedBy := None)
                  && delay - 1.0 < (jobs[id].runAt - now) as real < delay + 1.0
                  && (now as real + delay >= 0.0 ==> (jobs[id].runAt - now) as real <= delay)
                else jobs[id] == row.(status := Failed, claimedBy := None)
      ensures executions ==
                if id in jobs && execution.Some? then
                  old(executions)[id := old(executions)[id][
                    execution.value := old(executions)[id][execution.value].(status := ExecutionFailed)]]
                else old(executions)
    {
      if id in jobs { TimeRounds(now, RetryDelay(jobs[id].policy, jobs[id].attemptCount, draw)); }
      if id !in jobs { return; }
      var job := jobs[id];
      var maxAttempts := if job.maxAttempts.Some? then job.maxAttempts.value
                         else if job.policy.Some? then job.policy.value.maxAttempts else 3;
      var attemptsUsed := job.attemptCount;
      if execution.Some? {
        executions := executions[id := SetStatus(executions[id], execution.value, ExecutionFailed)];
      }
      if attemptsUsed < maxAttempts {
        var delay := CalculateRetryDelay(job.policy, attemptsUsed, draw);
        jobs := jobs[id := job.(status := Queued, runAt := TimeAfter(now, delay), claimedBy := None)];
      } else {
        jobs := jobs[id := job.(status := Failed, claimedBy := None)];
      }
    }

    /** The transaction that starts an execution; snapshot is the attempt count the claim read. */
    method MarkRunning(id: JobId, worker: WorkerId, snapshot: nat) returns (execution: nat)
      requires id in jobs && id in executions
      modifies this
      ensures jobs == old(jobs)[id := Started(old(jobs)[id])]
      ensures execution == |old(executions)[id]|
      ensures executions ==
                old(executions)[id := old(executions)[id] + [ExecutionRow(snapshot + 1, worker, ExecutionRunning)]]
    {
      var job := jobs[id];
      jobs := jobs[id := job.(status := Running, attemptCount := job.attemptCount + 1)];
      execution := |executions[id]|;
      executions := executions[id := executions[id] + [ExecutionRow(snapshot + 1, worker, ExecutionRunning)]];
    }

    /** The transaction that completes it. */
    method MarkCompleted(id: JobId, execution: nat)
      requires id in jobs && id in executions && execution < |executions[id]|
      modifies this
      ensures jobs == old(jobs)[id := old(jobs)[id].(status := Completed)]
      ensures executions == old(executions)[id := SetStatus(old(executions)[id], execution, ExecutionCompleted)]
    {
      executions := executions[id := SetStatus(executions[id], execution, ExecutionCompleted)];
      jobs := jobs[id := jobs[id].(status := Completed)];
    }

    /** executeJob, between the semaphore's acquire and release. */
    method ExecuteJob(id: JobId, worker: WorkerId, snapshot: nat, course: Course, now: nat, draw: real)
      requires id in jobs ==> id in executions
      modifies this
      ensures jobs ==
                if id in old(jobs) then old(jobs)[id := AfterExecution(old(jobs)[id], course, now, draw)] else old(jobs)
      ensures executions ==
                if id in old(jobs) then
                  old(executions)[id := RecordsAfter(old(executions)[id], course, worker, snapshot)]
                else old(executions)
      ensures id in old(jobs) ==>
                executions[id] == old(executions)[id] +
                  (if course.StartThrows? then []
                   else if course.AllWell? then [ExecutionRow(snapshot + 1, worker, ExecutionCompleted)]
                   else [ExecutionRow(snapshot + 1, worker, ExecutionFailed)])
      ensures id in old(jobs) ==>
                var before, after := old(jobs)[id], jobs[id];
                var limit := if before.maxAttempts.Some? then before.maxAttempts.value
                             else if before.policy.Some? then before.policy.value.maxAttempts else 3;
                && after == before.(status := after.status, attemptCount := after.attemptCount, runAt := after.runAt,
                                    claimedBy := after.claimedBy)
                && after.attemptCount == before.attemptCount + (if course.StartThrows? then 0 else 1)
                && after.status == (if course.AllWell? then Completed
                                    else if after.attemptCount < limit then Queued else Failed)
                && after.claimedBy == (if course.AllWell? then before.claimedBy else None)
                && (after.status != Queued ==> after.runAt == before.runAt)
                && (after.status == Queued ==>
                      after.runAt == TimeAfter(now, RetryDelay(before.policy, after.attemptCount, draw)))
    {
      hide TimeAfter, RetryDelay, ResolveLimit;
      if id in jobs { ExecutionLeaves(jobs[id], course, now, draw); }
      if id !in jobs || course.StartThrows? {
        HandleJobFailure(id, None, now, draw);
        return;
      }
      var execution := MarkRunning(id, worker, snapshot);
      LastStatusSet(executions[id], old(executions)[id]);
      if course.HandlerThrows? {
        HandleJobFailure(id, Some(execution), now, draw);
        return;
      }
      MarkCompleted(id, execution);
      LastStatusSet(executions[id], old(executions)[id]);
      if course.ReportThrows? { HandleJobFailure(id, Some(execution), now, draw); }
    }
  }

  function SetStatus(rows: seq<ExecutionRow>, k: nat, status: ExecutionStatus): (r: seq<ExecutionRow>)
    requires k < |rows|
    ensures |r| == |rows| && r[..k] == rows[..k] && r[k + 1..] == rows[k + 1..] && r[k].status == status
  {
    rows[k := rows[k].(status := status)]
  }

  lemma LastStatusSet(rows: seq<ExecutionRow>, before: seq<ExecutionRow>)
    requires |rows| == |before| + 1 && rows[..|before|] == before
    ensures forall status :: SetStatus(rows, |before|, status) == before + [rows[|before|].(status := status)]
  {
  }

  function Retried(row: JobRow, now: nat): JobRow {
    row.(status := Queued, attemptCount := 0, runAt := now, claimedBy := None)
  }

  // ---------------------------------------------------------------- the same steps as events

  /** The cell describes this row and the attempt numbers recorded since the last manual retry. */
  predicate Describes(c: Cell, row: JobRow, executions: seq<ExecutionRow>) {
    && c.status == row.status && c.attempts == row.attemptCount && c.limit == LimitOf(row)
    && c.runAt == row.runAt && c.owner == row.claimedBy
    && |c.records| <= |executions|
    && forall k :: 0 <= k < |c.records| ==>
         c.records[k] == executions[|executions| - |c.records| + k].attemptNumber
  }

  function Played(c: Cell, events: seq<CellEvent>): Option<Cell>
    decreases |events|
  {
    if events == [] then Some(c)
    else if Enabled(c, events[0]) then Played(Apply(c, events[0]), events[1..])
    else None
  }

  /** The events of one undisturbed execution by the i-th executor. */
  function EventsOf(i: nat, course: Course, at: int): seq<CellEvent> {
    match course
    case StartThrows => [Activate(i), FailRead(i), FailWrite(i, at), Leave(i)]
    case HandlerThrows => [Activate(i), Start(i), FailRead(i), FailWrite(i, at), Leave(i)]
    case ReportThrows => [Activate(i), Start(i), Report(i), FailRead(i), FailWrite(i, at), Leave(i)]
    case AllWell => [Activate(i), Start(i), Report(i), Conclude(i), Leave(i)]
  }

  lemma PlayFirst(c: Cell, e: CellEvent, rest: seq<CellEvent>)
    requires Enabled(c, e)
    ensures Played(c, [e] + rest) == Played(Apply(c, e), rest)
  {
    assert ([e] + rest)[1..] == rest;
  }

  lemma FailReadDescribed(c: Cell, i: nat, row: JobRow, executions: seq<ExecutionRow>)
    requires c.lock.None? && InPhase(c, i, {Starting, Working, Reported}) && Describes(c, row, executions)
    ensures var d := Apply(c, FailRead(i));
            && d.lock.None? && i < |d.executors| && d.executors[i].phase == Failing(row.attemptCount)
            && Describes(d, row, executions)
  {
  }

  lemma FailWriteDescribed(c: Cell, i: nat, row: JobRow, executions: seq<ExecutionRow>, at: int)
    requires c.lock.None? && i < |c.executors| && c.executors[i].phase == Failing(row.attemptCount)
    requires Describes(c, row, executions)
    ensures var d := Apply(c, FailWrite(i, at));
            var after := if row.attemptCount < LimitOf(row) then row.(status := Queued, runAt := at, claimedBy := None)
                         else row.(status := Failed, claimedBy := None);
            Enabled(d, Leave(i)) && Describes(d, after, executions)
  {
  }

  lemma LeaveDescribed(c: Cell, i: nat, row: JobRow, executions: seq<ExecutionRow>)
    requires Enabled(c, Leave(i)) && Describes(c, row, executions)
    ensures Played(c, [Leave(i)]).Some? && Describes(Played(c, [Leave(i)]).value, row, executions)
  {
    assert [Leave(i)] == [Leave(i)] + [];
    PlayFirst(c, Leave(i), []);
  }

  lemma ActivateDescribed(c: Cell, i: nat, row: JobRow, executions: seq<ExecutionRow>)
    requires c.lock.None? && InPhase(c, i, {Batched}) && Describes(c, row, executions)
    ensures var d := Apply(c, Activate(i));
            && d.lock.None? && InPhase(d, i, {Starting}) && d.executors[i].snapshot == c.executors[i].snapshot
            && Describes(d, row, executions)
  {
  }

  /** The failure handler, from any phase in which something may throw. */
  lemma FailurePlayed(c: Cell, i: nat, row: JobRow, executions: seq<ExecutionRow>, now: nat, draw: real)
    requires c.lock.None? && InPhase(c, i, {Starting, Working, Reported}) && Describes(c, row, executions)
    ensures var after := AfterFailure(row, now, draw);
            var end := Played(c, [FailRead(i), FailWrite(i, after.runAt), Leave(i)]);
            end.Some? && Describes(end.value, after, executions)
  {
    var after := AfterFailure(row, now, draw);
    var read, write := FailRead(i), FailWrite(i, after.runAt);
    assert [read, write, Leave(i)] == [read] + ([write] + [Leave(i)]);
    FailReadDescribed(c, i, row, executions);
    PlayFirst(c, read, [write] + [Leave(i)]);
    FailWriteDescribed(Apply(c, read), i, row, executions, after.runAt);
    PlayFirst(Apply(c, read), write, [Leave(i)]);
    LeaveDescribed(Apply(Apply(c, read), write), i, after, executions);
  }

  lemma StartPlayed(c: Cell, i: nat, row: JobRow, executions: seq<ExecutionRow>, more: seq<ExecutionRow>)
    requires c.lock.None? && InPhase(c, i, {Starting}) && Describes(c, row, executions)
    requires |more| == |executions| + 1 && more[..|executions|] == executions
    requires more[|executions|].attemptNumber == c.executors[i].snapshot + 1
    ensures var d := Apply(c, Start(i));
            InPhase(d, i, {Working}) && d.lock.None? && Describes(d, Started(row), more)
  {
    var d := Apply(c, Start(i));
    forall k | 0 <= k < |d.records| ensures d.records[k] == more[|more| - |d.records| + k].attemptNumber {
      if k < |c.records| {
        assert more[..|executions|][|executions| - |c.records| + k] == executions[|executions| - |c.records| + k];
      }
    }
  }

  /** One undisturbed executeJob is a run of the job's events, and the rows it leaves are those of the run. */
  lemma ExecutionPlayed(
    c: Cell, i: nat, row: JobRow, executions: seq<ExecutionRow>, course: Course, now: nat, draw: real)
    requires c.lock.None? && InPhase(c, i, {Batched}) && Describes(c, row, executions)
    ensures var x := c.executors[i];
            var after := AfterExecution(row, course, now, draw);
            var end := Played(c, EventsOf(i, course, after.runAt));
            end.Some? && Describes(end.value, after, RecordsAfter(executions, course, x.worker, x.snapshot))
  {
    var x := c.executors[i];
    var at := AfterExecution(row, course, now, draw).runAt;
    var events := EventsOf(i, course, at);
    var c1 := Apply(c, Activate(i));
    assert events == [Activate(i)] + events[1..];
    PlayFirst(c, Activate(i), events[1..]);
    ActivateDescribed(c, i, row, executions);
    if course.StartThrows? {
      FailurePlayed(c1, i, row, executions, now, draw);
      assert events[1..] == [FailRead(i), FailWrite(i, at), Leave(i)];
    } else {
      StartPlayed(c1, i, row, executions, RecordsAfter(executions, course, x.worker, x.snapshot));
      assert events[1..] == [Start(i)] + events[2..];
      PlayFirst(c1, Start(i), events[2..]);
      WorkPlayed(Apply(c1, Start(i)), i, Started(row), RecordsAfter(executions, course, x.worker, x.snapshot),
                 course, now, draw);
      assert events[2..] == WorkEvents(i, course, at);
    }
  }

  function WorkEvents(i: nat, course: Course, at: int): seq<CellEvent> {
    match course
    case AllWell => [Report(i), Conclude(i), Leave(i)]
    case ReportThrows => [Report(i), FailRead(i), FailWrite(i, at), Leave(i)]
    case _ => [FailRead(i), FailWrite(i, at), Leave(i)]
  }

  /** From Running on. */
  lemma WorkPlayed(
    c: Cell, i: nat, row: JobRow, executions: seq<ExecutionRow>, course: Course, now: nat, draw: real)
    requires c.lock.None? && InPhase(c, i, {Working}) && Describes(c, row, executions) && !course.StartThrows?
    ensures var after := match course
                         case HandlerThrows => AfterFailure(row, now, draw)
                         case ReportThrows => AfterFailure(row.(status := Completed), now, draw)
                         case _ => row.(status := Completed);
            var end := Played(c, WorkEvents(i, course, after.runAt));
            end.Some? && Describes(end.value, after, executions)
  {
    hide RetryDelay, TimeAfter;
    if course.HandlerThrows? {
      FailurePlayed(c, i, row, executions, now, draw);
    } else {
      var done := row.(status := Completed);
      var at := if course.ReportThrows? then AfterFailure(done, now, draw).runAt else row.runAt;
      var events := WorkEvents(i, course, at);
      assert events == [Report(i)] + events[1..];
      PlayFirst(c, Report(i), events[1..]);
      ReportPlayed(Apply(c, Report(i)), i, done, executions, course, now, draw);
      assert events[1..] == if course.ReportThrows? then [FailRead(i), FailWrite(i, at), Leave(i)]
                            else [Conclude(i), Leave(i)];
    }
  }

  lemma ReportPlayed(
    c: Cell, i: nat, row: JobRow, executions: seq<ExecutionRow>, course: Course, now: nat, draw: real)
    requires c.lock.None? && InPhase(c, i, {Reported}) && Describes(c, row, executions)
    ensures var after := if course.ReportThrows? then AfterFailure(row, now, draw) else row;
            var tail := if course.ReportThrows? then [FailRead(i), FailWrite(i, after.runAt), Leave(i)]
                        else [Conclude(i), Leave(i)];
            Played(c, tail).Some? && Describes(Played(c, tail).value, after, executions)
  {
    if course.ReportThrows? {
      FailurePlayed(c, i, row, executions, now, draw);
    } else {
      assert [Conclude(i), Leave(i)] == [Conclude(i)] + [Leave(i)];
      PlayFirst(c, Conclude(i), [Leave(i)]);
      LeaveDescribed(Apply(c, Conclude(i)), i, row, executions);
    }
  }

  /** The same for the two requests: accepted exactly when the first event is possible. */
  lemma CancelPlayed(c: Cell, row: JobRow, executions: seq<ExecutionRow>)
    requires c.lock.None? && c.cancels == 0 && Describes(c, row, executions)
    ensures row.status in {Queued, Scheduled, Claimed} <==> Played(c, [CancelRead, CancelWrite]).Some?
    ensures row.status in {Queued, Scheduled, Claimed} ==>
              Describes(Played(c, [CancelRead, CancelWrite]).value, row.(status := Cancelled), executions)
  {
    assert [CancelRead, CancelWrite] == [CancelRead] + ([CancelWrite] + []);
    if Enabled(c, CancelRead) {
      PlayFirst(c, CancelRead, [CancelWrite] + []);
      PlayFirst(Apply(c, CancelRead), CancelWrite, []);
    }
  }

  lemma RetryPlayed(c: Cell, row: JobRow, executions: seq<ExecutionRow>, now: nat)
    requires c.lock.None? && c.retries == 0 && Describes(c, row, executions)
    ensures row.status in {Failed, Cancelled, DeadLetter} <==> Played(c, [RetryRead, RetryWrite(now)]).Some?
    ensures row.status in {Failed, Cancelled, DeadLetter} ==>
              Describes(Played(c, [RetryRead, RetryWrite(now)]).value, Retried(row, now), executions)
  {
    assert [RetryRead, RetryWrite(now)] == [RetryRead] + ([RetryWrite(now)] + []);
    if Enabled(c, RetryRead) {
      PlayFirst(c, RetryRead, [RetryWrite(now)] + []);
      PlayFirst(Apply(c, RetryRead), RetryWrite(now), []);
    }
  }

  // ---------------------------------------------------------------- a job that keeps failing

  function ClaimedBy(row: JobRow, worker: WorkerId): JobRow {
    row.(status := Claimed, claimedBy := Some(worker))
  }

  /** The row when no attempt follows any more, and when each attempt was claimed. */
  datatype Fate = Fate(row: JobRow, starts: seq<int>)

  /** Claim and fail, again and again, as long as the failure handler puts the job back.  Attempt k is claimed lag(k)
      after the job is due, and fails run(k) later. */
  function FailForever(row: JobRow, worker: WorkerId, now: nat, lag: nat -> nat, run: nat -> nat,
                       draws: nat -> real): Fate
    decreases LimitOf(row) - row.attemptCount
  {
    var k := row.attemptCount + 1;
    var start: nat := Max(now, row.runAt) + lag(k);
    var after := AfterExecution(ClaimedBy(row, worker), HandlerThrows, start + run(k), draws(k));
    if after.status == Queued then
      var rest := FailForever(after, worker, start + run(k), lag, run, draws);
      Fate(rest.row, [start] + rest.starts)
    else Fate(after, [start])
  }

  lemma OneFailure(row: JobRow, worker: WorkerId, now: nat, draw: real)
    ensures var after := AfterExecution(ClaimedBy(row, worker), HandlerThrows, now, draw);
            && after.attemptCount == row.attemptCount + 1
            && after.policy == row.policy && LimitOf(after) == LimitOf(row)
            && after.status == (if row.attemptCount + 1 < LimitOf(row) then Queued else Failed)
            && (after.status == Queued ==>
                  (after.runAt - now) as real > RetryDelay(row.policy, row.attemptCount + 1, draw) - 1.0)
  {
    hide RetryDelay, TimeAfter;
    TimeRounds(now, RetryDelay(row.policy, row.attemptCount + 1, draw));
  }

  /** Between the claims of two attempts lies the retry delay for the attempts used by then, but for less than the
      millisecond cut off. */
  ghost predicate Waits(policy: Option<RetryPolicy>, used: nat, starts: seq<int>, draws: nat -> real) {
    forall i :: 0 <= i < |starts| - 1 ==>
      (starts[i + 1] - starts[i]) as real > RetryDelay(policy, used + i + 1, draws(used + i + 1)) - 1.0
  }

  lemma WaitsMore(policy: Option<RetryPolicy>, used: nat, start: int, starts: seq<int>, draws: nat -> real)
    requires Waits(policy, used + 1, starts, draws) && starts != []
    requires (starts[0] - start) as real > RetryDelay(policy, used + 1, draws(used + 1)) - 1.0
    ensures Waits(policy, used, [start] + starts, draws)
  {
    hide RetryDelay;
    var more := [start] + starts;
    forall i | 0 <= i < |more| - 1
      ensures (more[i + 1] - more[i]) as real > RetryDelay(policy, used + i + 1, draws(used + i + 1)) - 1.0
    {
      if i > 0 {
        assert (starts[(i - 1) + 1] - starts[i - 1]) as real >
               RetryDelay(policy, (used + 1) + (i - 1) + 1, draws((used + 1) + (i - 1) + 1)) - 1.0;
        assert more[i + 1] == starts[i] && more[i] == starts[i - 1];
        assert (used + 1) + (i - 1) + 1 == used + i + 1;
      }
    }
  }

  lemma {:induction false} FailingFrom(row: JobRow, worker: WorkerId, now: nat, lag: nat -> nat, run: nat -> nat,
                                       draws: nat -> real)
    ensures var f := FailForever(row, worker, now, lag, run, draws);
            && f.row.status == Failed && LimitOf(f.row) == LimitOf(row)
            && f.row.attemptCount == row.attemptCount + |f.starts| == Max(row.attemptCount + 1, LimitOf(row))
            && f.starts[0] >= now && f.starts[0] >= row.runAt
            && Waits(row.policy, row.attemptCount, f.starts, draws)
    decreases LimitOf(row) - row.attemptCount
  {
    hide RetryDelay, TimeAfter, AfterExecution, Waits;
    var k := row.attemptCount + 1;
    var start: nat := Max(now, row.runAt) + lag(k);
    var after := AfterExecution(ClaimedBy(row, worker), HandlerThrows, start + run(k), draws(k));
    OneFailure(row, worker, start + run(k), draws(k));
    if k < LimitOf(row) {
      var rest := FailForever(after, worker, start + run(k), lag, run, draws);
      FailingFrom(after, worker, start + run(k), lag, run, draws);
      WaitsMore(row.policy, row.attemptCount, start, rest.starts, draws);
    } else {
      SingleWaits(row.policy, row.attemptCount, start, draws);
    }
  }

  lemma SingleWaits(policy: Option<RetryPolicy>, used: nat, start: int, draws: nat -> real)
    ensures Waits(policy, used, [start], draws)
  {
  }

  lemma {:induction false} WaitsAddUp(policy: Option<RetryPolicy>, limit: int, used: nat, starts: seq<int>,
                                      draws: nat -> real)
    requires starts != [] && Waits(policy, used, starts, draws) && used + |starts| == Max(used + 1, limit)
    ensures (starts[|starts| - 1] - starts[0]) as real >=
              TotalWait(policy, limit, used, draws) - (|starts| - 1) as real
    decreases |starts|
  {
    hide RetryDelay;
    if |starts| > 1 {
      var rest := starts[1..];
      forall i | 0 <= i < |rest| - 1
        ensures (rest[i + 1] - rest[i]) as real > RetryDelay(policy, used + 1 + i + 1, draws(used + 1 + i + 1)) - 1.0
      {
        assert (starts[(i + 1) + 1] - starts[i + 1]) as real >
               RetryDelay(policy, used + (i + 1) + 1, draws(used + (i + 1) + 1)) - 1.0;
        assert used + (i + 1) + 1 == used + 1 + i + 1;
      }
      WaitsAddUp(policy, limit, used + 1, rest, draws);
      assert (starts[0 + 1] - starts[0]) as real > RetryDelay(policy, used + 0 + 1, draws(used + 0 + 1)) - 1.0;
    }
  }

  /** A new job whose handler always throws runs exactly max(1, limit) times, each time no earlier than its run time
      and the retry delay after the attempt before, and ends Failed with its attempts used up, ready to be
      dead-lettered.  From the first claim to the last at least the sum of the delays passes, less a millisecond for
      each. */
  lemma FailsExactlyLimitTimes(row: JobRow, worker: WorkerId, now: nat, lag: nat -> nat, run: nat -> nat,
                               draws: nat -> real)
    requires row.status == Queued && row.attemptCount == 0
    ensures var f := FailForever(row, worker, now, lag, run, draws);
            && |f.starts| == Max(1, LimitOf(row)) && f.starts[0] >= row.runAt
            && f.row.status == Failed && f.row.attemptCount >= LimitOf(f.row)
            && (forall i :: 0 <= i < |f.starts| - 1 ==>
                  (f.starts[i + 1] - f.starts[i]) as real > RetryDelay(row.policy, i + 1, draws(i + 1)) - 1.0)
            && (f.starts[|f.starts| - 1] - f.starts[0]) as real >=
                 TotalWait(row.policy, LimitOf(row), 0, draws) - (|f.starts| - 1) as real
  {
    hide RetryDelay, TimeAfter, AfterExecution;
    var f := FailForever(row, worker, now, lag, run, draws);
    FailingFrom(row, worker, now, lag, run, draws);
    WaitsAddUp(row.policy, LimitOf(row), 0, f.starts, draws);
    forall i | 0 <= i < |f.starts| - 1
      ensures (f.starts[i + 1] - f.starts[i]) as real > RetryDelay(row.policy, i + 1, draws(i + 1)) - 1.0
    {
      assert 0 + i + 1 == i + 1;
    }
  }
}
