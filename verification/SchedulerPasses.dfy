/** The reaper and dead-letter passes of the scheduler, statement by statement over the stored tables, and as
    runs of the fleet. */
module SchedulerPasses {
  import opened Common
  import opened JobCell
  import opened ClaimSelection
  import opened Fleet
  import opened FleetRuns

  datatype WorkerRow = WorkerRow(status: WorkerStatus, lastHeartbeat: int)

  /** A dead-letter snapshot. */
  datatype DeadLetterRow = DeadLetterRow(job: JobId, queue: QueueId, attempts: nat)

  function StaleWorkers(workers: map<WorkerId, WorkerRow>, now: int, heartbeatMs: int): set<WorkerId> {
    set w | w in workers && workers[w].status in {Online, Draining} && workers[w].lastHeartbeat < now - 3 * heartbeatMs
  }

  /** The jobs the reaper's updateMany can match; rows of an open claim are Queued, so none is locked. */
  predicate Held(c: Cell) {
    c.status in {Claimed, Running} && c.owner.Some? && c.lock.None?
  }

  /** clock gives the time at which the pass resets the jobs of a worker. */
  function ReapedBy(c: Cell, ws: set<WorkerId>, clock: WorkerId -> int): Cell {
    if Held(c) && c.owner.value in ws then Apply(c, Reap(c.owner.value, clock(c.owner.value))) else c
  }

  predicate Spent(c: Cell) {
    c.status == Failed && c.attempts >= c.limit
  }

  function Buried(c: Cell): Cell {
    c.(status := DeadLetter)
  }

  function AfterDlqPass(c: Cell): Cell {
    if Spent(c) then Buried(c) else c
  }

  function Snapshot(t: Table, j: JobId): DeadLetterRow {
    if j in t then DeadLetterRow(j, t[j].queue, t[j].attempts) else DeadLetterRow(j, "", 0)
  }

  function Snapshots(t: Table, order: seq<JobId>): (r: seq<DeadLetterRow>)
    ensures |r| == |order| && forall i :: 0 <= i < |order| ==> r[i] == Snapshot(t, order[i])
  {
    seq(|order|, i requires 0 <= i < |order| => Snapshot(t, order[i]))
  }

  /** What the reaper's statement makes of a row, column by column. */
  lemma ReapedColumns(c: Cell, ws: set<WorkerId>, clock: WorkerId -> int)
    ensures ReapedBy(c, ws, clock) ==
              if && (c.status == JobStatus.Claimed || c.status == Running) && c.lock.None?
                 && c.owner.Some? && c.owner.value in ws
              then c.(status := Queued, owner := None, runAt := clock(c.owner.value),
                      returned := c.returned + 1, entered := c.entered + 1)
              else c
  {
  }

  class Database {
    var jobs: Table
    var workers: map<WorkerId, WorkerRow>
    var deadLetters: seq<DeadLetterRow>

    constructor (jobs: Table, workers: map<WorkerId, WorkerRow>)
      ensures this.jobs == jobs && this.workers == workers && deadLetters == []
    {
      this.jobs, this.workers, deadLetters := jobs, workers, [];
    }

    /** reaperScan: a worker that is Online or Draining is stale after three heartbeats; each Claimed or Running job
        it owns goes back to Queued, exactly once, unowned and due at the time its worker is handled; the worker
        becomes Offline; and nothing else changes. */
    method ReaperScan(now: int, clock: WorkerId -> int, heartbeatMs: int)
      modifies `jobs, `workers
      ensures jobs == map j | j in old(jobs) ::
                        ReapedBy(old(jobs)[j], StaleWorkers(old(workers), now, heartbeatMs), clock)
      ensures workers == map w | w in old(workers) ::
                           if (old(workers)[w].status == Online || old(workers)[w].status == Draining) &&
                              old(workers)[w].lastHeartbeat < now - 3 * heartbeatMs
                           then old(workers)[w].(status := Offline) else old(workers)[w]
      ensures forall j :: j in old(jobs) ==>
                var c := old(jobs)[j];
                jobs[j] ==
                  if && (c.status == JobStatus.Claimed || c.status == Running) && c.lock.None?
                     && c.owner.Some? && c.owner.value in old(workers)
                     && (old(workers)[c.owner.value].status == Online || old(workers)[c.owner.value].status == Draining)
                     && old(workers)[c.owner.value].lastHeartbeat < now - 3 * heartbeatMs
                  then c.(status := Queued, owner := None, runAt := clock(c.owner.value),
                          returned := c.returned + 1, entered := c.entered + 1)
                  else c
    {
      ghost var jobs0, workers0 := jobs, workers;
      var stale := StaleWorkers(workers, now, heartbeatMs);
      var todo := stale;
      while todo != {}
        invariant todo <= stale && workers.Keys == workers0.Keys
        invariant jobs == map j | j in jobs0 :: ReapedBy(jobs0[j], stale - todo, clock)
        invariant forall w :: w in workers ==>
                    workers[w] == if w in stale - todo then workers0[w].(status := Offline) else workers0[w]
        decreases todo
      {
        var w :| w in todo;
        jobs := map j | j in jobs :: ReapedBy(jobs[j], {w}, clock);
        workers := workers[w := workers[w].(status := Offline)];
        TableReaped(jobs0, stale - todo, {w}, clock);
        assert stale - (todo - {w}) == (stale - todo) + {w};
        todo := todo - {w};
      }
      assert stale - todo == stale;
      forall j | j in jobs0 { ReapedColumns(jobs0[j], stale, clock); }
    }

    /** moveToDlq: each Failed job that has used up its attempts is dead-lettered with exactly one snapshot of its
        queue and attempt count, in some order, and no other job changes. */
    method MoveToDlq() returns (order: seq<JobId>)
      modifies `jobs, `deadLetters
      ensures forall i, k :: 0 <= i < k < |order| ==> order[i] != order[k]
      ensures forall j :: j in order <==>
                j in old(jobs) && old(jobs)[j].status == Failed && old(jobs)[j].attempts >= old(jobs)[j].limit
      ensures deadLetters == old(deadLetters) + Snapshots(old(jobs), order)
      ensures |deadLetters| == |old(deadLetters)| + |order|
      ensures forall i :: 0 <= i < |order| ==>
                deadLetters[|old(deadLetters)| + i] ==
                  DeadLetterRow(order[i], old(jobs)[order[i]].queue, old(jobs)[order[i]].attempts)
      ensures jobs == map j | j in old(jobs) ::
                        if j in order then old(jobs)[j].(status := DeadLetter) else old(jobs)[j]
      ensures jobs == map j | j in old(jobs) :: AfterDlqPass(old(jobs)[j])
    {
      hide InDlqPass;
      order := [];
      ghost var jobs0 := jobs;
      var todo := set j | j in jobs && jobs[j].status == Failed;
      DlqPassBegins(jobs, todo);
      while todo != {}
        invariant InDlqPass(jobs0, jobs, todo, order)
        invariant deadLetters == old(deadLetters) + Snapshots(jobs0, order)
        decreases todo
      {
        var j :| j in todo;
        DlqPassTurn(jobs0, jobs, todo, order, j);
        var job := jobs[j];
        if job.attempts >= job.limit {
          deadLetters := deadLetters + [DeadLetterRow(j, job.queue, job.attempts)];
          jobs := jobs[j := Buried(job)];
          assert Snapshots(jobs0, order + [j]) == Snapshots(jobs0, order) + [Snapshot(jobs0, j)];
          order := order + [j];
        }
        todo := todo - {j};
      }
      DlqPassEnds(jobs0, jobs, order);
    }
  }

  /** Part of the way: the jobs in order have been dead-lettered, those in todo are still to be looked at. */
  ghost predicate InDlqPass(before: Table, now: Table, todo: set<JobId>, order: seq<JobId>) {
    && now.Keys == before.Keys && NoRepeats(order)
    && (forall j :: j in todo ==> j in before && j !in order && before[j].status == Failed)
    && (forall j :: j in order <==> j in before && j !in todo && Spent(before[j]))
    && (forall j :: j in before ==> now[j] == if j in order then Buried(before[j]) else before[j])
  }

  lemma DlqPassBegins(t: Table, todo: set<JobId>)
    requires todo == set j | j in t && t[j].status == Failed
    ensures InDlqPass(t, t, todo, []) && todo <= t.Keys
  {
  }

  lemma DlqPassTurn(before: Table, now: Table, todo: set<JobId>, order: seq<JobId>, j: JobId)
    requires InDlqPass(before, now, todo, order) && j in todo
    ensures j in before && j in now && now[j] == before[j]
    ensures if before[j].attempts >= before[j].limit
            then InDlqPass(before, now[j := Buried(now[j])], todo - {j}, order + [j])
            else InDlqPass(before, now, todo - {j}, order)
  {
    assert forall k :: k in order + [j] <==> k in order || k == j;
  }

  lemma DlqPassEnds(before: Table, now: Table, order: seq<JobId>)
    requires InDlqPass(before, now, {}, order)
    ensures NoRepeats(order) && forall j :: j in order <==> j in before && Spent(before[j])
    ensures now == map j | j in before :: AfterDlqPass(before[j])
  {
  }

  lemma TableReaped(t: Table, ws: set<WorkerId>, more: set<WorkerId>, clock: WorkerId -> int)
    ensures (map j | j in t :: ReapedBy(ReapedBy(t[j], ws, clock), more, clock)) ==
            map j | j in t :: ReapedBy(t[j], ws + more, clock)
  {
  }

  /** The dead-letter pass leaves no Failed job behind exactly when every Failed job had used up its attempts. */
  lemma DeadLetteringCompleteIff(t: Table)
    ensures (forall j :: j in t ==> AfterDlqPass(t[j]).status != Failed) <==>
            (forall j :: j in t && t[j].status == Failed ==> t[j].attempts >= t[j].limit)
  {
    forall j | j in t
      ensures AfterDlqPass(t[j]).status != Failed <==> (t[j].status == Failed ==> t[j].attempts >= t[j].limit)
    {
    }
  }

  /** Dead-lettering is complete in every reachable state in which no manual retry has overlapped a failure
      handler that was giving up. */
  lemma DeadLetteringComplete(s: State)
    requires Reachable(s) && forall j :: j in s.cells ==> !s.cells[j].overlapped
    ensures forall j :: j in s.cells ==> AfterDlqPass(s.cells[j]).status != Failed
  {
    forall j | j in s.cells && s.cells[j].status == Failed ensures s.cells[j].attempts >= s.cells[j].limit {
      FailedJobsAreSpent(s, j);
    }
    DeadLetteringCompleteIff(s.cells);
  }

  // ---------------------------------------------------------------- the dead-letter pass as a run of the fleet

  function OnEach(order: seq<JobId>, e: CellEvent): seq<Event> {
    if order == [] then [] else [OnJob(order[0], e)] + OnEach(order[1..], e)
  }

  function AppliedTo(t: Table, order: seq<JobId>, e: CellEvent): (u: Table)
    requires forall j :: j in order && j in t ==> Enabled(t[j], e)
    ensures u.Keys == t.Keys
  {
    map j | j in t :: if j in order then Apply(t[j], e) else t[j]
  }

  lemma OneRequest(s: State, j: JobId, e: CellEvent)
    requires j in s.cells && SingleRow(e) && !ByExecutor(e) && Enabled(s.cells[j], e)
    ensures Allowed(s, OnJob(j, e)) && Next(s, OnJob(j, e)) == s.(cells := s.cells[j := Apply(s.cells[j], e)])
  {
    assert Allowed(s, OnJob(j, e));
    assert (map w | w in s.procs :: NextProc(s, OnJob(j, e), w)) == s.procs;
  }

  lemma AppliedFirst(t: Table, order: seq<JobId>, e: CellEvent)
    requires order != [] && order[0] in t && order[0] !in order[1..]
    requires forall j :: j in order && j in t ==> Enabled(t[j], e)
    ensures var u := t[order[0] := Apply(t[order[0]], e)];
            && (forall j :: j in order[1..] && j in u ==> j in t && u[j] == t[j])
            && AppliedTo(u, order[1..], e) == AppliedTo(t, order, e)
  {
    assert order == [order[0]] + order[1..];
  }

  /** The same request on several jobs, one after the other. */
  lemma {:induction false} EachRequest(s: State, order: seq<JobId>, e: CellEvent)
    requires NoRepeats(order) && SingleRow(e) && !ByExecutor(e)
    requires forall j :: j in order ==> j in s.cells && Enabled(s.cells[j], e)
    ensures From(s, OnEach(order, e)) == Some(s.(cells := AppliedTo(s.cells, order, e)))
    decreases |order|
  {
    if order == [] {
      assert AppliedTo(s.cells, order, e) == s.cells;
    } else {
      OneRequest(s, order[0], e);
      AppliedFirst(s.cells, order, e);
      EachRequest(Next(s, OnJob(order[0], e)), order[1..], e);
      assert OnEach(order, e)[1..] == OnEach(order[1..], e);
    }
  }

  /** A dead-letter write undisturbed since its read. */
  lemma BuriedIsTwoSteps(c: Cell)
    requires Spent(c) && c.lock.None?
    ensures Enabled(c, BuryRead) && Enabled(Apply(c, BuryRead), BuryWrite)
    ensures Apply(Apply(c, BuryRead), BuryWrite) == Buried(c)
  {
  }

  lemma BuriedTable(t: Table, order: seq<JobId>)
    requires forall j :: j in order <==> j in t && Spent(t[j])
    requires forall j :: j in order ==> t[j].lock.None?
    ensures forall j :: j in order ==> Enabled(t[j], BuryRead)
    ensures var u := AppliedTo(t, order, BuryRead);
            && (forall j :: j in order ==> Enabled(u[j], BuryWrite))
            && AppliedTo(u, order, BuryWrite) == map j | j in t :: AfterDlqPass(t[j])
  {
    forall j | j in order
      ensures Enabled(t[j], BuryRead) && Enabled(Apply(t[j], BuryRead), BuryWrite)
      ensures Apply(Apply(t[j], BuryRead), BuryWrite) == Buried(t[j])
    {
      BuriedIsTwoSteps(t[j]);
    }
  }

  lemma SpentAreUnlocked(s: State, order: seq<JobId>)
    requires Reachable(s) && forall j :: j in order <==> j in s.cells && Spent(s.cells[j])
    ensures forall j :: j in order ==> s.cells[j].lock.None?
  {
    ReachableGood(s);
    forall j | j in order ensures s.cells[j].lock.None? { assert GoodCell(s.cells[j]); }
  }

  /** An undisturbed dead-letter pass, in the order MoveToDlq took, is a run of the fleet: all reads, then the
      writes one by one, lead from the table before the pass to the table MoveToDlq leaves. */
  lemma DlqPassIsRun(s: State, order: seq<JobId>)
    requires Reachable(s) && NoRepeats(order) && forall j :: j in order <==> j in s.cells && Spent(s.cells[j])
    ensures var pass := From(s, OnEach(order, BuryRead) + OnEach(order, BuryWrite));
            && pass == Some(s.(cells := map j | j in s.cells :: AfterDlqPass(s.cells[j])))
            && Reachable(pass.value)
  {
    SpentAreUnlocked(s, order);
    BuriedTable(s.cells, order);
    EachRequest(s, order, BuryRead);
    EachRequest(s.(cells := AppliedTo(s.cells, order, BuryRead)), order, BuryWrite);
    FromJoin(s, OnEach(order, BuryRead), OnEach(order, BuryWrite));
    FromReachable(s, OnEach(order, BuryRead) + OnEach(order, BuryWrite));
  }

  // ---------------------------------------------------------------- the reaper pass as a run of the fleet

  function SuspectEach(order: seq<WorkerId>): seq<Event> {
    if order == [] then [] else [ReapRead(order[0])] + SuspectEach(order[1..])
  }

  function ReapEach(order: seq<WorkerId>, clock: WorkerId -> int): seq<Event> {
    if order == [] then []
    else [ReapJobs(order[0], clock(order[0])), ReapMark(order[0], true)] + ReapEach(order[1..], clock)
  }

  function Suspected(procs: map<WorkerId, Proc>, ws: set<WorkerId>): map<WorkerId, Proc> {
    map w | w in procs :: if w in ws then OwnStep(procs[w], ReapRead(w)) else procs[w]
  }

  function MarkedOffline(procs: map<WorkerId, Proc>, ws: set<WorkerId>): map<WorkerId, Proc> {
    map w | w in procs ::
      if w in ws then OwnStep(OwnStep(procs[w], ReapJobs(w, 0)), ReapMark(w, true)) else procs[w]
  }

  function TableAfterReaping(t: Table, ws: set<WorkerId>, clock: WorkerId -> int): Table {
    map j | j in t :: ReapedBy(t[j], ws, clock)
  }

  lemma OneSuspected(s: State, w: WorkerId)
    requires w in s.procs && s.procs[w].row in {Online, Draining}
    ensures Allowed(s, ReapRead(w)) && Next(s, ReapRead(w)) == s.(procs := Suspected(s.procs, {w}))
  {
    assert NextCells(s, ReapRead(w)) == s.cells;
  }

  lemma SuspectedFirst(procs: map<WorkerId, Proc>, order: seq<WorkerId>)
    requires order != [] && NoRepeats(order)
    ensures Suspected(Suspected(procs, {order[0]}), ToSet(order[1..])) == Suspected(procs, ToSet(order))
  {
    assert order == [order[0]] + order[1..];
  }

  lemma {:induction false} EachSuspected(s: State, order: seq<WorkerId>)
    requires NoRepeats(order) && forall w :: w in order ==> w in s.procs && s.procs[w].row in {Online, Draining}
    ensures From(s, SuspectEach(order)) == Some(s.(procs := Suspected(s.procs, ToSet(order))))
    decreases |order|
  {
    if order == [] {
      assert Suspected(s.procs, ToSet(order)) == s.procs;
    } else {
      OneSuspected(s, order[0]);
      EachSuspected(Next(s, ReapRead(order[0])), order[1..]);
      assert SuspectEach(order)[1..] == SuspectEach(order[1..]);
      SuspectedFirst(s.procs, order);
    }
  }

  predicate LocksAreQueued(t: Table) {
    forall j :: j in t ==> LockedIsQueued(t[j])
  }

  lemma OneReset(s: State, w: WorkerId, clock: WorkerId -> int)
    requires LocksAreQueued(s.cells) && w in s.procs && s.procs[w].suspected > 0
    ensures var ev := ReapJobs(w, clock(w));
            && Allowed(s, ev)
            && Next(s, ev) == State(TableAfterReaping(s.cells, {w}, clock),
                                s.procs[w := OwnStep(s.procs[w], ev)], s.open)
  {
    var ev := ReapJobs(w, clock(w));
    assert Allowed(s, ev);
    assert NextCells(s, ev) == TableAfterReaping(s.cells, {w}, clock);
  }

  lemma OneMarked(s: State, w: WorkerId)
    requires w in s.procs && s.procs[w].reaping > 0
    ensures var ev := ReapMark(w, true);
            Allowed(s, ev) && Next(s, ev) == s.(procs := s.procs[w := OwnStep(s.procs[w], ev)])
  {
    assert NextCells(s, ReapMark(w, true)) == s.cells;
  }

  lemma ResetsQueueLocks(t: Table, ws: set<WorkerId>, clock: WorkerId -> int)
    requires LocksAreQueued(t)
    ensures LocksAreQueued(TableAfterReaping(t, ws, clock))
  {
  }

  function Reaped(s: State, ws: set<WorkerId>, clock: WorkerId -> int): State {
    State(TableAfterReaping(s.cells, ws, clock), MarkedOffline(s.procs, ws), s.open)
  }

  lemma OneReaped(s: State, w: WorkerId, rest: seq<Event>, clock: WorkerId -> int)
    requires LocksAreQueued(s.cells) && w in s.procs && s.procs[w].suspected > 0
    ensures From(s, [ReapJobs(w, clock(w)), ReapMark(w, true)] + rest) == From(Reaped(s, {w}, clock), rest)
  {
    OneReset(s, w, clock);
    var u := Next(s, ReapJobs(w, clock(w)));
    OneMarked(u, w);
    assert Next(u, ReapMark(w, true)).procs == MarkedOffline(s.procs, {w});
    var evs := [ReapJobs(w, clock(w)), ReapMark(w, true)] + rest;
    assert evs[1..] == [ReapMark(w, true)] + rest && evs[1..][1..] == rest;
  }

  lemma ReapedMore(s: State, ws: set<WorkerId>, more: set<WorkerId>, clock: WorkerId -> int)
    requires ws !! more
    ensures Reaped(Reaped(s, ws, clock), more, clock) == Reaped(s, ws + more, clock)
  {
    TableReaped(s.cells, ws, more, clock);
    assert MarkedOffline(MarkedOffline(s.procs, ws), more) == MarkedOffline(s.procs, ws + more);
  }

  lemma NoneReaped(s: State, clock: WorkerId -> int)
    ensures Reaped(s, {}, clock) == s
  {
    assert MarkedOffline(s.procs, {}) == s.procs;
    assert TableAfterReaping(s.cells, {}, clock) == s.cells;
  }

  lemma {:induction false} EachReaped(s: State, order: seq<WorkerId>, clock: WorkerId -> int)
    requires LocksAreQueued(s.cells) && NoRepeats(order)
    requires forall w :: w in order ==> w in s.procs && s.procs[w].suspected > 0
    ensures From(s, ReapEach(order, clock)) == Some(Reaped(s, ToSet(order), clock))
    decreases |order|
  {
    if order == [] {
      assert ToSet(order) == {};
      NoneReaped(s, clock);
    } else {
      var w, rest := order[0], order[1..];
      OneReaped(s, w, ReapEach(rest, clock), clock);
      ResetsQueueLocks(s.cells, {w}, clock);
      EachReaped(Reaped(s, {w}, clock), rest, clock);
      assert order == [w] + rest && ToSet(order) == {w} + ToSet(rest);
      ReapedMore(s, {w}, ToSet(rest), clock);
    }
  }

  /** The stored worker rows are those of the fleet. */
  predicate SameRows(workers: map<WorkerId, WorkerRow>, procs: map<WorkerId, Proc>) {
    forall w :: w in workers ==> w in procs && procs[w].row == workers[w].status
  }

  lemma ReachableLocks(s: State)
    requires Reachable(s)
    ensures LocksAreQueued(s.cells)
  {
    ReachableGood(s);
    forall j | j in s.cells ensures LockedIsQueued(s.cells[j]) { assert GoodCell(s.cells[j]); }
  }

  function PassEvents(order: seq<WorkerId>, clock: WorkerId -> int): seq<Event> {
    SuspectEach(order) + ReapEach(order, clock)
  }

  lemma PassRuns(s: State, order: seq<WorkerId>, clock: WorkerId -> int)
    requires Reachable(s) && NoRepeats(order)
    requires forall w :: w in order ==> w in s.procs && s.procs[w].row in {Online, Draining}
    ensures From(s, PassEvents(order, clock)) ==
              Some(Reaped(s.(procs := Suspected(s.procs, ToSet(order))), ToSet(order), clock))
    ensures Reachable(From(s, PassEvents(order, clock)).value)
  {
    ReachableLocks(s);
    EachSuspected(s, order);
    EachReaped(s.(procs := Suspected(s.procs, ToSet(order))), order, clock);
    FromJoin(s, SuspectEach(order), ReapEach(order, clock));
    FromReachable(s, PassEvents(order, clock));
  }

  lemma NoneHeld(t: Table, ws: set<WorkerId>, clock: WorkerId -> int, j: JobId)
    requires LocksAreQueued(t) && j in t
    ensures var d := TableAfterReaping(t, ws, clock)[j];
            d.status in {Claimed, Running} && d.owner.Some? ==> d.owner.value !in ws
  {
  }

  lemma OfflineProcs(procs: map<WorkerId, Proc>, ws: set<WorkerId>)
    ensures MarkedOffline(Suspected(procs, ws), ws) ==
              map w | w in procs :: if w in ws then procs[w].(row := Offline) else procs[w]
  {
  }

  /** No Claimed or Running job is left at any of these workers. */
  predicate HoldsNothing(t: Table, ws: set<WorkerId>) {
    forall j :: j in t && t[j].status in {Claimed, Running} && t[j].owner.Some? ==> t[j].owner.value !in ws
  }

  /** An undisturbed reaper pass over the stale workers, in any order, is a run of the fleet: it leads to the
      jobs and the worker rows ReaperScan leaves, and then no job is Claimed or Running for any of those
      workers. */
  lemma ReaperPassIsRun(s: State, workers: map<WorkerId, WorkerRow>, order: seq<WorkerId>,
                        now: int, clock: WorkerId -> int, heartbeatMs: int)
    requires Reachable(s) && SameRows(workers, s.procs)
    requires NoRepeats(order) && ToSet(order) == StaleWorkers(workers, now, heartbeatMs)
    ensures From(s, PassEvents(order, clock)).Some?
    ensures var t, ws := From(s, PassEvents(order, clock)).value, ToSet(order);
            && Reachable(t) && HoldsNothing(t.cells, ws)
            && t.cells == TableAfterReaping(s.cells, ws, clock)
            && t.procs == map w | w in s.procs :: if w in ws then s.procs[w].(row := Offline) else s.procs[w]
  {
    forall w | w in order ensures w in s.procs && s.procs[w].row in {Online, Draining} { assert w in ToSet(order); }
    PassRuns(s, order, clock);
    ReachableLocks(s);
    OfflineProcs(s.procs, ToSet(order));
    forall j | j in s.cells { NoneHeld(s.cells, ToSet(order), clock, j); }
  }
}
