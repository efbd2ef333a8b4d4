/** What the statements on job rows write, column by column, and when a job that was put back may run again. */
module FleetWrites {
  import opened Common
  import opened JobCell
  import opened ClaimSelection
  import opened Fleet
  import opened FleetRuns

  // ---------------------------------------------------------------- new rows

  /** A job is created Queued or Scheduled, unowned and without attempts, and no other row changes. */
  lemma CreationWrites(s: State, j: JobId, c: Cell)
    ensures Allowed(s, CreateJob(j, c)) <==>
            && j !in s.cells && c.status in {Queued, Scheduled} && c.attempts == 0 && c.owner.None?
            && c.lock.None? && c.executors == [] && !c.promoting && c.cancels == 0 && c.retries == 0 && c.burying == 0
            && c.returned == 0 && c.entered == (if c.status == Queued then 1 else 0) && c.claims == 0
            && c.records == [] && !c.overlapped
    ensures Allowed(s, CreateJob(j, c)) ==> Next(s, CreateJob(j, c)).cells == s.cells[j := c]
  {
    forall k | k in s.cells ensures Enabled(s.cells[k], Stutter) && Apply(s.cells[k], Stutter) == s.cells[k] {
      Stuttered(s.cells[k]);
    }
  }

  /** A worker registers Online, with nothing in hand. */
  lemma RegistrationWrites(s: State, w: WorkerId)
    requires Allowed(s, Register(w))
    ensures w !in s.procs && w in Next(s, Register(w)).procs
    ensures Next(s, Register(w)).procs[w] == Proc(Online, true, false, Serving, {}, 0, 0, 0, {})
  {
  }

  lemma Stuttered(c: Cell)
    ensures Enabled(c, Stutter) && Apply(c, Stutter) == c
  {
  }

  // ---------------------------------------------------------------- statements on many rows

  /** A claim takes what the query promises and locks nothing else. */
  lemma ClaimTakes(s: State, w: WorkerId, now: int, free: nat, rows: seq<JobId>)
    requires Allowed(s, ClaimSelect(w, now, free, rows))
    ensures TakesFirst(s.cells, s.open, now, free, rows)
    ensures Next(s, ClaimSelect(w, now, free, rows)).cells ==
              map j | j in s.cells :: if j in rows then s.cells[j].(lock := Some(w)) else s.cells[j]
  {
    SelectionIff(s.cells, s.open, now, free, rows);
  }

  /** Its commit hands every locked row to the worker, with the attempt count as it stands. */
  lemma CommitWrites(s: State, w: WorkerId)
    requires Allowed(s, ClaimCommit(w))
    ensures Next(s, ClaimCommit(w)).cells ==
              map j | j in s.cells :: var c := s.cells[j];
                if c.lock == Some(w) then
                  c.(status := JobStatus.Claimed, owner := Some(w), lock := None, claims := c.claims + 1,
                     executors := c.executors + [Executor(w, Batched, c.attempts)])
                else c
  {
  }

  lemma PromotedCell(c: Cell)
    requires Enabled(c, PromoteDue)
    ensures Apply(c, PromoteDue) == c.(status := Queued, entered := c.entered + 1)
  {
  }

  /** promoteScheduledJobs: one-off jobs that are due. */
  lemma PromotionWrites(s: State, now: int)
    ensures Allowed(s, PromoteScheduled(now))
    ensures Next(s, PromoteScheduled(now)).cells ==
              map j | j in s.cells :: var c := s.cells[j];
                if c.status == Scheduled && !c.recurring && c.runAt <= now
                then c.(status := Queued, entered := c.entered + 1) else c
  {
    assert Allowed(s, PromoteScheduled(now));
    hide Apply, Enabled;
    forall j | j in s.cells && Local(s, PromoteScheduled(now), j).PromoteDue?
      ensures Apply(s.cells[j], PromoteDue) == s.cells[j].(status := Queued, entered := s.cells[j].entered + 1)
    {
      PromotedCell(s.cells[j]);
    }
    forall j | j in s.cells ensures Enabled(s.cells[j], Stutter) && Apply(s.cells[j], Stutter) == s.cells[j] {
      Stuttered(s.cells[j]);
    }
  }

  lemma ReapedCell(c: Cell, w: WorkerId, at: int)
    requires Enabled(c, Reap(w, at))
    ensures Apply(c, Reap(w, at)) ==
              c.(status := Queued, owner := None, runAt := at, returned := c.returned + 1, entered := c.entered + 1)
  {
  }

  /** The reaper's reset of one worker: the jobs it holds are Queued, due at the time of the reset, unowned. */
  lemma ReapWrites(s: State, w: WorkerId, at: int)
    requires Allowed(s, ReapJobs(w, at))
    ensures Next(s, ReapJobs(w, at)).cells ==
              map j | j in s.cells :: var c := s.cells[j];
                if (c.status == JobStatus.Claimed || c.status == Running) && c.owner == Some(w)
                then c.(status := Queued, owner := None, runAt := at, returned := c.returned + 1,
                        entered := c.entered + 1)
                else c
  {
    hide Apply, Enabled;
    forall j | j in s.cells && Local(s, ReapJobs(w, at), j).Reap?
      ensures Apply(s.cells[j], Reap(w, at)) ==
              s.cells[j].(status := Queued, owner := None, runAt := at, returned := s.cells[j].returned + 1,
                          entered := s.cells[j].entered + 1)
    {
      ReapedCell(s.cells[j], w, at);
    }
    forall j | j in s.cells ensures Enabled(s.cells[j], Stutter) && Apply(s.cells[j], Stutter) == s.cells[j] {
      Stuttered(s.cells[j]);
    }
  }

  lemma ReleasedCell(c: Cell, w: WorkerId, at: int)
    requires Enabled(c, Release(w, at))
    ensures Apply(c, Release(w, at)) ==
              c.(status := Queued, owner := None, runAt := at, returned := c.returned + 1,
                 entered := c.entered + if c.status == Queued then 0 else 1)
  {
  }

  /** The shutdown's statement: the jobs it read from activeJobs, whatever their status by now. */
  lemma ReleaseWrites(s: State, w: WorkerId, at: int)
    requires Allowed(s, ShutdownWrite(w, true, at))
    ensures Next(s, ShutdownWrite(w, true, at)).cells ==
              map j | j in s.cells :: var c := s.cells[j];
                if j in s.procs[w].releasing
                then c.(status := Queued, owner := None, runAt := at, returned := c.returned + 1,
                        entered := c.entered + if c.status == Queued then 0 else 1)
                else c
  {
  }

  // ---------------------------------------------------------------- statements on one row

  /** Cancel and retry test the status when they read the row and write it whatever it is by then. */
  lemma CancelWrites(c: Cell)
    ensures Enabled(c, CancelRead) <==> c.status in {Queued, Scheduled, JobStatus.Claimed}
    ensures Enabled(c, CancelRead) ==> Apply(c, CancelRead) == c.(cancels := c.cancels + 1)
    ensures Enabled(c, CancelWrite) ==> Apply(c, CancelWrite) == c.(status := Cancelled, cancels := c.cancels - 1)
  {
  }

  lemma RetryWrites(c: Cell, at: int)
    ensures Enabled(c, RetryRead) <==> c.status in {Failed, Cancelled, DeadLetter}
    ensures Enabled(c, RetryRead) ==> Apply(c, RetryRead) == c.(retries := c.retries + 1)
    ensures Enabled(c, RetryWrite(at)) ==>
              Apply(c, RetryWrite(at)) ==
                c.(status := Queued, attempts := 0, owner := None, runAt := at, retries := c.retries - 1,
                   records := [], returned := c.returned + 1,
                   entered := c.entered + (if c.status == Queued then 0 else 1),
                   overlapped := c.overlapped ||
                                 exists x :: x in c.executors && x.phase.Failing? && x.phase.used >= c.limit)
  {
    if Enabled(c, RetryWrite(at)) {
      if x :| x in c.executors && x.phase.Failing? && x.phase.used >= c.limit {
        var i :| 0 <= i < |c.executors| && c.executors[i] == x;
        assert GivingUp(c);
      }
    }
  }

  /** So do the recurring promoter and the dead-letter pass. */
  lemma PromoterWrites(c: Cell)
    ensures Enabled(c, PromoteRead) <==> c.status == Scheduled && c.recurring
    ensures Enabled(c, PromoteRead) ==> Apply(c, PromoteRead) == c.(promoting := true)
    ensures Enabled(c, PromoteWrite) ==>
              Apply(c, PromoteWrite) ==
                c.(status := Queued, promoting := false, entered := c.entered + (if c.status == Queued then 0 else 1))
    ensures Enabled(c, PromoteSkip) ==> Apply(c, PromoteSkip) == c.(promoting := false)
  {
  }

  lemma DeadLetterWrites(c: Cell)
    ensures Enabled(c, BuryRead) <==> c.status == Failed && c.attempts >= c.limit
    ensures Enabled(c, BuryRead) ==> Apply(c, BuryRead) == c.(burying := c.burying + 1)
    ensures Enabled(c, BuryWrite) ==> Apply(c, BuryWrite) == c.(status := DeadLetter, burying := c.burying - 1)
  {
  }

  /** An execution starts with one more attempt, recorded under the number after the claim's snapshot. */
  lemma StartWrites(c: Cell, i: nat)
    requires Enabled(c, Start(i))
    ensures var x := c.executors[i];
            Apply(c, Start(i)) ==
              c.(status := Running, attempts := c.attempts + 1, records := c.records + [x.snapshot + 1],
                 executors := c.executors[i := x.(phase := Working)])
  {
  }

  lemma ReportWrites(c: Cell, i: nat)
    requires Enabled(c, Report(i))
    ensures Apply(c, Report(i)) ==
              c.(status := Completed, executors := c.executors[i := c.executors[i].(phase := Reported)])
  {
  }

  /** The failure handler decides on the attempt count it has read. */
  lemma FailureReads(c: Cell, i: nat)
    requires Enabled(c, FailRead(i))
    ensures Apply(c, FailRead(i)) ==
              c.(executors := c.executors[i := c.executors[i].(phase := Failing(c.attempts))])
  {
  }

  lemma FailureWrites(c: Cell, i: nat, at: int)
    requires Enabled(c, FailWrite(i, at))
    ensures var x := c.executors[i];
            Apply(c, FailWrite(i, at)) ==
              if x.phase.used < c.limit
              then c.(status := Queued, owner := None, runAt := at,
                      entered := c.entered + (if c.status == Queued then 0 else 1),
                      executors := c.executors[i := x.(phase := Closing)])
              else c.(status := Failed, owner := None, executors := c.executors[i := x.(phase := Closing)])
  {
  }

  // ---------------------------------------------------------------- a job put back waits

  /** This event queues the row anew with run time at. */
  predicate PutsBack(c: Cell, e: CellEvent, at: int) {
    || (e.FailWrite? && e.at == at && e.i < |c.executors| && c.executors[e.i].phase.Failing? &&
        c.executors[e.i].phase.used < c.limit)
    || (e.Reap? && e.at == at) || (e.Release? && e.at == at) || (e.RetryWrite? && e.at == at)
  }

  predicate SetsRunAt(e: CellEvent) {
    e.FailWrite? || e.Reap? || e.Release? || e.RetryWrite?
  }

  lemma RunAtKept(c: Cell, e: CellEvent)
    requires Enabled(c, e) && !SetsRunAt(e)
    ensures Apply(c, e).runAt == c.runAt
  {
  }

  lemma RunAtSet(c: Cell, e: CellEvent, at: int)
    requires Enabled(c, e) && PutsBack(c, e, at)
    ensures Apply(c, e).status == Queued && Apply(c, e).runAt == at
  {
  }

  /** These events happen one after the other, and none of them puts the job back again. */
  ghost predicate LeavesRunAt(s: State, evs: seq<Event>, j: JobId)
    decreases |evs|
  {
    evs != [] ==>
      && j in s.cells && Allowed(s, evs[0]) && !SetsRunAt(Local(s, evs[0], j))
      && LeavesRunAt(Next(s, evs[0]), evs[1..], j)
  }

  lemma NextRow(s: State, ev: Event, j: JobId)
    requires j in s.cells && Allowed(s, ev)
    ensures j in Next(s, ev).cells && Next(s, ev).cells[j] == Apply(s.cells[j], Local(s, ev, j))
  {
  }

  lemma {:induction false} RunAtLasts(s: State, evs: seq<Event>, j: JobId)
    requires j in s.cells && LeavesRunAt(s, evs, j)
    ensures From(s, evs).Some? && j in From(s, evs).value.cells
    ensures From(s, evs).value.cells[j].runAt == s.cells[j].runAt
    decreases |evs|
  {
    if evs != [] {
      hide Apply, Enabled, Guard, SetsRunAt;
      RunAtKept(s.cells[j], Local(s, evs[0], j));
      RunAtLasts(Next(s, evs[0]), evs[1..], j);
    }
  }

  /** A job put back with run time at, by its failure handler, the reaper, a shutdown or a manual retry, is in no
      claim before that time, whatever happens in between, unless something puts it back once more. */
  lemma NoEarlyClaim(s: State, ev: Event, j: JobId, at: int, evs: seq<Event>,
                     w: WorkerId, now: int, free: nat, rows: seq<JobId>)
    requires j in s.cells && Allowed(s, ev) && PutsBack(s.cells[j], Local(s, ev, j), at)
    requires LeavesRunAt(Next(s, ev), evs, j) && From(Next(s, ev), evs).Some?
    requires Allowed(From(Next(s, ev), evs).value, ClaimSelect(w, now, free, rows))
    ensures Next(s, ev).cells[j].status == Queued
    ensures now < at ==> j !in rows
  {
    NextRow(s, ev, j);
    hide Apply, Enabled, Guard, PutsBack, LeavesRunAt;
    RunAtSet(s.cells[j], Local(s, ev, j), at);
    RunAtLasts(Next(s, ev), evs, j);
    ClaimTakes(From(Next(s, ev), evs).value, w, now, free, rows);
  }
}
