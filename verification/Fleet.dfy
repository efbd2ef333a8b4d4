/** The whole job platform: any number of jobs, worker processes, API requests and scheduler passes,
    interleaved in any way.  A process taken for dead may still act, a worker shutting down may keep running
    and may fail to put its jobs back, a statement may land long after what it was decided on was read.
    Assumed are only atomic statements and transactions, one poll loop for each process, and one recurring
    promoter at a time.  A statement in flight when its process dies has landed before or never lands. */
module Fleet {
  import opened Common
  import opened JobCell
  import opened ClaimSelection

  /** How far a process is with its shutdown. */
  datatype Stage =
    | Serving
    | Stopping     // isShuttingDown is set
    | Waiting      // the Draining write is over; the grace period runs
    | Releasing    // activeJobs has been read for the last time
    | Stopped      // the Offline write is over

  /** A worker's database row, and what its process and the scheduler have in hand. */
  datatype Proc = Proc(
    row: WorkerStatus,
    alive: bool,             // the process can still act
    polling: bool,           // the poll loop has checked isShuttingDown and will select
    stage: Stage,
    releasing: set<JobId>,   // the ids the shutdown read, as long as its statement on them is in flight
    beats: nat,              // heartbeats past their check of isShuttingDown
    suspected: nat,          // reaper passes that found the row stale and will reset its jobs
    reaping: nat,            // reaper passes that have reset its jobs and will mark it Offline
    active: set<JobId>)      // activeJobs
  {
    predicate Decided() {
      stage.Releasing? || stage.Stopped?
    }
  }

  datatype State = State(cells: Table, procs: map<WorkerId, Proc>, open: set<QueueId>)

  datatype Event =
    | CreateJob(j: JobId, cell: Cell)
    | Register(w: WorkerId)
    | SetQueues(open: set<QueueId>)
    | PollStart(w: WorkerId)
    | PollFail(w: WorkerId)
    | ClaimSelect(w: WorkerId, now: int, free: nat, rows: seq<JobId>)
    | ClaimCommit(w: WorkerId)
    | ClaimRollback(w: WorkerId)
    | OnJob(j: JobId, e: CellEvent)
    | PromoteScheduled(now: int)
    | ReapRead(w: WorkerId)
    | ReapQuit(w: WorkerId)                              // the pass ends before its reset
    | ReapJobs(w: WorkerId, at: int)
    | ReapMark(w: WorkerId, ok: bool)
    | BeatStart(w: WorkerId)
    | BeatWrite(w: WorkerId, ok: bool)
    | ShutdownBegin(w: WorkerId)
    | ShutdownDrain(w: WorkerId, ok: bool)
    | ShutdownRead(w: WorkerId, gone: bool)              // gone: no executor of the process ever acts again
    | ShutdownWrite(w: WorkerId, ok: bool, at: int)
    | ShutdownMark(w: WorkerId, ok: bool)
    | Crash(w: WorkerId)

  /** What an event means for one row. */
  function Local(s: State, ev: Event, j: JobId): CellEvent
    requires j in s.cells
  {
    var c := s.cells[j];
    match ev
    case ClaimSelect(w, _, _, rows) => if j in rows then SelectForClaim(w) else Stutter
    case ClaimCommit(w) => if c.lock == Some(w) then CommitClaim(w) else Stutter
    case ClaimRollback(w) => if c.lock == Some(w) then RollbackClaim(w) else Stutter
    case OnJob(k, e) => if j == k then e else Stutter
    case PromoteScheduled(now) =>
      if c.status == Scheduled && !c.recurring && c.runAt <= now then PromoteDue else Stutter
    case ReapJobs(w, at) => if c.status in {Claimed, Running} && c.owner == Some(w) then Reap(w, at) else Stutter
    case ShutdownRead(w, gone) => if gone then Vanish(w) else Stutter
    case ShutdownWrite(w, ok, at) => if ok && w in s.procs && j in s.procs[w].releasing then Release(w, at) else Stutter
    case Crash(w) => Vanish(w)
    case _ => Stutter
  }

  /** Events one executor, one request or one scheduler pass causes on a single row. */
  predicate SingleRow(e: CellEvent) {
    !(e.SelectForClaim? || e.CommitClaim? || e.RollbackClaim? || e.Vanish? || e.Reap? || e.Release? || e.PromoteDue?)
  }

  predicate ByExecutor(e: CellEvent) {
    e.Activate? || e.Start? || e.Report? || e.Conclude? || e.FailRead? || e.FailWrite? || e.Leave?
  }

  predicate IsAlive(s: State, w: WorkerId) {
    w in s.procs && s.procs[w].alive
  }

  ghost predicate Guard(s: State, ev: Event) {
    match ev
    case CreateJob(j, c) => j !in s.cells && Fresh(c)
    case Register(w) => w !in s.procs
    case SetQueues(_) => true
    case PollStart(w) =>
      && IsAlive(s, w) && s.procs[w].stage.Serving? && !s.procs[w].polling
      && (forall j :: j in s.cells ==> s.cells[j].lock != Some(w))
    case PollFail(w) => IsAlive(s, w) && s.procs[w].polling
    case ClaimSelect(w, now, free, rows) =>
      && IsAlive(s, w) && s.procs[w].polling && (forall j :: j in s.cells ==> s.cells[j].lock != Some(w))
      && IsSelection(s.cells, s.open, now, free, rows)
    case ClaimCommit(w) => IsAlive(s, w)
    case ClaimRollback(w) => IsAlive(s, w)
    case OnJob(j, e) =>
      && j in s.cells && SingleRow(e)
      && (ByExecutor(e) ==> e.i < |s.cells[j].executors| && IsAlive(s, s.cells[j].executors[e.i].worker))
    case PromoteScheduled(_) => true
    case ReapRead(w) => w in s.procs && s.procs[w].row in {Online, Draining}
    case ReapQuit(w) => w in s.procs && s.procs[w].suspected > 0
    case ReapJobs(w, _) => w in s.procs && s.procs[w].suspected > 0
    case ReapMark(w, _) => w in s.procs && s.procs[w].reaping > 0
    case BeatStart(w) => IsAlive(s, w) && s.procs[w].stage.Serving?
    case BeatWrite(w, _) => IsAlive(s, w) && s.procs[w].beats > 0
    case ShutdownBegin(w) => IsAlive(s, w) && s.procs[w].stage.Serving?
    case ShutdownDrain(w, _) => IsAlive(s, w) && s.procs[w].stage.Stopping?
    case ShutdownRead(w, _) => IsAlive(s, w) && s.procs[w].stage.Waiting?
    case ShutdownWrite(w, _, _) => IsAlive(s, w) && s.procs[w].releasing != {}
    case ShutdownMark(w, _) => IsAlive(s, w) && s.procs[w].stage.Releasing? && s.procs[w].releasing == {}
    case Crash(w) => IsAlive(s, w)
  }

  ghost predicate Allowed(s: State, ev: Event) {
    Guard(s, ev) && forall j :: j in s.cells ==> Enabled(s.cells[j], Local(s, ev, j))
  }

  /** What the scheduler and the process w itself do to its row and memory. */
  function OwnStep(p: Proc, ev: Event): Proc {
    match ev
    case PollStart(_) => p.(polling := true)
    case PollFail(_) => p.(polling := false)
    case ClaimSelect(_, _, _, _) => p.(polling := false)
    case ReapRead(_) => p.(suspected := p.suspected + 1)
    case ReapQuit(_) => p.(suspected := if p.suspected > 0 then p.suspected - 1 else 0)
    case ReapJobs(_, _) =>
      p.(suspected := if p.suspected > 0 then p.suspected - 1 else 0, reaping := p.reaping + 1)
    case ReapMark(_, ok) =>
      p.(row := if ok then Offline else p.row, reaping := if p.reaping > 0 then p.reaping - 1 else 0)
    case BeatStart(_) => p.(beats := p.beats + 1)
    case BeatWrite(_, ok) => p.(row := if ok then Online else p.row, beats := if p.beats > 0 then p.beats - 1 else 0)
    case ShutdownBegin(_) => p.(stage := Stopping)
    case ShutdownDrain(_, ok) => p.(stage := Waiting, row := if ok then Draining else p.row)
    case ShutdownRead(_, _) => p.(stage := Releasing, releasing := p.active)
    case ShutdownWrite(_, _, _) => p.(releasing := {})
    case ShutdownMark(_, ok) => p.(stage := Stopped, row := if ok then Offline else p.row)
    case Crash(_) => p.(alive := false, polling := false, releasing := {}, beats := 0)
    case _ => p
  }

  /** The worker an event of the scheduler or of a process is about. */
  predicate IsAbout(ev: Event, w: WorkerId) {
    match ev
    case CreateJob(_, _) => false
    case SetQueues(_) => false
    case OnJob(_, _) => false
    case PromoteScheduled(_) => false
    case _ => ev.w == w
  }

  function NextProc(s: State, ev: Event, w: WorkerId): Proc
    requires w in s.procs
  {
    var p := s.procs[w];
    if ev.OnJob? then
      var j, e := ev.j, ev.e;
      if j in s.cells && ByExecutor(e) && e.i < |s.cells[j].executors| && s.cells[j].executors[e.i].worker == w then
        if e.Activate? then p.(active := p.active + {j})
        else if e.Leave? then p.(active := p.active - {j})
        else p
      else p
    else if IsAbout(ev, w) then OwnStep(p, ev)
    else p
  }

  function NewProc(): Proc {
    Proc(Online, true, false, Serving, {}, 0, 0, 0, {})
  }

  ghost function NextCells(s: State, ev: Event): Table
    requires Allowed(s, ev)
  {
    map j | j in s.cells :: Apply(s.cells[j], Local(s, ev, j))
  }

  ghost function Next(s: State, ev: Event): State
    requires Allowed(s, ev)
  {
    var cells, procs := NextCells(s, ev), map w | w in s.procs :: NextProc(s, ev, w);
    match ev
    case CreateJob(j, c) => State(cells[j := c], procs, s.open)
    case Register(w) => State(cells, procs[w := NewProc()], s.open)
    case SetQueues(open) => State(cells, procs, open)
    case _ => State(cells, procs, s.open)
  }

  function Empty(): State {
    State(map[], map[], {})
  }

  /** A run is the sequence of its events, from an empty database; None when some event was not possible. */
  ghost function After(evs: seq<Event>): Option<State> {
    if evs == [] then Some(Empty())
    else
      match After(evs[..|evs| - 1])
      case None => None
      case Some(s) => if Allowed(s, evs[|evs| - 1]) then Some(Next(s, evs[|evs| - 1])) else None
  }

  ghost predicate Reachable(s: State) {
    exists evs :: After(evs) == Some(s)
  }

  // ---------------------------------------------------------------- what every row keeps

  predicate GoodCell(c: Cell) {
    Bounded(c) && ClaimsCovered(c) && FailedIsSpent(c)
  }

  predicate GoodCells(t: Table) {
    forall j :: j in t ==> GoodCell(t[j])
  }

  lemma CellStepGood(c: Cell, e: CellEvent)
    requires GoodCell(c) && Enabled(c, e)
    ensures GoodCell(Apply(c, e))
  {
    StepBounded(c, e);
    StepClaimsCovered(c, e);
    StepFailedIsSpent(c, e);
  }

  lemma StepGood(s: State, ev: Event)
    requires GoodCells(s.cells) && Allowed(s, ev)
    ensures GoodCells(Next(s, ev).cells)
  {
    forall j | j in s.cells ensures GoodCell(Apply(s.cells[j], Local(s, ev, j))) {
      CellStepGood(s.cells[j], Local(s, ev, j));
    }
    if ev.CreateJob? { FreshBounded(ev.cell); }
  }

  lemma {:induction false} RunGood(evs: seq<Event>)
    requires After(evs).Some?
    ensures GoodCells(After(evs).value.cells)
  {
    if evs != [] {
      var n := |evs| - 1;
      RunGood(evs[..n]);
      StepGood(After(evs[..n]).value, evs[n]);
    }
  }

  lemma ReachableGood(s: State)
    requires Reachable(s)
    ensures GoodCells(s.cells)
  {
    var evs :| After(evs) == Some(s);
    RunGood(evs);
  }

  /** Bounded attempts under zombie workers.  Let R count a job's reaper resets, shutdown releases and
      manual retries.  In every interleaving, live executors plus a waiting row never exceed 1 + R, and
      attempts never exceed max(1, maxAttempts) + R. */
  lemma BoundedAttempts(s: State, j: JobId)
    requires Reachable(s) && j in s.cells
    ensures var c := s.cells[j];
            && |NotClosing(c.executors)| + (if c.status in {Queued, Scheduled} then 1 else 0) <= 1 + c.returned
            && c.attempts <= Max(1, c.limit) + c.returned
            && (c.returned == 0 ==> |NotClosing(c.executors)| <= 1 && c.attempts <= Max(1, c.limit))
  {
    ReachableGood(s);
    LiveMeans(s.cells[j].executors, s.cells[j].limit);
  }

  /** Over any run the claims of a job never exceed the times it entered Queued. */
  lemma ClaimsNeverDouble(s: State, j: JobId)
    requires Reachable(s) && j in s.cells
    ensures s.cells[j].claims <= s.cells[j].entered
    ensures s.cells[j].status == Queued ==> s.cells[j].claims < s.cells[j].entered
  {
    ReachableGood(s);
  }

  /** Every Failed job has used up its attempts, unless a manual retry overlapped a failure handler
      that had already decided to give up. */
  lemma FailedJobsAreSpent(s: State, j: JobId)
    requires Reachable(s) && j in s.cells && s.cells[j].status == Failed
    ensures s.cells[j].overlapped || s.cells[j].attempts >= s.cells[j].limit
  {
    ReachableGood(s);
  }

  /** The rows an open claim holds. */
  function OpenClaim(s: State, w: WorkerId): set<JobId> {
    set j | j in s.cells && s.cells[j].lock == Some(w)
  }

  predicate SameClaimable(c: Cell, d: Cell) {
    c.status == Queued && d.status == Queued && d.lock == c.lock &&
    d.attempts == c.attempts && d.priority == c.priority && d.runAt == c.runAt
  }

  /** The events with which worker w's own claim ends or begins. */
  predicate OwnClaim(e: CellEvent, w: WorkerId) {
    e == SelectForClaim(w) || e == CommitClaim(w) || e == RollbackClaim(w) || e == Vanish(w)
  }

  lemma LockedRowStable(c: Cell, e: CellEvent, w: WorkerId)
    requires LockedIsQueued(c) && Enabled(c, e) && !OwnClaim(e, w) && c.lock == Some(w)
    ensures SameClaimable(c, Apply(c, e))
  {
  }

  lemma LockUnchanged(c: Cell, e: CellEvent)
    requires Enabled(c, e) && !e.SelectForClaim? && !e.CommitClaim? && !e.RollbackClaim? && !e.Vanish?
    ensures Apply(c, e).lock == c.lock
  {
  }

  lemma FreeRowStaysFree(c: Cell, e: CellEvent, w: WorkerId)
    requires Enabled(c, e) && !OwnClaim(e, w) && c.lock != Some(w)
    ensures Apply(c, e).lock != Some(w)
  {
    if !e.SelectForClaim? && !e.CommitClaim? && !e.RollbackClaim? && !e.Vanish? { LockUnchanged(c, e); }
  }

  /** Between its select and its commit a claim's rows do not change, and no other claim holds or takes them. */
  lemma OpenClaimStable(s: State, ev: Event, w: WorkerId)
    requires Reachable(s) && Allowed(s, ev)
    requires forall j :: j in s.cells ==> !OwnClaim(Local(s, ev, j), w)
    ensures forall v :: v != w ==> OpenClaim(s, w) !! OpenClaim(s, v)
    ensures OpenClaim(Next(s, ev), w) == OpenClaim(s, w)
    ensures forall j :: j in OpenClaim(s, w) ==> SameClaimable(s.cells[j], Next(s, ev).cells[j])
  {
    ReachableGood(s);
    forall j | j in s.cells
      ensures Apply(s.cells[j], Local(s, ev, j)).lock == Some(w) <==> s.cells[j].lock == Some(w)
      ensures s.cells[j].lock == Some(w) ==> SameClaimable(s.cells[j], Apply(s.cells[j], Local(s, ev, j)))
    {
      if s.cells[j].lock == Some(w) {
        assert GoodCell(s.cells[j]);
        LockedRowStable(s.cells[j], Local(s, ev, j), w);
      } else {
        FreeRowStaysFree(s.cells[j], Local(s, ev, j), w);
      }
    }
    LocksFollowRows(s, ev, w);
  }

  lemma LocksFollowRows(s: State, ev: Event, w: WorkerId)
    requires Allowed(s, ev)
    requires forall j :: j in s.cells ==>
               (Apply(s.cells[j], Local(s, ev, j)).lock == Some(w) <==> s.cells[j].lock == Some(w))
    ensures OpenClaim(Next(s, ev), w) == OpenClaim(s, w)
  {
  }
}
