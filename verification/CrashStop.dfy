/** Runs in which processes fail by stopping.  In such runs no job is lost and execution records have no gap.
    FleetExamples shows for each assumption a run that meets all the others and loses a job; LostJobs says
    without any assumption exactly which jobs are lost. */
module CrashStop {
  import opened Common
  import opened JobCell
  import opened ClaimSelection
  import opened Fleet
  import opened FleetFutures

  datatype Assumption =
    | ClaimsFindIdleRows       // a job is claimed only when the executor of its last attempt has left
    | ClaimsAwaitReleases      // and only when no shutdown has it in hand to put it back
    | OnlyDeadGoStale          // no living process is taken for dead
    | ShutdownsSeeClaims       // a claim and its hand-over do not straddle the start of a shutdown
    | CutOffStaysCutOff        // executors still active when the grace period ends never act again
    | ReleasesSucceed          // a shutdown's statement on the jobs it found active is not lost
    | RetriesFindNobodyLive    // a retry lands only when no executor and no promoter may still write the row

  /** Free runs may do anything; the others keep all assumptions, or all but one. */
  datatype Regime = Free | AllBut(dropped: Option<Assumption>)

  predicate Keeps(r: Regime, a: Assumption) {
    r.AllBut? && r.dropped != Some(a)
  }

  predicate HasLive(c: Cell) {
    exists i :: 0 <= i < |c.executors| && !c.executors[i].phase.Closing?
  }

  /** The claim loop of w is between no check and no hand-over. */
  predicate ClaimsNothing(s: State, w: WorkerId) {
    && (w in s.procs ==> !s.procs[w].polling)
    && forall j :: j in s.cells ==>
         s.cells[j].lock != Some(w) && forall x :: x in s.cells[j].executors && x.worker == w ==> !x.phase.Batched?
  }

  predicate InNoRelease(s: State, j: JobId) {
    forall w :: w in s.procs ==> j !in s.procs[w].releasing
  }

  ghost predicate Permitted(r: Regime, s: State, ev: Event) {
    && (Keeps(r, ClaimsFindIdleRows) && ev.ClaimSelect? ==>
          forall j :: j in ev.rows && j in s.cells ==> s.cells[j].executors == [])
    && (Keeps(r, ClaimsAwaitReleases) && ev.ClaimSelect? ==> forall j :: j in ev.rows ==> InNoRelease(s, j))
    && (Keeps(r, OnlyDeadGoStale) && ev.ReapRead? ==> !IsAlive(s, ev.w))
    && (Keeps(r, ShutdownsSeeClaims) && ev.ShutdownBegin? ==> ClaimsNothing(s, ev.w))
    && (Keeps(r, CutOffStaysCutOff) && ev.ShutdownRead? ==> ev.gone)
    && (Keeps(r, ReleasesSucceed) && ev.ShutdownWrite? ==> ev.ok)
    && (Keeps(r, RetriesFindNobodyLive) && ev.OnJob? && ev.e.RetryWrite? && ev.j in s.cells ==>
          !HasLive(s.cells[ev.j]) && !s.cells[ev.j].promoting)
  }

  ghost function RunIn(r: Regime, evs: seq<Event>): Option<State> {
    if evs == [] then Some(Empty())
    else
      var ev := evs[|evs| - 1];
      match RunIn(r, evs[..|evs| - 1])
      case None => None
      case Some(s) => if Allowed(s, ev) && Permitted(r, s, ev) then Some(Next(s, ev)) else None
  }

  ghost predicate ReachableIn(r: Regime, s: State) {
    exists evs :: RunIn(r, evs) == Some(s)
  }

  ghost predicate CrashStopEvent(s: State, ev: Event) {
    Permitted(AllBut(None), s, ev)
  }

  ghost predicate CrashStopReachable(s: State) {
    ReachableIn(AllBut(None), s)
  }

  lemma {:induction false} RunsAreFleetRuns(r: Regime, evs: seq<Event>)
    requires RunIn(r, evs).Some?
    ensures After(evs) == RunIn(r, evs)
  {
    if evs != [] { RunsAreFleetRuns(r, evs[..|evs| - 1]); }
  }

  /** Whatever holds in all runs of the fleet holds in every regime. */
  lemma ReachableAnyway(r: Regime, s: State)
    requires ReachableIn(r, s)
    ensures Reachable(s)
  {
    var evs :| RunIn(r, evs) == Some(s);
    RunsAreFleetRuns(r, evs);
  }

  // ---------------------------------------------------------------- one row

  function UpTo(n: nat): (r: seq<nat>)
    ensures |r| == n && forall i :: 0 <= i < n ==> r[i] == i + 1
  {
    if n == 0 then [] else UpTo(n - 1) + [n]
  }

  /** At most one executor; while it is live the row is its own and nothing else may queue the job, and until
      it has left the job is not claimed. */
  predicate Shape(c: Cell) {
    && |c.executors| <= 1
    && LockedIsQueued(c)
    && (c.lock.Some? || c.promoting || c.status == Scheduled ==> c.executors == [])
    && (forall x :: x in c.executors && !x.phase.Closing? ==>
          c.status !in {Queued, Scheduled} && !c.promoting && c.owner == Some(x.worker))
    && (forall x :: x in c.executors && x.phase.Closing? ==> c.status !in {Claimed, Running})
    && (c.promoting ==> c.recurring && c.status !in {Queued, Claimed, Running})
    && (c.status in {Claimed, Running} ==> c.owner.Some?)
    && (forall x :: x in c.executors && x.phase.Reported? ==> c.status !in {Claimed, Running})
    && c.records == UpTo(c.attempts)
    && (forall x :: x in c.executors && (x.phase.Batched? || x.phase.Starting?) ==> x.snapshot == c.attempts)
  }

  /** No executor is left at the row, and nobody has it in hand to queue it. */
  predicate Unheld(c: Cell) {
    c.executors == [] && c.lock.None? && !c.promoting && c.status != Scheduled
  }

  predicate ShapeEvent(c: Cell, e: CellEvent) {
    && (e.SelectForClaim? ==> c.executors == [])
    && (e.RetryWrite? ==> !HasLive(c) && !c.promoting)
    && (e.Reap? ==> c.executors == [])
    && (e.Release? ==> Unheld(c))
  }

  lemma MovedExecutors(c: Cell, i: nat, p: Phase)
    requires |c.executors| <= 1 && i < |c.executors|
    ensures Move(c, i, p).executors == [c.executors[i].(phase := p)]
  {
  }

  lemma StartShape(c: Cell, i: nat)
    requires Shape(c) && Enabled(c, Start(i))
    ensures Shape(Apply(c, Start(i)))
  {
    assert c.executors[i] in c.executors;
    MovedExecutors(c, i, Working);
  }

  lemma ReportShape(c: Cell, i: nat)
    requires Shape(c) && Enabled(c, Report(i))
    ensures Shape(Apply(c, Report(i)))
  {
    assert c.executors[i] in c.executors;
    MovedExecutors(c, i, Reported);
  }

  lemma FailWriteShape(c: Cell, i: nat, at: int)
    requires Shape(c) && Enabled(c, FailWrite(i, at))
    ensures Shape(Apply(c, FailWrite(i, at)))
  {
    assert c.executors[i] in c.executors;
    MovedExecutors(c, i, Closing);
  }

  lemma MoverShape(c: Cell, e: CellEvent)
    requires Shape(c) && Enabled(c, e) && (e.Activate? || e.Conclude? || e.FailRead?)
    ensures Shape(Apply(c, e))
  {
    var x := c.executors[e.i];
    assert x in c.executors;
    match e
    case Activate(i) => MovedExecutors(c, i, Starting);
    case Conclude(i) => MovedExecutors(c, i, Closing);
    case FailRead(i) => MovedExecutors(c, i, Failing(c.attempts));
  }

  lemma ExecutorShape(c: Cell, e: CellEvent)
    requires Shape(c) && Enabled(c, e) && ShapeEvent(c, e) && ByExecutor(e)
    ensures Shape(Apply(c, e))
  {
    match e
    case Leave(_) => assert Apply(c, e).executors == [];
    case Start(i) => StartShape(c, i);
    case Report(i) => ReportShape(c, i);
    case FailWrite(i, at) => FailWriteShape(c, i, at);
    case _ => MoverShape(c, e);
  }

  lemma WithoutOne(es: seq<Executor>, w: WorkerId)
    requires |es| <= 1
    ensures Without(es, w) == if es != [] && es[0].worker == w then [] else es
  {
    if es != [] {
      assert es[..0] == [] && es == [es[0]];
      assert Without(es[..0], w) == [];
    }
  }

  lemma ClaimShape(c: Cell, e: CellEvent)
    requires Shape(c) && Enabled(c, e) && ShapeEvent(c, e) && (e.SelectForClaim? || e.CommitClaim? || e.RollbackClaim?)
    ensures Shape(Apply(c, e))
  {
  }

  lemma SchedulerShape(c: Cell, e: CellEvent)
    requires Shape(c) && Enabled(c, e) && ShapeEvent(c, e)
    requires e.Reap? || e.PromoteDue? || e.PromoteRead? || e.PromoteWrite? || e.PromoteSkip? ||
             e.BuryRead? || e.BuryWrite?
    ensures Shape(Apply(c, e))
  {
  }

  lemma RequestShape(c: Cell, e: CellEvent)
    requires Shape(c) && Enabled(c, e) && ShapeEvent(c, e)
    requires e.Stutter? || e.CancelRead? || e.CancelWrite? || e.RetryRead? || e.RetryWrite?
    ensures Shape(Apply(c, e))
  {
    if e.RetryWrite? {
      forall i | 0 <= i < |c.executors| ensures c.executors[i].phase.Closing? {}
    }
  }

  lemma VanishShape(c: Cell, w: WorkerId)
    requires Shape(c)
    ensures Shape(Apply(c, Vanish(w)))
  {
    WithoutOne(c.executors, w);
  }

  lemma OtherShape(c: Cell, e: CellEvent)
    requires Shape(c) && Enabled(c, e) && ShapeEvent(c, e) && !ByExecutor(e)
    ensures Shape(Apply(c, e))
  {
    if e.SelectForClaim? || e.CommitClaim? || e.RollbackClaim? {
      ClaimShape(c, e);
    } else if e.Vanish? {
      VanishShape(c, e.w);
    } else if e.Release? {
      ReleaseShape(c, e);
    } else if e.Stutter? || e.CancelRead? || e.CancelWrite? || e.RetryRead? || e.RetryWrite? {
      RequestShape(c, e);
    } else {
      SchedulerShape(c, e);
    }
  }

  lemma ReleaseShape(c: Cell, e: CellEvent)
    requires Shape(c) && Enabled(c, e) && ShapeEvent(c, e) && e.Release?
    ensures Shape(Apply(c, e))
  {
  }

  lemma StepShape(c: Cell, e: CellEvent)
    requires Shape(c) && Enabled(c, e) && ShapeEvent(c, e)
    ensures Shape(Apply(c, e))
  {
    if ByExecutor(e) { ExecutorShape(c, e); } else { OtherShape(c, e); }
  }

  // ---------------------------------------------------------------- a row and a process together

  predicate ProcOk(p: Proc) {
    && (p.suspected > 0 || p.reaping > 0 ==> !p.alive)
    && (p.polling ==> p.alive && p.stage.Serving?)
    && (p.releasing != {} ==> p.alive && p.stage.Releasing?)
    && (p.alive && (!p.Decided() || p.releasing != {}) ==> p.row != Offline)
  }

  predicate Held(c: Cell, w: WorkerId) {
    c.status in {Claimed, Running} && c.owner == Some(w)
  }

  predicate Runs(c: Cell, w: WorkerId) {
    exists i :: 0 <= i < |c.executors| && c.executors[i].worker == w && !c.executors[i].phase.Batched?
  }

  predicate ExecutorsFit(c: Cell, w: WorkerId, p: Proc) {
    forall x :: x in c.executors && x.worker == w ==>
      p.alive && !p.Decided() && (x.phase.Batched? ==> p.stage.Serving?)
  }

  /** What job j and worker w have to do with each other.  A worker with executors has not yet read activeJobs
      for the last time, and activeJobs lists exactly the jobs whose executor has been activated and has not
      left.  A Claimed or Running job of w can be found by the reaper, and w works on it or puts it back. */
  predicate Fits(c: Cell, j: JobId, w: WorkerId, p: Proc) {
    && ExecutorsFit(c, w, p)
    && (c.lock == Some(w) ==> p.alive && p.stage.Serving?)
    && (Held(c, w) ==> p.row != Offline && p.reaping == 0 && (p.alive ==> HasLive(c) || j in p.releasing))
    && (j in p.releasing ==> Unheld(c))
    && (p.alive && !p.Decided() ==> (j in p.active <==> Runs(c, w)))
  }

  predicate Listed(s: State) {
    forall w :: w in s.procs ==> s.procs[w].active <= s.cells.Keys && s.procs[w].releasing <= s.cells.Keys
  }

  predicate Inv(s: State) {
    && Attended(s) && Listed(s)
    && (forall w :: w in s.procs ==> ProcOk(s.procs[w]))
    && (forall j :: j in s.cells ==> Shape(s.cells[j]))
    && (forall j, w :: j in s.cells && w in s.procs ==> Fits(s.cells[j], j, w, s.procs[w]))
  }

  lemma OneExecutor(c: Cell, i: nat)
    requires Shape(c) && i < |c.executors|
    ensures i == 0 && c.executors == [c.executors[0]] && c.executors[0] in c.executors
  {
  }

  /** A worker that can have no executor at the job holds it, if at all, without one. */
  lemma HeldIdle(c: Cell, j: JobId, w: WorkerId, p: Proc)
    requires Shape(c) && Fits(c, j, w, p) && Held(c, w) && (!p.alive || p.Decided())
    ensures c.executors == []
  {
    if c.executors != [] { OneExecutor(c, 0); }
  }

  /** The executor of a job that w holds, and has not in hand to put back, belongs to w. */
  lemma HolderRuns(c: Cell, j: JobId, w: WorkerId, p: Proc)
    requires Shape(c) && Fits(c, j, w, p) && Held(c, w) && p.alive && j !in p.releasing
    ensures |c.executors| == 1 && c.executors[0].worker == w && !c.executors[0].phase.Closing? && !p.Decided()
  {
    var i :| 0 <= i < |c.executors| && !c.executors[i].phase.Closing?;
    OneExecutor(c, i);
  }

  // ---- events of a single row

  function ActiveAfter(c: Cell, j: JobId, e: CellEvent, w: WorkerId, p: Proc): Proc
    requires Enabled(c, e)
  {
    if e.Activate? && c.executors[e.i].worker == w then p.(active := p.active + {j})
    else if e.Leave? && c.executors[e.i].worker == w then p.(active := p.active - {j})
    else p
  }

  lemma RunsOne(c: Cell, w: WorkerId, x: Executor)
    requires c.executors == [x]
    ensures Runs(c, w) <==> x.worker == w && !x.phase.Batched?
    ensures HasLive(c) <==> !x.phase.Closing?
  {
    assert c.executors[0] == x;
  }

  lemma WriterFits(c: Cell, j: JobId, e: CellEvent, w: WorkerId, p: Proc)
    requires Shape(c) && ProcOk(p) && Fits(c, j, w, p) && Enabled(c, e) && (e.Start? || e.Report? || e.FailWrite?)
    ensures Fits(Apply(c, e), j, w, p)
  {
    var x := c.executors[e.i];
    var y := x.(phase := if e.Start? then Working else if e.Report? then Reported else Closing);
    OneExecutor(c, e.i);
    MovedExecutors(c, e.i, y.phase);
    RunsOne(c, w, x);
    RunsOne(Apply(c, e), w, y);
  }

  lemma MoverFits(c: Cell, j: JobId, e: CellEvent, w: WorkerId, p: Proc)
    requires Shape(c) && ProcOk(p) && Fits(c, j, w, p) && Enabled(c, e) && (e.Activate? || e.Conclude? || e.FailRead?)
    ensures Fits(Apply(c, e), j, w, ActiveAfter(c, j, e, w, p))
  {
    var x := c.executors[e.i];
    var y := x.(phase := if e.Activate? then Starting else if e.Conclude? then Closing else Failing(c.attempts));
    OneExecutor(c, e.i);
    MovedExecutors(c, e.i, y.phase);
    RunsOne(c, w, x);
    RunsOne(Apply(c, e), w, y);
  }

  lemma LeaverFits(c: Cell, j: JobId, i: nat, w: WorkerId, p: Proc)
    requires Shape(c) && ProcOk(p) && Fits(c, j, w, p) && Enabled(c, Leave(i))
    ensures Fits(Apply(c, Leave(i)), j, w, ActiveAfter(c, j, Leave(i), w, p))
  {
    OneExecutor(c, i);
    RunsOne(c, w, c.executors[i]);
    assert Apply(c, Leave(i)).executors == [];
  }

  lemma RequestFits(c: Cell, j: JobId, e: CellEvent, w: WorkerId, p: Proc)
    requires Shape(c) && Fits(c, j, w, p) && Enabled(c, e) && SingleRow(e) && !ByExecutor(e)
    ensures Fits(Apply(c, e), j, w, p)
  {
    UntouchedExecutors(c, e);
  }

  lemma SingleRowFits(c: Cell, j: JobId, e: CellEvent, w: WorkerId, p: Proc)
    requires Shape(c) && ProcOk(p) && Fits(c, j, w, p) && Enabled(c, e) && SingleRow(e)
    ensures Fits(Apply(c, e), j, w, ActiveAfter(c, j, e, w, p))
  {
    hide Fits, Shape, Apply, ProcOk;
    if !ByExecutor(e) {
      RequestFits(c, j, e, w, p);
    } else if e.Leave? {
      LeaverFits(c, j, e.i, w, p);
    } else if e.Start? || e.Report? || e.FailWrite? {
      WriterFits(c, j, e, w, p);
    } else {
      MoverFits(c, j, e, w, p);
    }
  }

  // ---- events of the fleet

  lemma SelectFits(c: Cell, j: JobId, v: WorkerId, w: WorkerId, p: Proc)
    requires Fits(c, j, w, p) && Enabled(c, SelectForClaim(v)) && j !in p.releasing
    requires w == v ==> p.alive && p.stage.Serving?
    ensures Fits(Apply(c, SelectForClaim(v)), j, w, p)
  {
  }

  lemma CommitFits(c: Cell, j: JobId, v: WorkerId, w: WorkerId, p: Proc)
    requires Shape(c) && ProcOk(p) && Fits(c, j, w, p) && Enabled(c, CommitClaim(v))
    ensures Fits(Apply(c, CommitClaim(v)), j, w, p)
  {
    var d := Apply(c, CommitClaim(v));
    assert d.executors == [Executor(v, Batched, c.attempts)];
    RunsOne(d, w, d.executors[0]);
  }

  lemma RollbackFits(c: Cell, j: JobId, v: WorkerId, w: WorkerId, p: Proc)
    requires Fits(c, j, w, p) && Enabled(c, RollbackClaim(v))
    ensures Fits(Apply(c, RollbackClaim(v)), j, w, p)
  {
  }

  lemma QueuedFits(c: Cell, j: JobId, e: CellEvent, w: WorkerId, p: Proc)
    requires Shape(c) && Fits(c, j, w, p) && Enabled(c, e) && ShapeEvent(c, e)
    requires e.Stutter? || e.PromoteDue? || e.Reap? || e.Release?
    ensures Fits(Apply(c, e), j, w, p)
  {
  }

  lemma UnlockedFits(c: Cell, j: JobId, w: WorkerId, p: Proc)
    requires Fits(c, j, w, p)
    ensures Fits(c.(lock := None), j, w, p)
  {
  }

  lemma WithoutFits(c: Cell, j: JobId, v: WorkerId, w: WorkerId, p: Proc)
    requires Shape(c) && Fits(c, j, w, p) && v != w
    ensures Fits(c.(executors := Without(c.executors, v)), j, w, p)
  {
    WithoutOne(c.executors, v);
    if Held(c, w) && p.alive && j !in p.releasing { HolderRuns(c, j, w, p); }
  }

  /** A process that is gone takes only its own executor along. */
  lemma OthersStay(c: Cell, j: JobId, v: WorkerId, w: WorkerId, p: Proc)
    requires Shape(c) && Fits(c, j, w, p) && v != w
    ensures Fits(Apply(c, Vanish(v)), j, w, p)
  {
    hide Fits, Shape;
    WithoutFits(c, j, v, w, p);
    UnlockedFits(c.(executors := Without(c.executors, v)), j, w, p);
  }

  /** A worker with neither executor nor claim at the job. */
  lemma AwayFits(c: Cell, j: JobId, w: WorkerId, q: Proc)
    requires c.lock != Some(w) && forall x :: x in c.executors ==> x.worker != w
    requires Held(c, w) ==> q.row != Offline && q.reaping == 0 && (q.alive ==> j in q.releasing)
    requires j in q.releasing ==> Unheld(c)
    requires q.alive && !q.Decided() ==> j !in q.active
    ensures Fits(c, j, w, q)
  {
  }

  lemma Vanished(c: Cell, w: WorkerId)
    ensures var d := Apply(c, Vanish(w));
            && d.lock != Some(w) && (forall x :: x in d.executors ==> x.worker != w)
            && d.executors == Without(c.executors, w) && d.status == c.status && d.owner == c.owner
            && d.promoting == c.promoting && (c.lock.None? ==> d.lock.None?)
  {
  }

  lemma CrashFits(c: Cell, j: JobId, w: WorkerId, p: Proc)
    requires Fits(c, j, w, p)
    ensures Fits(Apply(c, Vanish(w)), j, w, OwnStep(p, Crash(w)))
  {
    hide Runs, HasLive, ExecutorsFit, Unheld;
    Vanished(c, w);
    AwayFits(Apply(c, Vanish(w)), j, w, OwnStep(p, Crash(w)));
  }

  lemma AfterLastRead(p: Proc, w: WorkerId)
    ensures var q := OwnStep(p, ShutdownRead(w, true));
            && q.row == p.row && q.reaping == p.reaping && q.alive == p.alive && q.Decided() && q.releasing == p.active
  {
  }

  /** A worker past its claims lists exactly the jobs it holds or has an executor at. */
  lemma ListedIdle(c: Cell, j: JobId, w: WorkerId, p: Proc)
    requires Shape(c) && Fits(c, j, w, p) && p.alive && p.stage.Waiting? && j in p.active
    ensures c.lock.None? && !c.promoting && c.status != Scheduled && Without(c.executors, w) == []
  {
    var i :| 0 <= i < |c.executors| && c.executors[i].worker == w && !c.executors[i].phase.Batched?;
    OneExecutor(c, i);
    WithoutOne(c.executors, w);
  }

  lemma UnlistedIdle(c: Cell, j: JobId, w: WorkerId, p: Proc)
    requires Shape(c) && Fits(c, j, w, p) && p.alive && p.stage.Waiting? && j !in p.active && j !in p.releasing
    ensures !Held(c, w)
  {
    if c.executors != [] { RunsOne(c, w, c.executors[0]); }
    if Held(c, w) { HolderRuns(c, j, w, p); }
  }

  lemma HeldSeen(c: Cell, j: JobId, w: WorkerId, p: Proc)
    requires Fits(c, j, w, p) && Held(c, w)
    ensures p.row != Offline && p.reaping == 0
  {
  }

  lemma LastReadFits(c: Cell, j: JobId, w: WorkerId, p: Proc)
    requires Shape(c) && ProcOk(p) && Fits(c, j, w, p) && p.alive && p.stage.Waiting?
    ensures Fits(Apply(c, Vanish(w)), j, w, OwnStep(p, ShutdownRead(w, true)))
  {
    hide Fits, Shape, OwnStep, Apply;
    var d, q := Apply(c, Vanish(w)), OwnStep(p, ShutdownRead(w, true));
    Vanished(c, w);
    AfterLastRead(p, w);
    if j in p.active { ListedIdle(c, j, w, p); } else { UnlistedIdle(c, j, w, p); }
    if Held(c, w) { HeldSeen(c, j, w, p); }
    AwayFits(d, j, w, q);
  }

  lemma ReleasedFits(c: Cell, j: JobId, e: CellEvent, w: WorkerId, p: Proc, at: int)
    requires Shape(c) && ProcOk(p) && Fits(c, j, w, p) && p.alive && p.releasing != {}
    requires e == (if j in p.releasing then Release(w, at) else Stutter) && Enabled(c, e)
    ensures Fits(Apply(c, e), j, w, OwnStep(p, ShutdownWrite(w, true, at)))
  {
    if Held(c, w) && j !in p.releasing { HolderRuns(c, j, w, p); }
  }

  lemma StoppedFits(c: Cell, j: JobId, w: WorkerId, p: Proc, ok: bool)
    requires Shape(c) && Fits(c, j, w, p) && p.alive && p.stage.Releasing? && p.releasing == {}
    ensures Fits(c, j, w, OwnStep(p, ShutdownMark(w, ok)))
  {
    if Held(c, w) { HolderRuns(c, j, w, p); }
  }

  lemma ReapedFits(c: Cell, j: JobId, e: CellEvent, w: WorkerId, p: Proc, at: int)
    requires Shape(c) && ProcOk(p) && Fits(c, j, w, p) && p.suspected > 0
    requires e == (if Held(c, w) then Reap(w, at) else Stutter) && Enabled(c, e)
    ensures Fits(Apply(c, e), j, w, OwnStep(p, ReapJobs(w, at)))
  {
    if Held(c, w) { HeldIdle(c, j, w, p); }
  }

  /** The other events of a process change nothing that matters to a row. */
  lemma StandingFits(c: Cell, j: JobId, w: WorkerId, p: Proc, ev: Event)
    requires Fits(c, j, w, p) && ProcOk(p)
    requires ev.PollStart? || ev.PollFail? || ev.ClaimSelect? || ev.ReapRead? || ev.ReapQuit? || ev.BeatStart? ||
             ev.BeatWrite? || ev.ShutdownDrain?
    requires ev.ShutdownDrain? ==> p.stage.Stopping?
    ensures Fits(c, j, w, OwnStep(p, ev))
  {
  }

  lemma MarkedFits(c: Cell, j: JobId, w: WorkerId, p: Proc, ok: bool)
    requires Fits(c, j, w, p) && ProcOk(p) && p.reaping > 0
    ensures Fits(c, j, w, OwnStep(p, ReapMark(w, ok)))
  {
  }

  lemma BeginFits(c: Cell, j: JobId, w: WorkerId, p: Proc)
    requires Fits(c, j, w, p) && p.stage.Serving? && c.lock != Some(w)
    requires forall x :: x in c.executors && x.worker == w ==> !x.phase.Batched?
    ensures Fits(c, j, w, OwnStep(p, ShutdownBegin(w)))
  {
  }

  // ---------------------------------------------------------------- every step

  lemma LocalShapeEvent(s: State, ev: Event, j: JobId)
    requires Inv(s) && Allowed(s, ev) && CrashStopEvent(s, ev) && j in s.cells
    ensures ShapeEvent(s.cells[j], Local(s, ev, j))
  {
    var c, e := s.cells[j], Local(s, ev, j);
    if e.Reap? {
      assert ProcOk(s.procs[ev.w]) && Shape(c) && Fits(c, j, ev.w, s.procs[ev.w]);
      HeldIdle(c, j, ev.w, s.procs[ev.w]);
    } else if e.Release? {
      assert Fits(c, j, ev.w, s.procs[ev.w]);
    }
  }

  lemma Stuttered(c: Cell)
    ensures Apply(c, Stutter) == c
  {
  }

  lemma OnJobFits(s: State, k: JobId, e: CellEvent, j: JobId, w: WorkerId)
    requires Allowed(s, OnJob(k, e)) && j in s.cells && w in s.procs
    requires Shape(s.cells[j]) && ProcOk(s.procs[w]) && Fits(s.cells[j], j, w, s.procs[w])
    ensures Fits(Apply(s.cells[j], Local(s, OnJob(k, e), j)), j, w, NextProc(s, OnJob(k, e), w))
  {
    if j == k {
      hide Fits, Shape, Apply, ProcOk;
      SingleRowFits(s.cells[j], j, e, w, s.procs[w]);
      assert NextProc(s, OnJob(k, e), w) == ActiveAfter(s.cells[j], j, e, w, s.procs[w]);
    }
  }

  lemma ClaimFits(s: State, ev: Event, j: JobId, w: WorkerId)
    requires Allowed(s, ev) && CrashStopEvent(s, ev) && j in s.cells && w in s.procs
    requires ev.ClaimSelect? || ev.ClaimCommit? || ev.ClaimRollback?
    requires Shape(s.cells[j]) && ProcOk(s.procs[w]) && Fits(s.cells[j], j, w, s.procs[w])
    ensures Fits(Apply(s.cells[j], Local(s, ev, j)), j, w, NextProc(s, ev, w))
  {
    var c, p, e := s.cells[j], s.procs[w], Local(s, ev, j);
    assert ev.ClaimSelect? && ev.w == w ==> p.alive && p.stage.Serving?;
    hide Fits, Shape, ProcOk, IsSelection;
    if e.SelectForClaim? {
      SelectFits(c, j, ev.w, w, p);
    } else if e.CommitClaim? {
      CommitFits(c, j, ev.w, w, p);
    } else if e.RollbackClaim? {
      RollbackFits(c, j, ev.w, w, p);
    }
    if ev.ClaimSelect? && ev.w == w { StandingFits(Apply(c, e), j, w, p, ev); }
  }

  lemma OtherFits(s: State, ev: Event, j: JobId, w: WorkerId)
    requires Allowed(s, ev) && j in s.cells && w in s.procs && ShapeEvent(s.cells[j], Local(s, ev, j))
    requires !ev.OnJob? && !ev.ClaimSelect? && !ev.ClaimCommit? && !ev.ClaimRollback? && !IsAbout(ev, w)
    requires Shape(s.cells[j]) && Fits(s.cells[j], j, w, s.procs[w])
    ensures Fits(Apply(s.cells[j], Local(s, ev, j)), j, w, NextProc(s, ev, w))
  {
    hide Fits, Shape, Apply, ShapeEvent;
    var c, e := s.cells[j], Local(s, ev, j);
    if e.Vanish? { OthersStay(c, j, e.w, w, s.procs[w]); } else { QueuedFits(c, j, e, w, s.procs[w]); }
  }

  lemma OwnFits(s: State, ev: Event, j: JobId, w: WorkerId)
    requires Allowed(s, ev) && CrashStopEvent(s, ev) && j in s.cells && w in s.procs && IsAbout(ev, w)
    requires !ev.ClaimSelect? && !ev.ClaimCommit? && !ev.ClaimRollback?
    requires Shape(s.cells[j]) && ProcOk(s.procs[w]) && Fits(s.cells[j], j, w, s.procs[w])
    ensures Fits(Apply(s.cells[j], Local(s, ev, j)), j, w, NextProc(s, ev, w))
  {
    hide Fits, Shape, ProcOk, Apply;
    var c, p, e := s.cells[j], s.procs[w], Local(s, ev, j);
    assert NextProc(s, ev, w) == OwnStep(p, ev);
    Stuttered(c);
    match ev
    case ReapJobs(_, at) => ReapedFits(c, j, e, w, p, at);
    case ReapMark(_, ok) => MarkedFits(c, j, w, p, ok);
    case ShutdownBegin(_) => BeginFits(c, j, w, p);
    case ShutdownRead(_, _) => LastReadFits(c, j, w, p);
    case ShutdownWrite(_, _, at) => ReleasedFits(c, j, e, w, p, at);
    case ShutdownMark(_, ok) => StoppedFits(c, j, w, p, ok);
    case Crash(_) => CrashFits(c, j, w, p);
    case _ => StandingFits(c, j, w, p, ev);
  }

  lemma StepFits(s: State, ev: Event, j: JobId, w: WorkerId)
    requires Inv(s) && Allowed(s, ev) && CrashStopEvent(s, ev) && j in s.cells && w in s.procs
    ensures Fits(Apply(s.cells[j], Local(s, ev, j)), j, w, NextProc(s, ev, w))
  {
    hide Fits, Shape, Apply, ProcOk, ShapeEvent, Attended, Listed;
    var c, p := s.cells[j], s.procs[w];
    LocalShapeEvent(s, ev, j);
    assert Shape(c) && ProcOk(p) && Fits(c, j, w, p);
    if ev.OnJob? {
      OnJobFits(s, ev.j, ev.e, j, w);
    } else if ev.ClaimSelect? || ev.ClaimCommit? || ev.ClaimRollback? {
      ClaimFits(s, ev, j, w);
    } else if IsAbout(ev, w) {
      OwnFits(s, ev, j, w);
    } else {
      OtherFits(s, ev, j, w);
    }
  }

  lemma StepProcOk(s: State, ev: Event, w: WorkerId)
    requires Allowed(s, ev) && CrashStopEvent(s, ev) && w in s.procs && ProcOk(s.procs[w])
    ensures ProcOk(NextProc(s, ev, w))
  {
  }

  lemma ListedProc(s: State, ev: Event, w: WorkerId)
    requires Allowed(s, ev) && Listed(s) && w in s.procs
    ensures NextProc(s, ev, w).active <= s.cells.Keys && NextProc(s, ev, w).releasing <= s.cells.Keys
  {
  }

  lemma StepListed(s: State, ev: Event)
    requires Allowed(s, ev) && Listed(s)
    ensures Listed(Next(s, ev))
  {
    hide NextProc, Guard, Enabled, Apply;
    forall w | w in s.procs
      ensures NextProc(s, ev, w).active <= s.cells.Keys && NextProc(s, ev, w).releasing <= s.cells.Keys
    {
      ListedProc(s, ev, w);
    }
  }

  lemma NewJobFits(s: State, c: Cell, j: JobId, w: WorkerId)
    requires Listed(s) && j !in s.cells && Fresh(c) && w in s.procs
    ensures Fits(c, j, w, s.procs[w])
  {
  }

  lemma NewWorkerFits(s: State, j: JobId, w: WorkerId)
    requires Attended(s) && j in s.cells && w !in s.procs
    ensures Fits(s.cells[j], j, w, NewProc())
  {
    assert CellAttended(s, s.cells[j]);
  }

  lemma StepShapes(s: State, ev: Event)
    requires Inv(s) && Allowed(s, ev) && CrashStopEvent(s, ev)
    ensures forall j :: j in Next(s, ev).cells ==> Shape(Next(s, ev).cells[j])
  {
    forall j | j in s.cells ensures Shape(Apply(s.cells[j], Local(s, ev, j))) {
      hide Shape, ShapeEvent, Apply, Enabled, Permitted, Fits, ProcOk, Attended, Listed;
      LocalShapeEvent(s, ev, j);
      StepShape(s.cells[j], Local(s, ev, j));
    }
  }

  lemma NextFits(s: State, ev: Event, j: JobId, w: WorkerId)
    requires Inv(s) && Allowed(s, ev) && CrashStopEvent(s, ev) && j in Next(s, ev).cells && w in Next(s, ev).procs
    ensures Fits(Next(s, ev).cells[j], j, w, Next(s, ev).procs[w])
  {
    hide Fits, Shape, ShapeEvent, Apply, Enabled, Permitted, ProcOk, Attended, Listed;
    if j !in s.cells {
      NewJobFits(s, ev.cell, j, w);
    } else if w !in s.procs {
      Stuttered(s.cells[j]);
      NewWorkerFits(s, j, w);
    } else {
      StepFits(s, ev, j, w);
    }
  }

  lemma StepInv(s: State, ev: Event)
    requires Inv(s) && Allowed(s, ev) && CrashStopEvent(s, ev)
    ensures Inv(Next(s, ev))
  {
    hide Fits, Shape, Apply, Enabled, Permitted, ProcOk, Attended, Listed;
    var t := Next(s, ev);
    StepAttended(s, ev);
    StepListed(s, ev);
    StepShapes(s, ev);
    forall w | w in t.procs ensures ProcOk(t.procs[w]) {
      if w in s.procs { StepProcOk(s, ev, w); } else { NewProcOk(); }
    }
    forall j, w | j in t.cells && w in t.procs ensures Fits(t.cells[j], j, w, t.procs[w]) {
      NextFits(s, ev, j, w);
    }
  }

  lemma NewProcOk()
    ensures ProcOk(NewProc())
  {
  }
  lemma {:induction false} RunInv(evs: seq<Event>)
    requires RunIn(AllBut(None), evs).Some?
    ensures Inv(RunIn(AllBut(None), evs).value)
  {
    if evs != [] {
      var n := |evs| - 1;
      RunInv(evs[..n]);
      StepInv(RunIn(AllBut(None), evs[..n]).value, evs[n]);
    }
  }

  /** A Claimed or Running job is owned by a worker row that is Online or Draining, never Offline, so the
      reaper finds it as soon as its heartbeat is stale; and while the owner is alive one of its executors is
      at the job, or its shutdown is about to put the job back. */
  predicate Found(s: State, j: JobId)
    requires j in s.cells
  {
    var c := s.cells[j];
    c.status in {Claimed, Running} ==>
      && c.owner.Some? && c.owner.value in s.procs
      && var p := s.procs[c.owner.value];
         p.row in {Online, Draining} && (p.alive ==> HasLive(c) || j in p.releasing)
  }

  /** No job is lost in crash-stop runs. */
  lemma NoJobLost(s: State, j: JobId)
    requires CrashStopReachable(s) && j in s.cells
    ensures Found(s, j)
  {
    var evs :| RunIn(AllBut(None), evs) == Some(s);
    RunInv(evs);
    var c := s.cells[j];
    assert Shape(c) && CellAttended(s, c);
    if c.status in {Claimed, Running} { assert Fits(c, j, c.owner.value, s.procs[c.owner.value]); }
  }

  /** A reaper pass over a stale worker puts all its jobs back before the worker is marked Offline. */
  lemma ReaperReturnsAll(s: State, w: WorkerId)
    requires CrashStopReachable(s) && w in s.procs && s.procs[w].reaping > 0
    ensures forall j :: j in s.cells && s.cells[j].status in {Claimed, Running} ==> s.cells[j].owner != Some(w)
  {
    var evs :| RunIn(AllBut(None), evs) == Some(s);
    RunInv(evs);
    forall j | j in s.cells ensures !Held(s.cells[j], w) { assert Fits(s.cells[j], j, w, s.procs[w]); }
  }

  /** Execution records are gap-free: since the last manual retry they are numbered 1, 2, ..., attemptCount,
      although each number comes from the claim's snapshot and the counter from a later increment. */
  lemma RecordsGapFree(s: State, j: JobId)
    requires CrashStopReachable(s) && j in s.cells
    ensures var c := s.cells[j];
            |c.records| == c.attempts && forall i :: 0 <= i < c.attempts ==> c.records[i] == i + 1
  {
    var evs :| RunIn(AllBut(None), evs) == Some(s);
    RunInv(evs);
    assert Shape(s.cells[j]);
  }
}
