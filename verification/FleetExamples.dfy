/** Runs that lose a job, one for each assumption of module CrashStop; runs in which a Completed job is queued
    again; and runs that leave a Failed job behind. */
module FleetExamples {
  import opened Common
  import opened JobCell
  import opened ClaimSelection
  import opened Fleet
  import opened FleetFutures
  import opened CrashStop
  import opened LostJobs

  /** One job "j" in queue "q". */
  function At(c: Cell, procs: map<WorkerId, Proc>): State {
    State(map["j" := c], procs, {"q"})
  }

  /** One worker "w", or two. */
  function One(c: Cell, p: Proc): State {
    At(c, map["w" := p])
  }

  function Two(c: Cell, p: Proc, q: Proc): State {
    At(c, map["w" := p, "v" := q])
  }

  predicate Internal(ev: Event) {
    !ev.CreateJob? && !ev.Register? && !ev.SetQueues?
  }

  lemma RunExtends(r: Regime, s: State, ev: Event)
    requires ReachableIn(r, s) && Allowed(s, ev) && Permitted(r, s, ev)
    ensures ReachableIn(r, Next(s, ev))
  {
    var evs :| RunIn(r, evs) == Some(s);
    assert (evs + [ev])[..|evs|] == evs;
    assert RunIn(r, evs + [ev]) == Some(Next(s, ev));
  }

  lemma AtCell(c: Cell, procs: map<WorkerId, Proc>, ev: Event)
    requires Allowed(At(c, procs), ev)
    ensures NextCells(At(c, procs), ev) == map["j" := Apply(c, Local(At(c, procs), ev, "j"))]
  {
  }

  /** The state after one event, row and processes separately. */
  lemma AtStep(r: Regime, c: Cell, procs: map<WorkerId, Proc>, ev: Event)
    requires var s := At(c, procs); ReachableIn(r, s) && Internal(ev) && Guard(s, ev) && Permitted(r, s, ev)
    requires Enabled(c, Local(At(c, procs), ev, "j"))
    ensures ReachableIn(r, At(Apply(c, Local(At(c, procs), ev, "j")),
                              map w | w in procs :: NextProc(At(c, procs), ev, w)))
  {
    hide ReachableIn;
    assert Allowed(At(c, procs), ev);
    AtCell(c, procs, ev);
    RunExtends(r, At(c, procs), ev);
  }

  lemma OneStep(r: Regime, c: Cell, p: Proc, ev: Event)
    requires ReachableIn(r, One(c, p)) && Internal(ev) && Guard(One(c, p), ev) && Permitted(r, One(c, p), ev)
    requires Enabled(c, Local(One(c, p), ev, "j"))
    ensures ReachableIn(r, One(Apply(c, Local(One(c, p), ev, "j")), NextProc(One(c, p), ev, "w")))
  {
    hide ReachableIn, NextProc, Apply, Enabled, Permitted;
    AtStep(r, c, map["w" := p], ev);
    assert (map w | w in map["w" := p] :: NextProc(One(c, p), ev, w)) == map["w" := NextProc(One(c, p), ev, "w")];
  }

  lemma TwoStep(r: Regime, c: Cell, p: Proc, q: Proc, ev: Event)
    requires var s := Two(c, p, q); ReachableIn(r, s) && Internal(ev) && Guard(s, ev) && Permitted(r, s, ev)
    requires Enabled(c, Local(Two(c, p, q), ev, "j"))
    ensures var s := Two(c, p, q);
            ReachableIn(r, Two(Apply(c, Local(s, ev, "j")), NextProc(s, ev, "w"), NextProc(s, ev, "v")))
  {
    hide ReachableIn, NextProc, Apply, Enabled, Permitted;
    var s, procs := Two(c, p, q), map["w" := p, "v" := q];
    AtStep(r, c, procs, ev);
    assert (map w | w in procs :: NextProc(s, ev, w)) == map["w" := NextProc(s, ev, "w"), "v" := NextProc(s, ev, "v")];
  }

  // ---------------------------------------------------------------- single events with one worker

  /** An event on the job alone. */
  lemma JobStep(r: Regime, c: Cell, p: Proc, e: CellEvent)
    requires ReachableIn(r, One(c, p)) && SingleRow(e) && !e.Activate? && !e.Leave? && Enabled(c, e)
    requires ByExecutor(e) ==> p.alive && e.i < |c.executors| && c.executors[e.i].worker == "w"
    requires Keeps(r, RetriesFindNobodyLive) ==> !e.RetryWrite?
    ensures ReachableIn(r, One(Apply(c, e), p))
  {
    hide ReachableIn;
    OneStep(r, c, p, OnJob("j", e));
  }

  lemma ActivateStep(r: Regime, c: Cell, p: Proc, i: nat)
    requires ReachableIn(r, One(c, p)) && Enabled(c, Activate(i)) && p.alive && c.executors[i].worker == "w"
    ensures ReachableIn(r, One(Move(c, i, Starting), p.(active := p.active + {"j"})))
  {
    hide ReachableIn;
    OneStep(r, c, p, OnJob("j", Activate(i)));
  }

  lemma LeaveStep(r: Regime, c: Cell, p: Proc, i: nat)
    requires ReachableIn(r, One(c, p)) && Enabled(c, Leave(i)) && p.alive && c.executors[i].worker == "w"
    ensures ReachableIn(r, One(c.(executors := c.executors[..i] + c.executors[i + 1..]),
                               p.(active := p.active - {"j"})))
  {
    hide ReachableIn;
    OneStep(r, c, p, OnJob("j", Leave(i)));
  }

  lemma SuspectStep(r: Regime, c: Cell, p: Proc)
    requires ReachableIn(r, One(c, p)) && p.row in {Online, Draining} && (Keeps(r, OnlyDeadGoStale) ==> !p.alive)
    ensures ReachableIn(r, One(c, p.(suspected := p.suspected + 1)))
  {
    hide ReachableIn;
    OneStep(r, c, p, ReapRead("w"));
  }

  lemma ReapStep(r: Regime, c: Cell, p: Proc)
    requires ReachableIn(r, One(c, p)) && p.suspected > 0 && Enabled(c, Reap("w", 0))
    ensures ReachableIn(r, One(Apply(c, Reap("w", 0)), p.(suspected := p.suspected - 1, reaping := p.reaping + 1)))
  {
    hide ReachableIn;
    OneStep(r, c, p, ReapJobs("w", 0));
  }

  lemma BeginStep(r: Regime, c: Cell, p: Proc)
    requires ReachableIn(r, One(c, p)) && p.alive && p.stage.Serving? && !p.polling
    requires Keeps(r, ShutdownsSeeClaims) ==> c.lock.None? && forall x :: x in c.executors ==> !x.phase.Batched?
    ensures ReachableIn(r, One(c, p.(stage := Stopping)))
  {
    hide ReachableIn;
    OneStep(r, c, p, ShutdownBegin("w"));
  }

  /** The shutdown begins and the worker is Draining. */
  lemma StopStep(r: Regime, c: Cell, p: Proc)
    requires ReachableIn(r, One(c, p)) && p.alive && p.stage.Serving? && !p.polling
    requires Keeps(r, ShutdownsSeeClaims) ==> c.lock.None? && forall x :: x in c.executors ==> !x.phase.Batched?
    ensures ReachableIn(r, One(c, p.(stage := Waiting, row := Draining)))
  {
    hide ReachableIn;
    BeginStep(r, c, p);
    OneStep(r, c, p.(stage := Stopping), ShutdownDrain("w", true));
  }

  /** The shutdown reads activeJobs, and its executors never act again, or they do. */
  lemma ReadStep(r: Regime, c: Cell, p: Proc, gone: bool)
    requires ReachableIn(r, One(c, p)) && p.alive && p.stage.Waiting? && (Keeps(r, CutOffStaysCutOff) ==> gone)
    ensures ReachableIn(r, One(if gone then Apply(c, Vanish("w")) else c,
                               p.(stage := Releasing, releasing := p.active)))
  {
    hide ReachableIn;
    OneStep(r, c, p, ShutdownRead("w", gone));
  }

  lemma PutBackStep(r: Regime, c: Cell, p: Proc, ok: bool)
    requires ReachableIn(r, One(c, p)) && p.alive && "j" in p.releasing && c.lock.None?
    requires Keeps(r, ReleasesSucceed) ==> ok
    ensures ReachableIn(r, One(if ok then Apply(c, Release("w", 0)) else c, p.(releasing := {})))
  {
    hide ReachableIn;
    OneStep(r, c, p, ShutdownWrite("w", ok, 0));
  }

  lemma OfflineStep(r: Regime, c: Cell, p: Proc)
    requires ReachableIn(r, One(c, p)) && p.alive && p.stage.Releasing? && p.releasing == {}
    ensures ReachableIn(r, One(c, p.(stage := Stopped, row := Offline)))
  {
    hide ReachableIn;
    OneStep(r, c, p, ShutdownMark("w", true));
  }

  lemma CrashStep(r: Regime, c: Cell, p: Proc)
    requires ReachableIn(r, One(c, p)) && p.alive
    ensures ReachableIn(r, One(Apply(c, Vanish("w")),
                               p.(alive := false, polling := false, releasing := {}, beats := 0)))
  {
    hide ReachableIn;
    OneStep(r, c, p, Crash("w"));
  }

  lemma VanishedOne(c: Cell, x: Executor)
    requires c.executors == [x] && c.lock.None?
    ensures Apply(c, Vanish(x.worker)) == c.(executors := [])
  {
    WithoutOne(c.executors, x.worker);
  }

  predicate Loses(s: State) {
    "j" in s.cells && s.cells["j"].status in {JobStatus.Claimed, Running} && Lost(s, "j")
  }

  lemma OnlyMoved(c: Cell, x: Executor, p: Phase)
    requires c.executors == [x]
    ensures Move(c, 0, p) == c.(executors := [x.(phase := p)])
  {
    assert [x][0 := x.(phase := p)] == [x.(phase := p)];
  }

  function FreshJob(limit: int): Cell {
    Cell(Queued, 0, limit, false, "q", 5, 0, None, None, [], false, 0, 0, 0, 0, 1, 0, [], false)
  }

  function FreshProc(): Proc {
    NewProc()
  }

  lemma Registered(r: Regime)
    ensures ReachableIn(r, State(map[], map["w" := FreshProc()], {"q"}))
  {
    assert RunIn(r, []) == Some(Empty());
    RunExtends(r, Empty(), SetQueues({"q"}));
    var s := State(map[], map[], {"q"});
    assert Next(Empty(), SetQueues({"q"})) == s;
    RunExtends(r, s, Register("w"));
    assert Next(s, Register("w")) == State(map[], map["w" := FreshProc()], {"q"});
  }

  lemma Seeded(r: Regime, limit: int)
    ensures ReachableIn(r, One(FreshJob(limit), FreshProc()))
  {
    hide ReachableIn;
    Registered(r);
    var s, ev := State(map[], map["w" := FreshProc()], {"q"}), CreateJob("j", FreshJob(limit));
    assert Next(s, ev) == One(FreshJob(limit), FreshProc());
    RunExtends(r, s, ev);
  }

  /** The columns that differ between the examples. */
  function Row(limit: int, status: JobStatus, attempts: nat, owner: Option<WorkerId>, executors: seq<Executor>,
               returned: nat, entered: nat, claims: nat, records: seq<nat>): Cell
  {
    Cell(status, attempts, limit, false, "q", 5, 0, owner, None, executors, false, 0, 0, 0,
         returned, entered, claims, records, false)
  }

  function BusyProc(): Proc {
    NewProc().(active := {"j"})
  }

  lemma PollStep(r: Regime, c: Cell, p: Proc)
    requires ReachableIn(r, One(c, p)) && p.alive && p.stage.Serving? && !p.polling && c.lock.None?
    ensures ReachableIn(r, One(c, p.(polling := true)))
  {
    hide ReachableIn;
    OneStep(r, c, p, PollStart("w"));
  }

  lemma SelectStep(r: Regime, c: Cell, p: Proc)
    requires ReachableIn(r, One(c, p)) && c.status == Queued && c.runAt <= 0 && c.queue == "q" && c.lock.None?
    requires p.alive && p.polling && p.releasing == {} && (Keeps(r, ClaimsFindIdleRows) ==> c.executors == [])
    ensures ReachableIn(r, One(c.(lock := Some("w")), p.(polling := false)))
  {
    hide ReachableIn;
    assert EligibleRows(One(c, p).cells, {"q"}, 0) == {"j"};
    OneStep(r, c, p, ClaimSelect("w", 0, 1, ["j"]));
  }

  lemma CommitStep(r: Regime, c: Cell, p: Proc)
    requires ReachableIn(r, One(c, p)) && c.lock == Some("w") && p.alive
    ensures ReachableIn(r, One(Apply(c, CommitClaim("w")), p))
  {
    hide ReachableIn;
    OneStep(r, c, p, ClaimCommit("w"));
  }

  function TakenBy(c: Cell, w: WorkerId): Cell {
    c.(status := JobStatus.Claimed, owner := Some(w), claims := c.claims + 1,
       executors := c.executors + [Executor(w, Batched, c.attempts)])
  }

  lemma Committed(c: Cell, w: WorkerId)
    requires c.lock.None?
    ensures Apply(c.(lock := Some(w)), CommitClaim(w)) == TakenBy(c, w)
  {
  }

  /** The worker claims the job. */
  lemma Claim(r: Regime, c: Cell, p: Proc)
    requires ReachableIn(r, One(c, p)) && c.status == Queued && c.runAt <= 0 && c.queue == "q" && c.lock.None?
    requires p.alive && p.stage.Serving? && !p.polling && p.releasing == {}
    requires Keeps(r, ClaimsFindIdleRows) ==> c.executors == []
    ensures ReachableIn(r, One(TakenBy(c, "w"), p))
  {
    hide ReachableIn;
    PollStep(r, c, p);
    SelectStep(r, c, p.(polling := true));
    CommitStep(r, c.(lock := Some("w")), p);
    Committed(c, "w");
  }

  function ClaimedRow(limit: int, phase: Phase): Cell {
    Row(limit, JobStatus.Claimed, 0, Some("w"), [Executor("w", phase, 0)], 0, 1, 1, [])
  }

  function RunningRow(limit: int): Cell {
    Row(limit, Running, 1, Some("w"), [Executor("w", Working, 0)], 0, 1, 1, [1])
  }

  lemma FirstClaim(r: Regime, limit: int)
    ensures ReachableIn(r, One(ClaimedRow(limit, Batched), FreshProc()))
  {
    hide ReachableIn;
    Seeded(r, limit);
    Claim(r, FreshJob(limit), FreshProc());
    assert [] + [Executor("w", Batched, 0)] == [Executor("w", Batched, 0)];
  }

  lemma FirstActivated(r: Regime, limit: int)
    ensures ReachableIn(r, One(ClaimedRow(limit, Starting), BusyProc()))
  {
    hide ReachableIn;
    FirstClaim(r, limit);
    ActivateStep(r, ClaimedRow(limit, Batched), FreshProc(), 0);
    OnlyMoved(ClaimedRow(limit, Batched), Executor("w", Batched, 0), Starting);
    assert FreshProc().active + {"j"} == {"j"};
  }

  lemma FirstRun(r: Regime, limit: int)
    ensures ReachableIn(r, One(RunningRow(limit), BusyProc()))
  {
    hide ReachableIn;
    FirstActivated(r, limit);
    OnlyMoved(ClaimedRow(limit, Starting), Executor("w", Starting, 0), Working);
    JobStep(r, ClaimedRow(limit, Starting), BusyProc(), Start(0));
    assert [] + [1] == [1];
  }

  // ---------------------------------------------------------------- one assumption dropped at a time

  function LingeringRow(status: JobStatus, owner: Option<WorkerId>, more: seq<Executor>,
                        attempts: nat, claims: nat): Cell
  {
    Row(3, status, attempts, owner, [Executor("w", Closing, 0)] + more, 0, 2, claims,
        if attempts == 1 then [1] else [1, 2])
  }

  lemma FailedOnce(r: Regime)
    ensures ReachableIn(r, One(LingeringRow(Queued, None, [], 1, 1), BusyProc()))
  {
    hide ReachableIn;
    FirstRun(r, 3);
    JobStep(r, RunningRow(3), BusyProc(), FailRead(0));
    OnlyMoved(RunningRow(3), Executor("w", Working, 0), Failing(1));
    FailedWrite(r);
  }

  lemma FailedWrite(r: Regime)
    requires ReachableIn(r, One(RunningRow(3).(executors := [Executor("w", Failing(1), 0)]), BusyProc()))
    ensures ReachableIn(r, One(LingeringRow(Queued, None, [], 1, 1), BusyProc()))
  {
    hide ReachableIn;
    var c := RunningRow(3).(executors := [Executor("w", Failing(1), 0)]);
    OnlyMoved(c, Executor("w", Failing(1), 0), Closing);
    JobStep(r, c, BusyProc(), FailWrite(0, 0));
    assert [Executor("w", Closing, 0)] + [] == [Executor("w", Closing, 0)];
  }

  lemma ReclaimedBesideLingerer(r: Regime)
    requires r == AllBut(Some(ClaimsFindIdleRows))
    ensures ReachableIn(r, 
              One(LingeringRow(JobStatus.Claimed, Some("w"), [Executor("w", Starting, 1)], 1, 2), BusyProc()))
  {
    hide ReachableIn;
    FailedOnce(r);
    var c := LingeringRow(Queued, None, [], 1, 1);
    Claim(r, c, BusyProc());
    assert c.executors + [Executor("w", Batched, 1)] == [Executor("w", Closing, 0)] + [Executor("w", Batched, 1)];
    var d := LingeringRow(JobStatus.Claimed, Some("w"), [Executor("w", Batched, 1)], 1, 2);
    ActivateStep(r, d, BusyProc(), 1);
    assert Move(d, 1, Starting).executors == [Executor("w", Closing, 0)] + [Executor("w", Starting, 1)];
    assert BusyProc().active + {"j"} == BusyProc().active;
  }

  lemma RestartedBesideLingerer(r: Regime)
    requires r == AllBut(Some(ClaimsFindIdleRows))
    ensures ReachableIn(r, One(LingeringRow(Running, Some("w"), [Executor("w", Working, 1)], 2, 2), BusyProc()))
  {
    hide ReachableIn;
    ReclaimedBesideLingerer(r);
    var c := LingeringRow(JobStatus.Claimed, Some("w"), [Executor("w", Starting, 1)], 1, 2);
    JobStep(r, c, BusyProc(), Start(1));
    assert Move(c, 1, Working).executors == [Executor("w", Closing, 0)] + [Executor("w", Working, 1)];
    assert [1] + [2] == [1, 2];
  }

  lemma LingererLeft(r: Regime) returns (p: Proc)
    requires r == AllBut(Some(ClaimsFindIdleRows))
    ensures ReachableIn(r, One(LingererRun(), p)) && p == NewProc()
  {
    hide ReachableIn;
    RestartedBesideLingerer(r);
    var c := LingeringRow(Running, Some("w"), [Executor("w", Working, 1)], 2, 2);
    LeaveStep(r, c, BusyProc(), 0);
    assert c.executors[..0] + c.executors[1..] == [Executor("w", Working, 1)];
    p := BusyProc().(active := BusyProc().active - {"j"});
  }

  function LingererRun(): Cell {
    LingeringRow(Running, Some("w"), [], 2, 2).(executors := [Executor("w", Working, 1)])
  }

  /** A failed attempt puts the job back, the same worker claims and starts it again before the first executor
      has left; leaving, that one strikes the shared id off activeJobs; the shutdown sees no active job, marks the
      worker Offline, and its executors are cut off. */
  lemma LingererHidesARun(r: Regime) returns (s: State)
    requires r == AllBut(Some(ClaimsFindIdleRows))
    ensures ReachableIn(r, s) && Loses(s) && s.cells["j"].status == Running
  {
    hide ReachableIn;
    var p := LingererLeft(r);
    var c := LingererRun();
    StopStep(r, c, p);
    p := p.(stage := Waiting, row := Draining);
    ReadStep(r, c, p, true);
    VanishedOne(c, Executor("w", Working, 1));
    c, p := c.(executors := []), p.(stage := Releasing, releasing := {});
    OfflineStep(r, c, p);
    s := One(c, p.(stage := Stopped, row := Offline));
  }

  /** An executor about to start a job that was put back leaves it Running with no owner at all; should its
      process stop now, nobody looks at the job again. */
  lemma StartOrphaned(r: Regime, c: Cell, p: Proc) returns (s: State)
    requires ReachableIn(r, One(c, p)) && p.alive && c.lock.None? && c.owner.None?
    requires c.executors == [Executor("w", Starting, 0)]
    requires !c.promoting && c.cancels == 0 && c.retries == 0 && c.burying == 0
    ensures ReachableIn(r, s) && Loses(s) && s.cells["j"].status == Running && s.cells["j"].owner.None?
  {
    hide ReachableIn;
    JobStep(r, c, p, Start(0));
    OnlyMoved(c, Executor("w", Starting, 0), Working);
    CrashStep(r, Apply(c, Start(0)), p);
    VanishedOne(Apply(c, Start(0)), Executor("w", Working, 0));
    s := One(Apply(c, Start(0)).(executors := []), p.(alive := false, polling := false, releasing := {}, beats := 0));
  }

  /** The reaper puts a job back that a living worker is about to start. */
  lemma ReapOrphansARun(r: Regime) returns (s: State)
    requires r == AllBut(Some(OnlyDeadGoStale))
    ensures ReachableIn(r, s) && Loses(s) && s.cells["j"].owner.None?
  {
    hide ReachableIn;
    FirstActivated(r, 3);
    var c := ClaimedRow(3, Starting);
    SuspectStep(r, c, BusyProc());
    var p := BusyProc().(suspected := 1);
    ReapStep(r, c, p);
    s := StartOrphaned(r, Apply(c, Reap("w", 0)), p.(suspected := 0, reaping := 1));
  }

  /** A claim commits, the shutdown finds activeJobs still empty and marks the worker Offline, and the job stays
      Claimed by a row the reaper never looks at. */
  lemma ShutdownCanStrandAClaim(r: Regime) returns (s: State)
    requires r == AllBut(Some(ShutdownsSeeClaims))
    ensures ReachableIn(r, s) && Loses(s) && s.cells["j"].status == JobStatus.Claimed
  {
    hide ReachableIn;
    FirstClaim(r, 3);
    var c, p := ClaimedRow(3, Batched), FreshProc();
    StopStep(r, c, p);
    p := p.(stage := Waiting, row := Draining);
    ReadStep(r, c, p, true);
    VanishedOne(c, Executor("w", Batched, 0));
    c, p := c.(executors := []), p.(stage := Releasing, releasing := {});
    OfflineStep(r, c, p);
    s := One(c, p.(stage := Stopped, row := Offline));
  }

  /** The shutdown puts an active job back, and its executor, still alive, starts it all the same. */
  lemma CutOffExecutorOrphansARun(r: Regime) returns (s: State)
    requires r == AllBut(Some(CutOffStaysCutOff))
    ensures ReachableIn(r, s) && Loses(s) && s.cells["j"].owner.None?
  {
    hide ReachableIn;
    FirstActivated(r, 3);
    var c, p := ClaimedRow(3, Starting), BusyProc();
    StopStep(r, c, p);
    p := p.(stage := Waiting, row := Draining);
    ReadStep(r, c, p, false);
    p := p.(stage := Releasing, releasing := {"j"});
    PutBackStep(r, c, p, true);
    s := StartOrphaned(r, Apply(c, Release("w", 0)), p.(releasing := {}));
  }

  /** The shutdown's statement on its active jobs fails, and the worker is marked Offline with its job Running. */
  lemma FailedReleaseStrandsARun(r: Regime) returns (s: State)
    requires r == AllBut(Some(ReleasesSucceed))
    ensures ReachableIn(r, s) && Loses(s) && s.cells["j"].status == Running
  {
    hide ReachableIn;
    FirstRun(r, 3);
    var c, p := RunningRow(3), BusyProc();
    StopStep(r, c, p);
    p := p.(stage := Waiting, row := Draining);
    ReadStep(r, c, p, true);
    VanishedOne(c, Executor("w", Working, 0));
    c, p := c.(executors := []), p.(stage := Releasing, releasing := {"j"});
    PutBackStep(r, c, p, false);
    OfflineStep(r, c, p.(releasing := {}));
    s := One(c, p.(stage := Stopped, row := Offline, releasing := {}));
  }

  // ---- a second worker

  lemma SecondRegisters(r: Regime, c: Cell, p: Proc)
    requires ReachableIn(r, One(c, p))
    ensures ReachableIn(r, Two(c, p, NewProc()))
  {
    var s, ev := One(c, p), Register("v");
    AtCell(c, map["w" := p], ev);
    assert (map w | w in s.procs :: NextProc(s, ev, w)) == map["w" := p];
    assert Next(s, ev) == Two(c, p, NewProc());
    RunExtends(r, s, ev);
  }

  /** An executor of the second worker moves on. */
  lemma SecondJobStep(r: Regime, c: Cell, p: Proc, q: Proc, e: CellEvent)
    requires ReachableIn(r, Two(c, p, q)) && q.alive && (e.Activate? || e.Start?) && Enabled(c, e)
    requires c.executors[e.i].worker == "v"
    ensures ReachableIn(r, Two(Apply(c, e), p, if e.Activate? then q.(active := q.active + {"j"}) else q))
  {
    hide ReachableIn;
    TwoStep(r, c, p, q, OnJob("j", e));
  }

  lemma SecondSelects(r: Regime, c: Cell, p: Proc, q: Proc)
    requires ReachableIn(r, Two(c, p, q)) && r == AllBut(Some(ClaimsAwaitReleases))
    requires q.alive && q.polling && c.lock.None?
    requires c.status == Queued && c.runAt <= 0 && c.queue == "q" && c.executors == []
    ensures ReachableIn(r, Two(c.(lock := Some("v")), p, q.(polling := false)))
  {
    hide ReachableIn;
    assert EligibleRows(Two(c, p, q).cells, {"q"}, 0) == {"j"};
    TwoStep(r, c, p, q, ClaimSelect("v", 0, 1, ["j"]));
  }

  /** The second worker claims and activates the job. */
  lemma SecondClaims(r: Regime, c: Cell, p: Proc)
    requires ReachableIn(r, Two(c, p, NewProc())) && r == AllBut(Some(ClaimsAwaitReleases)) && c.lock.None?
    requires c.status == Queued && c.runAt <= 0 && c.queue == "q" && c.executors == []
    ensures ReachableIn(r, Two(TakenBy(c, "v").(executors := [Executor("v", Starting, c.attempts)]), p, BusyProc()))
  {
    hide ReachableIn;
    TwoStep(r, c, p, NewProc(), PollStart("v"));
    SecondSelects(r, c, p, NewProc().(polling := true));
    Committed(c, "v");
    TwoStep(r, c.(lock := Some("v")), p, NewProc(), ClaimCommit("v"));
    var d := TakenBy(c, "v");
    assert d.executors == [Executor("v", Batched, c.attempts)];
    SecondJobStep(r, d, p, NewProc(), Activate(0));
    OnlyMoved(d, Executor("v", Batched, c.attempts), Starting);
    assert NewProc().active + {"j"} == {"j"};
  }

  lemma SecondCrashes(r: Regime, c: Cell, p: Proc, q: Proc) returns (s: State)
    requires ReachableIn(r, Two(c, p, q)) && c.lock.None? && q.alive && c.status == Running && c.owner.None?
    requires p.Decided() && p.releasing == {} && c.executors == [Executor("v", Working, 1)]
    requires !c.promoting && c.cancels == 0 && c.retries == 0 && c.burying == 0
    ensures ReachableIn(r, s) && Loses(s) && s.cells["j"].owner.None?
  {
    hide ReachableIn;
    TwoStep(r, c, p, q, Crash("v"));
    VanishedOne(c, Executor("v", Working, 1));
    s := Two(c.(executors := []), p, OwnStep(q, Crash("v")));
  }

  lemma PutBackUnderSecond(r: Regime, c: Cell, p: Proc)
    requires ReachableIn(r, Two(c, p, BusyProc())) && c.lock.None? && p.alive && p.releasing == {"j"}
    ensures ReachableIn(r, Two(Apply(c, Release("w", 0)), p.(releasing := {}), BusyProc()))
  {
    hide ReachableIn;
    TwoStep(r, c, p, BusyProc(), ShutdownWrite("w", true, 0));
  }

  /** The shutdown of the first worker writes what it read, the second worker starts the job all the same. */
  lemma SecondOrphaned(r: Regime, c: Cell, p: Proc) returns (s: State)
    requires ReachableIn(r, Two(c, p, BusyProc())) && c.lock.None? && p.alive && p.releasing == {"j"}
    requires p.stage.Releasing? && c.executors == [Executor("v", Starting, 1)]
    requires !c.promoting && c.cancels == 0 && c.retries == 0 && c.burying == 0
    ensures ReachableIn(r, s) && Loses(s) && s.cells["j"].owner.None?
  {
    hide ReachableIn, Loses;
    PutBackUnderSecond(r, c, p);
    var d, q := Apply(c, Release("w", 0)), p.(releasing := {});
    SecondJobStep(r, d, q, BusyProc(), Start(0));
    OnlyMoved(d, Executor("v", Starting, 1), Working);
    s := SecondCrashes(r, Apply(d, Start(0)), q, BusyProc());
  }

  /** A shutdown has read a job from activeJobs whose failed attempt has already queued it again; another worker
      claims it, the shutdown puts it back, and the second executor starts it. */
  lemma ReleaseMeetsAClaim(r: Regime) returns (s: State)
    requires r == AllBut(Some(ClaimsAwaitReleases))
    ensures ReachableIn(r, s) && Loses(s) && s.cells["j"].owner.None?
  {
    hide ReachableIn;
    FailedOnce(r);
    var c, p := LingeringRow(Queued, None, [], 1, 1), BusyProc();
    StopStep(r, c, p);
    p := p.(stage := Waiting, row := Draining);
    ReadStep(r, c, p, true);
    assert c.executors == [Executor("w", Closing, 0)];
    VanishedOne(c, Executor("w", Closing, 0));
    c, p := c.(executors := []), p.(stage := Releasing, releasing := {"j"});
    SecondRegisters(r, c, p);
    SecondClaims(r, c, p);
    s := SecondOrphaned(r, TakenBy(c, "v").(executors := [Executor("v", Starting, 1)]), p);
  }

  // ---- a manual retry

  lemma CancelledBeforeStart(r: Regime)
    ensures ReachableIn(r, One(ClaimedRow(3, Starting).(status := Cancelled), BusyProc()))
  {
    hide ReachableIn;
    FirstActivated(r, 3);
    var c := ClaimedRow(3, Starting);
    JobStep(r, c, BusyProc(), CancelRead);
    JobStep(r, c.(cancels := 1), BusyProc(), CancelWrite);
  }

  lemma RetryAsked(r: Regime)
    ensures ReachableIn(r, One(ClaimedRow(3, Starting).(status := Cancelled, retries := 1), BusyProc()))
  {
    hide ReachableIn;
    CancelledBeforeStart(r);
    JobStep(r, ClaimedRow(3, Starting).(status := Cancelled), BusyProc(), RetryRead);
  }

  lemma RetriedRow()
    ensures Apply(ClaimedRow(3, Starting).(status := Cancelled, retries := 1), RetryWrite(0))
            == Row(3, Queued, 0, None, [Executor("w", Starting, 0)], 1, 2, 1, [])
  {
    var c := ClaimedRow(3, Starting).(status := Cancelled, retries := 1);
    assert forall i :: 0 <= i < |c.executors| ==> c.executors[i].phase == Starting;
  }

  lemma RetriedBeforeStart(r: Regime)
    requires r == AllBut(Some(RetriesFindNobodyLive))
    ensures ReachableIn(r, One(Row(3, Queued, 0, None, [Executor("w", Starting, 0)], 1, 2, 1, []), BusyProc()))
  {
    hide ReachableIn;
    RetryAsked(r);
    RetriedRow();
    JobStep(r, ClaimedRow(3, Starting).(status := Cancelled, retries := 1), BusyProc(), RetryWrite(0));
  }

  /** Cancelled while Claimed, retried by hand, and then started by the first executor, the job is Running with
      no owner at all. */
  lemma RetryCanOrphanARun(r: Regime) returns (s: State)
    requires r == AllBut(Some(RetriesFindNobodyLive))
    ensures ReachableIn(r, s) && Loses(s) && s.cells["j"].owner.None?
  {
    hide ReachableIn;
    RetriedBeforeStart(r);
    s := StartOrphaned(r, Row(3, Queued, 0, None, [Executor("w", Starting, 0)], 1, 2, 1, []), BusyProc());
  }

  /** No assumption can be spared: a run that keeps all the others ends with a job that is lost for good. */
  lemma EachAssumptionNeeded(a: Assumption) returns (s: State)
    ensures ReachableIn(AllBut(Some(a)), s) && Loses(s) && StaysUnlessAsked(s, "j")
  {
    hide ReachableIn;
    var r := AllBut(Some(a));
    match a {
      case ClaimsFindIdleRows => s := LingererHidesARun(r);
      case ClaimsAwaitReleases => s := ReleaseMeetsAClaim(r);
      case OnlyDeadGoStale => s := ReapOrphansARun(r);
      case ShutdownsSeeClaims => s := ShutdownCanStrandAClaim(r);
      case CutOffStaysCutOff => s := CutOffExecutorOrphansARun(r);
      case ReleasesSucceed => s := FailedReleaseStrandsARun(r);
      case RetriesFindNobodyLive => s := RetryCanOrphanARun(r);
    }
    ReachableAnyway(r, s);
    LostForGoodIff(s, "j");
  }

  // ---------------------------------------------------------------- Completed is not final

  function CompletedRow(): Cell {
    Row(3, Completed, 1, Some("w"), [Executor("w", Reported, 0)], 0, 1, 1, [1])
  }

  lemma CompletedOnce(r: Regime)
    ensures ReachableIn(r, One(CompletedRow(), BusyProc()))
  {
    hide ReachableIn;
    FirstRun(r, 3);
    OnlyMoved(RunningRow(3), Executor("w", Working, 0), Reported);
    JobStep(r, RunningRow(3), BusyProc(), Report(0));
  }

  /** Even in a crash-stop run a Completed job is Queued again when something throws after the completion. */
  lemma CompletedFailsAfterAll() returns (c: Cell, p: Proc)
    ensures ReachableIn(AllBut(None), One(CompletedRow(), BusyProc()))
    ensures ReachableIn(AllBut(None), One(c, p)) && c.status == Queued && c.returned == 0
  {
    hide ReachableIn;
    CompletedOnce(AllBut(None));
    c, p := CompletedRow(), BusyProc();
    JobStep(AllBut(None), c, p, FailRead(0));
    OnlyMoved(c, Executor("w", Reported, 0), Failing(1));
    c := c.(executors := [Executor("w", Failing(1), 0)]);
    JobStep(AllBut(None), c, p, FailWrite(0, 0));
    c := Apply(c, FailWrite(0, 0));
  }

  /** And with nothing thrown at all, when its worker is shut down before the executor has left. */
  lemma ReleaseRevivesCompleted() returns (c: Cell, p: Proc)
    ensures ReachableIn(AllBut(None), One(CompletedRow(), BusyProc()))
    ensures ReachableIn(AllBut(None), One(c, p)) && c.status == Queued && c.returned == 1
  {
    hide ReachableIn;
    CompletedOnce(AllBut(None));
    c, p := CompletedRow(), BusyProc();
    StopStep(AllBut(None), c, p);
    p := p.(stage := Waiting, row := Draining);
    ReadStep(AllBut(None), c, p, true);
    VanishedOne(c, Executor("w", Reported, 0));
    c, p := c.(executors := []), p.(stage := Releasing, releasing := {"j"});
    PutBackStep(AllBut(None), c, p, true);
    c, p := Apply(c, Release("w", 0)), p.(releasing := {});
  }

  /** A Completed job whose executor has left and that no worker lists any more, but that a shutdown read from
      activeJobs before. */
  lemma LeftWithReleaseInFlight() returns (c: Cell, p: Proc)
    ensures ReachableIn(Free, One(c, p)) && c.status == Completed && c.executors == [] && c.lock.None?
    ensures p.alive && "j" !in p.active && p.releasing == {"j"}
  {
    hide ReachableIn;
    CompletedOnce(Free);
    c, p := CompletedRow(), BusyProc();
    StopStep(Free, c, p);
    p := p.(stage := Waiting, row := Draining);
    ReadStep(Free, c, p, false);
    p := p.(stage := Releasing, releasing := {"j"});
    JobStep(Free, c, p, Conclude(0));
    OnlyMoved(c, Executor("w", Reported, 0), Closing);
    c := c.(executors := [Executor("w", Closing, 0)]);
    LeaveStep(Free, c, p, 0);
    assert c.executors[..0] + c.executors[1..] == [];
    c, p := c.(executors := []), p.(active := p.active - {"j"});
  }

  /** The release lands all the same and queues it. */
  lemma LateReleaseRevivesCompleted() returns (c: Cell, p: Proc, d: Cell)
    ensures Reachable(One(c, p)) && c.status == Completed && c.executors == [] && "j" !in p.active
    ensures Reachable(One(d, p.(releasing := {}))) && d.status == Queued
  {
    c, p := LeftWithReleaseInFlight();
    PutBackStep(Free, c, p, true);
    d := Apply(c, Release("w", 0));
    ReachableAnyway(Free, One(c, p));
    ReachableAnyway(Free, One(d, p.(releasing := {})));
  }

  // ---------------------------------------------------------------- two executors, and a Failed job left behind

  /** The reaper puts a job back although its worker lives, and the worker claims it again. */
  lemma ReapedAndReclaimed() returns (p: Proc)
    ensures p.alive && ReachableIn(Free, One(Row(1, JobStatus.Claimed, 1, Some("w"),
              [Executor("w", Working, 0), Executor("w", Batched, 1)], 1, 2, 2, [1]), p))
  {
    hide ReachableIn;
    FirstRun(Free, 1);
    SuspectStep(Free, RunningRow(1), BusyProc());
    p := BusyProc().(suspected := 1);
    ReapStep(Free, RunningRow(1), p);
    p := p.(suspected := 0, reaping := 1);
    var first := [Executor("w", Working, 0)];
    Claim(Free, Row(1, Queued, 1, None, first, 1, 2, 1, [1]), p);
    assert first + [Executor("w", Batched, 1)] == [Executor("w", Working, 0), Executor("w", Batched, 1)];
  }

  lemma StartedTwice() returns (c: Cell, p: Proc)
    ensures ReachableIn(Free, One(c, p)) && p.alive && c.limit == 1 && c.attempts == 2 && c.lock.None? && !c.overlapped
    ensures c.executors == [Executor("w", Working, 0), Executor("w", Working, 1)] && c.retries == 0 && c.returned == 1
  {
    hide ReachableIn;
    p := ReapedAndReclaimed();
    c := Row(1, JobStatus.Claimed, 1, Some("w"), [Executor("w", Working, 0), Executor("w", Batched, 1)], 1, 2, 2, [1]);
    ActivateStep(Free, c, p, 1);
    c, p := Move(c, 1, Starting), p.(active := p.active + {"j"});
    JobStep(Free, c, p, Start(1));
    c := Apply(c, Start(1));
  }

  /** One reset lets a job run twice at once, and twice with a limit of 1: both bounds of BoundedAttempts are
      attained. */
  lemma TwoExecutors() returns (c: Cell, p: Proc)
    ensures Reachable(One(c, p)) && c.returned == 1
    ensures Live(c) == 1 + c.returned && c.attempts == Max(1, c.limit) + c.returned
  {
    c, p := StartedTwice();
    ReachableAnyway(Free, One(c, p));
    var es := c.executors;
    assert es[..1] == [Executor("w", Working, 0)] && es[..1][..0] == [];
    assert Count(es[..1], 1, false) == 1;
  }

  lemma BothGiveUp() returns (c: Cell, p: Proc)
    ensures ReachableIn(Free, One(c, p)) && p.alive && c.limit == 1
    ensures c.lock.None? && c.status == Failed && c.retries == 0
    ensures c.executors == [Executor("w", Closing, 0), Executor("w", Failing(2), 1)]
  {
    hide ReachableIn;
    c, p := StartedTwice();
    JobStep(Free, c, p, FailRead(0));
    c := Move(c, 0, Failing(2));
    JobStep(Free, c, p, FailRead(1));
    c := Move(c, 1, Failing(2));
    JobStep(Free, c, p, FailWrite(0, 0));
    c := Move(c, 0, Closing).(status := Failed, owner := None);
  }

  lemma RetriedMeanwhile() returns (c: Cell, p: Proc)
    ensures ReachableIn(Free, One(c, p)) && p.alive && c.limit == 1 && c.lock.None? && c.attempts == 0 && c.overlapped
    ensures c.executors == [Executor("w", Closing, 0), Executor("w", Failing(2), 1)]
  {
    hide ReachableIn;
    c, p := BothGiveUp();
    JobStep(Free, c, p, RetryRead);
    c := c.(retries := 1);
    assert c.executors[1].phase == Failing(2);
    assert GivingUp(c);
    JobStep(Free, c, p, RetryWrite(0));
    c := Apply(c, RetryWrite(0));
  }

  lemma LateFailWrite(c: Cell)
    requires c.limit == 1 && c.lock.None? && c.attempts == 0
    requires c.executors == [Executor("w", Closing, 0), Executor("w", Failing(2), 1)]
    ensures Enabled(c, FailWrite(1, 0))
    ensures var d := Apply(c, FailWrite(1, 0));
            d.status == Failed && d.attempts == 0 && d.limit == 1 && d.overlapped == c.overlapped
  {
  }

  lemma SecondGivesUp(c: Cell, p: Proc) returns (d: Cell)
    requires ReachableIn(Free, One(c, p)) && p.alive && c.limit == 1 && c.lock.None? && c.attempts == 0 && c.overlapped
    requires c.executors == [Executor("w", Closing, 0), Executor("w", Failing(2), 1)]
    ensures ReachableIn(Free, One(d, p)) && d.status == Failed && d.attempts < d.limit && d.overlapped
    ensures !Enabled(d, BuryRead)
  {
    hide ReachableIn;
    LateFailWrite(c);
    JobStep(Free, c, p, FailWrite(1, 0));
    d := Apply(c, FailWrite(1, 0));
  }

  /** A Failed job below its limit exists: two executors give up, the first marks the job Failed, it is
      retried by hand, and the second marks it Failed again with no attempt used.  The dead-letter pass
      will never take it. */
  lemma OverlapLeavesFailedUnspent() returns (c: Cell, p: Proc)
    ensures Reachable(One(c, p)) && c.status == Failed && c.attempts < c.limit && c.overlapped
    ensures !Enabled(c, BuryRead)
  {
    c, p := RetriedMeanwhile();
    c := SecondGivesUp(c, p);
    ReachableAnyway(Free, One(c, p));
  }
}
