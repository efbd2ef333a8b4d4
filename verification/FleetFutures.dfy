/** What can still happen to a job: exactly when a Completed job is final, which events take it out of Completed,
    and exactly when a manual retry can leave a Failed job behind. */
module FleetFutures {
  import opened Common
  import opened JobCell
  import opened ClaimSelection
  import opened Fleet
  import opened FleetRuns

  // ---------------------------------------------------------------- executors and locks have live processes

  predicate CellAttended(s: State, c: Cell) {
    && (forall i :: 0 <= i < |c.executors| ==> IsAlive(s, c.executors[i].worker))
    && (c.lock.Some? ==> IsAlive(s, c.lock.value))
    && (c.owner.Some? ==> c.owner.value in s.procs)
  }

  predicate Attended(s: State) {
    forall j :: j in s.cells ==> CellAttended(s, s.cells[j])
  }

  lemma WithoutKeeps(es: seq<Executor>, w: WorkerId, i: nat)
    requires i < |Without(es, w)|
    ensures Without(es, w)[i].worker != w && Without(es, w)[i] in es
  {
    assert Without(es, w)[i] in Without(es, w);
  }

  predicate Inherited(es: seq<Executor>, x: Executor) {
    exists k :: 0 <= k < |es| && es[k].worker == x.worker
  }

  lemma WritingExecutor(c: Cell, e: CellEvent)
    requires Enabled(c, e) && (e.Start? || e.Report? || e.FailRead? || e.FailWrite?)
    ensures exists p :: Apply(c, e).executors == Move(c, e.i, p).executors
  {
    var p := if e.Start? then Working else if e.Report? then Reported
             else if e.FailRead? then Failing(c.attempts) else Closing;
    assert Apply(c, e).executors == Move(c, e.i, p).executors;
  }

  lemma MovingExecutor(c: Cell, e: CellEvent)
    requires Enabled(c, e) && (e.Activate? || e.Conclude?)
    ensures exists p :: Apply(c, e).executors == Move(c, e.i, p).executors
  {
    assert Apply(c, e).executors == Move(c, e.i, if e.Activate? then Starting else Closing).executors;
  }

  lemma MovedFrom(c: Cell, e: CellEvent, i: nat)
    requires Enabled(c, e) && !e.CommitClaim? && !e.Vanish? && !e.Leave? && i < |Apply(c, e).executors|
    ensures Inherited(c.executors, Apply(c, e).executors[i])
  {
    if !ByExecutor(e) {
      UntouchedExecutors(c, e);
    } else if e.Activate? || e.Conclude? {
      MovingExecutor(c, e);
    } else {
      WritingExecutor(c, e);
    }
    assert c.executors[i].worker == Apply(c, e).executors[i].worker;
  }

  lemma RemainingFrom(c: Cell, w: WorkerId, i: nat)
    requires i < |Without(c.executors, w)|
    ensures Without(c.executors, w)[i].worker != w && Inherited(c.executors, Without(c.executors, w)[i])
  {
    WithoutKeeps(c.executors, w, i);
  }

  /** Executors only move, leave, or are added by a commit; only a crash kills a process, and it takes its
      executors and its lock along. */
  lemma ExecutorsFrom(c: Cell, e: CellEvent, i: nat)
    requires Enabled(c, e) && i < |Apply(c, e).executors|
    ensures var x := Apply(c, e).executors[i];
            || (e.CommitClaim? && x.worker == e.w)
            || (Inherited(c.executors, x) && !(e.Vanish? && x.worker == e.w))
  {
    match e
    case Vanish(w) => RemainingFrom(c, w, i);
    case CommitClaim(_) => CommittedFrom(c, e, i);
    case Leave(k) =>
      var m := if i < k then i else i + 1;
      assert c.executors[m].worker == Apply(c, e).executors[i].worker;
    case _ => MovedFrom(c, e, i);
  }

  lemma CommittedFrom(c: Cell, e: CellEvent, i: nat)
    requires Enabled(c, e) && e.CommitClaim? && i < |Apply(c, e).executors|
    ensures Apply(c, e).executors[i].worker == e.w || Inherited(c.executors, Apply(c, e).executors[i])
  {
    if i < |c.executors| { assert c.executors[i] == Apply(c, e).executors[i]; }
  }

  lemma LockFrom(c: Cell, e: CellEvent)
    requires Enabled(c, e) && Apply(c, e).lock.Some?
    ensures e == SelectForClaim(Apply(c, e).lock.value) || (Apply(c, e).lock == c.lock && e != Vanish(c.lock.value))
  {
  }

  lemma OwnerFrom(c: Cell, e: CellEvent)
    requires Enabled(c, e) && Apply(c, e).owner.Some?
    ensures Apply(c, e).owner == c.owner || e == CommitClaim(Apply(c, e).owner.value)
  {
  }

  lemma OnlyCrashKills(s: State, ev: Event, w: WorkerId)
    requires w in s.procs && s.procs[w].alive && ev != Crash(w)
    ensures NextProc(s, ev, w).alive
  {
  }

  lemma StillAlive(s: State, ev: Event, w: WorkerId)
    requires Allowed(s, ev) && IsAlive(s, w) && ev != Crash(w)
    ensures IsAlive(Next(s, ev), w)
  {
    hide NextProc, NextCells, Allowed;
    OnlyCrashKills(s, ev, w);
  }

  lemma CellStaysAttended(s: State, ev: Event, j: JobId)
    requires Allowed(s, ev) && j in s.cells && CellAttended(s, s.cells[j])
    ensures CellAttended(Next(s, ev), Apply(s.cells[j], Local(s, ev, j)))
  {
    var c, e := s.cells[j], Local(s, ev, j);
    var d := Apply(c, e);
    forall i | 0 <= i < |d.executors| ensures IsAlive(Next(s, ev), d.executors[i].worker) {
      ExecutorsFrom(c, e, i);
      StillAlive(s, ev, d.executors[i].worker);
    }
    if d.lock.Some? {
      LockFrom(c, e);
      StillAlive(s, ev, d.lock.value);
    }
    if d.owner.Some? { OwnerFrom(c, e); }
  }

  lemma StepAttended(s: State, ev: Event)
    requires Attended(s) && Allowed(s, ev)
    ensures Attended(Next(s, ev))
  {
    forall j | j in s.cells ensures CellAttended(Next(s, ev), Apply(s.cells[j], Local(s, ev, j))) {
      CellStaysAttended(s, ev, j);
    }
  }

  lemma {:induction false} RunAttended(evs: seq<Event>)
    requires After(evs).Some?
    ensures Attended(After(evs).value)
  {
    if evs != [] {
      var n := |evs| - 1;
      RunAttended(evs[..n]);
      StepAttended(After(evs[..n]).value, evs[n]);
    }
  }

  lemma ReachableAttended(s: State)
    requires Reachable(s)
    ensures Attended(s)
  {
    var evs :| After(evs) == Some(s);
    RunAttended(evs);
  }

  /** An event of one row that its executor or a request may cause now. */
  predicate CanHappen(s: State, j: JobId, e: CellEvent) {
    && j in s.cells && SingleRow(e) && Enabled(s.cells[j], e)
    && (ByExecutor(e) ==> e.i < |s.cells[j].executors| && IsAlive(s, s.cells[j].executors[e.i].worker))
  }

  lemma RowStep(s: State, j: JobId, e: CellEvent)
    requires CanHappen(s, j, e)
    ensures Allowed(s, OnJob(j, e))
    ensures Next(s, OnJob(j, e)).cells == s.cells[j := Apply(s.cells[j], e)]
    ensures forall w :: IsAlive(s, w) ==> IsAlive(Next(s, OnJob(j, e)), w)
    ensures From(s, [OnJob(j, e)]) == Some(Next(s, OnJob(j, e)))
  {
    var ev := OnJob(j, e);
    assert Allowed(s, ev);
    assert [ev][1..] == [];
  }

  // ---------------------------------------------------------------- ways for a job to leave its status

  predicate Has(s: State, j: JobId, st: JobStatus) {
    j in s.cells && s.cells[j].status == st
  }

  predicate Asks(ev: Event, j: JobId) {
    ev.OnJob? && ev.j == j && ev.e.CancelRead?
  }

  /** These events happen, none is a new cancel request for the job, and then its status is another. */
  ghost predicate Leads(s: State, j: JobId, evs: seq<Event>)
    requires j in s.cells
  {
    && From(s, evs).Some? && (forall ev :: ev in evs ==> !Asks(ev, j))
    && !Has(From(s, evs).value, j, s.cells[j].status)
  }

  /** Nobody is left who may write the row: no executor but closing ones, no promoter, no cancel, retry or
      dead-letter write past its check. */
  predicate NoWriter(c: Cell) {
    && (forall i :: 0 <= i < |c.executors| ==> c.executors[i].phase.Closing?)
    && !c.promoting && c.cancels == 0 && c.retries == 0 && c.burying == 0
  }

  /** No shutdown has the job in hand, and none can still come to read it from activeJobs. */
  predicate NoShutdownWrites(s: State, j: JobId) {
    forall w :: w in s.procs && s.procs[w].alive ==>
      j !in s.procs[w].releasing && (!s.procs[w].Decided() ==> j !in s.procs[w].active)
  }

  predicate MayLeave(c: Cell) {
    c.lock.None? && c.status in {Completed, Claimed, Running}
  }

  lemma FailsFrom(c: Cell, i: nat)
    requires MayLeave(c) && i < |c.executors| && c.executors[i].phase.Failing?
    ensures Enabled(c, FailWrite(i, 0)) && Apply(c, FailWrite(i, 0)).status in {Queued, Failed}
  {
  }

  lemma ReadsFailure(c: Cell, i: nat)
    requires MayLeave(c) && InPhase(c, i, {Starting, Working, Reported})
    ensures Enabled(c, FailRead(i))
    ensures var d := Apply(c, FailRead(i));
            && MayLeave(d) && i < |d.executors| && d.executors[i].phase.Failing?
            && d.executors[i].worker == c.executors[i].worker && d.status == c.status
  {
  }

  lemma Activates(c: Cell, i: nat)
    requires MayLeave(c) && InPhase(c, i, {Batched})
    ensures Enabled(c, Activate(i))
    ensures var d := Apply(c, Activate(i));
            && MayLeave(d) && InPhase(d, i, {Starting}) && d.executors[i].worker == c.executors[i].worker
            && d.status == c.status
  {
  }

  lemma LeadsNow(s: State, j: JobId, e: CellEvent) returns (evs: seq<Event>)
    requires CanHappen(s, j, e) && !e.CancelRead? && Apply(s.cells[j], e).status != s.cells[j].status
    ensures Leads(s, j, evs)
  {
    RowStep(s, j, e);
    evs := [OnJob(j, e)];
  }

  lemma LeadsLater(s: State, j: JobId, e: CellEvent, rest: seq<Event>) returns (evs: seq<Event>)
    requires CanHappen(s, j, e) && !e.CancelRead? && Apply(s.cells[j], e).status == s.cells[j].status
    requires j in Next(s, OnJob(j, e)).cells && Leads(Next(s, OnJob(j, e)), j, rest)
    ensures Leads(s, j, evs)
  {
    RowStep(s, j, e);
    evs := [OnJob(j, e)] + rest;
    assert evs[1..] == rest;
  }

  lemma FailingLeads(s: State, j: JobId, i: nat) returns (evs: seq<Event>)
    requires j in s.cells && MayLeave(s.cells[j]) && i < |s.cells[j].executors|
    requires IsAlive(s, s.cells[j].executors[i].worker) && s.cells[j].executors[i].phase.Failing?
    ensures Leads(s, j, evs)
  {
    FailsFrom(s.cells[j], i);
    evs := LeadsNow(s, j, FailWrite(i, 0));
  }

  lemma RunningLeads(s: State, j: JobId, i: nat) returns (evs: seq<Event>)
    requires j in s.cells && MayLeave(s.cells[j]) && InPhase(s.cells[j], i, {Starting, Working, Reported})
    requires IsAlive(s, s.cells[j].executors[i].worker)
    ensures Leads(s, j, evs)
  {
    hide Apply, Enabled;
    ReadsFailure(s.cells[j], i);
    RowStep(s, j, FailRead(i));
    evs := FailingLeads(Next(s, OnJob(j, FailRead(i))), j, i);
    evs := LeadsLater(s, j, FailRead(i), evs);
  }

  /** A live executor can always end in its failure handler, and that takes the job out of its status. */
  lemma ExecutorLeads(s: State, j: JobId, i: nat) returns (evs: seq<Event>)
    requires j in s.cells && MayLeave(s.cells[j]) && i < |s.cells[j].executors|
    requires IsAlive(s, s.cells[j].executors[i].worker) && !s.cells[j].executors[i].phase.Closing?
    ensures Leads(s, j, evs)
  {
    hide Apply, Enabled;
    match s.cells[j].executors[i].phase
    case Failing(_) => evs := FailingLeads(s, j, i);
    case Batched =>
      Activates(s.cells[j], i);
      RowStep(s, j, Activate(i));
      evs := RunningLeads(Next(s, OnJob(j, Activate(i))), j, i);
      evs := LeadsLater(s, j, Activate(i), evs);
    case _ => evs := RunningLeads(s, j, i);
  }

  /** So can any write past its check. */
  lemma WriterLeads(s: State, j: JobId) returns (evs: seq<Event>)
    requires Attended(s) && j in s.cells && MayLeave(s.cells[j]) && !NoWriter(s.cells[j])
    ensures Leads(s, j, evs)
  {
    var c := s.cells[j];
    assert CellAttended(s, c);
    if i: nat :| i < |c.executors| && !c.executors[i].phase.Closing? {
      evs := ExecutorLeads(s, j, i);
    } else {
      var e := if c.promoting then PromoteWrite else if c.cancels > 0 then CancelWrite
               else if c.retries > 0 then RetryWrite(0) else BuryWrite;
      evs := LeadsNow(s, j, e);
    }
  }

  function Locked(s: State): set<JobId> {
    set j | j in s.cells && s.cells[j].lock.Some?
  }

  lemma RolledBack(s: State, w: WorkerId)
    requires IsAlive(s, w)
    ensures Allowed(s, ClaimRollback(w))
    ensures var t := Next(s, ClaimRollback(w));
            && t.procs == s.procs && t.cells.Keys == s.cells.Keys
            && forall k :: k in s.cells ==>
                 t.cells[k] == if s.cells[k].lock == Some(w) then s.cells[k].(lock := None) else s.cells[k]
  {
    assert Allowed(s, ClaimRollback(w));
    assert (map v | v in s.procs :: NextProc(s, ClaimRollback(w), v)) == s.procs;
  }

  lemma RollbackUnlocks(s: State, w: WorkerId, j: JobId)
    requires IsAlive(s, w) && j in s.cells && s.cells[j].lock == Some(w)
    ensures Allowed(s, ClaimRollback(w))
    ensures var t := Next(s, ClaimRollback(w));
            && t.procs == s.procs && Locked(t) < Locked(s)
            && forall k :: k in s.cells && s.cells[k].lock.None? ==> k in t.cells && t.cells[k] == s.cells[k]
  {
    RolledBack(s, w);
    var t := Next(s, ClaimRollback(w));
    assert j in Locked(s) && j !in Locked(t);
  }

  /** All open claims may be rolled back, which changes nothing but the locks. */
  lemma {:induction false} AllUnlocked(s: State, j: JobId) returns (evs: seq<Event>)
    requires Attended(s) && j in s.cells && s.cells[j].lock.None?
    ensures From(s, evs).Some? && forall ev :: ev in evs ==> !Asks(ev, j)
    ensures var t := From(s, evs).value;
            t.procs == s.procs && Locked(t) == {} && j in t.cells && t.cells[j] == s.cells[j] && Attended(t)
    decreases Locked(s)
  {
    if Locked(s) == {} {
      evs := [];
    } else {
      var k :| k in Locked(s);
      assert CellAttended(s, s.cells[k]);
      var ev := ClaimRollback(s.cells[k].lock.value);
      RollbackUnlocks(s, s.cells[k].lock.value, k);
      StepAttended(s, ev);
      var rest := AllUnlocked(Next(s, ev), j);
      evs := [ev] + rest;
      assert evs[1..] == rest;
    }
  }

  lemma WriteLeads(s: State, j: JobId, w: WorkerId)
    requires Locked(s) == {} && j in s.cells && MayLeave(s.cells[j])
    requires IsAlive(s, w) && j in s.procs[w].releasing
    ensures Leads(s, j, [ShutdownWrite(w, true, 0)])
  {
    var ev := ShutdownWrite(w, true, 0);
    forall k | k in s.cells ensures Enabled(s.cells[k], Local(s, ev, k)) { assert k !in Locked(s); }
    assert [ev][1..] == [];
  }

  predicate OfProcess(ev: Event, w: WorkerId) {
    && (ev.ShutdownBegin? || ev.ShutdownDrain? || ev == ShutdownRead(w, false) ||
        ev.ReapRead? || ev.BeatStart? || ev.BeatWrite?)
    && ev.w == w
  }

  /** One event on the processes alone. */
  lemma ProcStep(s: State, ev: Event, w: WorkerId)
    requires Guard(s, ev) && OfProcess(ev, w) && w in s.procs
    ensures Allowed(s, ev)
    ensures Next(s, ev).cells == s.cells && Next(s, ev).procs == s.procs[w := OwnStep(s.procs[w], ev)]
  {
    assert Allowed(s, ev);
    assert NextCells(s, ev) == s.cells;
  }

  /** An event on the processes alone, and then the rest. */
  lemma ThenLeads(s: State, j: JobId, ev: Event, w: WorkerId, rest: seq<Event>)
    requires j in s.cells && Guard(s, ev) && OfProcess(ev, w) && w in s.procs
    requires Allowed(s, ev) && j in Next(s, ev).cells && Leads(Next(s, ev), j, rest)
    ensures Leads(s, j, [ev] + rest)
  {
    ProcStep(s, ev, w);
    assert ([ev] + rest)[1..] == rest;
  }

  /** A shutdown that has not read activeJobs for the last time can still read and write. */
  lemma ReadLeads(s: State, j: JobId, w: WorkerId) returns (evs: seq<Event>)
    requires Locked(s) == {} && j in s.cells && MayLeave(s.cells[j])
    requires IsAlive(s, w) && s.procs[w].stage.Waiting? && j in s.procs[w].active
    ensures Leads(s, j, evs)
  {
    var ev := ShutdownRead(w, false);
    ProcStep(s, ev, w);
    WriteLeads(Next(s, ev), j, w);
    ThenLeads(s, j, ev, w, [ShutdownWrite(w, true, 0)]);
    evs := [ev] + [ShutdownWrite(w, true, 0)];
  }

  lemma DrainLeads(s: State, j: JobId, w: WorkerId) returns (evs: seq<Event>)
    requires Locked(s) == {} && j in s.cells && MayLeave(s.cells[j])
    requires IsAlive(s, w) && s.procs[w].stage.Stopping? && j in s.procs[w].active
    ensures Leads(s, j, evs)
  {
    var ev := ShutdownDrain(w, false);
    ProcStep(s, ev, w);
    assert Locked(Next(s, ev)) == Locked(s);
    evs := ReadLeads(Next(s, ev), j, w);
    ThenLeads(s, j, ev, w, evs);
    evs := [ev] + evs;
  }

  lemma ListedLeads(s: State, j: JobId, w: WorkerId) returns (evs: seq<Event>)
    requires Locked(s) == {} && j in s.cells && MayLeave(s.cells[j])
    requires IsAlive(s, w) && (j in s.procs[w].releasing || (!s.procs[w].Decided() && j in s.procs[w].active))
    ensures Leads(s, j, evs)
  {
    if j in s.procs[w].releasing {
      WriteLeads(s, j, w);
      return [ShutdownWrite(w, true, 0)];
    }
    match s.procs[w].stage
    case Serving =>
      var ev := ShutdownBegin(w);
      ProcStep(s, ev, w);
      assert Locked(Next(s, ev)) == Locked(s);
      evs := DrainLeads(Next(s, ev), j, w);
      ThenLeads(s, j, ev, w, evs);
      evs := [ev] + evs;
    case Stopping => evs := DrainLeads(s, j, w);
    case Waiting => evs := ReadLeads(s, j, w);
  }

  lemma UnlockedLeads(s: State, j: JobId, unlock: seq<Event>, rest: seq<Event>)
    requires j in s.cells && From(s, unlock).Some? && forall ev :: ev in unlock ==> !Asks(ev, j)
    requires j in From(s, unlock).value.cells && From(s, unlock).value.cells[j] == s.cells[j]
    requires Leads(From(s, unlock).value, j, rest)
    ensures Leads(s, j, unlock + rest)
  {
    FromJoin(s, unlock, rest);
  }

  /** A shutdown that has the job in hand, or can still come to have it, takes it out of its status. */
  lemma ShutdownLeads(s: State, j: JobId) returns (evs: seq<Event>)
    requires Attended(s) && j in s.cells && MayLeave(s.cells[j]) && !NoShutdownWrites(s, j)
    ensures Leads(s, j, evs)
  {
    var w :| w in s.procs && s.procs[w].alive &&
             (j in s.procs[w].releasing || (!s.procs[w].Decided() && j in s.procs[w].active));
    var unlock := AllUnlocked(s, j);
    var rest := ListedLeads(From(s, unlock).value, j, w);
    UnlockedLeads(s, j, unlock, rest);
    evs := unlock + rest;
  }

  // ---------------------------------------------------------------- what stays as it is

  /** Without a new executor in activeJobs no shutdown comes to have the job in hand. */
  lemma NoShutdownWritesStays(s: State, ev: Event, j: JobId)
    requires j in s.cells && Allowed(s, ev) && NoShutdownWrites(s, j) && !Local(s, ev, j).Activate?
    ensures NoShutdownWrites(Next(s, ev), j) && !Local(s, ev, j).Release?
  {
    var t := Next(s, ev);
    forall w | w in t.procs && t.procs[w].alive
      ensures j !in t.procs[w].releasing && (!t.procs[w].Decided() ==> j !in t.procs[w].active)
    {
      if w in s.procs { StaysOutOf(s, ev, w, j); }
    }
  }

  lemma StaysOutOf(s: State, ev: Event, w: WorkerId, j: JobId)
    requires j in s.cells && w in s.procs && Allowed(s, ev) && NoShutdownWrites(s, j) && !Local(s, ev, j).Activate?
    ensures var q := NextProc(s, ev, w);
            q.alive ==> j !in q.releasing && (!q.Decided() ==> j !in q.active)
  {
  }

  // ---------------------------------------------------------------- when Completed is final

  predicate IsCompleted(s: State, j: JobId) {
    Has(s, j, Completed)
  }

  /** The job is Completed now and in everything that may follow. */
  ghost predicate CompletedForGood(s: State, j: JobId) {
    forall evs: seq<Event> :: From(s, evs).Some? ==> IsCompleted(From(s, evs).value, j)
  }

  predicate Settled(s: State, j: JobId)
    requires j in s.cells
  {
    NoWriter(s.cells[j]) && NoShutdownWrites(s, j)
  }

  lemma SettledCellStays(c: Cell, e: CellEvent)
    requires c.status == Completed && c.lock.None? && NoWriter(c) && Enabled(c, e) && !e.Release?
    ensures Apply(c, e).status == Completed && Apply(c, e).lock.None? && NoWriter(Apply(c, e))
  {
    if e.Vanish? {
      forall i | 0 <= i < |Apply(c, e).executors| ensures Apply(c, e).executors[i].phase.Closing? {
        WithoutKeeps(c.executors, e.w, i);
      }
    }
  }

  lemma NobodyActivates(c: Cell, e: CellEvent)
    requires NoWriter(c) && Enabled(c, e)
    ensures !e.Activate?
  {
  }

  lemma SettledStays(s: State, ev: Event, j: JobId)
    requires IsCompleted(s, j) && s.cells[j].lock.None? && Settled(s, j) && Allowed(s, ev)
    ensures var t := Next(s, ev);
            IsCompleted(t, j) && t.cells[j].lock.None? && Settled(t, j)
  {
    NobodyActivates(s.cells[j], Local(s, ev, j));
    NoShutdownWritesStays(s, ev, j);
    SettledCellStays(s.cells[j], Local(s, ev, j));
  }

  lemma {:induction false} SettledLasts(s: State, evs: seq<Event>, j: JobId)
    requires IsCompleted(s, j) && s.cells[j].lock.None? && Settled(s, j) && From(s, evs).Some?
    ensures IsCompleted(From(s, evs).value, j)
    decreases |evs|
  {
    if evs != [] {
      SettledStays(s, evs[0], j);
      SettledLasts(Next(s, evs[0]), evs[1..], j);
    }
  }

  /** A Completed job stays Completed through every continuation if and only if nobody is left who may write
      its row, no shutdown has it in hand, and none can still come to read it from activeJobs. */
  lemma CompletedForGoodIff(s: State, j: JobId)
    requires Reachable(s) && IsCompleted(s, j)
    ensures CompletedForGood(s, j) <==> Settled(s, j)
  {
    ReachableGood(s);
    ReachableAttended(s);
    assert GoodCell(s.cells[j]);
    if Settled(s, j) {
      forall evs: seq<Event> | From(s, evs).Some? ensures IsCompleted(From(s, evs).value, j) {
        SettledLasts(s, evs, j);
      }
    } else {
      var evs;
      if !NoWriter(s.cells[j]) { evs := WriterLeads(s, j); } else { evs := ShutdownLeads(s, j); }
      assert From(s, evs).Some?;
    }
  }

  // ---------------------------------------------------------------- which event takes a job out of Completed

  /** While a job was never put back from outside, its Completed row has no executor but the one that
      reported, and no promoter. */
  predicate OnlyReporter(c: Cell) {
    c.returned == 0 && c.status == Completed ==>
      !c.promoting &&
      forall i :: 0 <= i < |c.executors| ==>
        c.executors[i].phase in {Reported, Closing} || c.executors[i].phase.Failing?
  }

  lemma {:induction false} OneLive(es: seq<Executor>, limit: int, i: nat, k: nat)
    requires i < |es| && k < |es| && i != k && Count(es, limit, false) <= 1 && Weight(es[i], limit, false) == 1
    ensures es[k].phase.Closing?
  {
    var n := |es| - 1;
    if i < n && k < n {
      OneLive(es[..n], limit, i, k);
    } else if i < n {
      CountAt(es[..n], i, limit, false);
    } else if k < n {
      CountAt(es[..n], k, limit, false);
    }
  }

  lemma ReportIsOnly(c: Cell, i: nat)
    requires Bounded(c) && Enabled(c, Report(i)) && c.returned == 0
    ensures OnlyReporter(Apply(c, Report(i)))
  {
    CountAt(c.executors, i, c.limit, false);
    var d := Apply(c, Report(i));
    forall k | 0 <= k < |d.executors| && k != i ensures d.executors[k].phase.Closing? {
      OneLive(c.executors, c.limit, i, k);
    }
  }

  lemma OnlyReporterKept(c: Cell, e: CellEvent)
    requires Bounded(c) && OnlyReporter(c) && Enabled(c, e)
    ensures OnlyReporter(Apply(c, e))
  {
    var d := Apply(c, e);
    if d.returned == 0 && d.status == Completed {
      if e.Report? {
        ReportIsOnly(c, e.i);
      } else {
        OnlyReporterStays(c, e);
      }
    }
  }

  lemma OnlyReporterStays(c: Cell, e: CellEvent)
    requires Bounded(c) && OnlyReporter(c) && Enabled(c, e) && !e.Report?
    requires Apply(c, e).returned == 0 && Apply(c, e).status == Completed
    ensures OnlyReporter(Apply(c, e))
  {
    if e.Vanish? {
      forall i | 0 <= i < |Apply(c, e).executors| ensures Apply(c, e).executors[i] in c.executors {
        WithoutKeeps(c.executors, e.w, i);
      }
    }
  }

  lemma {:induction false} RunOnlyReporter(evs: seq<Event>)
    requires After(evs).Some?
    ensures forall j :: j in After(evs).value.cells ==> OnlyReporter(After(evs).value.cells[j])
  {
    if evs != [] {
      var n := |evs| - 1;
      var s := After(evs[..n]).value;
      RunOnlyReporter(evs[..n]);
      RunGood(evs[..n]);
      forall j | j in s.cells ensures OnlyReporter(Apply(s.cells[j], Local(s, evs[n], j))) {
        assert GoodCell(s.cells[j]);
        OnlyReporterKept(s.cells[j], Local(s, evs[n], j));
      }
    }
  }

  lemma LeavingEvents(c: Cell, e: CellEvent)
    requires c.status == Completed && LockedIsQueued(c) && OnlyReporter(c) && Enabled(c, e)
    requires c.returned == 0 && c.cancels == 0 && c.retries == 0 && c.burying == 0
    ensures Apply(c, e).status != Completed <==> e.FailWrite? || e.Release?
  {
  }

  lemma ReachableOnlyReporter(s: State, j: JobId)
    requires Reachable(s) && j in s.cells
    ensures OnlyReporter(s.cells[j]) && LockedIsQueued(s.cells[j])
  {
    var evs :| After(evs) == Some(s);
    RunOnlyReporter(evs);
    RunGood(evs);
    assert GoodCell(s.cells[j]);
  }

  /** For a job that was never reaped, released or retried, and with no cancel or dead-letter write past its
      check, exactly two events take it out of Completed: its own executor's failure handler, entered after
      the completion, and the write of a shutdown that read it from activeJobs, however long ago. */
  lemma CompletedLeftIff(s: State, ev: Event, j: JobId)
    requires Reachable(s) && IsCompleted(s, j) && Allowed(s, ev)
    requires var c := s.cells[j]; c.returned == 0 && c.cancels == 0 && c.retries == 0 && c.burying == 0
    ensures !IsCompleted(Next(s, ev), j) <==>
              (ev.OnJob? && ev.j == j && ev.e.FailWrite?) ||
              (ev.ShutdownWrite? && ev.ok && ev.w in s.procs && j in s.procs[ev.w].releasing)
  {
    hide Reachable, Apply, Enabled, OnlyReporter;
    ReachableOnlyReporter(s, j);
    LeavingEvents(s.cells[j], Local(s, ev, j));
    LocalLeaves(s, ev, j);
  }

  lemma LocalLeaves(s: State, ev: Event, j: JobId)
    requires j in s.cells && Allowed(s, ev)
    ensures Local(s, ev, j).FailWrite? <==> ev.OnJob? && ev.j == j && ev.e.FailWrite?
    ensures Local(s, ev, j).Release? <==> ev.ShutdownWrite? && ev.ok && ev.w in s.procs && j in s.procs[ev.w].releasing
  {
  }

  // ---------------------------------------------------------------- when a manual retry leaves a job behind

  predicate IsFailedUnspent(s: State, j: JobId) {
    j in s.cells && s.cells[j].status == Failed && s.cells[j].attempts < s.cells[j].limit
  }

  predicate Retries(ev: Event, j: JobId) {
    ev.OnJob? && ev.j == j && ev.e.RetryWrite?
  }

  lemma {:induction false} SpentLasts(s: State, evs: seq<Event>, j: JobId)
    requires j in s.cells && SpentNow(s.cells[j]) && From(s, evs).Some?
    requires forall ev :: ev in evs ==> !Retries(ev, j)
    ensures !IsFailedUnspent(From(s, evs).value, j)
    decreases |evs|
  {
    if evs != [] {
      assert evs[0] in evs;
      StepStaysSpent(s.cells[j], Local(s, evs[0], j));
      SpentLasts(Next(s, evs[0]), evs[1..], j);
    }
  }

  /** The job may end up Failed below its limit without another manual retry. */
  ghost predicate CanFailUnspent(s: State, j: JobId) {
    exists evs: seq<Event> ::
      From(s, evs).Some? && (forall ev :: ev in evs ==> !Retries(ev, j)) && IsFailedUnspent(From(s, evs).value, j)
  }

  /** The write of a handler that gave up before the retry, whatever the limit. */
  lemma GiverWrites(c: Cell, i: nat, at: int)
    requires Enabled(c, RetryWrite(at)) && i < |c.executors|
    requires c.executors[i].phase.Failing? && c.executors[i].phase.used >= c.limit
    ensures var d := Apply(c, RetryWrite(at));
            && d.executors == c.executors && Enabled(d, FailWrite(i, 0))
            && Apply(d, FailWrite(i, 0)).status == Failed
            && (Apply(d, FailWrite(i, 0)).attempts < Apply(d, FailWrite(i, 0)).limit <==> c.limit > 0)
  {
  }

  lemma RetriedThenFailed(s: State, j: JobId, at: int, i: nat)
    requires CanHappen(s, j, RetryWrite(at)) && s.cells[j].limit > 0
    requires i < |s.cells[j].executors| && IsAlive(s, s.cells[j].executors[i].worker)
    requires s.cells[j].executors[i].phase.Failing? && s.cells[j].executors[i].phase.used >= s.cells[j].limit
    ensures var t, evs := Next(s, OnJob(j, RetryWrite(at))), [OnJob(j, FailWrite(i, 0))];
            From(t, evs).Some? && IsFailedUnspent(From(t, evs).value, j)
  {
    GiverWrites(s.cells[j], i, at);
    RowStep(s, j, RetryWrite(at));
    RowStep(Next(s, OnJob(j, RetryWrite(at))), j, FailWrite(i, 0));
  }

  lemma GiverFailsUnspent(s: State, j: JobId, at: int)
    requires Reachable(s) && CanHappen(s, j, RetryWrite(at)) && GivingUp(s.cells[j]) && s.cells[j].limit > 0
    ensures CanFailUnspent(Next(s, OnJob(j, RetryWrite(at))), j)
  {
    ReachableAttended(s);
    var c := s.cells[j];
    assert CellAttended(s, c);
    var i: nat :| i < |c.executors| && c.executors[i].phase.Failing? && c.executors[i].phase.used >= c.limit;
    RetriedThenFailed(s, j, at, i);
  }

  /** A manual retry can leave the job Failed with attempts to spare, where the dead-letter pass never takes
      it, if and only if at the moment it lands a failure handler has already decided to give up, and the
      limit is positive. */
  lemma RetryLeavesUnspentIff(s: State, j: JobId, at: int)
    requires Reachable(s) && CanHappen(s, j, RetryWrite(at))
    ensures CanFailUnspent(Next(s, OnJob(j, RetryWrite(at))), j) <==> GivingUp(s.cells[j]) && s.cells[j].limit > 0
  {
    var t := Next(s, OnJob(j, RetryWrite(at)));
    if GivingUp(s.cells[j]) && s.cells[j].limit > 0 {
      GiverFailsUnspent(s, j, at);
    } else {
      RowStep(s, j, RetryWrite(at));
      RetrySpentIff(s.cells[j], at);
      forall evs: seq<Event> | From(t, evs).Some? && forall ev :: ev in evs ==> !Retries(ev, j)
        ensures !IsFailedUnspent(From(t, evs).value, j)
      {
        SpentLasts(t, evs, j);
      }
    }
  }
}
