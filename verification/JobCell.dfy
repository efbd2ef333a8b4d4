/** One job row, the executors working on it in any number of processes, and every way it can change.

    Database statements are atomic and wait for the row lock of an open claim.  Handlers that read a row
    and write it later are two events, so anything may happen in between.  The counters at the end of a
    cell record its history and steer nothing. */
module JobCell {
  import opened Common

  type WorkerId = string

  type QueueId = string

  datatype Phase =
    | Batched              // handed out by a claim, not yet in activeJobs
    | Starting             // in activeJobs, the row not yet marked Running
    | Working              // marked Running, the handler at work
    | Reported             // marked Completed; the workflow lookup may still throw
    | Failing(used: nat)   // the failure handler has read attemptCount
    | Closing              // nothing left to write to the row; still in activeJobs

  /** snapshot is the attempt count the claim returned. */
  datatype Executor = Executor(worker: WorkerId, phase: Phase, snapshot: nat)

  datatype Cell = Cell(
    status: JobStatus,
    attempts: nat,
    limit: int,                    // resolved maxAttempts
    recurring: bool,
    queue: QueueId,
    priority: int,
    runAt: int,                    // milliseconds
    owner: Option<WorkerId>,       // claimedByWorkerId
    lock: Option<WorkerId>,        // whose open claim holds the row
    executors: seq<Executor>,
    promoting: bool,               // the recurring promoter has read the row and not yet written it
    cancels: nat,                  // cancel requests past their status check
    retries: nat,                  // retry requests past their status check
    burying: nat,                  // dead-letter passes that have read the row and will write it
    returned: nat,                 // reaper resets, shutdown releases and manual retries
    entered: nat,                  // times the status became Queued
    claims: nat,                   // claims committed
    records: seq<nat>,             // attempt numbers of the executions since the last manual retry
    overlapped: bool)              // a manual retry landed while a failure handler had decided to give up

  datatype CellEvent =
    | Stutter
    | SelectForClaim(w: WorkerId)
    | CommitClaim(w: WorkerId)
    | RollbackClaim(w: WorkerId)
    | Activate(i: nat)
    | Start(i: nat)
    | Report(i: nat)
    | Conclude(i: nat)
    | FailRead(i: nat)
    | FailWrite(i: nat, at: int)
    | Leave(i: nat)
    | Vanish(w: WorkerId)          // the process is gone
    | Reap(w: WorkerId, at: int)
    | Release(w: WorkerId, at: int)   // a shutdown puts the job back
    | PromoteDue
    | PromoteRead
    | PromoteWrite
    | PromoteSkip
    | CancelRead
    | CancelWrite
    | RetryRead
    | RetryWrite(at: int)
    | BuryRead
    | BuryWrite

  /** The job's own limit, else its retry policy's, else 3. */
  function ResolveLimit(own: Option<int>, policy: Option<int>): (r: int)
    ensures own.Some? ==> r == own.value
    ensures own.None? && policy.Some? ==> r == policy.value
    ensures own.None? && policy.None? ==> r == 3
  {
    own.GetOr(policy.GetOr(3))
  }

  predicate InPhase(c: Cell, i: nat, phases: set<Phase>) {
    i < |c.executors| && c.executors[i].phase in phases
  }

  predicate Enabled(c: Cell, e: CellEvent) {
    match e
    case Stutter => true
    case SelectForClaim(w) => c.status == Queued && c.lock.None?
    case CommitClaim(w) => c.lock == Some(w)
    case RollbackClaim(w) => c.lock == Some(w)
    case Activate(i) => InPhase(c, i, {Batched})
    case Start(i) => InPhase(c, i, {Starting}) && c.lock.None?
    case Report(i) => InPhase(c, i, {Working}) && c.lock.None?
    case Conclude(i) => InPhase(c, i, {Reported})
    case FailRead(i) => InPhase(c, i, {Starting, Working, Reported})
    case FailWrite(i, _) => i < |c.executors| && c.executors[i].phase.Failing? && c.lock.None?
    case Leave(i) => InPhase(c, i, {Closing})
    case Vanish(w) => true
    case Reap(w, _) => c.status in {Claimed, Running} && c.owner == Some(w) && c.lock.None?
    case Release(_, _) => c.lock.None?
    case PromoteDue => c.status == Scheduled && !c.recurring
    case PromoteRead => c.status == Scheduled && c.recurring
    case PromoteWrite => c.promoting && c.lock.None?
    case PromoteSkip => c.promoting
    case CancelRead => c.status in {Queued, Scheduled, Claimed}
    case CancelWrite => c.cancels > 0 && c.lock.None?
    case RetryRead => c.status in {Failed, Cancelled, DeadLetter}
    case RetryWrite(_) => c.retries > 0 && c.lock.None?
    case BuryRead => c.status == Failed && c.attempts >= c.limit
    case BuryWrite => c.burying > 0 && c.lock.None?
  }

  function Move(c: Cell, i: nat, p: Phase): Cell
    requires i < |c.executors|
  {
    c.(executors := c.executors[i := c.executors[i].(phase := p)])
  }

  /** Any write of status Queued. */
  function Enqueue(c: Cell): Cell {
    c.(status := Queued, entered := c.entered + if c.status == Queued then 0 else 1)
  }

  function Without(es: seq<Executor>, w: WorkerId): (r: seq<Executor>)
    ensures forall e :: e in r <==> e in es && e.worker != w
    ensures |r| <= |es|
  {
    if es == [] then []
    else
      assert es == es[..|es| - 1] + [es[|es| - 1]];
      Without(es[..|es| - 1], w) + if es[|es| - 1].worker != w then [es[|es| - 1]] else []
  }

  predicate GivingUp(c: Cell) {
    exists i :: 0 <= i < |c.executors| && c.executors[i].phase.Failing? && c.executors[i].phase.used >= c.limit
  }

  function Apply(c: Cell, e: CellEvent): Cell
    requires Enabled(c, e)
  {
    match e
    case Stutter => c
    case SelectForClaim(w) => c.(lock := Some(w))
    case CommitClaim(w) =>
      c.(status := Claimed, owner := Some(w), lock := None, claims := c.claims + 1,
         executors := c.executors + [Executor(w, Batched, c.attempts)])
    case RollbackClaim(w) => c.(lock := None)
    case Activate(i) => Move(c, i, Starting)
    case Start(i) =>
      Move(c, i, Working).(status := Running, attempts := c.attempts + 1,
                           records := c.records + [c.executors[i].snapshot + 1])
    case Report(i) => Move(c, i, Reported).(status := Completed)
    case Conclude(i) => Move(c, i, Closing)
    case FailRead(i) => Move(c, i, Failing(c.attempts))
    case FailWrite(i, at) =>
      if c.executors[i].phase.used < c.limit then Enqueue(Move(c, i, Closing)).(owner := None, runAt := at)
      else Move(c, i, Closing).(status := Failed, owner := None)
    case Leave(i) => c.(executors := c.executors[..i] + c.executors[i + 1..])
    case Vanish(w) =>
      c.(executors := Without(c.executors, w), lock := if c.lock == Some(w) then None else c.lock)
    case Reap(w, at) => Enqueue(c).(owner := None, runAt := at, returned := c.returned + 1)
    case Release(w, at) => Enqueue(c).(owner := None, runAt := at, returned := c.returned + 1)
    case PromoteDue => Enqueue(c)
    case PromoteRead => c.(promoting := true)
    case PromoteWrite => Enqueue(c).(promoting := false)
    case PromoteSkip => c.(promoting := false)
    case CancelRead => c.(cancels := c.cancels + 1)
    case CancelWrite => c.(status := Cancelled, cancels := c.cancels - 1)
    case RetryRead => c.(retries := c.retries + 1)
    case RetryWrite(at) =>
      Enqueue(c).(attempts := 0, owner := None, runAt := at, retries := c.retries - 1, returned := c.returned + 1,
                  records := [], overlapped := c.overlapped || GivingUp(c))
    case BuryRead => c.(burying := c.burying + 1)
    case BuryWrite => c.(status := DeadLetter, burying := c.burying - 1)
  }

  /** A row as createJob and the other creators insert it. */
  predicate Fresh(c: Cell) {
    && (c.status == Queued || c.status == Scheduled)
    && c.attempts == 0 && c.owner.None? && c.lock.None? && c.executors == []
    && !c.promoting && c.cancels == 0 && c.retries == 0 && c.burying == 0
    && c.returned == 0 && c.entered == (if c.status == Queued then 1 else 0) && c.claims == 0
    && c.records == [] && !c.overlapped
  }

  // ---------------------------------------------------------------- counting executors

  /** A live executor may still write the row. A spare one may still lead to another start. */
  function Weight(e: Executor, limit: int, spareOnly: bool): nat {
    match e.phase
    case Closing => 0
    case Batched => 1
    case Starting => 1
    case Failing(used) => if spareOnly && used >= limit then 0 else 1
    case _ => if spareOnly then 0 else 1
  }

  function Count(es: seq<Executor>, limit: int, spareOnly: bool): nat {
    if es == [] then 0 else Count(es[..|es| - 1], limit, spareOnly) + Weight(es[|es| - 1], limit, spareOnly)
  }

  function Live(c: Cell): nat { Count(c.executors, c.limit, false) }

  function Spare(c: Cell): nat { Count(c.executors, c.limit, true) }

  lemma {:induction false} CountJoin(a: seq<Executor>, b: seq<Executor>, limit: int, spareOnly: bool)
    ensures Count(a + b, limit, spareOnly) == Count(a, limit, spareOnly) + Count(b, limit, spareOnly)
  {
    if b == [] {
      assert a + b == a;
    } else {
      var n := |b| - 1;
      assert (a + b)[..|a + b| - 1] == a + b[..n];
      CountJoin(a, b[..n], limit, spareOnly);
    }
  }

  lemma CountAt(es: seq<Executor>, i: nat, limit: int, spareOnly: bool)
    requires i < |es|
    ensures Count(es, limit, spareOnly) ==
            Count(es[..i], limit, spareOnly) + Weight(es[i], limit, spareOnly) + Count(es[i + 1..], limit, spareOnly)
  {
    assert es == es[..i] + ([es[i]] + es[i + 1..]);
    CountJoin(es[..i], [es[i]] + es[i + 1..], limit, spareOnly);
    CountJoin([es[i]], es[i + 1..], limit, spareOnly);
    assert [es[i]][..0] == [];
  }

  lemma CountMove(es: seq<Executor>, i: nat, e: Executor, limit: int, spareOnly: bool)
    requires i < |es|
    ensures Count(es[i := e], limit, spareOnly) ==
            Count(es, limit, spareOnly) - Weight(es[i], limit, spareOnly) + Weight(e, limit, spareOnly)
  {
    var more := es[i := e];
    CountAt(es, i, limit, spareOnly);
    CountAt(more, i, limit, spareOnly);
    assert more[..i] == es[..i] && more[i + 1..] == es[i + 1..];
  }

  lemma CountLeave(es: seq<Executor>, i: nat, limit: int, spareOnly: bool)
    requires i < |es|
    ensures Count(es[..i] + es[i + 1..], limit, spareOnly) ==
            Count(es, limit, spareOnly) - Weight(es[i], limit, spareOnly)
  {
    CountAt(es, i, limit, spareOnly);
    CountJoin(es[..i], es[i + 1..], limit, spareOnly);
  }

  lemma {:induction false} CountWithout(es: seq<Executor>, w: WorkerId, limit: int, spareOnly: bool)
    ensures Count(Without(es, w), limit, spareOnly) <= Count(es, limit, spareOnly)
  {
    if es != [] {
      var n := |es| - 1;
      CountWithout(es[..n], w, limit, spareOnly);
      CountJoin(Without(es[..n], w), [es[n]], limit, spareOnly);
      assert [es[n]][..0] == [];
      assert Without(es[..n], w) + [] == Without(es[..n], w);
    }
  }

  lemma {:induction false} SpareAreLive(es: seq<Executor>, limit: int)
    ensures Count(es, limit, true) <= Count(es, limit, false)
  {
    if es != [] { SpareAreLive(es[..|es| - 1], limit); }
  }

  lemma NonSpareRemains(es: seq<Executor>, i: nat, limit: int)
    requires i < |es| && Weight(es[i], limit, true) == 0 && Weight(es[i], limit, false) == 1
    ensures Count(es, limit, true) < Count(es, limit, false)
  {
    CountAt(es, i, limit, true);
    CountAt(es, i, limit, false);
    SpareAreLive(es[..i], limit);
    SpareAreLive(es[i + 1..], limit);
  }

  function NotClosing(es: seq<Executor>): set<nat> {
    set i: nat | i < |es| && !es[i].phase.Closing?
  }

  lemma NotClosingNext(es: seq<Executor>)
    requires es != []
    ensures var n := |es| - 1;
            NotClosing(es) == if es[n].phase.Closing? then NotClosing(es[..n]) else NotClosing(es[..n]) + {n}
  {
    var n := |es| - 1;
    forall i: nat ensures i in NotClosing(es) <==> i in NotClosing(es[..n]) || (i == n && !es[n].phase.Closing?) {}
  }

  /** The live executors are those that are not closing. */
  lemma {:induction false} LiveMeans(es: seq<Executor>, limit: int)
    ensures Count(es, limit, false) == |NotClosing(es)|
  {
    if es == [] {
      assert NotClosing(es) == {};
    } else {
      var n := |es| - 1;
      LiveMeans(es[..n], limit);
      NotClosingNext(es);
      WeightLive(es[n], limit);
      assert n !in NotClosing(es[..n]);
    }
  }

  lemma WeightLive(e: Executor, limit: int)
    ensures Weight(e, limit, false) == if e.phase.Closing? then 0 else 1
  {
  }

  // ---------------------------------------------------------------- bounded attempts

  /** Tokens at rest: the row waits to be claimed, or a promoter that read it will make it wait. */
  function Waiting(c: Cell): nat {
    (if c.status == Queued || c.status == Scheduled then 1 else 0) +
    (if c.promoting && c.status != Scheduled then 1 else 0)
  }

  predicate LockedIsQueued(c: Cell) {
    c.lock.Some? ==> c.status == Queued
  }

  /** At most one token for a job, plus one for each time the job was put back from outside. */
  predicate TokenBound(c: Cell) {
    Live(c) + Waiting(c) <= 1 + c.returned
  }

  /** Attempts made plus attempts still to come. */
  predicate AttemptBound(c: Cell) {
    c.attempts + Spare(c) + Waiting(c) <= Max(1, c.limit) + c.returned
  }

  predicate Bounded(c: Cell) {
    LockedIsQueued(c) && (c.promoting ==> c.recurring) && TokenBound(c) && AttemptBound(c)
  }

  lemma FreshBounded(c: Cell)
    requires Fresh(c)
    ensures Bounded(c)
  {
  }

  lemma MoveCounts(c: Cell, i: nat, p: Phase)
    requires i < |c.executors|
    ensures var e := c.executors[i].(phase := p);
            && Live(Move(c, i, p)) == Live(c) - Weight(c.executors[i], c.limit, false) + Weight(e, c.limit, false)
            && Spare(Move(c, i, p)) == Spare(c) - Weight(c.executors[i], c.limit, true) + Weight(e, c.limit, true)
  {
    var e := c.executors[i].(phase := p);
    CountMove(c.executors, i, e, c.limit, false);
    CountMove(c.executors, i, e, c.limit, true);
  }

  lemma StartBounded(c: Cell, i: nat)
    requires Bounded(c) && Enabled(c, Start(i))
    ensures Bounded(Apply(c, Start(i)))
  {
    MoveCounts(c, i, Working);
  }

  lemma ReportBounded(c: Cell, i: nat)
    requires Bounded(c) && Enabled(c, Report(i))
    ensures Bounded(Apply(c, Report(i)))
  {
    MoveCounts(c, i, Reported);
  }

  lemma FailWriteBounded(c: Cell, i: nat, at: int)
    requires Bounded(c) && Enabled(c, FailWrite(i, at))
    ensures Bounded(Apply(c, FailWrite(i, at)))
  {
    MoveCounts(c, i, Closing);
  }

  lemma ExecutorMoveBounded(c: Cell, e: CellEvent)
    requires Bounded(c) && Enabled(c, e)
    requires e.Activate? || e.Conclude?
    ensures Bounded(Apply(c, e))
  {
    match e
    case Activate(i) => MoveCounts(c, i, Starting);
    case Conclude(i) => MoveCounts(c, i, Closing);
  }

  /** The failure handler's read: a running executor turns into a spare one only below the limit. */
  lemma FailReadBounded(c: Cell, i: nat)
    requires Bounded(c) && Enabled(c, FailRead(i))
    ensures Bounded(Apply(c, FailRead(i)))
  {
    MoveCounts(c, i, Failing(c.attempts));
    if !c.executors[i].phase.Starting? {
      NonSpareRemains(c.executors, i, c.limit);
    }
  }

  lemma CommitBounded(c: Cell, w: WorkerId)
    requires Bounded(c) && Enabled(c, CommitClaim(w))
    ensures Bounded(Apply(c, CommitClaim(w)))
  {
    var x := [Executor(w, Batched, c.attempts)];
    assert x[..0] == [];
    CountJoin(c.executors, x, c.limit, false);
    CountJoin(c.executors, x, c.limit, true);
  }

  lemma LockBounded(c: Cell, e: CellEvent)
    requires Bounded(c) && Enabled(c, e) && (e.SelectForClaim? || e.RollbackClaim?)
    ensures Bounded(Apply(c, e))
  {
  }

  /** Executors leaving, on their own or with their process. */
  lemma FewerExecutorsBounded(c: Cell, es: seq<Executor>)
    requires Bounded(c)
    requires forall spareOnly :: Count(es, c.limit, spareOnly) <= Count(c.executors, c.limit, spareOnly)
    ensures Bounded(c.(executors := es))
  {
    assert Live(c.(executors := es)) <= Live(c) && Spare(c.(executors := es)) <= Spare(c);
  }

  lemma ReturnBounded(c: Cell, at: int)
    requires Bounded(c) && c.lock.None?
    ensures Bounded(Enqueue(c).(owner := None, runAt := at, returned := c.returned + 1))
  {
  }

  lemma LeaveBounded(c: Cell, i: nat)
    requires Bounded(c) && Enabled(c, Leave(i))
    ensures Bounded(Apply(c, Leave(i)))
  {
    CountLeave(c.executors, i, c.limit, false);
    CountLeave(c.executors, i, c.limit, true);
    FewerExecutorsBounded(c, c.executors[..i] + c.executors[i + 1..]);
  }

  lemma WithoutBounded(c: Cell, w: WorkerId)
    requires Bounded(c)
    ensures Bounded(c.(executors := Without(c.executors, w)))
  {
    CountWithout(c.executors, w, c.limit, false);
    CountWithout(c.executors, w, c.limit, true);
    FewerExecutorsBounded(c, Without(c.executors, w));
  }

  lemma VanishBounded(c: Cell, w: WorkerId)
    requires Bounded(c)
    ensures Bounded(Apply(c, Vanish(w)))
  {
    WithoutBounded(c, w);
  }

  lemma ReleaseBounded(c: Cell, w: WorkerId, at: int)
    requires Bounded(c) && Enabled(c, Release(w, at))
    ensures Bounded(Apply(c, Release(w, at)))
  {
    ReturnBounded(c, at);
  }

  lemma SchedulerStepBounded(c: Cell, e: CellEvent)
    requires Bounded(c) && Enabled(c, e)
    requires e.Stutter? || e.Reap? || e.PromoteDue? || e.PromoteRead? || e.PromoteWrite? || e.PromoteSkip?
    ensures Bounded(Apply(c, e))
  {
  }

  lemma RequestStepBounded(c: Cell, e: CellEvent)
    requires Bounded(c) && Enabled(c, e)
    requires e.CancelRead? || e.CancelWrite? || e.RetryRead? || e.RetryWrite? || e.BuryRead? || e.BuryWrite?
    ensures Bounded(Apply(c, e))
  {
  }

  lemma StepBounded(c: Cell, e: CellEvent)
    requires Bounded(c) && Enabled(c, e)
    ensures Bounded(Apply(c, e))
  {
    match e
    case Activate(_) => ExecutorMoveBounded(c, e);
    case Conclude(_) => ExecutorMoveBounded(c, e);
    case Start(i) => StartBounded(c, i);
    case Report(i) => ReportBounded(c, i);
    case FailWrite(i, at) => FailWriteBounded(c, i, at);
    case FailRead(i) => FailReadBounded(c, i);
    case SelectForClaim(_) => LockBounded(c, e);
    case CommitClaim(w) => CommitBounded(c, w);
    case RollbackClaim(_) => LockBounded(c, e);
    case Leave(i) => LeaveBounded(c, i);
    case Vanish(w) => VanishBounded(c, w);
    case Release(w, at) => ReleaseBounded(c, w, at);
    case _ =>
      if e.Stutter? || e.Reap? || e.PromoteDue? || e.PromoteRead? || e.PromoteWrite? || e.PromoteSkip? {
        SchedulerStepBounded(c, e);
      } else {
        RequestStepBounded(c, e);
      }
  }

  // ---------------------------------------------------------------- claims and dead letters

  /** Each claim uses up one entry into Queued. */
  predicate ClaimsCovered(c: Cell) {
    LockedIsQueued(c) && c.claims + (if c.status == Queued then 1 else 0) <= c.entered
  }

  lemma ExecutorKeepsCovered(c: Cell, e: CellEvent)
    requires ClaimsCovered(c) && Enabled(c, e)
    requires e.Activate? || e.Start? || e.Report? || e.Conclude? || e.FailRead? || e.FailWrite? || e.Leave?
    ensures ClaimsCovered(Apply(c, e))
  {
  }

  lemma OutsideKeepsCovered(c: Cell, e: CellEvent)
    requires ClaimsCovered(c) && Enabled(c, e)
    requires !(e.Activate? || e.Start? || e.Report? || e.Conclude? || e.FailRead? || e.FailWrite? || e.Leave?)
    ensures ClaimsCovered(Apply(c, e))
  {
  }

  lemma StepClaimsCovered(c: Cell, e: CellEvent)
    requires ClaimsCovered(c) && Enabled(c, e)
    ensures ClaimsCovered(Apply(c, e))
  {
    if e.Activate? || e.Start? || e.Report? || e.Conclude? || e.FailRead? || e.FailWrite? || e.Leave? {
      ExecutorKeepsCovered(c, e);
    } else {
      OutsideKeepsCovered(c, e);
    }
  }

  /** A Failed row has used up its attempts, and so has every row some executor is about to mark Failed. */
  predicate SpentNow(c: Cell) {
    c.status == Failed || GivingUp(c) ==> c.attempts >= c.limit
  }

  lemma WriterNotFailing(c: Cell, e: CellEvent, k: nat)
    requires Enabled(c, e) && (e.Start? || e.Report? || e.FailWrite?) && k < |Apply(c, e).executors|
    requires Apply(c, e).executors[k].phase.Failing?
    ensures Apply(c, e).executors[k] in c.executors
  {
    assert k != e.i && Apply(c, e).executors[k] == c.executors[k];
  }

  lemma MoverNotFailing(c: Cell, e: CellEvent, k: nat)
    requires Enabled(c, e) && (e.Activate? || e.Conclude?) && k < |Apply(c, e).executors|
    requires Apply(c, e).executors[k].phase.Failing?
    ensures Apply(c, e).executors[k] in c.executors
  {
    assert k != e.i && Apply(c, e).executors[k] == c.executors[k];
  }

  lemma OthersNotFailing(c: Cell, e: CellEvent, k: nat)
    requires Enabled(c, e) && k < |Apply(c, e).executors| && Apply(c, e).executors[k].phase.Failing?
    requires e.CommitClaim? || e.Leave? || e.Vanish?
    ensures Apply(c, e).executors[k] in c.executors
  {
    if e.Vanish? { assert Apply(c, e).executors[k] in Apply(c, e).executors; }
  }

  lemma UntouchedExecutors(c: Cell, e: CellEvent)
    requires Enabled(c, e)
    requires e.Stutter? || e.SelectForClaim? || e.RollbackClaim? || e.Reap? || e.Release? || e.PromoteDue? ||
             e.PromoteRead? || e.PromoteWrite? || e.PromoteSkip? || e.CancelRead? || e.CancelWrite? ||
             e.RetryRead? || e.RetryWrite? || e.BuryRead? || e.BuryWrite?
    ensures Apply(c, e).executors == c.executors
  {
  }

  lemma SameLimit(c: Cell, e: CellEvent)
    requires Enabled(c, e)
    ensures Apply(c, e).limit == c.limit
  {
  }

  /** An executor that gives up after an event gave up before it, or the event is its read. */
  lemma GivingUpOrigin(c: Cell, e: CellEvent)
    requires Enabled(c, e) && GivingUp(Apply(c, e)) && !e.FailRead?
    ensures GivingUp(c)
  {
    hide Enabled, Apply;
    var d := Apply(c, e);
    var k: nat :| k < |d.executors| && d.executors[k].phase.Failing? && d.executors[k].phase.used >= d.limit;
    SameLimit(c, e);
    if e.Start? || e.Report? || e.FailWrite? {
      WriterNotFailing(c, e, k);
    } else if e.Activate? || e.Conclude? {
      MoverNotFailing(c, e, k);
    } else if e.CommitClaim? || e.Leave? || e.Vanish? {
      OthersNotFailing(c, e, k);
    } else {
      UntouchedExecutors(c, e);
    }
    assert d.executors[k] in c.executors;
  }

  lemma ReadStaysSpent(c: Cell, i: nat)
    requires SpentNow(c) && Enabled(c, FailRead(i))
    ensures SpentNow(Apply(c, FailRead(i)))
  {
    var d := Apply(c, FailRead(i));
    if GivingUp(d) {
      var k :| 0 <= k < |d.executors| && d.executors[k].phase.Failing? && d.executors[k].phase.used >= d.limit;
      if k != i { assert c.executors[k] == d.executors[k]; }
    }
  }

  lemma WriteStaysSpent(c: Cell, e: CellEvent)
    requires SpentNow(c) && Enabled(c, e) && (e.Start? || e.Report? || e.FailWrite?)
    ensures SpentNow(Apply(c, e))
  {
    if GivingUp(Apply(c, e)) { GivingUpOrigin(c, e); }
  }

  lemma OtherStaysSpent(c: Cell, e: CellEvent)
    requires SpentNow(c) && Enabled(c, e)
    requires !(e.Start? || e.Report? || e.FailWrite? || e.FailRead? || e.RetryWrite?)
    ensures SpentNow(Apply(c, e))
  {
    if GivingUp(Apply(c, e)) { GivingUpOrigin(c, e); }
  }

  /** Every event but a manual retry keeps it. */
  lemma StepStaysSpent(c: Cell, e: CellEvent)
    requires SpentNow(c) && Enabled(c, e) && !e.RetryWrite?
    ensures SpentNow(Apply(c, e))
  {
    if e.FailRead? {
      ReadStaysSpent(c, e.i);
    } else if e.Start? || e.Report? || e.FailWrite? {
      WriteStaysSpent(c, e);
    } else {
      OtherStaysSpent(c, e);
    }
  }

  /** A manual retry establishes it exactly when nobody was giving up, or there is no limit to fall below. */
  lemma RetrySpentIff(c: Cell, at: int)
    requires Enabled(c, RetryWrite(at))
    ensures GivingUp(Apply(c, RetryWrite(at))) <==> GivingUp(c)
    ensures SpentNow(Apply(c, RetryWrite(at))) <==> !GivingUp(c) || c.limit <= 0
  {
    var d := Apply(c, RetryWrite(at));
    assert d.executors == c.executors && d.limit == c.limit;
  }

  /** Unless a manual retry landed beside a failure handler that was giving up. */
  predicate FailedIsSpent(c: Cell) {
    c.overlapped || SpentNow(c)
  }

  lemma StepFailedIsSpent(c: Cell, e: CellEvent)
    requires FailedIsSpent(c) && Enabled(c, e)
    ensures FailedIsSpent(Apply(c, e))
  {
    if e.RetryWrite? {
      RetrySpentIff(c, e.at);
    } else if !c.overlapped {
      StepStaysSpent(c, e);
    } else {
      OverlapStays(c, e);
    }
  }

  lemma OverlapStays(c: Cell, e: CellEvent)
    requires c.overlapped && Enabled(c, e)
    ensures Apply(c, e).overlapped
  {
  }
}
