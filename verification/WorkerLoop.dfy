/** The concurrency semaphore of a worker and the single poll loop that acquires it. */
module WorkerLoop {
  import opened Common

  type Ticket = nat

  type JobId = string

  /** permits and waiters are the fields of the semaphore; the rest records what it has done:
      who called acquire, in order, who was let in, in order, and how often release was called. */
  datatype Sem = Sem(permits: int, waiters: seq<Ticket>, arrivals: seq<Ticket>, granted: seq<Ticket>, releases: nat)

  function NewSem(max: nat): Sem {
    Sem(max, [], [], [], 0)
  }

  function Acquired(s: Sem, t: Ticket): Sem {
    if s.permits > 0 then
      s.(permits := s.permits - 1, arrivals := s.arrivals + [t], granted := s.granted + [t])
    else
      s.(waiters := s.waiters + [t], arrivals := s.arrivals + [t])
  }

  function Released(s: Sem): Sem {
    if s.waiters == [] then s.(permits := s.permits + 1, releases := s.releases + 1)
    else s.(waiters := s.waiters[1..], granted := s.granted + [s.waiters[0]], releases := s.releases + 1)
  }

  function Held(s: Sem): int {
    |s.granted| - s.releases
  }

  class Semaphore {
    var permits: int
    var waiters: seq<Ticket>
    ghost var arrivals: seq<Ticket>
    ghost var granted: seq<Ticket>
    ghost var releases: nat

    ghost function Value(): Sem
      reads this
    {
      Sem(permits, waiters, arrivals, granted, releases)
    }

    constructor (max: nat)
      ensures Value() == NewSem(max)
    {
      permits, waiters := max, [];
      arrivals, granted, releases := [], [], 0;
    }

    method Acquire(t: Ticket)
      modifies this
      ensures Value() == Acquired(old(Value()), t)
    {
      arrivals := arrivals + [t];
      if permits > 0 {
        permits := permits - 1;
        granted := granted + [t];
        return;
      }
      waiters := waiters + [t];
    }

    method Release()
      modifies this
      ensures Value() == Released(old(Value()))
    {
      permits := permits + 1;
      releases := releases + 1;
      if waiters != [] {
        var next := waiters[0];
        waiters := waiters[1..];
        permits := permits - 1;
        granted := granted + [next];
      }
    }
  }

  datatype Op = Acquire(t: Ticket) | Release

  function RunOps(max: nat, ops: seq<Op>): Sem {
    if ops == [] then NewSem(max)
    else
      var before := RunOps(max, ops[..|ops| - 1]);
      match ops[|ops| - 1]
      case Acquire(t) => Acquired(before, t)
      case Release => Released(before)
  }

  /** Callers release only what they hold. */
  predicate Balanced(max: nat, ops: seq<Op>) {
    ops == [] ||
    (Balanced(max, ops[..|ops| - 1]) && (ops[|ops| - 1].Release? ==> Held(RunOps(max, ops[..|ops| - 1])) > 0))
  }

  /** After any balanced use: no permit is lost or made, someone waits only when no permit is free, and
      tickets are let in strictly in the order they arrived. */
  lemma {:induction false} SemaphoreTheorem(max: nat, ops: seq<Op>)
    requires Balanced(max, ops)
    ensures var s := RunOps(max, ops);
            && s.permits + Held(s) == max && 0 <= s.permits && 0 <= Held(s) <= max
            && (s.waiters != [] ==> s.permits == 0)
            && s.arrivals == s.granted + s.waiters
  {
    if ops != [] {
      var before := RunOps(max, ops[..|ops| - 1]);
      SemaphoreTheorem(max, ops[..|ops| - 1]);
      if ops[|ops| - 1].Release? && before.waiters != [] {
        assert before.waiters == [before.waiters[0]] + before.waiters[1..];
      }
    }
  }

  // ---------------------------------------------------------------- the poll loop

  /** Where the poll loop stands: between polls, in the claim query with the free slots it read, or
      handing out the claimed jobs. */
  datatype Loop = Idle | Claiming(free: nat) | Dispatching(rest: seq<JobId>)

  /** running: executors that called acquire and have not finished, with their job; active: activeJobs; handed: the
      jobs executeJob was called for so far, in order. */
  datatype Worker = Worker(sem: Sem, loop: Loop, running: map<Ticket, JobId>,
                           active: set<JobId>, issued: nat, stopping: bool, handed: seq<JobId>)

  datatype Event =
    | Poll
    | ClaimReturns(jobs: seq<JobId>)
    | Dispatch                  // executeJob up to the semaphore
    | Activate(t: Ticket)       // into activeJobs
    | Finish(t: Ticket)         // out of activeJobs, and the permit given back
    | Stop

  function NewWorker(max: nat): Worker {
    Worker(NewSem(max), Idle, map[], {}, 0, false, [])
  }

  predicate Possible(w: Worker, e: Event) {
    match e
    case Poll => w.loop.Idle? && !w.stopping
    // the query takes no more than the free slots
    case ClaimReturns(jobs) => w.loop.Claiming? && |jobs| <= w.loop.free
    case Dispatch => w.loop.Dispatching? && w.loop.rest != []
    case Activate(t) => t in w.running && t in w.sem.granted
    case Finish(t) => t in w.running && t in w.sem.granted
    case Stop => true
  }

  function Dispatched(jobs: seq<JobId>): Loop {
    if jobs == [] then Idle else Dispatching(jobs)
  }

  function Next(w: Worker, e: Event): Worker
    requires Possible(w, e)
  {
    match e
    case Poll => if w.sem.permits <= 0 then w else w.(loop := Claiming(w.sem.permits))
    case ClaimReturns(jobs) => w.(loop := Dispatched(jobs))
    case Dispatch =>
      w.(sem := Acquired(w.sem, w.issued), running := w.running[w.issued := w.loop.rest[0]],
         issued := w.issued + 1, handed := w.handed + [w.loop.rest[0]], loop := Dispatched(w.loop.rest[1..]))
    case Activate(t) => w.(active := w.active + {w.running[t]})
    case Finish(t) => w.(sem := Released(w.sem), running := w.running - {t}, active := w.active - {w.running[t]})
    case Stop => w.(stopping := true)
  }

  function After(max: nat, events: seq<Event>): Option<Worker> {
    if events == [] then Some(NewWorker(max))
    else
      var e := events[|events| - 1];
      match After(max, events[..|events| - 1])
      case None => None
      case Some(w) => if Possible(w, e) then Some(Next(w, e)) else None
  }

  /** Slots the loop still counts on. */
  function Pledged(w: Worker): nat {
    match w.loop
    case Idle => 0
    case Claiming(free) => free
    case Dispatching(rest) => |rest|
  }

  predicate Inv(w: Worker, max: nat) {
    && w.sem.waiters == [] && w.sem.permits + |w.running| == max
    && Pledged(w) <= w.sem.permits
    && (forall t :: t in w.running ==> t < w.issued && t in w.sem.granted)
    && w.active <= w.running.Values
  }

  lemma RemovedKey(m: map<Ticket, JobId>, t: Ticket)
    requires t in m
    ensures |m - {t}| == |m| - 1
    ensures m.Values - {m[t]} <= (m - {t}).Values
  {
    assert m == (m - {t})[t := m[t]];
    forall j | j in m.Values - {m[t]} ensures j in (m - {t}).Values {
      var k :| k in m && m[k] == j;
      assert k in m - {t} && (m - {t})[k] == j;
    }
  }

  lemma AddedKey(m: map<Ticket, JobId>, t: Ticket, j: JobId)
    requires t !in m
    ensures |m[t := j]| == |m| + 1 && m.Values <= m[t := j].Values
  {
    forall x | x in m.Values ensures x in m[t := j].Values {
      var k :| k in m && m[k] == x;
      assert m[t := j][k] == x;
    }
  }

  lemma StepInv(w: Worker, e: Event, max: nat)
    requires Inv(w, max) && Possible(w, e)
    ensures Inv(Next(w, e), max)
  {
    match e
    case Poll =>
    case ClaimReturns(jobs) =>
    case Dispatch => AddedKey(w.running, w.issued, w.loop.rest[0]);
    case Activate(t) => assert w.running[t] in w.running.Values;
    case Finish(t) => RemovedKey(w.running, t);
    case Stop =>
  }

  lemma {:induction false} RunInv(max: nat, events: seq<Event>)
    requires After(max, events).Some?
    ensures Inv(After(max, events).value, max)
  {
    if events != [] {
      RunInv(max, events[..|events| - 1]);
      StepInv(After(max, events[..|events| - 1]).value, events[|events| - 1], max);
    }
  }

  lemma {:induction false} ValuesFewer(m: map<Ticket, JobId>)
    ensures |m.Values| <= |m|
    decreases |m|
  {
    if m != map[] {
      var t :| t in m;
      RemovedKey(m, t);
      ValuesFewer(m - {t});
      assert m.Values <= (m - {t}).Values + {m[t]};
      SubsetSize(m.Values, (m - {t}).Values + {m[t]});
    }
  }

  /** Semaphore and poll loop together: because only the one loop acquires, and claims at most the permits
      it saw, no executor ever waits, whatever is released meanwhile; and
      activeJobs.size <= running executors <= maxConcurrency. */
  lemma NoExecutorWaits(max: nat, events: seq<Event>)
    requires After(max, events).Some?
    ensures var w := After(max, events).value;
            && w.sem.waiters == [] && w.sem.permits + |w.running| == max
            && |w.active| <= |w.running| <= max
            && (w.loop.Dispatching? ==> |w.loop.rest| <= w.sem.permits)
  {
    RunInv(max, events);
    var w := After(max, events).value;
    SubsetSize(w.active, w.running.Values);
    ValuesFewer(w.running);
  }

  // ---------------------------------------------------------------- activeJobs and the end of polling

  /** These events happen one after the other, and none of them finishes an executor of the job. */
  predicate NoneFinishes(w: Worker, events: seq<Event>, j: JobId)
    decreases |events|
  {
    events != [] ==>
      && Possible(w, events[0])
      && (events[0].Finish? ==> w.running[events[0].t] != j)
      && NoneFinishes(Next(w, events[0]), events[1..], j)
  }

  function From(w: Worker, events: seq<Event>): Worker
    decreases |events|
  {
    if events != [] && Possible(w, events[0]) then From(Next(w, events[0]), events[1..]) else w
  }

  lemma {:induction false} ListedUntilFinish(w: Worker, events: seq<Event>, j: JobId)
    requires j in w.active && NoneFinishes(w, events, j)
    ensures j in From(w, events).active
    decreases |events|
  {
    if events != [] { ListedUntilFinish(Next(w, events[0]), events[1..], j); }
  }

  /** activeJobs lists a job from the moment its executor is activated until the first executor of that job, this
      one or another, finishes, and no longer. */
  lemma ActiveJobs(w: Worker, t: Ticket, events: seq<Event>, u: Ticket)
    requires Possible(w, Activate(t)) && NoneFinishes(Next(w, Activate(t)), events, w.running[t])
    ensures var v := From(Next(w, Activate(t)), events);
            && w.running[t] in v.active
            && (Possible(v, Finish(u)) && v.running[u] == w.running[t] ==>
                  w.running[t] !in Next(v, Finish(u)).active)
  {
    ListedUntilFinish(Next(w, Activate(t)), events, w.running[t]);
  }

  /** The jobs the claims have returned, in order. */
  function ClaimedIn(events: seq<Event>): seq<JobId> {
    if events == [] then []
    else
      var n := |events| - 1;
      ClaimedIn(events[..n]) + if events[n].ClaimReturns? then events[n].jobs else []
  }

  function Undispatched(loop: Loop): seq<JobId> {
    if loop.Dispatching? then loop.rest else []
  }

  /** Every claimed job is handed to executeJob, once and in order: what was claimed is what was handed out and what
      the loop still has to hand out. */
  lemma {:induction false} HandsOutAll(max: nat, events: seq<Event>)
    requires After(max, events).Some?
    ensures var w := After(max, events).value;
            w.handed + (if w.loop.Dispatching? then w.loop.rest else []) == ClaimedIn(events)
  {
    if events != [] {
      var n := |events| - 1;
      var before := After(max, events[..n]).value;
      HandsOutAll(max, events[..n]);
      LoopKeepsJobs(before, events[n]);
    }
  }

  lemma LoopKeepsJobs(w: Worker, e: Event)
    requires Possible(w, e)
    ensures var v := Next(w, e);
            v.handed + Undispatched(v.loop) ==
              w.handed + Undispatched(w.loop) + if e.ClaimReturns? then e.jobs else []
  {
    if e.Dispatch? { assert w.loop.rest == [w.loop.rest[0]] + w.loop.rest[1..]; }
  }

  lemma {:induction false} StopsForGood(max: nat, events: seq<Event>, k: nat)
    requires After(max, events).Some? && k < |events| && events[k] == Stop
    ensures After(max, events).value.stopping
  {
    var n := |events| - 1;
    if k < n { StopsForGood(max, events[..n], k); }
  }

  /** After isShuttingDown is set the loop finishes what it has claimed and polls no more. */
  lemma NoPollAfterStop(max: nat, events: seq<Event>, k: nat, m: nat)
    requires After(max, events).Some? && k < m < |events| && events[k] == Stop
    ensures events[m] != Poll
    decreases |events|
  {
    var n := |events| - 1;
    if m < n {
      NoPollAfterStop(max, events[..n], k, m);
    } else {
      StopsForGood(max, events[..n], k);
    }
  }
}
