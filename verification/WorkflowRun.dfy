/** One workflow run as a protocol: jobs finish, each finish leaves a note, and orchestration calls work the
    notes off one at a time under the run's lock.  A call reads the jobs once and settles what it will start;
    then it starts the nodes one after the other, re-reads the jobs and closes the run if all are done.  Jobs
    may finish between any two of these steps. */
module WorkflowRun {
  import opened Common
  import opened Graph

  datatype Workflow = Workflow(nodes: seq<Key>, deps: seq<Edge>)

  datatype RunStatus = RunRunning | RunCompleted | RunFailed

  datatype Note = Note(node: Key, outcome: JobStatus)

  datatype Call = Idle | Working(note: Note, todo: set<Key>)

  datatype RunState = RunState(jobs: map<Key, JobStatus>, status: RunStatus, pending: multiset<Note>, call: Call)

  /** A run that is not reliable may lose a note (the lock was taken), skip a release (no queue was found), or have
      a call that throws.
      In a single run every node has at most one run-job; otherwise jobs gives the status of the first one,
      and the others finish on their own. */
  datatype Mode = Mode(reliable: bool, single: bool)

  /** What the schema enforces: unique node keys, and foreign keys from both ends of an edge. */
  ghost predicate WellFormed(w: Workflow) {
    && Distinct(w.nodes)
    && forall i :: 0 <= i < |w.deps| ==> w.deps[i].up in w.nodes && w.deps[i].down in w.nodes
  }

  predicate Finished(st: JobStatus) {
    st == Completed || st == Failed
  }

  predicate Terminal(st: JobStatus) {
    st == Completed || st == Failed || st == Cancelled || st == DeadLetter
  }

  predicate Matches(c: Condition, outcome: JobStatus) {
    c == Always || c == if outcome == Completed then OnSuccess else OnFailure
  }

  /** Some edge from u to v accepts this outcome of u. */
  predicate Covers(w: Workflow, u: Key, v: Key, outcome: JobStatus) {
    exists i :: 0 <= i < |w.deps| && w.deps[i].up == u && w.deps[i].down == v && Matches(w.deps[i].cond, outcome)
  }

  predicate IsRoot(w: Workflow, k: Key) {
    !exists i :: 0 <= i < |w.deps| && w.deps[i].down == k
  }

  predicate FanIn(w: Workflow, seen: map<Key, JobStatus>, v: Key) {
    forall i :: 0 <= i < |w.deps| && w.deps[i].down == v ==> w.deps[i].up in seen && Finished(seen[w.deps[i].up])
  }

  /** What a call for this note starts, judged on the snapshot it read. */
  function ReleaseSet(w: Workflow, seen: map<Key, JobStatus>, n: Note): set<Key> {
    set v | v in w.nodes && v !in seen && Covers(w, n.node, v, n.outcome) && FanIn(w, seen, v)
  }

  predicate AllTerminal(w: Workflow, jobs: map<Key, JobStatus>) {
    forall k :: k in w.nodes ==> k in jobs && Terminal(jobs[k])
  }

  function Verdict(jobs: map<Key, JobStatus>): RunStatus {
    if exists k :: k in jobs && (jobs[k] == Failed || jobs[k] == DeadLetter) then RunFailed else RunCompleted
  }

  // ---------------------------------------------------------------- steps

  function Init(w: Workflow): RunState {
    RunState(map k | k in w.nodes && IsRoot(w, k) :: Queued, RunRunning, multiset{}, Idle)
  }

  function Finish(s: RunState, n: Note): RunState {
    s.(jobs := s.jobs[n.node := n.outcome], pending := s.pending + multiset{n})
  }

  predicate CanFinish(s: RunState, n: Note) {
    n.node in s.jobs && !Terminal(s.jobs[n.node]) && Finished(n.outcome)
  }

  function Begin(w: Workflow, s: RunState, n: Note): RunState {
    s.(pending := s.pending - multiset{n}, call := Working(n, ReleaseSet(w, s.jobs, n)))
  }

  predicate CanBegin(s: RunState, n: Note) {
    n in s.pending && s.call.Idle?
  }

  predicate CanStart(s: RunState, v: Key) {
    s.call.Working? && v in s.call.todo
  }

  function Skip(s: RunState, v: Key): RunState
    requires CanStart(s, v)
  {
    s.(call := Working(s.call.note, s.call.todo - {v}))
  }

  function Start(s: RunState, v: Key): RunState
    requires CanStart(s, v)
  {
    Skip(s, v).(jobs := s.jobs[v := Queued])
  }

  predicate CanClose(w: Workflow, s: RunState, mark: RunStatus, m: Mode) {
    && s.call.Working? && s.call.todo == {}
    && mark != RunRunning && (m.single ==> mark == Verdict(s.jobs))
  }

  function Close(w: Workflow, s: RunState, mark: RunStatus): RunState {
    s.(status := if AllTerminal(w, s.jobs) then mark else s.status, call := Idle)
  }

  /** One more run-job of a node finishes. */
  predicate CanEcho(s: RunState, n: Note) {
    n.node in s.jobs && Finished(n.outcome)
  }

  function Echo(s: RunState, n: Note): RunState {
    s.(pending := s.pending + multiset{n})
  }

  function Lose(s: RunState, n: Note): RunState {
    s.(pending := s.pending - multiset{n})
  }

  /** The call throws half way. */
  function Abort(s: RunState): RunState {
    s.(call := Idle)
  }

  ghost predicate Step(w: Workflow, s: RunState, t: RunState, m: Mode) {
    || (exists n :: CanFinish(s, n) && t == Finish(s, n))
    || (exists n :: CanBegin(s, n) && t == Begin(w, s, n))
    || (exists v :: CanStart(s, v) && t == Start(s, v))
    || (exists mark :: CanClose(w, s, mark, m) && t == Close(w, s, mark))
    || (!m.reliable && exists v :: CanStart(s, v) && t == Skip(s, v))
    || (!m.reliable && exists n :: n in s.pending && t == Lose(s, n))
    || (!m.reliable && s.call.Working? && t == Abort(s))
    || (!m.single && exists n :: CanEcho(s, n) && t == Echo(s, n))
  }

  ghost predicate IsTrace(w: Workflow, tr: seq<RunState>, m: Mode) {
    && |tr| >= 1 && tr[0] == Init(w)
    && forall i :: 0 <= i < |tr| - 1 ==> StepAt(w, tr, i, m)
  }

  ghost predicate StepAt(w: Workflow, tr: seq<RunState>, i: nat, m: Mode)
    requires i + 1 < |tr|
  {
    Step(w, tr[i], tr[i + 1], m)
  }

  ghost predicate Reachable(w: Workflow, s: RunState, m: Mode) {
    exists tr :: IsTrace(w, tr, m) && tr[|tr| - 1] == s
  }

  lemma ReachInit(w: Workflow, m: Mode)
    ensures Reachable(w, Init(w), m)
  {
    assert IsTrace(w, [Init(w)], m);
  }

  lemma ReachStep(w: Workflow, s: RunState, t: RunState, m: Mode)
    requires Reachable(w, s, m) && Step(w, s, t, m)
    ensures Reachable(w, t, m)
  {
    var tr :| IsTrace(w, tr, m) && tr[|tr| - 1] == s;
    var longer := tr + [t];
    forall i | 0 <= i < |longer| - 1 ensures StepAt(w, longer, i, m) {
      if i < |tr| - 1 { assert StepAt(w, tr, i, m); }
    }
    assert IsTrace(w, longer, m);
  }

  // ---------------------------------------------------------------- safety

  ghost predicate JobsKnown(w: Workflow, s: RunState) {
    && (forall k :: k in s.jobs ==> k in w.nodes && (s.jobs[k] == Queued || Finished(s.jobs[k])))
    && (forall k :: k in w.nodes && IsRoot(w, k) ==> k in s.jobs)
    && (forall n :: n in s.pending ==> n.node in s.jobs && Finished(n.outcome))
  }

  /** What a call still has to start has no run-job yet, and all its upstreams have finished. */
  ghost predicate TodoOpen(w: Workflow, s: RunState) {
    s.call.Working? ==>
      && s.call.note.node in s.jobs && Finished(s.call.note.outcome)
      && forall v :: v in s.call.todo ==>
           v in w.nodes && v !in s.jobs && FanIn(w, s.jobs, v) && Covers(w, s.call.note.node, v, s.call.note.outcome)
  }

  ghost predicate UpstreamsDone(w: Workflow, s: RunState) {
    forall u, v :: v in s.jobs && HasEdge(w.deps, u, v) ==> u in s.jobs && Finished(s.jobs[u])
  }

  ghost predicate OffCycles(w: Workflow, s: RunState) {
    forall v :: v in s.jobs ==> !Reaches(w.deps, v, v)
  }

  ghost predicate MarkedWhenDone(w: Workflow, s: RunState) {
    s.status != RunRunning ==> AllTerminal(w, s.jobs)
  }

  ghost predicate Safe(w: Workflow, s: RunState) {
    JobsKnown(w, s) && TodoOpen(w, s) && UpstreamsDone(w, s) && OffCycles(w, s) && MarkedWhenDone(w, s)
  }

  ghost predicate MatchedBy(w: Workflow, jobs: map<Key, JobStatus>, u: Key, v: Key) {
    u in jobs && Finished(jobs[u]) && Covers(w, u, v, jobs[u])
  }

  /** With one run-job for each node the notes tell the truth, every job was triggered, and the mark agrees. */
  ghost predicate NotesTrue(s: RunState) {
    && (forall n :: n in s.pending ==> n.node in s.jobs && s.jobs[n.node] == n.outcome)
    && (s.call.Working? ==> s.call.note.node in s.jobs && s.jobs[s.call.note.node] == s.call.note.outcome)
  }

  ghost predicate Triggered(w: Workflow, s: RunState) {
    forall v :: v in s.jobs && !IsRoot(w, v) ==> exists u :: MatchedBy(w, s.jobs, u, v)
  }

  ghost predicate VerdictTrue(s: RunState) {
    s.status != RunRunning ==> s.status == Verdict(s.jobs)
  }

  ghost predicate SingleSafe(w: Workflow, s: RunState) {
    NotesTrue(s) && Triggered(w, s) && VerdictTrue(s)
  }

  lemma InitSafe(w: Workflow)
    ensures Safe(w, Init(w)) && SingleSafe(w, Init(w))
  {
    var s := Init(w);
    forall v | v in s.jobs ensures !Reaches(w.deps, v, v) {
      if Reaches(w.deps, v, v) {
        var m := LastStep(w.deps, v, v);
      }
    }
  }

  lemma FinishSafe(w: Workflow, s: RunState, n: Note)
    requires Safe(w, s) && CanFinish(s, n)
    ensures Safe(w, Finish(s, n))
  {
  }

  lemma BeginSafe(w: Workflow, s: RunState, n: Note)
    requires Safe(w, s) && CanBegin(s, n)
    ensures Safe(w, Begin(w, s, n))
  {
  }

  lemma StartSafe(w: Workflow, s: RunState, v: Key)
    requires Safe(w, s) && CanStart(s, v)
    ensures Safe(w, Start(s, v)) && s.status == RunRunning
  {
    var t := Start(s, v);
    forall x | x in t.call.todo ensures FanIn(w, t.jobs, x) { assert FanIn(w, s.jobs, x); }
    StartedUpstreams(w, s, v);
    forall x | x in t.jobs ensures !Reaches(w.deps, x, x) {
      if x == v && Reaches(w.deps, v, v) {
        var m := RotateCycle(w.deps, v);
      }
    }
  }

  lemma StartedUpstreams(w: Workflow, s: RunState, v: Key)
    requires Safe(w, s) && CanStart(s, v)
    ensures UpstreamsDone(w, Start(s, v))
    ensures forall u :: HasEdge(w.deps, u, v) ==> u in s.jobs && Finished(s.jobs[u])
  {
    forall u | HasEdge(w.deps, u, v) ensures u in s.jobs && Finished(s.jobs[u]) {
      var i :| 0 <= i < |w.deps| && w.deps[i].up == u && w.deps[i].down == v;
      assert FanIn(w, s.jobs, v);
    }
  }

  lemma NoteSafe(w: Workflow, s: RunState, n: Note)
    requires Safe(w, s)
    ensures Safe(w, Lose(s, n)) && (CanEcho(s, n) ==> Safe(w, Echo(s, n)))
  {
  }

  lemma SkipSafe(w: Workflow, s: RunState, v: Key)
    requires Safe(w, s) && CanStart(s, v)
    ensures Safe(w, Skip(s, v))
  {
  }

  lemma OtherStepSafe(w: Workflow, s: RunState, t: RunState, m: Mode)
    requires Safe(w, s)
    requires || (exists mark :: CanClose(w, s, mark, m) && t == Close(w, s, mark))
             || (exists v :: CanStart(s, v) && t == Skip(s, v))
             || (exists n :: n in s.pending && t == Lose(s, n))
             || (exists n :: CanEcho(s, n) && t == Echo(s, n))
             || t == Abort(s)
    ensures Safe(w, t)
  {
    if n :| n in s.pending && t == Lose(s, n) {
      NoteSafe(w, s, n);
    } else if n :| CanEcho(s, n) && t == Echo(s, n) {
      NoteSafe(w, s, n);
    } else if v :| CanStart(s, v) && t == Skip(s, v) {
      SkipSafe(w, s, v);
    }
  }

  /** Every step, in any mode, keeps the safety invariant. */
  lemma StepSafe(w: Workflow, s: RunState, t: RunState, m: Mode)
    requires Safe(w, s) && Step(w, s, t, m)
    ensures Safe(w, t)
  {
    if n :| CanFinish(s, n) && t == Finish(s, n) {
      FinishSafe(w, s, n);
    } else if n :| CanBegin(s, n) && t == Begin(w, s, n) {
      BeginSafe(w, s, n);
    } else if v :| CanStart(s, v) && t == Start(s, v) {
      StartSafe(w, s, v);
    } else {
      OtherStepSafe(w, s, t, m);
    }
  }

  lemma StillTriggered(w: Workflow, s: RunState, t: RunState)
    requires Triggered(w, s)
    requires forall k :: k in s.jobs && Finished(s.jobs[k]) ==> k in t.jobs && t.jobs[k] == s.jobs[k]
    requires forall v :: v in t.jobs && v !in s.jobs ==> exists u :: MatchedBy(w, t.jobs, u, v)
    ensures Triggered(w, t)
  {
    forall v | v in t.jobs && !IsRoot(w, v) ensures exists u :: MatchedBy(w, t.jobs, u, v) {
      if v in s.jobs {
        var u :| MatchedBy(w, s.jobs, u, v);
        assert MatchedBy(w, t.jobs, u, v);
      }
    }
  }

  lemma StartSingle(w: Workflow, s: RunState, v: Key)
    requires Safe(w, s) && SingleSafe(w, s) && CanStart(s, v)
    ensures SingleSafe(w, Start(s, v))
  {
    StartSafe(w, s, v);
    assert MatchedBy(w, Start(s, v).jobs, s.call.note.node, v);
    StillTriggered(w, s, Start(s, v));
  }

  lemma FinishSingle(w: Workflow, s: RunState, n: Note)
    requires Safe(w, s) && SingleSafe(w, s) && CanFinish(s, n)
    ensures SingleSafe(w, Finish(s, n))
  {
    StillTriggered(w, s, Finish(s, n));
    assert s.status == RunRunning;
  }

  lemma BeginSingle(w: Workflow, s: RunState, n: Note)
    requires SingleSafe(w, s) && CanBegin(s, n)
    ensures SingleSafe(w, Begin(w, s, n))
  {
  }

  lemma CloseSingle(w: Workflow, s: RunState, mark: RunStatus, m: Mode)
    requires SingleSafe(w, s) && CanClose(w, s, mark, m) && m.single
    ensures SingleSafe(w, Close(w, s, mark))
  {
  }

  lemma DropSingle(w: Workflow, s: RunState, n: Note)
    requires SingleSafe(w, s)
    ensures SingleSafe(w, Lose(s, n)) && SingleSafe(w, Abort(s))
  {
  }

  lemma SkipSingle(w: Workflow, s: RunState, v: Key)
    requires SingleSafe(w, s) && CanStart(s, v)
    ensures SingleSafe(w, Skip(s, v))
  {
  }

  lemma CallSingle(w: Workflow, s: RunState, t: RunState, m: Mode)
    requires SingleSafe(w, s) && m.single
    requires || (exists n :: CanBegin(s, n) && t == Begin(w, s, n))
             || (exists mark :: CanClose(w, s, mark, m) && t == Close(w, s, mark))
             || (exists v :: CanStart(s, v) && t == Skip(s, v))
             || (exists n :: n in s.pending && t == Lose(s, n))
             || t == Abort(s)
    ensures SingleSafe(w, t)
  {
    hide SingleSafe;
    if n :| CanBegin(s, n) && t == Begin(w, s, n) {
      BeginSingle(w, s, n);
    } else if mark :| CanClose(w, s, mark, m) && t == Close(w, s, mark) {
      CloseSingle(w, s, mark, m);
    } else if v :| CanStart(s, v) && t == Skip(s, v) {
      SkipSingle(w, s, v);
    } else if n :| n in s.pending && t == Lose(s, n) {
      DropSingle(w, s, n);
    } else {
      DropSingle(w, s, Note("", Completed));
    }
  }

  lemma StepSingle(w: Workflow, s: RunState, t: RunState, m: Mode)
    requires Safe(w, s) && SingleSafe(w, s) && Step(w, s, t, m) && m.single
    ensures SingleSafe(w, t)
  {
    if v :| CanStart(s, v) && t == Start(s, v) {
      StartSingle(w, s, v);
    } else if n :| CanFinish(s, n) && t == Finish(s, n) {
      FinishSingle(w, s, n);
    } else {
      CallSingle(w, s, t, m);
    }
  }

  lemma {:induction false} TraceSafe(w: Workflow, tr: seq<RunState>, m: Mode, i: nat)
    requires IsTrace(w, tr, m) && i < |tr|
    ensures Safe(w, tr[i]) && (m.single ==> SingleSafe(w, tr[i]))
  {
    if i == 0 {
      InitSafe(w);
    } else {
      TraceSafe(w, tr, m, i - 1);
      assert StepAt(w, tr, i - 1, m);
      StepSafe(w, tr[i - 1], tr[i], m);
      if m.single { StepSingle(w, tr[i - 1], tr[i], m); }
    }
  }

  lemma AlwaysSafe(w: Workflow, s: RunState, m: Mode)
    requires Reachable(w, s, m)
    ensures Safe(w, s) && (m.single ==> SingleSafe(w, s))
  {
    var tr :| IsTrace(w, tr, m) && tr[|tr| - 1] == s;
    TraceSafe(w, tr, m, |tr| - 1);
  }

  lemma {:induction false} WalkFinished(w: Workflow, s: RunState, p: seq<Key>)
    requires UpstreamsDone(w, s) && |p| >= 2 && IsWalk(w.deps, p) && p[|p| - 1] in s.jobs
    ensures p[0] in s.jobs && Finished(s.jobs[p[0]])
    decreases |p|
  {
    var n := |p| - 2;
    assert HasEdge(w.deps, p[n], p[n + 1]);
    if n > 0 {
      var q := p[..n + 1];
      forall i | 0 <= i < |q| - 1 ensures HasEdge(w.deps, q[i], q[i + 1]) {
        assert HasEdge(w.deps, p[i], p[i + 1]);
      }
      WalkFinished(w, s, q);
    }
  }

  lemma AncestorFinished(w: Workflow, s: RunState, u: Key, v: Key)
    requires UpstreamsDone(w, s) && Reaches(w.deps, u, v) && v in s.jobs
    ensures u in s.jobs && Finished(s.jobs[u])
  {
    var p :| |p| >= 2 && IsWalkFromTo(w.deps, p, u, v);
    WalkFinished(w, s, p);
  }

  /** Some edge from u to v has this condition. */
  predicate HasCondition(w: Workflow, u: Key, v: Key, c: Condition) {
    exists i :: 0 <= i < |w.deps| && w.deps[i] == Edge(u, v, c)
  }

  /** An OnSuccess edge wants Completed, an OnFailure edge anything else, an Always edge nothing. */
  lemma CoversMeans(w: Workflow, u: Key, v: Key, outcome: JobStatus)
    ensures Covers(w, u, v, outcome) <==>
              HasCondition(w, u, v, Always) ||
              HasCondition(w, u, v, if outcome == Completed then OnSuccess else OnFailure)
  {
    if i :| 0 <= i < |w.deps| && w.deps[i].up == u && w.deps[i].down == v && Matches(w.deps[i].cond, outcome) {
      assert w.deps[i] == Edge(u, v, w.deps[i].cond);
    }
    if i :| 0 <= i < |w.deps| && w.deps[i] == Edge(u, v, Always) { assert Matches(w.deps[i].cond, outcome); }
    var c := if outcome == Completed then OnSuccess else OnFailure;
    if i :| 0 <= i < |w.deps| && w.deps[i] == Edge(u, v, c) { assert Matches(w.deps[i].cond, outcome); }
  }

  /** Fan-in safety, for arbitrary conditions and even with lost notes: a job exists for a node only when every
      ancestor has Completed or Failed and, with one run-job for each node, it is a root or some edge into it is
      Always, or OnSuccess from an upstream that completed, or OnFailure from one that failed. */
  lemma FanInSafety(w: Workflow, s: RunState, v: Key, m: Mode)
    requires Reachable(w, s, m) && v in s.jobs
    ensures v in w.nodes
    ensures forall u :: Reaches(w.deps, u, v) ==> u in s.jobs && (s.jobs[u] == Completed || s.jobs[u] == Failed)
    ensures m.single && (exists d :: d in w.deps && d.down == v) ==>
              exists u :: u in s.jobs &&
                (HasCondition(w, u, v, Always) ||
                 (s.jobs[u] == Completed && HasCondition(w, u, v, OnSuccess)) ||
                 (s.jobs[u] == Failed && HasCondition(w, u, v, OnFailure)))
  {
    AlwaysSafe(w, s, m);
    forall u | Reaches(w.deps, u, v) ensures u in s.jobs && Finished(s.jobs[u]) {
      AncestorFinished(w, s, u, v);
    }
    if m.single && exists d :: d in w.deps && d.down == v {
      var u :| MatchedBy(w, s.jobs, u, v);
      CoversMeans(w, u, v, s.jobs[u]);
    }
  }

  /** A run is marked Completed only if every node completed, and Failed only if every node finished and some
      failed. */
  lemma CompletionCorrect(w: Workflow, s: RunState, m: Mode)
    requires Reachable(w, s, m) && m.single
    ensures s.status == RunCompleted ==> forall k :: k in w.nodes ==> k in s.jobs && s.jobs[k] == Completed
    ensures s.status == RunFailed ==>
              (forall k :: k in w.nodes ==> k in s.jobs && (s.jobs[k] == Completed || s.jobs[k] == Failed))
              && exists k :: k in w.nodes && s.jobs[k] == Failed
  {
    AlwaysSafe(w, s, m);
    if s.status == RunFailed {
      var k :| k in s.jobs && (s.jobs[k] == Failed || s.jobs[k] == DeadLetter);
      assert k in w.nodes;
    }
  }

  lemma MarkedSteps(w: Workflow, s: RunState, t: RunState, m: Mode)
    requires Safe(w, s) && s.status != RunRunning && Step(w, s, t, m)
    ensures t.jobs == s.jobs && t.status != RunRunning
  {
    forall n ensures !CanFinish(s, n) {}
    forall v ensures !CanStart(s, v) {
      if CanStart(s, v) { StartSafe(w, s, v); }
    }
  }

  /** Once marked, no later step of any kind starts a node or changes the status of one, and with one run-job
      for each node none changes the mark. */
  lemma CompletionFinal(w: Workflow, s: RunState, t: RunState, m: Mode)
    requires Reachable(w, s, m) && Step(w, s, t, m) && s.status != RunRunning
    ensures t.jobs == s.jobs && t.status != RunRunning && (m.single ==> t.status == s.status)
  {
    hide Step, Reachable, Safe;
    AlwaysSafe(w, s, m);
    MarkedSteps(w, s, t, m);
    if m.single { StepSingle(w, s, t, m); }
  }
}
