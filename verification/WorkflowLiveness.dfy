/** When can a workflow run get stuck?  Exactly when its graph is empty or cyclic, or when some node
    can be finished last among the upstreams of another without an edge accepting its outcome. */
module WorkflowLiveness {
  import opened Common
  import opened Graph
  import opened WorkflowRun

  ghost predicate Quiescent(s: RunState) {
    s.pending == multiset{} && s.call.Idle? && forall k :: k in s.jobs ==> Terminal(s.jobs[k])
  }

  /** Every node has a finished run-job and the run is marked. */
  predicate Closed(w: Workflow, s: RunState) {
    s.status != RunRunning && AllTerminal(w, s.jobs)
  }

  /** No reliable run ends up quiet without being closed; single or not. */
  ghost predicate NeverStuck(w: Workflow, single: bool) {
    forall s :: Reachable(w, s, Mode(true, single)) && Quiescent(s) ==> Closed(w, s)
  }

  /** u can be the last of v's upstreams to finish: no other upstream of v has to wait for u. */
  ghost predicate LastUpstream(w: Workflow, u: Key, v: Key) {
    HasEdge(w.deps, u, v) && !exists m :: HasEdge(w.deps, m, v) && Reaches(w.deps, u, m)
  }

  /** Whichever way a last upstream ends, an edge accepts it: one is Always, or there are both others. */
  ghost predicate LastUpstreamsCover(w: Workflow) {
    forall u, v :: LastUpstream(w, u, v) ==>
      HasCondition(w, u, v, Always) || (HasCondition(w, u, v, OnSuccess) && HasCondition(w, u, v, OnFailure))
  }

  lemma CoverMeans(w: Workflow, u: Key, v: Key)
    ensures HasCondition(w, u, v, Always) || (HasCondition(w, u, v, OnSuccess) && HasCondition(w, u, v, OnFailure)) <==>
            Covers(w, u, v, Completed) && Covers(w, u, v, Failed)
  {
    CoversMeans(w, u, v, Completed);
    CoversMeans(w, u, v, Failed);
  }

  // ---------------------------------------------------------------- sufficient

  /** Someone will still start v: a note from a last upstream, or a call that has settled to. */
  ghost predicate Watched(w: Workflow, s: RunState, v: Key) {
    (exists n :: n in s.pending && LastUpstream(w, n.node, v)) || CanStart(s, v)
  }

  ghost predicate Live(w: Workflow, s: RunState) {
    && (forall v :: v in w.nodes && v !in s.jobs && FanIn(w, s.jobs, v) ==> Watched(w, s, v))
    && (AllTerminal(w, s.jobs) ==> s.pending != multiset{} || s.call.Working? || s.status != RunRunning)
  }

  lemma InitLive(w: Workflow)
    requires w.nodes != []
    ensures Live(w, Init(w))
  {
    var s := Init(w);
    forall v | v in w.nodes && v !in s.jobs ensures !FanIn(w, s.jobs, v) {
      var i :| 0 <= i < |w.deps| && w.deps[i].down == v;
    }
    assert w.nodes[0] in w.nodes;
  }

  /** The node that completes a fan-in is a last upstream. */
  lemma CompletingIsLast(w: Workflow, s: RunState, n: Note, v: Key)
    requires Safe(w, s) && CanFinish(s, n) && v !in s.jobs
    requires FanIn(w, Finish(s, n).jobs, v) && !FanIn(w, s.jobs, v)
    ensures LastUpstream(w, n.node, v)
  {
    var i :| 0 <= i < |w.deps| && w.deps[i].down == v && !(w.deps[i].up in s.jobs && Finished(s.jobs[w.deps[i].up]));
    assert w.deps[i].up == n.node;
    forall m | HasEdge(w.deps, m, v) && Reaches(w.deps, n.node, m) ensures false {
      var j :| 0 <= j < |w.deps| && w.deps[j].up == m && w.deps[j].down == v;
      assert m in Finish(s, n).jobs;
      AncestorFinished(w, s, n.node, m);
    }
  }

  lemma FinishLive(w: Workflow, s: RunState, n: Note)
    requires Safe(w, s) && Live(w, s) && CanFinish(s, n)
    ensures Live(w, Finish(s, n))
  {
    var t := Finish(s, n);
    assert n in t.pending;
    forall v | v in w.nodes && v !in t.jobs && FanIn(w, t.jobs, v) ensures Watched(w, t, v) {
      if FanIn(w, s.jobs, v) {
        if m :| m in s.pending && LastUpstream(w, m.node, v) { assert m in t.pending; }
      } else {
        CompletingIsLast(w, s, n, v);
      }
    }
  }

  lemma BeginLive(w: Workflow, s: RunState, n: Note)
    requires Safe(w, s) && Live(w, s) && CanBegin(s, n) && LastUpstreamsCover(w)
    ensures Live(w, Begin(w, s, n))
  {
    var t := Begin(w, s, n);
    forall v | v in w.nodes && v !in t.jobs && FanIn(w, t.jobs, v) ensures Watched(w, t, v) {
      var m :| m in s.pending && LastUpstream(w, m.node, v);
      if m != n { assert m in t.pending; }
    }
  }

  lemma StartLive(w: Workflow, s: RunState, x: Key)
    requires Safe(w, s) && Live(w, s) && CanStart(s, x)
    ensures Live(w, Start(s, x))
  {
    var t := Start(s, x);
    forall v | v in w.nodes && v !in t.jobs && FanIn(w, t.jobs, v) ensures Watched(w, t, v) {
      forall i | 0 <= i < |w.deps| && w.deps[i].down == v
        ensures w.deps[i].up in s.jobs && Finished(s.jobs[w.deps[i].up])
      {
        assert t.jobs[w.deps[i].up] != Queued;
      }
      assert FanIn(w, s.jobs, v) && Watched(w, s, v);
      if m :| m in s.pending && LastUpstream(w, m.node, v) { assert m in t.pending; }
    }
  }

  lemma CloseLive(w: Workflow, s: RunState, mark: RunStatus, m: Mode)
    requires Live(w, s) && CanClose(w, s, mark, m)
    ensures Live(w, Close(w, s, mark))
  {
    var t := Close(w, s, mark);
    forall v | v in w.nodes && v !in t.jobs && FanIn(w, t.jobs, v) ensures Watched(w, t, v) {
      var n :| n in s.pending && LastUpstream(w, n.node, v);
      assert n in t.pending;
    }
  }

  lemma EchoLive(w: Workflow, s: RunState, n: Note)
    requires Live(w, s)
    ensures Live(w, Echo(s, n))
  {
    var t := Echo(s, n);
    forall v | v in w.nodes && v !in t.jobs && FanIn(w, t.jobs, v) ensures Watched(w, t, v) {
      if m :| m in s.pending && LastUpstream(w, m.node, v) { assert m in t.pending; }
    }
  }

  lemma StepLive(w: Workflow, s: RunState, t: RunState, m: Mode)
    requires Safe(w, s) && Live(w, s) && Step(w, s, t, m) && m.reliable && LastUpstreamsCover(w)
    ensures Live(w, t)
  {
    if n :| CanFinish(s, n) && t == Finish(s, n) {
      FinishLive(w, s, n);
    } else if n :| CanBegin(s, n) && t == Begin(w, s, n) {
      BeginLive(w, s, n);
    } else if v :| CanStart(s, v) && t == Start(s, v) {
      StartLive(w, s, v);
    } else if mark :| CanClose(w, s, mark, m) && t == Close(w, s, mark) {
      CloseLive(w, s, mark, m);
    } else {
      var n :| CanEcho(s, n) && t == Echo(s, n);
      EchoLive(w, s, n);
    }
  }

  /** One step of a trace. */
  lemma TraceStep(w: Workflow, tr: seq<RunState>, m: Mode, i: nat)
    requires IsTrace(w, tr, m) && 0 < i < |tr|
    ensures Step(w, tr[i - 1], tr[i], m) && Safe(w, tr[i - 1])
  {
    hide Step, Safe, SingleSafe;
    assert StepAt(w, tr, i - 1, m);
    TraceSafe(w, tr, m, i - 1);
  }

  lemma {:induction false} TraceLive(w: Workflow, tr: seq<RunState>, m: Mode, i: nat)
    requires IsTrace(w, tr, m) && i < |tr| && m.reliable && w.nodes != [] && LastUpstreamsCover(w)
    ensures Live(w, tr[i])
  {
    hide Live, Step, Safe, LastUpstreamsCover;
    if i == 0 {
      InitLive(w);
    } else {
      var s, t := tr[i - 1], tr[i];
      TraceLive(w, tr, m, i - 1);
      TraceStep(w, tr, m, i);
      StepLive(w, s, t, m);
    }
  }

  ghost function MissingAncestors(w: Workflow, s: RunState, v: Key): set<Key> {
    set u | u in w.nodes && u !in s.jobs && Reaches(w.deps, u, v)
  }

  /** In an acyclic graph some missing node has all its upstreams present. */
  lemma {:induction false} FirstMissing(w: Workflow, s: RunState, v: Key) returns (first: Key)
    requires WellFormed(w) && !Cyclic(w.deps) && v in w.nodes && v !in s.jobs
    ensures first in w.nodes && first !in s.jobs
    ensures forall i :: 0 <= i < |w.deps| && w.deps[i].down == first ==> w.deps[i].up in s.jobs
    decreases MissingAncestors(w, s, v)
  {
    if i :| 0 <= i < |w.deps| && w.deps[i].down == v && w.deps[i].up !in s.jobs {
      var u := w.deps[i].up;
      EdgeReaches(w.deps, u, v);
      forall x | x in MissingAncestors(w, s, u) ensures x in MissingAncestors(w, s, v) {
        ReachesThenEdge(w.deps, x, u, v);
      }
      assert u in MissingAncestors(w, s, v) && u !in MissingAncestors(w, s, u);
      first := FirstMissing(w, s, u);
    } else {
      first := v;
    }
  }

  lemma QuietIsClosed(w: Workflow, s: RunState)
    requires WellFormed(w) && !Cyclic(w.deps) && Safe(w, s) && Live(w, s) && Quiescent(s)
    ensures Closed(w, s)
  {
    forall v | v in w.nodes ensures v in s.jobs {
      if v !in s.jobs {
        var m := FirstMissing(w, s, v);
        assert FanIn(w, s.jobs, m);
      }
    }
  }

  lemma AlwaysLive(w: Workflow, s: RunState, m: Mode)
    requires w.nodes != [] && LastUpstreamsCover(w) && Reachable(w, s, m) && m.reliable
    ensures Live(w, s)
  {
    hide Live, StepAt, LastUpstreamsCover;
    var tr :| IsTrace(w, tr, m) && tr[|tr| - 1] == s;
    TraceLive(w, tr, m, |tr| - 1);
  }

  lemma Sufficient(w: Workflow, single: bool)
    requires WellFormed(w) && w.nodes != [] && !Cyclic(w.deps) && LastUpstreamsCover(w)
    ensures NeverStuck(w, single)
  {
    forall s | Reachable(w, s, Mode(true, single)) && Quiescent(s) ensures Closed(w, s) {
      AlwaysSafe(w, s, Mode(true, single));
      AlwaysLive(w, s, Mode(true, single));
      QuietIsClosed(w, s);
    }
  }

  // ---------------------------------------------------------------- necessary

  /** One full call: the note is taken and worked off with nothing in between. */
  function WorkOff(w: Workflow, s: RunState, n: Note): RunState {
    var jobs := s.jobs + map v | v in ReleaseSet(w, s.jobs, n) :: Queued;
    RunState(jobs, if AllTerminal(w, jobs) then Verdict(jobs) else s.status, s.pending - multiset{n}, Idle)
  }

  /** A schedule without overlap: a job finishes, or a call runs from beginning to end. */
  ghost predicate PlainStep(w: Workflow, s: RunState, t: RunState) {
    (exists n :: CanFinish(s, n) && t == Finish(s, n)) || (exists n :: CanBegin(s, n) && t == WorkOff(w, s, n))
  }

  ghost predicate IsPlain(w: Workflow, tr: seq<RunState>) {
    && |tr| >= 1 && tr[0] == Init(w)
    && forall i :: 0 <= i < |tr| - 1 ==> PlainAt(w, tr, i)
  }

  ghost predicate PlainAt(w: Workflow, tr: seq<RunState>, i: nat)
    requires i + 1 < |tr|
  {
    PlainStep(w, tr[i], tr[i + 1])
  }

  ghost predicate PlainReachable(w: Workflow, s: RunState) {
    exists tr :: IsPlain(w, tr) && tr[|tr| - 1] == s
  }

  lemma PlainInit(w: Workflow)
    ensures PlainReachable(w, Init(w))
  {
    assert IsPlain(w, [Init(w)]);
  }

  lemma PlainNext(w: Workflow, s: RunState, t: RunState)
    requires PlainReachable(w, s) && PlainStep(w, s, t)
    ensures PlainReachable(w, t)
  {
    var tr :| IsPlain(w, tr) && tr[|tr| - 1] == s;
    var longer := tr + [t];
    forall i | 0 <= i < |longer| - 1 ensures PlainAt(w, longer, i) {
      if i < |tr| - 1 { assert PlainAt(w, tr, i); }
    }
    assert IsPlain(w, longer);
  }

  /** The call starts its nodes in any order. */
  lemma {:induction false} StartsAll(w: Workflow, s: RunState, m: Mode) returns (t: RunState)
    requires Reachable(w, s, m) && s.call.Working?
    ensures Reachable(w, t, m)
    ensures t == s.(jobs := s.jobs + map v | v in s.call.todo :: Queued, call := Working(s.call.note, {}))
    decreases s.call.todo
  {
    if s.call.todo == {} {
      t := s;
      assert s.jobs + (map v | v in s.call.todo :: Queued) == s.jobs;
    } else {
      var v :| v in s.call.todo;
      assert CanStart(s, v);
      var u := Start(s, v);
      ReachStep(w, s, u, m);
      t := StartsAll(w, u, m);
      assert s.jobs + (map x | x in s.call.todo :: Queued) == u.jobs + map x | x in u.call.todo :: Queued;
    }
  }

  lemma ReachWorkOff(w: Workflow, s: RunState, n: Note, m: Mode)
    requires Reachable(w, s, m) && CanBegin(s, n)
    ensures Reachable(w, WorkOff(w, s, n), m)
  {
    ReachStep(w, s, Begin(w, s, n), m);
    var t := StartsAll(w, Begin(w, s, n), m);
    assert CanClose(w, t, Verdict(t.jobs), m);
    ReachStep(w, t, Close(w, t, Verdict(t.jobs)), m);
  }

  lemma ReachPlain(w: Workflow, s: RunState, t: RunState, m: Mode)
    requires Reachable(w, s, m) && PlainStep(w, s, t)
    ensures Reachable(w, t, m)
  {
    if n :| CanFinish(s, n) && t == Finish(s, n) {
      ReachStep(w, s, t, m);
    } else {
      var n :| CanBegin(s, n) && t == WorkOff(w, s, n);
      ReachWorkOff(w, s, n, m);
    }
  }

  lemma {:induction false} PlainIsReachable(w: Workflow, tr: seq<RunState>, i: nat, m: Mode)
    requires IsPlain(w, tr) && i < |tr|
    ensures Reachable(w, tr[i], m)
  {
    if i == 0 {
      ReachInit(w, m);
    } else {
      PlainIsReachable(w, tr, i - 1, m);
      assert PlainAt(w, tr, i - 1);
      ReachPlain(w, tr[i - 1], tr[i], m);
    }
  }

  lemma PlainSafe(w: Workflow, s: RunState)
    requires PlainReachable(w, s)
    ensures forall m :: Reachable(w, s, m)
    ensures Safe(w, s) && s.call.Idle?
  {
    var tr :| IsPlain(w, tr) && tr[|tr| - 1] == s;
    forall m ensures Reachable(w, s, m) { PlainIsReachable(w, tr, |tr| - 1, m); }
    AlwaysSafe(w, s, Mode(true, true));
    PlainIdle(w, tr, |tr| - 1);
  }

  lemma {:induction false} PlainIdle(w: Workflow, tr: seq<RunState>, i: nat)
    requires IsPlain(w, tr) && i < |tr|
    ensures tr[i].call.Idle?
  {
    if i > 0 {
      PlainIdle(w, tr, i - 1);
      assert PlainAt(w, tr, i - 1);
    }
  }

  /** A schedule without overlap that ends up stuck. */
  ghost predicate CanStrand(w: Workflow) {
    exists s :: PlainReachable(w, s) && Quiescent(s) && !Closed(w, s)
  }

  lemma StrandedIsStuck(w: Workflow, single: bool)
    requires CanStrand(w)
    ensures !NeverStuck(w, single)
  {
    var s :| PlainReachable(w, s) && Quiescent(s) && !Closed(w, s);
    PlainSafe(w, s);
    assert Reachable(w, s, Mode(true, single));
  }

  ghost function Unfinished(w: Workflow, s: RunState): set<Key> {
    set k | k in w.nodes && !(k in s.jobs && Terminal(s.jobs[k]))
  }

  /** Everything but the held node has been worked off. */
  ghost predicate DrainedExcept(s: RunState, held: Key) {
    s.pending == multiset{} && s.call.Idle? && forall k :: k in s.jobs && k != held ==> Terminal(s.jobs[k])
  }

  /** A schedule exists that works everything off while one unfinished node is held back. */
  lemma {:induction false} DrainHolding(w: Workflow, s: RunState, held: Key) returns (t: RunState)
    requires PlainReachable(w, s) && held in Unfinished(w, s)
    ensures PlainReachable(w, t) && DrainedExcept(t, held) && held in Unfinished(w, t)
    decreases Unfinished(w, s), |s.pending|
  {
    PlainSafe(w, s);
    if n :| n in s.pending {
      PlainNext(w, s, WorkOff(w, s, n));
      SameUnfinished(w, s, n);
      t := DrainHolding(w, WorkOff(w, s, n), held);
    } else if k :| k in s.jobs && k != held && !Terminal(s.jobs[k]) {
      var n := Note(k, Completed);
      PlainNext(w, s, Finish(s, n));
      FewerUnfinished(w, s, n);
      t := DrainHolding(w, Finish(s, n), held);
    } else {
      t := s;
    }
  }

  lemma SameUnfinished(w: Workflow, s: RunState, n: Note)
    requires Safe(w, s) && CanBegin(s, n)
    ensures Unfinished(w, WorkOff(w, s, n)) == Unfinished(w, s)
    ensures WorkOff(w, s, n).pending == s.pending - multiset{n} < s.pending
  {
    var t := WorkOff(w, s, n);
    forall k ensures k in Unfinished(w, t) <==> k in Unfinished(w, s) {
      if k in ReleaseSet(w, s.jobs, n) { assert t.jobs[k] == Queued; }
    }
  }

  lemma FewerUnfinished(w: Workflow, s: RunState, n: Note)
    requires Safe(w, s) && CanFinish(s, n)
    ensures Unfinished(w, Finish(s, n)) == Unfinished(w, s) - {n.node}
    ensures n.node in Unfinished(w, s)
  {
  }

  /** All remaining activity lies below u, and v has not been started. */
  ghost predicate ConfinedBelow(w: Workflow, s: RunState, u: Key, v: Key) {
    && v !in s.jobs
    && (forall n :: n in s.pending ==> Reaches(w.deps, u, n.node))
    && (forall k :: k in s.jobs && !Terminal(s.jobs[k]) ==> Reaches(w.deps, u, k))
  }

  lemma CoversIsEdge(w: Workflow, u: Key, v: Key, o: JobStatus)
    requires Covers(w, u, v, o)
    ensures HasEdge(w.deps, u, v)
  {
  }

  lemma WorkOffConfined(w: Workflow, s: RunState, n: Note, u: Key, v: Key)
    requires LastUpstream(w, u, v) && CanBegin(s, n) && v !in s.jobs
    requires n.node == u || Reaches(w.deps, u, n.node)
    requires n.node == u ==> !Covers(w, u, v, n.outcome)
    requires forall m :: m in s.pending - multiset{n} ==> Reaches(w.deps, u, m.node)
    requires forall k :: k in s.jobs && !Terminal(s.jobs[k]) ==> Reaches(w.deps, u, k)
    ensures ConfinedBelow(w, WorkOff(w, s, n), u, v)
  {
    var t := WorkOff(w, s, n);
    forall k | k in ReleaseSet(w, s.jobs, n) ensures k != v && Reaches(w.deps, u, k) {
      CoversIsEdge(w, n.node, k, n.outcome);
      if n.node == u { EdgeReaches(w.deps, u, k); } else { ReachesThenEdge(w.deps, u, n.node, k); }
    }
    forall k | k in t.jobs && !Terminal(t.jobs[k]) ensures Reaches(w.deps, u, k) {
      if k !in ReleaseSet(w, s.jobs, n) { assert t.jobs[k] == s.jobs[k]; }
    }
  }

  lemma {:induction false} DrainBelow(w: Workflow, s: RunState, u: Key, v: Key) returns (t: RunState)
    requires PlainReachable(w, s) && LastUpstream(w, u, v) && ConfinedBelow(w, s, u, v)
    ensures PlainReachable(w, t) && Quiescent(t) && v !in t.jobs
    decreases Unfinished(w, s), |s.pending|
  {
    PlainSafe(w, s);
    if n :| n in s.pending {
      PlainNext(w, s, WorkOff(w, s, n));
      SameUnfinished(w, s, n);
      WorkOffConfined(w, s, n, u, v);
      t := DrainBelow(w, WorkOff(w, s, n), u, v);
    } else if k :| k in s.jobs && !Terminal(s.jobs[k]) {
      var n := Note(k, Completed);
      PlainNext(w, s, Finish(s, n));
      FewerUnfinished(w, s, n);
      t := DrainBelow(w, Finish(s, n), u, v);
    } else {
      t := s;
    }
  }

  /** From a state where only u is left, failing to accept u's outcome leaves v out for good. */
  lemma StrandBelow(w: Workflow, s: RunState, u: Key, v: Key, o: JobStatus) returns (t: RunState)
    requires WellFormed(w) && LastUpstream(w, u, v) && Finished(o) && !Covers(w, u, v, o)
    requires PlainReachable(w, s) && DrainedExcept(s, u) && u in s.jobs && !Terminal(s.jobs[u])
    ensures PlainReachable(w, t) && Quiescent(t) && v !in t.jobs
  {
    PlainSafe(w, s);
    assert v !in s.jobs;
    var n := Note(u, o);
    var f := Finish(s, n);
    PlainNext(w, s, f);
    PlainNext(w, f, WorkOff(w, f, n));
    WorkOffConfined(w, f, n, u, v);
    t := DrainBelow(w, WorkOff(w, f, n), u, v);
  }

  lemma StuckRun(w: Workflow, s: RunState, v: Key)
    requires PlainReachable(w, s) && Quiescent(s)
    requires v in w.nodes && (v in s.jobs ==> !Terminal(s.jobs[v]))
    ensures CanStrand(w)
  {
  }

  /** A last upstream whose outcome no edge accepts strands its downstream node in some run. */
  lemma UncoveredStrands(w: Workflow, u: Key, v: Key, o: JobStatus)
    requires WellFormed(w) && LastUpstream(w, u, v) && (o == Completed || o == Failed)
    requires !HasCondition(w, u, v, Always) && !HasCondition(w, u, v, if o == Completed then OnSuccess else OnFailure)
    ensures CanStrand(w)
  {
    CoversMeans(w, u, v, o);
    PlainInit(w);
    EndsDeclared(w, u, v);
    var s := DrainHolding(w, Init(w), u);
    if u !in s.jobs {
      StuckRun(w, s, u);
    } else {
      var t := StrandBelow(w, s, u, v, o);
      StuckRun(w, t, v);
    }
  }

  lemma EndsDeclared(w: Workflow, u: Key, v: Key)
    requires WellFormed(w) && HasEdge(w.deps, u, v)
    ensures u in w.nodes && v in w.nodes
  {
  }

  /** A node on a cycle never starts, so a cyclic workflow cannot close. */
  lemma CycleStrands(w: Workflow, x: Key)
    requires WellFormed(w) && Reaches(w.deps, x, x)
    ensures CanStrand(w)
  {
    PlainInit(w);
    var m := LastStep(w.deps, x, x);
    var s := DrainHolding(w, Init(w), x);
    PlainSafe(w, s);
    StuckRun(w, s, x);
  }

  lemma EmptyStrands(w: Workflow)
    requires w.nodes == []
    ensures CanStrand(w)
  {
    PlainInit(w);
    assert Quiescent(Init(w)) && !Closed(w, Init(w));
  }

  /** Unless the condition holds, a schedule without any overlap gets stuck. */
  lemma Necessary(w: Workflow)
    requires WellFormed(w) && !(w.nodes != [] && !Cyclic(w.deps) && LastUpstreamsCover(w))
    ensures CanStrand(w)
  {
    if w.nodes == [] {
      EmptyStrands(w);
    } else if Cyclic(w.deps) {
      var x :| Reaches(w.deps, x, x);
      CycleStrands(w, x);
    } else {
      var u, v :| LastUpstream(w, u, v) && !HasCondition(w, u, v, Always) &&
                  !(HasCondition(w, u, v, OnSuccess) && HasCondition(w, u, v, OnFailure));
      UncoveredStrands(w, u, v, if HasCondition(w, u, v, OnSuccess) then Failed else Completed);
    }
  }

  /** The exact condition under which no run of a workflow can get stuck, whether or not every node has only
      one run-job. */
  lemma NeverStuckIff(w: Workflow, single: bool)
    requires WellFormed(w)
    ensures NeverStuck(w, single) <==> w.nodes != [] && !Cyclic(w.deps) && LastUpstreamsCover(w)
  {
    if w.nodes != [] && !Cyclic(w.deps) && LastUpstreamsCover(w) {
      Sufficient(w, single);
    } else {
      Necessary(w);
      StrandedIsStuck(w, single);
    }
  }

  /** Edges that are all Always, in a graph the cycle check accepts, never leave a run stuck. */
  lemma AllAlwaysNeverStuck(w: Workflow, single: bool)
    requires WellFormed(w) && w.nodes != [] && !Cyclic(w.deps)
    requires forall i :: 0 <= i < |w.deps| ==> w.deps[i].cond == Always
    ensures NeverStuck(w, single)
  {
    forall u, v | LastUpstream(w, u, v) ensures HasCondition(w, u, v, Always) {
      var i :| 0 <= i < |w.deps| && w.deps[i].up == u && w.deps[i].down == v;
      assert w.deps[i] == Edge(u, v, Always);
    }
    NeverStuckIff(w, single);
  }

  /** A last upstream whose only edges are OnSuccess lets some run get stuck: the one in which it fails. */
  lemma LoneSuccessStrands(w: Workflow, u: Key, v: Key, single: bool)
    requires WellFormed(w) && LastUpstream(w, u, v)
    requires forall d :: d in w.deps && d.up == u && d.down == v ==> d.cond == OnSuccess
    ensures !NeverStuck(w, single)
  {
    NeverStuckIff(w, single);
    assert !HasCondition(w, u, v, Always) && !HasCondition(w, u, v, OnFailure);
  }
}
