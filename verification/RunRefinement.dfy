/** The stored rows of a run refine the protocol of module WorkflowRun, and follow every schedule without overlap:
    what is proved of the protocol holds of the stored rows. */
module RunRefinement {
  import opened Common
  import opened Graph
  import opened WorkflowRun
  import opened WorkflowLiveness
  import opened Orchestration

  /** seen is the snapshot of the call, next the position of its loop over the eligible edges. */
  datatype RowCall = RowIdle | RowWorking(note: Note, seen: seq<RunJob>, next: nat)

  datatype RowState = RowState(rows: seq<RunJob>, status: RunStatus, pending: multiset<Note>, call: RowCall)

  /** No two parallel edges accept the same outcome. (One OnSuccess and one OnFailure edge may run in parallel.) */
  ghost predicate NoParallelMatch(w: Workflow) {
    forall i, j :: 0 <= i < j < |w.deps| && w.deps[i].up == w.deps[j].up && w.deps[i].down == w.deps[j].down ==>
                     w.deps[i].cond != Always && w.deps[j].cond != Always && w.deps[i].cond != w.deps[j].cond
  }

  // ---------------------------------------------------------------- steps on rows

  function RowInit(w: Workflow): RowState {
    RowState(RootRows(w, w.nodes), RunRunning, multiset{}, RowIdle)
  }

  predicate CanRowFinish(c: RowState, i: nat, o: JobStatus) {
    i < |c.rows| && !Terminal(c.rows[i].status) && Finished(o)
  }

  function RowFinish(c: RowState, i: nat, o: JobStatus): RowState
    requires i < |c.rows|
  {
    var node := c.rows[i].node;
    c.(rows := Updated(c.rows, i, o), pending := c.pending + multiset{Note(node, o)})
  }

  predicate CanRowBegin(c: RowState, n: Note) {
    n in c.pending && c.call.RowIdle?
  }

  function RowBegin(c: RowState, n: Note): RowState {
    c.(pending := c.pending - multiset{n}, call := RowWorking(n, c.rows, 0))
  }

  predicate CanRowStart(w: Workflow, c: RowState) {
    c.call.RowWorking? && c.call.next < |EligibleDeps(w.deps, c.call.note)|
  }

  /** RunRecord.StartDownstream for the next eligible edge. */
  function RowStart(w: Workflow, c: RowState, queueFound: bool): RowState
    requires CanRowStart(w, c)
  {
    var dep := EligibleDeps(w.deps, c.call.note)[c.call.next];
    c.(rows := c.rows + RowFor(w, c.call.seen, dep, queueFound),
       call := RowWorking(c.call.note, c.call.seen, c.call.next + 1))
  }

  predicate CanRowClose(w: Workflow, c: RowState) {
    c.call.RowWorking? && c.call.next >= |EligibleDeps(w.deps, c.call.note)|
  }

  /** RunRecord.CloseWhenComplete, then the lock is given back. */
  function RowClose(w: Workflow, c: RowState): RowState {
    c.(status := if RowsAllTerminal(w, c.rows) then RowsVerdict(c.rows) else c.status, call := RowIdle)
  }

  function RowLose(c: RowState, n: Note): RowState {
    c.(pending := c.pending - multiset{n})
  }

  /** A statement of the call throws; the lock is given back all the same. */
  function RowAbort(c: RowState): RowState {
    c.(call := RowIdle)
  }

  ghost predicate RowStep(w: Workflow, c: RowState, d: RowState, reliable: bool) {
    || (exists i, o :: CanRowFinish(c, i, o) && d == RowFinish(c, i, o))
    || (exists n :: CanRowBegin(c, n) && d == RowBegin(c, n))
    || (CanRowStart(w, c) && (d == RowStart(w, c, true) || (!reliable && d == RowStart(w, c, false))))
    || (CanRowClose(w, c) && d == RowClose(w, c))
    || (!reliable && exists n :: n in c.pending && d == RowLose(c, n))
    || (!reliable && c.call.RowWorking? && d == RowAbort(c))
  }

  ghost predicate RowStepAt(w: Workflow, tr: seq<RowState>, i: nat, reliable: bool)
    requires i + 1 < |tr|
  {
    RowStep(w, tr[i], tr[i + 1], reliable)
  }

  ghost predicate IsRowTrace(w: Workflow, tr: seq<RowState>, reliable: bool) {
    && |tr| >= 1 && tr[0] == RowInit(w)
    && forall i :: 0 <= i < |tr| - 1 ==> RowStepAt(w, tr, i, reliable)
  }

  ghost predicate RowReachable(w: Workflow, c: RowState, reliable: bool) {
    exists tr :: IsRowTrace(w, tr, reliable) && tr[|tr| - 1] == c
  }

  lemma RowReachInit(w: Workflow, reliable: bool)
    ensures RowReachable(w, RowInit(w), reliable)
  {
    assert IsRowTrace(w, [RowInit(w)], reliable);
  }

  lemma RowReachStep(w: Workflow, c: RowState, d: RowState, reliable: bool)
    requires RowReachable(w, c, reliable) && RowStep(w, c, d, reliable)
    ensures RowReachable(w, d, reliable)
  {
    var tr :| IsRowTrace(w, tr, reliable) && tr[|tr| - 1] == c;
    var longer := tr + [d];
    forall i | 0 <= i < |longer| - 1 ensures RowStepAt(w, longer, i, reliable) {
      if i < |tr| - 1 { assert RowStepAt(w, tr, i, reliable); }
    }
    assert IsRowTrace(w, longer, reliable);
  }

  // ---------------------------------------------------------------- the view of the rows

  /** The first row of each node decides. */
  function View(rows: seq<RunJob>): map<Key, JobStatus> {
    map k | k in (set i | 0 <= i < |rows| :: rows[i].node) :: StatusOf(rows, k).GetOr(Queued)
  }

  lemma ViewHas(rows: seq<RunJob>)
    ensures forall k :: k in View(rows) <==> HasRow(rows, k)
    ensures forall k :: k in View(rows) ==> StatusOf(rows, k) == Some(View(rows)[k])
  {
  }

  lemma ViewIs(rows: seq<RunJob>, m: map<Key, JobStatus>)
    requires forall k :: k in m <==> HasRow(rows, k)
    requires forall k :: k in m ==> StatusOf(rows, k) == Some(m[k])
    ensures View(rows) == m
  {
    ViewHas(rows);
  }

  /** No earlier row is of the same node. */
  predicate IsFirst(rows: seq<RunJob>, i: nat)
    requires i < |rows|
  {
    forall j :: 0 <= j < i ==> rows[j].node != rows[i].node
  }

  lemma FirstStatus(rows: seq<RunJob>, i: nat)
    requires i < |rows| && IsFirst(rows, i)
    ensures StatusOf(rows, rows[i].node) == Some(rows[i].status)
  {
    assert HasRow(rows, rows[i].node);
    var r := StatusOf(rows, rows[i].node);
    var j :| 0 <= j < |rows| && rows[j] == RunJob(rows[i].node, r.value) &&
             forall a :: 0 <= a < j ==> rows[a].node != rows[i].node;
  }

  lemma FirstExists(rows: seq<RunJob>, k: Key) returns (i: nat)
    requires HasRow(rows, k)
    ensures i < |rows| && rows[i].node == k && IsFirst(rows, i) && StatusOf(rows, k) == Some(rows[i].status)
  {
    var r := StatusOf(rows, k);
    i :| 0 <= i < |rows| && rows[i] == RunJob(k, r.value) && forall j :: 0 <= j < i ==> rows[j].node != k;
  }

  lemma StatusAppended(rows: seq<RunJob>, r: RunJob, k: Key)
    ensures StatusOf(rows + [r], k) ==
              if HasRow(rows, k) then StatusOf(rows, k) else if r.node == k then Some(r.status) else None
  {
    var more := rows + [r];
    assert more[..|rows|] == rows;
  }

  /** A row of a node that has one is not seen; a first row is. */
  lemma ViewAppended(rows: seq<RunJob>, r: RunJob)
    ensures View(rows + [r]) == if HasRow(rows, r.node) then View(rows) else View(rows)[r.node := r.status]
  {
    var m := if HasRow(rows, r.node) then View(rows) else View(rows)[r.node := r.status];
    RowAppended(rows, r);
    ViewHas(rows);
    forall k | k in m ensures StatusOf(rows + [r], k) == Some(m[k]) {
      StatusAppended(rows, r, k);
    }
    ViewIs(rows + [r], m);
  }

  lemma SameNodes(rows: seq<RunJob>, more: seq<RunJob>)
    requires |rows| == |more| && forall i :: 0 <= i < |rows| ==> rows[i].node == more[i].node
    ensures forall k :: HasRow(more, k) <==> HasRow(rows, k)
  {
    forall k ensures HasRow(more, k) <==> HasRow(rows, k) {
      if j :| 0 <= j < |rows| && rows[j].node == k { assert more[j].node == k; }
      if j :| 0 <= j < |more| && more[j].node == k { assert rows[j].node == k; }
    }
  }

  function Updated(rows: seq<RunJob>, i: nat, o: JobStatus): (r: seq<RunJob>)
    requires i < |rows|
    ensures |r| == |rows| && forall j :: 0 <= j < |rows| ==> r[j].node == rows[j].node
  {
    rows[i := RunJob(rows[i].node, o)]
  }

  lemma StatusUpdated(rows: seq<RunJob>, i: nat, o: JobStatus, k: Key)
    requires i < |rows| && HasRow(rows, k)
    ensures StatusOf(Updated(rows, i, o), k) ==
              if k == rows[i].node && IsFirst(rows, i) then Some(o) else StatusOf(rows, k)
  {
    var a := FirstExists(rows, k);
    var more := Updated(rows, i, o);
    assert IsFirst(more, a) && more[a].node == k;
    FirstStatus(more, a);
  }

  lemma ViewUpdated(rows: seq<RunJob>, i: nat, o: JobStatus)
    requires i < |rows|
    ensures View(Updated(rows, i, o)) == if IsFirst(rows, i) then View(rows)[rows[i].node := o] else View(rows)
  {
    var m := if IsFirst(rows, i) then View(rows)[rows[i].node := o] else View(rows);
    SameNodes(rows, Updated(rows, i, o));
    ViewHas(rows);
    assert HasRow(rows, rows[i].node);
    forall k | k in m ensures StatusOf(Updated(rows, i, o), k) == Some(m[k]) {
      StatusUpdated(rows, i, o, k);
    }
    ViewIs(Updated(rows, i, o), m);
  }

  // ---------------------------------------------------------------- the abstraction

  predicate TargetsFrom(eligible: seq<Edge>, next: nat, v: Key) {
    exists k: nat :: next <= k < |eligible| && eligible[k].down == v
  }

  /** What the call will still start: startable targets of the edges it has not come to, unless another edge has
      started them. */
  function Todo(w: Workflow, rows: seq<RunJob>, n: Note, seen: seq<RunJob>, next: nat): set<Key> {
    set v | v in w.nodes && !HasRow(rows, v) && Releasable(w, seen, v) && TargetsFrom(EligibleDeps(w.deps, n), next, v)
  }

  function AbsCall(w: Workflow, c: RowState): Call {
    match c.call
    case RowIdle => Idle
    case RowWorking(n, seen, next) => Working(n, Todo(w, c.rows, n, seen, next))
  }

  function Abs(w: Workflow, c: RowState): RunState {
    RunState(View(c.rows), c.status, c.pending, AbsCall(w, c))
  }

  lemma ReleasableMeans(w: Workflow, seen: seq<RunJob>, k: Key)
    ensures Releasable(w, seen, k) <==> FanIn(w, View(seen), k) && k !in View(seen) && k in w.nodes
  {
    ViewHas(seen);
  }

  lemma TargetMeans(w: Workflow, n: Note, k: Key)
    ensures TargetsFrom(EligibleDeps(w.deps, n), 0, k) <==> Covers(w, n.node, k, n.outcome)
  {
    var e := EligibleDeps(w.deps, n);
    if i: nat :| i < |e| && e[i].down == k {
      assert e[i] in e;
      var j :| 0 <= j < |w.deps| && w.deps[j] == e[i];
    }
    if i :| 0 <= i < |w.deps| && w.deps[i].up == n.node && w.deps[i].down == k && Matches(w.deps[i].cond, n.outcome) {
      assert w.deps[i] in e;
      var j :| 0 <= j < |e| && e[j] == w.deps[i];
    }
  }

  /** At its start a call has settled to start what the protocol releases. */
  lemma TodoAtStart(w: Workflow, rows: seq<RunJob>, n: Note)
    ensures Todo(w, rows, n, rows, 0) == ReleaseSet(w, View(rows), n)
  {
    ViewHas(rows);
    forall v ensures v in Todo(w, rows, n, rows, 0) <==> v in ReleaseSet(w, View(rows), n) {
      ReleasableMeans(w, rows, v);
      TargetMeans(w, n, v);
    }
  }

  lemma ClosingMeans(w: Workflow, rows: seq<RunJob>)
    ensures RowsAllTerminal(w, rows) <==> AllTerminal(w, View(rows))
    ensures UniqueRows(rows) ==> RowsVerdict(rows) == Verdict(View(rows))
  {
    ViewHas(rows);
    if UniqueRows(rows) {
      forall i | 0 <= i < |rows| ensures rows[i].node in View(rows) && View(rows)[rows[i].node] == rows[i].status {
        assert HasRow(rows, rows[i].node);
        FirstStatus(rows, i);
      }
      VerdictMeans(rows);
    }
  }

  /** All rows of a node have the same status. */
  ghost predicate Even(rows: seq<RunJob>) {
    forall i :: 0 <= i < |rows| ==> rows[i].node in View(rows) && View(rows)[rows[i].node] == rows[i].status
  }

  lemma VerdictMeans(rows: seq<RunJob>)
    requires Even(rows)
    ensures RowsVerdict(rows) == Verdict(View(rows))
  {
    ViewHas(rows);
    if k :| k in View(rows) && (View(rows)[k] == Failed || View(rows)[k] == DeadLetter) {
      var i :| 0 <= i < |rows| && rows[i].node == k;
      assert rows[i].status == View(rows)[k];
    }
  }

  lemma {:induction false} RootRowsMeans(w: Workflow, nodes: seq<Key>)
    requires Distinct(nodes)
    ensures UniqueRows(RootRows(w, nodes))
    ensures forall r :: r in RootRows(w, nodes) ==> r.status == Queued
    ensures forall k :: HasRow(RootRows(w, nodes), k) <==> k in nodes && IsRoot(w, k)
  {
    if nodes != [] {
      var k := |nodes| - 1;
      var before := RootRows(w, nodes[..k]);
      RootRowsMeans(w, nodes[..k]);
      RowAppended(before, RunJob(nodes[k], Queued));
      assert nodes == nodes[..k] + [nodes[k]];
      assert before + [] == before;
    }
  }

  lemma AllQueuedView(rows: seq<RunJob>)
    requires forall r :: r in rows ==> r.status == Queued
    ensures forall k :: k in View(rows) ==> View(rows)[k] == Queued
  {
    ViewHas(rows);
    forall k | k in View(rows) ensures View(rows)[k] == Queued {
      var i := FirstExists(rows, k);
      assert rows[i] in rows;
    }
  }

  lemma InitMeans(w: Workflow)
    requires WellFormed(w)
    ensures Abs(w, RowInit(w)) == Init(w) && UniqueRows(RowInit(w).rows)
  {
    var rows := RootRows(w, w.nodes);
    RootRowsMeans(w, w.nodes);
    ViewHas(rows);
    AllQueuedView(rows);
    assert View(rows) == Init(w).jobs;
  }

  // ---------------------------------------------------------------- every row step is a protocol step, or none

  ghost predicate DistinctDowns(edges: seq<Edge>) {
    forall i, j :: 0 <= i < j < |edges| ==> edges[i].down != edges[j].down
  }

  /** The eligible edges of a call lead to different nodes. */
  lemma {:induction false} EligibleDistinct(w: Workflow, deps: seq<Edge>, n: Note)
    requires NoParallelMatch(w) && deps <= w.deps
    ensures DistinctDowns(EligibleDeps(deps, n))
  {
    if deps != [] {
      var k := |deps| - 1;
      var rest := EligibleDeps(deps[..k], n);
      EligibleDistinct(w, deps[..k], n);
      if IsEligible(deps[k], n) {
        forall i | 0 <= i < |rest| ensures rest[i].down != deps[k].down {
          assert rest[i] in rest;
          assert rest[i] in deps[..k];
          var j :| 0 <= j < k && deps[..k][j] == rest[i];
          assert w.deps[j] == deps[j] && w.deps[k] == deps[k];
        }
      }
    }
  }

  /** With one row for each node, the edges a call has not come to lead to nodes without a row. */
  ghost predicate SingleInv(w: Workflow, c: RowState) {
    && UniqueRows(c.rows)
    && (c.call.RowWorking? ==>
          var e := EligibleDeps(w.deps, c.call.note);
          forall k: nat :: c.call.next <= k < |e| && Releasable(w, c.call.seen, e[k].down) ==>
            !HasRow(c.rows, e[k].down))
  }

  lemma TodoKept(w: Workflow, c: RowState, i: nat, o: JobStatus)
    requires i < |c.rows|
    ensures AbsCall(w, RowFinish(c, i, o)) == AbsCall(w, c)
  {
    SameNodes(c.rows, Updated(c.rows, i, o));
  }

  lemma FinishSimulates(w: Workflow, c: RowState, i: nat, o: JobStatus, m: Mode)
    requires CanRowFinish(c, i, o) && (m.single ==> UniqueRows(c.rows))
    ensures Step(w, Abs(w, c), Abs(w, RowFinish(c, i, o)), m)
  {
    hide AbsCall, View, Updated;
    var n := Note(c.rows[i].node, o);
    ViewUpdated(c.rows, i, o);
    ViewHas(c.rows);
    assert HasRow(c.rows, n.node);
    TodoKept(w, c, i, o);
    if IsFirst(c.rows, i) {
      FirstStatus(c.rows, i);
      assert CanFinish(Abs(w, c), n) && Abs(w, RowFinish(c, i, o)) == Finish(Abs(w, c), n);
    } else {
      assert CanEcho(Abs(w, c), n) && Abs(w, RowFinish(c, i, o)) == Echo(Abs(w, c), n);
    }
  }

  lemma FinishSingle(w: Workflow, c: RowState, i: nat, o: JobStatus)
    requires SingleInv(w, c) && CanRowFinish(c, i, o)
    ensures SingleInv(w, RowFinish(c, i, o))
  {
    SameNodes(c.rows, Updated(c.rows, i, o));
  }

  lemma BeginSimulates(w: Workflow, c: RowState, n: Note, m: Mode)
    requires CanRowBegin(c, n)
    ensures Step(w, Abs(w, c), Abs(w, RowBegin(c, n)), m)
    ensures SingleInv(w, c) ==> SingleInv(w, RowBegin(c, n))
  {
    TodoAtStart(w, c.rows, n);
    assert CanBegin(Abs(w, c), n) && Abs(w, RowBegin(c, n)) == Begin(w, Abs(w, c), n);
  }

  lemma CloseSimulates(w: Workflow, c: RowState, m: Mode)
    requires CanRowClose(w, c) && (m.single ==> UniqueRows(c.rows))
    ensures Step(w, Abs(w, c), Abs(w, RowClose(w, c)), m)
  {
    ClosingMeans(w, c.rows);
    var s := Abs(w, c);
    assert s.call.todo == {};
    assert CanClose(w, s, RowsVerdict(c.rows), m);
    assert Abs(w, RowClose(w, c)) == Close(w, s, RowsVerdict(c.rows));
  }

  lemma TodoAdvances(w: Workflow, rows: seq<RunJob>, n: Note, seen: seq<RunJob>, next: nat)
    requires next < |EligibleDeps(w.deps, n)|
    ensures var v, e := EligibleDeps(w.deps, n)[next].down, EligibleDeps(w.deps, n);
            && Todo(w, rows, n, seen, next + 1) <= Todo(w, rows, n, seen, next)
            && Todo(w, rows, n, seen, next) <= Todo(w, rows, n, seen, next + 1) + {v}
            && (v in Todo(w, rows, n, seen, next) <==> !HasRow(rows, v) && Releasable(w, seen, v))
  {
    var e := EligibleDeps(w.deps, n);
    forall x ensures TargetsFrom(e, next, x) <==> TargetsFrom(e, next + 1, x) || x == e[next].down {
      if k: nat :| next <= k < |e| && e[k].down == x { if k > next { assert TargetsFrom(e, next + 1, x); } }
      if x == e[next].down { assert TargetsFrom(e, next, x); }
    }
  }

  lemma TodoAppended(w: Workflow, rows: seq<RunJob>, r: RunJob, n: Note, seen: seq<RunJob>, next: nat)
    ensures Todo(w, rows + [r], n, seen, next) == Todo(w, rows, n, seen, next) - {r.node}
  {
    RowAppended(rows, r);
  }

  /** The edge adds no row. */
  lemma PassSimulates(w: Workflow, c: RowState, queueFound: bool, m: Mode)
    requires CanRowStart(w, c) && (m.reliable ==> queueFound)
    requires RowFor(w, c.call.seen, EligibleDeps(w.deps, c.call.note)[c.call.next], queueFound) == []
    ensures var s, t := Abs(w, c), Abs(w, RowStart(w, c, queueFound));
            t == s || Step(w, s, t, m)
  {
    var n, seen, next := c.call.note, c.call.seen, c.call.next;
    var v := EligibleDeps(w.deps, n)[next].down;
    var s, t := Abs(w, c), Abs(w, RowStart(w, c, queueFound));
    assert c.rows + [] == c.rows;
    TodoAdvances(w, c.rows, n, seen, next);
    if v in s.call.todo && v !in t.call.todo {
      assert t.call.todo == s.call.todo - {v};
      assert CanStart(s, v) && t == Skip(s, v);
    } else {
      assert t.call.todo == s.call.todo;
    }
  }

  /** The edge adds a row. */
  lemma StartSimulates(w: Workflow, c: RowState, m: Mode)
    requires CanRowStart(w, c)
    requires Releasable(w, c.call.seen, EligibleDeps(w.deps, c.call.note)[c.call.next].down)
    ensures var s, t := Abs(w, c), Abs(w, RowStart(w, c, true));
            t == s || Step(w, s, t, m)
  {
    var n, seen, next := c.call.note, c.call.seen, c.call.next;
    var v := EligibleDeps(w.deps, n)[next].down;
    var r := RunJob(v, Queued);
    var s, t := Abs(w, c), Abs(w, RowStart(w, c, true));
    ViewAppended(c.rows, r);
    TodoAppended(w, c.rows, r, n, seen, next + 1);
    TodoAdvances(w, c.rows, n, seen, next);
    if HasRow(c.rows, v) {
      assert t.call.todo == s.call.todo;
    } else {
      assert t.call.todo == s.call.todo - {v};
      assert CanStart(s, v) && t == Start(s, v);
    }
  }

  lemma StartSingle(w: Workflow, c: RowState, queueFound: bool)
    requires NoParallelMatch(w) && SingleInv(w, c) && CanRowStart(w, c)
    ensures SingleInv(w, RowStart(w, c, queueFound))
  {
    var e := EligibleDeps(w.deps, c.call.note);
    var r := RunJob(e[c.call.next].down, Queued);
    EligibleDistinct(w, w.deps, c.call.note);
    RowAppended(c.rows, r);
    assert c.rows + [] == c.rows;
  }

  lemma SingleIsUnique(w: Workflow, c: RowState)
    requires SingleInv(w, c)
    ensures UniqueRows(c.rows)
  {
  }

  lemma CloseSingle(w: Workflow, c: RowState)
    requires SingleInv(w, c)
    ensures SingleInv(w, RowClose(w, c))
  {
  }

  /** Each step on the stored rows is a step of the protocol or leaves its state alone. */
  lemma StepSimulates(w: Workflow, c: RowState, d: RowState, m: Mode)
    requires RowStep(w, c, d, m.reliable) && (m.single ==> NoParallelMatch(w) && SingleInv(w, c))
    ensures Abs(w, d) == Abs(w, c) || Step(w, Abs(w, c), Abs(w, d), m)
    ensures m.single ==> SingleInv(w, d)
  {
    hide SingleInv, Step, Abs, UniqueRows, NoParallelMatch;
    if m.single { SingleIsUnique(w, c); }
    if i, o :| CanRowFinish(c, i, o) && d == RowFinish(c, i, o) {
      FinishSimulates(w, c, i, o, m);
      if m.single { FinishSingle(w, c, i, o); }
    } else if n :| CanRowBegin(c, n) && d == RowBegin(c, n) {
      BeginSimulates(w, c, n, m);
    } else if CanRowClose(w, c) && d == RowClose(w, c) {
      CloseSimulates(w, c, m);
      if m.single { CloseSingle(w, c); }
    } else if CanRowStart(w, c) && (d == RowStart(w, c, true) || (!m.reliable && d == RowStart(w, c, false))) {
      LoopTurnSimulates(w, c, d, m);
    } else if n :| n in c.pending && d == RowLose(c, n) {
      LoseSimulates(w, c, n, m);
    } else {
      AbortSimulates(w, c, m);
    }
  }

  lemma AbortSimulates(w: Workflow, c: RowState, m: Mode)
    requires c.call.RowWorking? && !m.reliable
    ensures Step(w, Abs(w, c), Abs(w, RowAbort(c)), m)
    ensures SingleInv(w, c) ==> SingleInv(w, RowAbort(c))
  {
    assert Abs(w, RowAbort(c)) == Abort(Abs(w, c));
  }

  lemma LoseSimulates(w: Workflow, c: RowState, n: Note, m: Mode)
    requires n in c.pending && !m.reliable
    ensures Step(w, Abs(w, c), Abs(w, RowLose(c, n)), m)
    ensures SingleInv(w, c) ==> SingleInv(w, RowLose(c, n))
  {
    assert Abs(w, RowLose(c, n)) == Lose(Abs(w, c), n);
  }

  lemma LoopTurnSimulates(w: Workflow, c: RowState, d: RowState, m: Mode)
    requires CanRowStart(w, c) && (m.single ==> NoParallelMatch(w) && SingleInv(w, c))
    requires d == RowStart(w, c, true) || (!m.reliable && d == RowStart(w, c, false))
    ensures Abs(w, d) == Abs(w, c) || Step(w, Abs(w, c), Abs(w, d), m)
    ensures m.single ==> SingleInv(w, d)
  {
    var queueFound := d == RowStart(w, c, true);
    var dep := EligibleDeps(w.deps, c.call.note)[c.call.next];
    if RowFor(w, c.call.seen, dep, queueFound) == [] {
      PassSimulates(w, c, queueFound, m);
    } else {
      StartSimulates(w, c, m);
    }
    if m.single { StartSingle(w, c, queueFound); }
  }

  lemma {:induction false} TraceSimulates(w: Workflow, tr: seq<RowState>, m: Mode, i: nat)
    requires WellFormed(w) && (m.single ==> NoParallelMatch(w)) && IsRowTrace(w, tr, m.reliable) && i < |tr|
    ensures Reachable(w, Abs(w, tr[i]), m) && (m.single ==> SingleInv(w, tr[i]))
  {
    hide RowStep, Step, SingleInv;
    if i == 0 {
      InitMeans(w);
      InitSingle(w);
      ReachInit(w, m);
    } else {
      var c, d := tr[i - 1], tr[i];
      TraceSimulates(w, tr, m, i - 1);
      assert RowStepAt(w, tr, i - 1, m.reliable);
      StepSimulates(w, c, d, m);
      if Abs(w, d) != Abs(w, c) { ReachStep(w, Abs(w, c), Abs(w, d), m); }
    }
  }

  lemma InitSingle(w: Workflow)
    requires WellFormed(w)
    ensures SingleInv(w, RowInit(w))
  {
    InitMeans(w);
  }

  /** Every reachable table shows a reachable protocol state; and if no parallel edges match together, it has at
      most one run-job for each node and the protocol state is one of a single run. */
  lemma RowsRefine(w: Workflow, c: RowState, reliable: bool)
    requires WellFormed(w) && RowReachable(w, c, reliable)
    ensures Reachable(w, Abs(w, c), Mode(reliable, false))
    ensures NoParallelMatch(w) ==> UniqueRows(c.rows) && Reachable(w, Abs(w, c), Mode(reliable, true))
  {
    RowsSimulate(w, c, Mode(reliable, false));
    if NoParallelMatch(w) { RowsSimulate(w, c, Mode(reliable, true)); }
  }

  lemma RowsSimulate(w: Workflow, c: RowState, m: Mode)
    requires WellFormed(w) && (m.single ==> NoParallelMatch(w)) && RowReachable(w, c, m.reliable)
    ensures Reachable(w, Abs(w, c), m) && (m.single ==> UniqueRows(c.rows))
  {
    hide RowStepAt, Reachable;
    var tr :| IsRowTrace(w, tr, m.reliable) && tr[|tr| - 1] == c;
    TraceSimulates(w, tr, m, |tr| - 1);
  }

  // ---------------------------------------------------------------- an undisturbed call on rows

  function DuringCall(w: Workflow, c: RowState, n: Note, k: nat): RowState
    requires k <= |EligibleDeps(w.deps, n)|
  {
    var rows := c.rows + ReleasedRows(w, c.rows, EligibleDeps(w.deps, n)[..k], QueueAlways());
    RowState(rows, c.status, c.pending - multiset{n}, RowWorking(n, c.rows, k))
  }

  lemma LoopTurn(w: Workflow, c: RowState, n: Note, k: nat)
    requires k < |EligibleDeps(w.deps, n)|
    ensures CanRowStart(w, DuringCall(w, c, n, k))
    ensures RowStart(w, DuringCall(w, c, n, k), true) == DuringCall(w, c, n, k + 1)
  {
    ReleasedNext(w, c.rows, EligibleDeps(w.deps, n), QueueAlways(), k);
  }

  lemma {:induction false} LoopRuns(w: Workflow, c: RowState, n: Note, k: nat)
    requires RowReachable(w, c, true) && CanRowBegin(c, n) && k <= |EligibleDeps(w.deps, n)|
    ensures RowReachable(w, DuringCall(w, c, n, k), true)
  {
    if k == 0 {
      RowReachStep(w, c, RowBegin(c, n), true);
      assert DuringCall(w, c, n, 0) == RowBegin(c, n);
    } else {
      LoopRuns(w, c, n, k - 1);
      LoopTurn(w, c, n, k - 1);
      RowReachStep(w, DuringCall(w, c, n, k - 1), DuringCall(w, c, n, k), true);
    }
  }

  /** What an undisturbed call for the note leaves, as RunRecord.OrchestrateWorkflowStep promises it. */
  function AfterCall(w: Workflow, c: RowState, n: Note): RowState {
    var rows := c.rows + ReleasedRows(w, c.rows, EligibleDeps(w.deps, n), QueueAlways());
    RowState(rows, if RowsAllTerminal(w, rows) then RowsVerdict(rows) else c.status, c.pending - multiset{n}, RowIdle)
  }

  /** An undisturbed call is a run of the row machine. */
  lemma CallIsRun(w: Workflow, c: RowState, n: Note)
    requires RowReachable(w, c, true) && CanRowBegin(c, n)
    ensures RowReachable(w, AfterCall(w, c, n), true)
  {
    var e := EligibleDeps(w.deps, n);
    LoopRuns(w, c, n, |e|);
    assert e[..|e|] == e;
    var d := DuringCall(w, c, n, |e|);
    RowReachStep(w, d, RowClose(w, d), true);
  }

  lemma {:induction false} StatusJoined(rows: seq<RunJob>, more: seq<RunJob>, k: Key)
    ensures StatusOf(rows + more, k) == if HasRow(rows, k) then StatusOf(rows, k) else StatusOf(more, k)
  {
    if more == [] {
      assert rows + more == rows;
    } else {
      var n := |more| - 1;
      assert more == more[..n] + [more[n]] && rows + more == (rows + more[..n]) + [more[n]];
      StatusJoined(rows, more[..n], k);
      StatusAppended(rows + more[..n], more[n], k);
      StatusAppended(more[..n], more[n], k);
      Joined(rows, more[..n]);
    }
  }

  function AllQueued(keys: set<Key>): map<Key, JobStatus> {
    map k | k in keys :: Queued
  }

  lemma ViewJoined(rows: seq<RunJob>, more: seq<RunJob>)
    requires forall r :: r in more ==> r.status == Queued && !HasRow(rows, r.node)
    ensures View(rows + more) == View(rows) + AllQueued(View(more).Keys)
  {
    var m := View(rows) + AllQueued(View(more).Keys);
    ViewHas(rows);
    ViewHas(more);
    AllQueuedView(more);
    Joined(rows, more);
    forall k | k in m ensures StatusOf(rows + more, k) == Some(m[k]) {
      StatusJoined(rows, more, k);
      if HasRow(more, k) { NotInBoth(rows, more, k); }
    }
    ViewIs(rows + more, m);
  }

  lemma NotInBoth(rows: seq<RunJob>, more: seq<RunJob>, k: Key)
    requires HasRow(more, k) && forall r :: r in more ==> !HasRow(rows, r.node)
    ensures !HasRow(rows, k)
  {
    var i :| 0 <= i < |more| && more[i].node == k;
    assert more[i] in more;
  }

  lemma EvenJoined(rows: seq<RunJob>, more: seq<RunJob>)
    requires Even(rows) && forall r :: r in more ==> r.status == Queued && !HasRow(rows, r.node)
    ensures Even(rows + more)
  {
    var all := rows + more;
    ViewJoined(rows, more);
    ViewHas(more);
    forall i | 0 <= i < |all| ensures all[i].node in View(all) && View(all)[all[i].node] == all[i].status {
      if i < |rows| {
        assert HasRow(rows, all[i].node);
        if HasRow(more, all[i].node) { NotInBoth(rows, more, all[i].node); }
      } else {
        assert all[i] == more[i - |rows|] && HasRow(more, all[i].node);
      }
    }
  }

  /** The rows one call creates show as the set the protocol releases. */
  lemma ReleasedMeansSet(w: Workflow, rows: seq<RunJob>, n: Note)
    ensures var rel := ReleasedRows(w, rows, EligibleDeps(w.deps, n), QueueAlways());
            && (forall r :: r in rel ==> r.status == Queued && !HasRow(rows, r.node))
            && View(rel).Keys == ReleaseSet(w, View(rows), n)
  {
    var e := EligibleDeps(w.deps, n);
    var rel := ReleasedRows(w, rows, e, QueueAlways());
    ReleasedNodes(w, rows, e, QueueAlways());
    ViewHas(rel);
    ViewHas(rows);
    forall k ensures k in View(rel) <==> k in ReleaseSet(w, View(rows), n) {
      ReleasableMeans(w, rows, k);
      TargetMeans(w, n, k);
      assert Targets(e, QueueAlways(), k) <==> TargetsFrom(e, 0, k);
    }
  }

  // ---------------------------------------------------------------- schedules without overlap, on rows

  /** Each note stands once, for a finished node. */
  ghost predicate NotesOnce(s: RunState) {
    forall n :: n in s.pending ==> s.pending[n] == 1 && n.node in s.jobs && Terminal(s.jobs[n.node])
  }

  /** The table shows exactly this protocol state, all rows of a node alike; of a note it may have more copies. */
  ghost predicate Shows(c: RowState, s: RunState) {
    && c.call.RowIdle? && s.call.Idle? && c.status == s.status && NotesOnce(s)
    && (forall n :: n in c.pending <==> n in s.pending)
    && View(c.rows) == s.jobs && Even(c.rows)
  }

  /** A call for the note has nothing to do. */
  predicate Settled(w: Workflow, c: RowState, n: Note) {
    && c.call.RowIdle? && ReleasedRows(w, c.rows, EligibleDeps(w.deps, n), QueueAlways()) == []
    && (RowsAllTerminal(w, c.rows) ==> c.status == RowsVerdict(c.rows))
  }

  lemma SettledCall(w: Workflow, c: RowState, n: Note)
    requires Settled(w, c, n)
    ensures AfterCall(w, c, n) == c.(pending := c.pending - multiset{n})
  {
    assert c.rows + [] == c.rows;
  }

  /** The further copies of a note change nothing but themselves. */
  lemma {:induction false} CopiesWorkedOff(w: Workflow, c: RowState, n: Note)
    requires RowReachable(w, c, true) && Settled(w, c, n)
    ensures RowReachable(w, c.(pending := c.pending[n := 0]), true)
    decreases c.pending[n]
  {
    if c.pending[n] == 0 {
      assert c.pending[n := 0] == c.pending;
    } else {
      var d := c.(pending := c.pending - multiset{n});
      SettledCall(w, c, n);
      CallIsRun(w, c, n);
      CopiesWorkedOff(w, d, n);
      assert d.pending[n := 0] == c.pending[n := 0];
    }
  }

  lemma NothingMoreReleased(w: Workflow, jobs: map<Key, JobStatus>, n: Note)
    ensures ReleaseSet(w, jobs + AllQueued(ReleaseSet(w, jobs, n)), n) == {}
  {
    var more := jobs + AllQueued(ReleaseSet(w, jobs, n));
    forall v | v in w.nodes && v !in more ensures !FanIn(w, more, v) || !Covers(w, n.node, v, n.outcome) {
      if FanIn(w, more, v) { assert FanIn(w, jobs, v); }
    }
  }

  lemma AfterCallShows(w: Workflow, c: RowState, s: RunState, n: Note)
    requires Shows(c, s) && CanBegin(s, n)
    ensures var d, t := AfterCall(w, c, n), WorkOff(w, s, n);
            && View(d.rows) == t.jobs && Even(d.rows) && d.status == t.status
            && (RowsAllTerminal(w, d.rows) ==> d.status == RowsVerdict(d.rows))
  {
    var rel := ReleasedRows(w, c.rows, EligibleDeps(w.deps, n), QueueAlways());
    ReleasedMeansSet(w, c.rows, n);
    ViewJoined(c.rows, rel);
    EvenJoined(c.rows, rel);
    ClosingMeans(w, c.rows + rel);
    VerdictMeans(c.rows + rel);
  }

  lemma NoRowsFrom(w: Workflow, rows: seq<RunJob>, n: Note)
    requires ReleaseSet(w, View(rows), n) == {}
    ensures ReleasedRows(w, rows, EligibleDeps(w.deps, n), QueueAlways()) == []
  {
    var rel := ReleasedRows(w, rows, EligibleDeps(w.deps, n), QueueAlways());
    assert rel != [] ==> HasRow(rel, rel[0].node);
    ReleasedMeansSet(w, rows, n);
    ViewHas(rel);
  }

  lemma CallSettles(w: Workflow, c: RowState, s: RunState, n: Note)
    requires Shows(c, s) && CanBegin(s, n)
    ensures Settled(w, AfterCall(w, c, n), n)
  {
    AfterCallShows(w, c, s, n);
    NothingMoreReleased(w, s.jobs, n);
    NoRowsFrom(w, AfterCall(w, c, n).rows, n);
  }

  lemma NotesWorkedOff(w: Workflow, s: RunState, n: Note)
    requires NotesOnce(s) && CanBegin(s, n)
    ensures NotesOnce(WorkOff(w, s, n)) && forall m :: m in WorkOff(w, s, n).pending <==> m in s.pending && m != n
  {
    var t := WorkOff(w, s, n);
    forall m | m in t.pending ensures t.pending[m] == 1 && m.node in t.jobs && Terminal(t.jobs[m.node]) {
      assert m in s.pending && m.node !in ReleaseSet(w, s.jobs, n);
    }
  }

  lemma CallMimicked(w: Workflow, c: RowState, s: RunState, n: Note) returns (d: RowState)
    requires RowReachable(w, c, true) && Shows(c, s) && CanBegin(s, n)
    ensures RowReachable(w, d, true) && Shows(d, WorkOff(w, s, n))
  {
    hide RowReachable, ReleaseSet, AllTerminal, Even, NotesOnce, View, Settled;
    hide RowsAllTerminal, ReleasedRows, EligibleDeps;
    CallIsRun(w, c, n);
    AfterCallShows(w, c, s, n);
    CallSettles(w, c, s, n);
    CopiesWorkedOff(w, AfterCall(w, c, n), n);
    NotesWorkedOff(w, s, n);
    d := AfterCall(w, c, n).(pending := AfterCall(w, c, n).pending[n := 0]);
  }

  /** The rows with the first k of them, as far as they are of the note's node, finished. */
  function Replaced(rows: seq<RunJob>, n: Note, k: nat): (r: seq<RunJob>)
    requires k <= |rows|
    ensures |r| == |rows|
    ensures forall i :: 0 <= i < |rows| ==>
              r[i] == if i < k && rows[i].node == n.node then RunJob(n.node, n.outcome) else rows[i]
  {
    seq(|rows|, i requires 0 <= i < |rows| =>
      if i < k && rows[i].node == n.node then RunJob(n.node, n.outcome) else rows[i])
  }

  /** The number of rows of the note's node among the first k. */
  function Hits(rows: seq<RunJob>, n: Note, k: nat): (r: nat)
    requires k <= |rows|
    ensures r > 0 <==> exists i :: 0 <= i < k && rows[i].node == n.node
  {
    if k == 0 then 0 else Hits(rows, n, k - 1) + if rows[k - 1].node == n.node then 1 else 0
  }

  function DuringFinish(c: RowState, n: Note, k: nat): RowState
    requires k <= |c.rows|
  {
    c.(rows := Replaced(c.rows, n, k), pending := c.pending[n := c.pending[n] + Hits(c.rows, n, k)])
  }

  lemma FinishTurn(w: Workflow, c: RowState, n: Note, k: nat)
    requires k < |c.rows| && Finished(n.outcome)
    requires c.rows[k].node == n.node ==> !Terminal(c.rows[k].status)
    ensures DuringFinish(c, n, k + 1) == DuringFinish(c, n, k) ||
            RowStep(w, DuringFinish(c, n, k), DuringFinish(c, n, k + 1), true)
  {
    var d := DuringFinish(c, n, k);
    if c.rows[k].node == n.node {
      assert Updated(Replaced(c.rows, n, k), k, n.outcome) == Replaced(c.rows, n, k + 1);
      assert CanRowFinish(d, k, n.outcome) && RowFinish(d, k, n.outcome) == DuringFinish(c, n, k + 1);
    } else {
      assert Replaced(c.rows, n, k + 1) == Replaced(c.rows, n, k);
    }
  }

  lemma FinishNone(c: RowState, n: Note)
    ensures DuringFinish(c, n, 0) == c
  {
    assert Replaced(c.rows, n, 0) == c.rows;
  }

  /** All rows of one node finish with the same outcome, one after the other. */
  lemma {:induction false} FinishesUpTo(w: Workflow, c: RowState, n: Note, k: nat)
    requires RowReachable(w, c, true) && Finished(n.outcome) && k <= |c.rows|
    requires forall i :: 0 <= i < |c.rows| && c.rows[i].node == n.node ==> !Terminal(c.rows[i].status)
    ensures RowReachable(w, DuringFinish(c, n, k), true)
  {
    hide RowReachable, RowStep, DuringFinish;
    if k == 0 {
      FinishNone(c, n);
    } else {
      FinishesUpTo(w, c, n, k - 1);
      FinishTurn(w, c, n, k - 1);
      if DuringFinish(c, n, k) != DuringFinish(c, n, k - 1) {
        RowReachStep(w, DuringFinish(c, n, k - 1), DuringFinish(c, n, k), true);
      }
    }
  }

  lemma StatusReplaced(rows: seq<RunJob>, n: Note, k: Key)
    requires Even(rows) && HasRow(rows, k)
    ensures StatusOf(Replaced(rows, n, |rows|), k) == Some(if k == n.node then n.outcome else View(rows)[k])
  {
    var r := Replaced(rows, n, |rows|);
    var i := FirstExists(rows, k);
    assert r[i].node == k;
    assert IsFirst(r, i) by { forall j | 0 <= j < i ensures r[j].node != k { assert rows[j].node != k; } }
    FirstStatus(r, i);
  }

  lemma ReplacedView(rows: seq<RunJob>, n: Note)
    requires Even(rows) && HasRow(rows, n.node)
    ensures View(Replaced(rows, n, |rows|)) == View(rows)[n.node := n.outcome]
  {
    var r, m := Replaced(rows, n, |rows|), View(rows)[n.node := n.outcome];
    ViewHas(rows);
    SameNodes(rows, r);
    forall k | k in m ensures StatusOf(r, k) == Some(m[k]) { StatusReplaced(rows, n, k); }
    ViewIs(r, m);
  }

  lemma ReplacedEven(rows: seq<RunJob>, n: Note)
    requires Even(rows) && HasRow(rows, n.node)
    ensures Even(Replaced(rows, n, |rows|))
  {
    var r := Replaced(rows, n, |rows|);
    ReplacedView(rows, n);
    forall i | 0 <= i < |r| ensures r[i].node in View(r) && View(r)[r[i].node] == r[i].status {
      assert rows[i].node in View(rows);
    }
  }

  lemma UnfinishedRows(c: RowState, s: RunState, n: Note)
    requires Shows(c, s) && CanFinish(s, n)
    ensures HasRow(c.rows, n.node) && n !in s.pending
    ensures forall i :: 0 <= i < |c.rows| && c.rows[i].node == n.node ==> !Terminal(c.rows[i].status)
  {
    ViewHas(c.rows);
  }

  lemma FinishedShows(c: RowState, s: RunState, n: Note)
    requires Shows(c, s) && CanFinish(s, n)
    ensures Shows(DuringFinish(c, n, |c.rows|), Finish(s, n))
  {
    hide View, Even;
    UnfinishedRows(c, s, n);
    ReplacedView(c.rows, n);
    ReplacedEven(c.rows, n);
  }

  lemma FinishMimicked(w: Workflow, c: RowState, s: RunState, n: Note) returns (d: RowState)
    requires RowReachable(w, c, true) && Shows(c, s) && CanFinish(s, n)
    ensures RowReachable(w, d, true) && Shows(d, Finish(s, n))
  {
    hide RowReachable, Shows;
    UnfinishedRows(c, s, n);
    FinishesUpTo(w, c, n, |c.rows|);
    FinishedShows(c, s, n);
    d := DuringFinish(c, n, |c.rows|);
  }

  lemma PlainMimicked(w: Workflow, c: RowState, s: RunState, t: RunState) returns (d: RowState)
    requires RowReachable(w, c, true) && Shows(c, s) && PlainStep(w, s, t)
    ensures RowReachable(w, d, true) && Shows(d, t)
  {
    if n :| CanFinish(s, n) && t == Finish(s, n) {
      d := FinishMimicked(w, c, s, n);
    } else {
      var n :| CanBegin(s, n) && t == WorkOff(w, s, n);
      d := CallMimicked(w, c, s, n);
    }
  }

  lemma InitShown(w: Workflow)
    requires WellFormed(w)
    ensures Shows(RowInit(w), Init(w))
  {
    InitMeans(w);
    var rows := RowInit(w).rows;
    ViewHas(rows);
    forall i | 0 <= i < |rows| ensures rows[i].node in View(rows) && View(rows)[rows[i].node] == rows[i].status {
      assert HasRow(rows, rows[i].node);
      FirstStatus(rows, i);
    }
  }

  /** Every schedule without overlap can be taken on the rows, parallel edges or not. */
  lemma {:induction false} TraceMimicked(w: Workflow, tr: seq<RunState>, i: nat) returns (c: RowState)
    requires WellFormed(w) && IsPlain(w, tr) && i < |tr|
    ensures RowReachable(w, c, true) && Shows(c, tr[i])
  {
    hide Shows, PlainStep, RowReachable;
    if i == 0 {
      InitShown(w);
      RowReachInit(w, true);
      c := RowInit(w);
    } else {
      var s, t := tr[i - 1], tr[i];
      var before := TraceMimicked(w, tr, i - 1);
      assert PlainAt(w, tr, i - 1);
      c := PlainMimicked(w, before, s, t);
    }
  }

  // ---------------------------------------------------------------- stuck runs, on rows

  ghost predicate RowsQuiescent(c: RowState) {
    c.pending == multiset{} && c.call.RowIdle? && forall i :: 0 <= i < |c.rows| ==> Terminal(c.rows[i].status)
  }

  predicate RowsClosed(w: Workflow, c: RowState) {
    c.status != RunRunning && RowsAllTerminal(w, c.rows)
  }

  ghost predicate RowsNeverStuck(w: Workflow) {
    forall c :: RowReachable(w, c, true) && RowsQuiescent(c) ==> RowsClosed(w, c)
  }

  lemma QuietRows(w: Workflow, c: RowState)
    requires RowsQuiescent(c)
    ensures Quiescent(Abs(w, c)) && (Closed(w, Abs(w, c)) ==> RowsClosed(w, c))
  {
    ViewHas(c.rows);
    ClosingMeans(w, c.rows);
    forall k | k in View(c.rows) ensures Terminal(View(c.rows)[k]) {
      var i := FirstExists(c.rows, k);
    }
  }

  lemma ShownQuiet(w: Workflow, c: RowState, s: RunState)
    requires Shows(c, s) && Quiescent(s)
    ensures RowsQuiescent(c) && (RowsClosed(w, c) ==> Closed(w, s))
  {
    ClosingMeans(w, c.rows);
  }

  lemma PlainShown(w: Workflow, s: RunState) returns (c: RowState)
    requires WellFormed(w) && PlainReachable(w, s)
    ensures RowReachable(w, c, true) && Shows(c, s)
  {
    hide PlainAt, Shows, RowReachable;
    var tr :| IsPlain(w, tr) && tr[|tr| - 1] == s;
    c := TraceMimicked(w, tr, |tr| - 1);
  }

  lemma StrandedRows(w: Workflow)
    requires WellFormed(w) && CanStrand(w)
    ensures !RowsNeverStuck(w)
  {
    var s :| PlainReachable(w, s) && Quiescent(s) && !Closed(w, s);
    var c := PlainShown(w, s);
    ShownQuiet(w, c, s);
  }

  lemma RowsClose(w: Workflow, c: RowState)
    requires WellFormed(w) && NeverStuck(w, false) && RowReachable(w, c, true) && RowsQuiescent(c)
    ensures RowsClosed(w, c)
  {
    RowsRefine(w, c, true);
    QuietRows(w, c);
    NeverStuckUsed(w, Abs(w, c));
  }

  lemma NeverStuckUsed(w: Workflow, s: RunState)
    requires NeverStuck(w, false) && Reachable(w, s, Mode(true, false)) && Quiescent(s)
    ensures Closed(w, s)
  {
  }

  /** The stored run of a workflow, whatever its edges, can never get stuck exactly when the workflow is not
      empty, the cycle check accepts it, and every last upstream's outcome is accepted whichever way it ends. */
  lemma RowsNeverStuckIff(w: Workflow)
    requires WellFormed(w)
    ensures RowsNeverStuck(w) <==> w.nodes != [] && !Cyclic(w.deps) && LastUpstreamsCover(w)
  {
    if w.nodes != [] && !Cyclic(w.deps) && LastUpstreamsCover(w) {
      Sufficient(w, false);
      forall c | RowReachable(w, c, true) && RowsQuiescent(c) ensures RowsClosed(w, c) {
        RowsClose(w, c);
      }
    } else {
      Necessary(w);
      StrandedRows(w);
    }
  }
}
