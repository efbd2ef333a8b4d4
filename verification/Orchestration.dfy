/** startRun and orchestrateWorkflowStep as they work on the run-job rows, and exactly when a call creates two rows
    for one node. */
module Orchestration {
  import opened Common
  import opened Graph
  import opened WorkflowRun

  datatype RunJob = RunJob(node: Key, status: JobStatus)

  predicate HasRow(rows: seq<RunJob>, k: Key) {
    exists i :: 0 <= i < |rows| && rows[i].node == k
  }

  /** The status of a node is that of its first row. */
  function StatusOf(rows: seq<RunJob>, k: Key): (r: Option<JobStatus>)
    ensures r.None? <==> !HasRow(rows, k)
    ensures r.Some? ==> exists i :: 0 <= i < |rows| && rows[i] == RunJob(k, r.value) &&
                                    forall j :: 0 <= j < i ==> rows[j].node != k
  {
    if rows == [] then None
    else
      var n := |rows| - 1;
      var first := StatusOf(rows[..n], k);
      if first.Some? then
        assert HasRow(rows[..n], k);
        first
      else if rows[n].node == k then Some(rows[n].status)
      else
        assert !HasRow(rows[..n], k) && forall i :: 0 <= i < n ==> rows[..n][i].node == rows[i].node;
        None
  }

  predicate RowsFanIn(w: Workflow, rows: seq<RunJob>, v: Key) {
    forall i :: 0 <= i < |w.deps| && w.deps[i].down == v ==>
                  StatusOf(rows, w.deps[i].up).Some? && Finished(StatusOf(rows, w.deps[i].up).value)
  }

  predicate Releasable(w: Workflow, seen: seq<RunJob>, v: Key) {
    RowsFanIn(w, seen, v) && StatusOf(seen, v).None? && v in w.nodes
  }

  predicate IsEligible(d: Edge, n: Note) {
    d.up == n.node && Matches(d.cond, n.outcome)
  }

  /** The edges out of the note's node whose condition accepts the outcome. */
  function EligibleDeps(deps: seq<Edge>, n: Note): (r: seq<Edge>)
    ensures forall d :: d in r <==> d in deps && IsEligible(d, n)
  {
    if deps == [] then []
    else
      var k := |deps| - 1;
      var rest := EligibleDeps(deps[..k], n);
      assert deps == deps[..k] + [deps[k]];
      if IsEligible(deps[k], n) then rest + [deps[k]] else rest
  }

  /** The filter takes, in order and with their multiplicity, the edges out of the node that are Always, or
      OnSuccess when it completed, or OnFailure when it did not. */
  lemma {:induction false} EligibleExact(deps: seq<Edge>, u: Key, outcome: JobStatus) returns (at: seq<nat>)
    ensures Picks(deps, EligibleDeps(deps, Note(u, outcome)), at)
    ensures forall i: nat :: i in at <==>
              (i < |deps| && deps[i].up == u &&
               (deps[i].cond == Always || (deps[i].cond == OnSuccess && outcome == Completed) ||
                (deps[i].cond == OnFailure && outcome != Completed)))
  {
    var n := Note(u, outcome);
    if deps == [] {
      at := [];
    } else {
      var k := |deps| - 1;
      at := EligibleExact(deps[..k], u, outcome);
      PicksMore(deps[..k], deps[k], EligibleDeps(deps[..k], n), at);
      AppendedMember(at, k);
      assert deps == deps[..k] + [deps[k]];
      if IsEligible(deps[k], n) { at := at + [k]; }
    }
  }

  /** The edges a call looks at, whatever their order. */
  lemma EligibleMeans(deps: seq<Edge>, n: Note)
    ensures forall d :: d in EligibleDeps(deps, n) <==>
              d in deps && d.up == n.node &&
              (d.cond == Always || (d.cond == OnSuccess && n.outcome == Completed) ||
               (d.cond == OnFailure && n.outcome != Completed))
  {
  }

  /** The row that one eligible edge adds, if it adds one. */
  function RowFor(w: Workflow, seen: seq<RunJob>, dep: Edge, queueFound: bool): seq<RunJob> {
    if Releasable(w, seen, dep.down) && queueFound then [RunJob(dep.down, Queued)] else []
  }

  /** The rows one pass over the eligible edges creates, in order; queue gives the answer each edge gets when it
      looks for a queue. */
  function ReleasedRows(w: Workflow, seen: seq<RunJob>, eligible: seq<Edge>, queue: nat -> bool): seq<RunJob> {
    if eligible == [] then []
    else
      var k := |eligible| - 1;
      ReleasedRows(w, seen, eligible[..k], queue) + RowFor(w, seen, eligible[k], queue(k))
  }

  lemma ReleasedNext(w: Workflow, seen: seq<RunJob>, eligible: seq<Edge>, queue: nat -> bool, k: nat)
    requires k < |eligible|
    ensures ReleasedRows(w, seen, eligible[..k + 1], queue) ==
            ReleasedRows(w, seen, eligible[..k], queue) + RowFor(w, seen, eligible[k], queue(k))
  {
    assert eligible[..k + 1][..k] == eligible[..k];
  }

  function QueueAlways(): nat -> bool {
    (_: nat) => true
  }

  predicate RowsAllTerminal(w: Workflow, rows: seq<RunJob>) {
    forall k :: k in w.nodes ==> StatusOf(rows, k).Some? && Terminal(StatusOf(rows, k).value)
  }

  /** The first row of the node has one of these statuses. */
  predicate FirstIn(rows: seq<RunJob>, k: Key, statuses: set<JobStatus>) {
    exists i :: 0 <= i < |rows| && rows[i].node == k && rows[i].status in statuses &&
                forall j :: 0 <= j < i ==> rows[j].node != k
  }

  lemma FirstMeans(rows: seq<RunJob>, k: Key, statuses: set<JobStatus>)
    ensures FirstIn(rows, k, statuses) <==> StatusOf(rows, k).Some? && StatusOf(rows, k).value in statuses
  {
  }

  lemma TerminalMeans(w: Workflow, rows: seq<RunJob>)
    ensures RowsAllTerminal(w, rows) <==>
            forall k :: k in w.nodes ==> FirstIn(rows, k, {Completed, Failed, Cancelled, DeadLetter})
    ensures RowsVerdict(rows) == RunFailed <==> exists r :: r in rows && (r.status == Failed || r.status == DeadLetter)
  {
    forall k ensures FirstIn(rows, k, {Completed, Failed, Cancelled, DeadLetter}) <==>
                     StatusOf(rows, k).Some? && Terminal(StatusOf(rows, k).value)
    {
      FirstMeans(rows, k, {Completed, Failed, Cancelled, DeadLetter});
    }
  }

  lemma ReleasableMeansOpen(w: Workflow, seen: seq<RunJob>, v: Key)
    ensures Releasable(w, seen, v) <==>
            v in w.nodes && (forall r :: r in seen ==> r.node != v) &&
            forall d :: d in w.deps && d.down == v ==> FirstIn(seen, d.up, {Completed, Failed})
  {
    forall k ensures FirstIn(seen, k, {Completed, Failed}) <==>
                     StatusOf(seen, k).Some? && Finished(StatusOf(seen, k).value)
    {
      FirstMeans(seen, k, {Completed, Failed});
    }
    if RowsFanIn(w, seen, v) {
      forall d | d in w.deps && d.down == v ensures FirstIn(seen, d.up, {Completed, Failed}) {
        var i :| 0 <= i < |w.deps| && w.deps[i] == d;
      }
    }
  }

  function RowsVerdict(rows: seq<RunJob>): RunStatus {
    if exists i :: 0 <= i < |rows| && (rows[i].status == Failed || rows[i].status == DeadLetter)
    then RunFailed else RunCompleted
  }

  function RootRows(w: Workflow, nodes: seq<Key>): seq<RunJob> {
    if nodes == [] then []
    else
      var k := |nodes| - 1;
      RootRows(w, nodes[..k]) + if IsRoot(w, nodes[k]) then [RunJob(nodes[k], Queued)] else []
  }

  ghost predicate UniqueRows(rows: seq<RunJob>) {
    forall i, j :: 0 <= i < j < |rows| ==> rows[i].node != rows[j].node
  }

  /** Two eligible edges of one call lead to the same node, the call may start it, and both find a queue. */
  ghost predicate DoubleRelease(w: Workflow, seen: seq<RunJob>, eligible: seq<Edge>, queue: nat -> bool) {
    exists i: nat, j: nat :: i < j < |eligible| && eligible[i].down == eligible[j].down && queue(i) && queue(j) &&
                             Releasable(w, seen, eligible[i].down)
  }

  /** Some eligible edge leads to v and finds a queue. */
  predicate Targets(eligible: seq<Edge>, queue: nat -> bool, v: Key) {
    exists i: nat :: i < |eligible| && queue(i) && eligible[i].down == v
  }

  lemma TargetsExtend(eligible: seq<Edge>, queue: nat -> bool, v: Key)
    requires eligible != []
    ensures var k := |eligible| - 1;
            Targets(eligible, queue, v) <==> Targets(eligible[..k], queue, v) || (queue(k) && eligible[k].down == v)
  {
    var k := |eligible| - 1;
    var before := eligible[..k];
    if i: nat :| i < |before| && queue(i) && before[i].down == v { assert eligible[i].down == v; }
    if i: nat :| i < |eligible| && queue(i) && eligible[i].down == v {
      if i < k { assert before[i].down == v; }
    }
  }

  lemma RowAppended(rows: seq<RunJob>, r: RunJob)
    ensures UniqueRows(rows + [r]) <==> UniqueRows(rows) && !HasRow(rows, r.node)
    ensures forall v :: HasRow(rows + [r], v) <==> HasRow(rows, v) || v == r.node
  {
    var more := rows + [r];
    assert forall i :: 0 <= i < |rows| ==> more[i] == rows[i];
    assert more[|rows|] == r;
    forall v | HasRow(rows, v) ensures HasRow(more, v) {
      var i :| 0 <= i < |rows| && rows[i].node == v;
      assert more[i].node == v;
    }
    if UniqueRows(more) {
      forall i, j | 0 <= i < j < |rows| ensures rows[i].node != rows[j].node { assert more[i].node != more[j].node; }
    }
  }

  lemma {:induction false} ReleasedNodes(w: Workflow, seen: seq<RunJob>, eligible: seq<Edge>, queue: nat -> bool)
    ensures forall r :: r in ReleasedRows(w, seen, eligible, queue) ==>
              r.status == Queued && Releasable(w, seen, r.node)
    ensures forall v :: HasRow(ReleasedRows(w, seen, eligible, queue), v) <==>
                        Releasable(w, seen, v) && Targets(eligible, queue, v)
  {
    if eligible != [] {
      var k := |eligible| - 1;
      ReleasedNodes(w, seen, eligible[..k], queue);
      var rows := ReleasedRows(w, seen, eligible[..k], queue);
      RowAppended(rows, RunJob(eligible[k].down, Queued));
      assert rows + [] == rows;
      forall v
        ensures Targets(eligible, queue, v) <==> Targets(eligible[..k], queue, v) || (queue(k) && eligible[k].down == v)
      {
        TargetsExtend(eligible, queue, v);
      }
    }
  }

  /** An outcome makes this edge start its target: it leaves the node, its condition accepts the outcome, and the
      target is declared, has no row, and has only upstreams whose first row is Completed or Failed. */
  predicate Fires(w: Workflow, seen: seq<RunJob>, n: Note, d: Edge) {
    && d.up == n.node
    && (d.cond == Always || (d.cond == OnSuccess && n.outcome == Completed) ||
        (d.cond == OnFailure && n.outcome != Completed))
    && d.down in w.nodes && (forall r :: r in seen ==> r.node != d.down)
    && forall e :: e in w.deps && e.down == d.down ==> FirstIn(seen, e.up, {Completed, Failed})
  }

  /** more has one Queued row for the target of each edge at the positions from, in order. */
  ghost predicate StartsAt(deps: seq<Edge>, more: seq<RunJob>, from: seq<nat>) {
    && |from| == |more|
    && (forall a :: 0 <= a < |from| ==> from[a] < |deps| && more[a] == RunJob(deps[from[a]].down, Queued))
    && (forall a, b :: 0 <= a < b < |from| ==> from[a] < from[b])
  }

  lemma FiresMeans(w: Workflow, seen: seq<RunJob>, n: Note, d: Edge)
    requires d in w.deps
    ensures Fires(w, seen, n, d) <==> IsEligible(d, n) && Releasable(w, seen, d.down)
  {
    ReleasableMeansOpen(w, seen, d.down);
  }

  lemma StartsMore(deps: seq<Edge>, more: seq<RunJob>, from: seq<nat>, p: nat)
    requires StartsAt(deps, more, from) && p < |deps| && forall i :: i in from ==> i < p
    ensures StartsAt(deps, more + [RunJob(deps[p].down, Queued)], from + [p])
    ensures forall i: nat :: i in from + [p] <==> i in from || i == p
  {
    forall a | 0 <= a < |from| ensures from[a] < p { assert from[a] in from; }
    AppendedMember(from, p);
  }

  /** The last of the eligible edges, at position p. */
  lemma ReleasedLast(w: Workflow, seen: seq<RunJob>, n: Note, queue: nat -> bool, eligible: seq<Edge>, p: nat,
                     before: seq<nat>) returns (from: seq<nat>)
    requires eligible != [] && p < |w.deps| && eligible[|eligible| - 1] == w.deps[p] && IsEligible(w.deps[p], n)
    requires StartsAt(w.deps, ReleasedRows(w, seen, eligible[..|eligible| - 1], queue), before)
    requires forall i :: i in before ==> i < p
    ensures StartsAt(w.deps, ReleasedRows(w, seen, eligible, queue), from)
    ensures from == if Fires(w, seen, n, w.deps[p]) && queue(|eligible| - 1) then before + [p] else before
  {
    hide StartsAt, Fires, IsEligible, Releasable;
    var k := |eligible| - 1;
    FiresMeans(w, seen, n, w.deps[p]);
    from := before;
    if Releasable(w, seen, eligible[k].down) && queue(k) {
      StartsMore(w.deps, ReleasedRows(w, seen, eligible[..k], queue), before, p);
      from := before + [p];
    } else {
      assert ReleasedRows(w, seen, eligible[..k], queue) + [] == ReleasedRows(w, seen, eligible[..k], queue);
    }
  }

  lemma {:induction false} ReleasedAt(w: Workflow, seen: seq<RunJob>, n: Note, queue: nat -> bool,
                                      eligible: seq<Edge>, at: seq<nat>) returns (from: seq<nat>)
    requires Picks(w.deps, eligible, at) && forall d :: d in eligible ==> IsEligible(d, n)
    ensures StartsAt(w.deps, ReleasedRows(w, seen, eligible, queue), from)
    ensures forall i: nat :: i in from ==> i in at && Fires(w, seen, n, w.deps[i])
    ensures (forall k :: queue(k)) ==> forall i: nat :: i in at && Fires(w, seen, n, w.deps[i]) ==> i in from
    decreases |eligible|
  {
    if eligible == [] {
      from := [];
    } else {
      hide Fires, IsEligible, Picks, StartsAt, ReleasedRows;
      var k := |eligible| - 1;
      PicksInit(w.deps, eligible, at);
      assert eligible[k] in eligible;
      forall d | d in eligible[..k] ensures d in eligible {}
      var before := ReleasedAt(w, seen, n, queue, eligible[..k], at[..k]);
      from := ReleasedLast(w, seen, n, queue, eligible, at[k], before);
      AppendedMember(before, at[k]);
    }
  }

  /** A call adds, in the order of the edges, one row for each edge that fires and finds a queue, and no other. */
  lemma CallStarts(w: Workflow, seen: seq<RunJob>, n: Note, queue: nat -> bool) returns (from: seq<nat>)
    ensures StartsAt(w.deps, ReleasedRows(w, seen, EligibleDeps(w.deps, n), queue), from)
    ensures forall i: nat :: i in from ==> i < |w.deps| && Fires(w, seen, n, w.deps[i])
    ensures (forall k :: queue(k)) ==>
              forall i: nat :: i < |w.deps| && Fires(w, seen, n, w.deps[i]) ==> i in from
  {
    var at := EligibleExact(w.deps, n.node, n.outcome);
    from := ReleasedAt(w, seen, n, queue, EligibleDeps(w.deps, n), at);
  }

  /** nodes at the positions from, in order, get one Queued row each. */
  ghost predicate RootsAt(nodes: seq<Key>, rows: seq<RunJob>, from: seq<nat>) {
    && |from| == |rows|
    && (forall a :: 0 <= a < |from| ==> from[a] < |nodes| && rows[a] == RunJob(nodes[from[a]], Queued))
    && (forall a, b :: 0 <= a < b < |from| ==> from[a] < from[b])
  }

  lemma RootsMore(nodes: seq<Key>, k: Key, rows: seq<RunJob>, from: seq<nat>)
    requires RootsAt(nodes, rows, from)
    ensures RootsAt(nodes + [k], rows, from) && RootsAt(nodes + [k], rows + [RunJob(k, Queued)], from + [|nodes|])
    ensures forall i: nat :: i in from + [|nodes|] <==> i in from || i == |nodes|
  {
    AppendedMember(from, |nodes|);
  }

  /** A run starts, in node order, with one row for each node that no edge leads to. */
  lemma {:induction false} RootRowsExact(w: Workflow, nodes: seq<Key>) returns (from: seq<nat>)
    ensures RootsAt(nodes, RootRows(w, nodes), from)
    ensures forall i: nat :: i in from <==> i < |nodes| && forall d :: d in w.deps ==> d.down != nodes[i]
  {
    if nodes == [] {
      from := [];
    } else {
      var k := |nodes| - 1;
      from := RootRowsExact(w, nodes[..k]);
      RootsMore(nodes[..k], nodes[k], RootRows(w, nodes[..k]), from);
      assert nodes == nodes[..k] + [nodes[k]];
      assert RootRows(w, nodes[..k]) + [] == RootRows(w, nodes[..k]);
      assert IsRoot(w, nodes[k]) <==> forall d :: d in w.deps ==> d.down != nodes[k];
      if IsRoot(w, nodes[k]) { from := from + [k]; }
    }
  }

  /** The stored rows of one run. */
  class RunRecord {
    const w: Workflow
    var rows: seq<RunJob>
    var status: RunStatus

    constructor (w: Workflow)
      ensures this.w == w && rows == [] && status == RunRunning
    {
      this.w := w;
      rows, status := [], RunRunning;
    }

    /** startRun: queues every node without an upstream. Without a queue the first root aborts it. */
    method StartRun(queueFound: bool) returns (ok: bool, ghost from: seq<nat>)
      requires rows == []
      modifies `rows
      ensures ok <==> queueFound || from == []
      ensures rows == if ok then RootRows(w, w.nodes) else []
      ensures ok ==> RootsAt(w.nodes, rows, from)
      ensures forall i: nat :: i in from <==> i < |w.nodes| && forall d :: d in w.deps ==> d.down != w.nodes[i]
    {
      ok := true;
      from := RootRowsExact(w, w.nodes);
      forall k ensures IsRoot(w, k) <==> forall d :: d in w.deps ==> d.down != k {}
      for i := 0 to |w.nodes|
        invariant ok && rows == RootRows(w, w.nodes[..i])
        invariant !queueFound ==> rows == [] && forall j :: 0 <= j < i ==> !IsRoot(w, w.nodes[j])
      {
        assert w.nodes[..i + 1][..i] == w.nodes[..i];
        if IsRoot(w, w.nodes[i]) {
          assert i in from;
          if !queueFound { return false, from; }
          rows := rows + [RunJob(w.nodes[i], Queued)];
        }
      }
      assert w.nodes[..|w.nodes|] == w.nodes;
      assert from != [] ==> from[0] in from;
    }

    /** One turn of the loop over the eligible edges: every test reads the snapshot. */
    method StartDownstream(seen: seq<RunJob>, dep: Edge, queueFound: bool)
      modifies `rows
      ensures rows == old(rows) + RowFor(w, seen, dep, queueFound)
      ensures rows == old(rows) || rows == old(rows) + [RunJob(dep.down, Queued)]
      ensures rows != old(rows) <==>
                && queueFound && dep.down in w.nodes && (forall r :: r in seen ==> r.node != dep.down)
                && forall e :: e in w.deps && e.down == dep.down ==> FirstIn(seen, e.up, {Completed, Failed})
    {
      ReleasableMeansOpen(w, seen, dep.down);
      if !RowsFanIn(w, seen, dep.down) { return; }
      if StatusOf(seen, dep.down).Some? { return; }
      if dep.down !in w.nodes { return; }
      if !queueFound { return; }
      rows := rows + [RunJob(dep.down, Queued)];
    }

    /** The end of orchestrateWorkflowStep: the completion test reads the table as it is now.  A run is closed once
        the first row of each node is terminal, and then it has failed exactly if any row of it has. */
    method CloseWhenComplete()
      modifies `status
      ensures status == if RowsAllTerminal(w, rows) then RowsVerdict(rows) else old(status)
      ensures !(forall k :: k in w.nodes ==> FirstIn(rows, k, {Completed, Failed, Cancelled, DeadLetter})) ==>
                status == old(status)
      ensures (forall k :: k in w.nodes ==> FirstIn(rows, k, {Completed, Failed, Cancelled, DeadLetter})) ==>
                status != RunRunning &&
                (status == RunFailed <==> exists r :: r in rows && (r.status == Failed || r.status == DeadLetter))
    {
      TerminalMeans(w, rows);
      if RowsAllTerminal(w, rows) { status := RowsVerdict(rows); }
    }

    /** orchestrateWorkflowStep with nothing in between; a call that misses the lock does nothing. */
    method OrchestrateWorkflowStep(n: Note, lockFree: bool, queue: nat -> bool) returns (ghost from: seq<nat>)
      modifies this
      ensures !lockFree ==> rows == old(rows) && status == old(status)
      ensures lockFree ==> rows == old(rows) + ReleasedRows(w, old(rows), EligibleDeps(w.deps, n), queue)
      ensures lockFree ==> status == if RowsAllTerminal(w, rows) then RowsVerdict(rows) else old(status)
      ensures lockFree ==> |rows| >= |old(rows)| && StartsAt(w.deps, rows[|old(rows)|..], from)
      ensures forall i: nat :: i in from ==> i < |w.deps| && Fires(w, old(rows), n, w.deps[i])
      ensures (forall k :: queue(k)) ==>
                forall i: nat :: i < |w.deps| && Fires(w, old(rows), n, w.deps[i]) ==> i in from
    {
      hide RowsAllTerminal, RowsVerdict, FirstIn, RowFor, Fires, StartsAt;
      from := CallStarts(w, rows, n, queue);
      if !lockFree { return; }
      var seen := rows;
      var eligible := EligibleDeps(w.deps, n);
      for i := 0 to |eligible|
        invariant rows == seen + ReleasedRows(w, seen, eligible[..i], queue) && status == old(status)
      {
        StartDownstream(seen, eligible[i], queue(i));
        ReleasedNext(w, seen, eligible, queue, i);
      }
      assert eligible[..|eligible|] == eligible;
      assert rows[|seen|..] == ReleasedRows(w, seen, eligible, queue);
      CloseWhenComplete();
    }
  }

  // ---------------------------------------------------------------- one job per node

  lemma {:induction false} ReleasedUnique(w: Workflow, seen: seq<RunJob>, eligible: seq<Edge>, queue: nat -> bool)
    ensures UniqueRows(ReleasedRows(w, seen, eligible, queue)) <==> !DoubleRelease(w, seen, eligible, queue)
  {
    if eligible != [] {
      var k := |eligible| - 1;
      var rows := ReleasedRows(w, seen, eligible[..k], queue);
      ReleasedUnique(w, seen, eligible[..k], queue);
      ReleasedNodes(w, seen, eligible[..k], queue);
      DoubleReleaseExtend(w, seen, eligible, queue);
      RowAppended(rows, RunJob(eligible[k].down, Queued));
      assert rows + [] == rows;
    }
  }

  lemma DoubleReleaseExtend(w: Workflow, seen: seq<RunJob>, eligible: seq<Edge>, queue: nat -> bool)
    requires eligible != []
    ensures var k := |eligible| - 1;
            DoubleRelease(w, seen, eligible, queue) <==>
            DoubleRelease(w, seen, eligible[..k], queue) ||
            (queue(k) && Releasable(w, seen, eligible[k].down) && Targets(eligible[..k], queue, eligible[k].down))
  {
    var k := |eligible| - 1;
    var before := eligible[..k];
    if DoubleRelease(w, seen, eligible, queue) {
      var i: nat, j: nat :| i < j < |eligible| && eligible[i].down == eligible[j].down && queue(i) && queue(j) &&
                            Releasable(w, seen, eligible[i].down);
      assert before[i].down == eligible[i].down;
      if j < k { assert before[j].down == eligible[j].down; }
    }
    if DoubleRelease(w, seen, before, queue) {
      var i: nat, j: nat :| i < j < |before| && before[i].down == before[j].down && queue(i) && queue(j) &&
                            Releasable(w, seen, before[i].down);
      assert eligible[i].down == eligible[j].down;
    }
    if i: nat :| i < |before| && queue(i) && before[i].down == eligible[k].down {
      assert eligible[i].down == eligible[k].down;
    }
  }

  lemma {:induction false} Joined(rows: seq<RunJob>, more: seq<RunJob>)
    ensures UniqueRows(rows + more) <==>
            UniqueRows(rows) && UniqueRows(more) && forall r :: r in more ==> !HasRow(rows, r.node)
    ensures forall k :: HasRow(rows + more, k) <==> HasRow(rows, k) || HasRow(more, k)
  {
    if more == [] {
      assert rows + more == rows;
    } else {
      var n := |more| - 1;
      var init := more[..n];
      Joined(rows, init);
      RowAppended(rows + init, more[n]);
      RowAppended(init, more[n]);
      assert rows + more == (rows + init) + [more[n]] && more == init + [more[n]];
    }
  }

  lemma CallKeepsUnique(w: Workflow, rows: seq<RunJob>, eligible: seq<Edge>, queue: nat -> bool)
    requires UniqueRows(rows)
    ensures UniqueRows(rows + ReleasedRows(w, rows, eligible, queue)) <==> !DoubleRelease(w, rows, eligible, queue)
  {
    ReleasedUnique(w, rows, eligible, queue);
    ReleasedNodes(w, rows, eligible, queue);
    Joined(rows, ReleasedRows(w, rows, eligible, queue));
  }

  /** One call keeps one row per node exactly when no node is released by two of its edges: the existing-job test
      reads the snapshot, so a second edge does not see the first edge's row. */
  lemma CallKeepsUniqueIff(w: Workflow, rows: seq<RunJob>, n: Note, queue: nat -> bool)
    requires UniqueRows(rows)
    ensures var eligible := EligibleDeps(w.deps, n);
            UniqueRows(rows + ReleasedRows(w, rows, eligible, queue)) <==> !DoubleRelease(w, rows, eligible, queue)
  {
    CallKeepsUnique(w, rows, EligibleDeps(w.deps, n), queue);
  }

  // ---------------------------------------------------------------- two calls of one run at once

  function Nodes(rows: seq<RunJob>): (r: seq<Key>)
    ensures |r| == |rows| && forall i :: 0 <= i < |rows| ==> r[i] == rows[i].node
  {
    seq(|rows|, i requires 0 <= i < |rows| => rows[i].node)
  }

  lemma NodesMean(rows: seq<RunJob>)
    ensures UniqueRows(rows) <==> Distinct(Nodes(rows))
    ensures forall v :: HasRow(rows, v) <==> v in Nodes(rows)
  {
    if UniqueRows(rows) {
      forall i, j | 0 <= i < j < |rows| ensures Nodes(rows)[i] != Nodes(rows)[j] {}
    }
    forall v | HasRow(rows, v) ensures v in Nodes(rows) {
      var i :| 0 <= i < |rows| && rows[i].node == v;
      assert Nodes(rows)[i] == v;
    }
  }

  lemma MultisetWithout(a: seq<Key>, i: nat)
    requires i < |a|
    ensures multiset(a[..i] + a[i + 1..]) == multiset(a) - multiset{a[i]}
  {
    assert a == a[..i] + ([a[i]] + a[i + 1..]);
  }

  lemma DistinctWithout(a: seq<Key>, i: nat)
    requires i < |a| && Distinct(a)
    ensures Distinct(a[..i] + a[i + 1..]) && a[i] !in a[..i] + a[i + 1..]
  {
    var b := a[..i] + a[i + 1..];
    assert forall k :: 0 <= k < |b| ==> b[k] == a[if k < i then k else k + 1];
  }

  lemma LastFound(a: seq<Key>, b: seq<Key>) returns (i: nat)
    requires multiset(a) == multiset(b) && b != []
    ensures i < |a| && a[i] == b[|b| - 1] && multiset(a[..i] + a[i + 1..]) == multiset(b[..|b| - 1])
  {
    assert b == b[..|b| - 1] + [b[|b| - 1]];
    assert b[|b| - 1] in multiset(a);
    i :| 0 <= i < |a| && a[i] == b[|b| - 1];
    MultisetWithout(a, i);
  }

  /** Distinctness does not depend on the order. */
  lemma {:induction false} DistinctInAnyOrder(a: seq<Key>, b: seq<Key>)
    requires multiset(a) == multiset(b) && Distinct(a)
    ensures Distinct(b)
    decreases |b|
  {
    if b != [] {
      var i := LastFound(a, b);
      var rest, init := a[..i] + a[i + 1..], b[..|b| - 1];
      DistinctWithout(a, i);
      DistinctInAnyOrder(rest, init);
      assert a[i] !in multiset(rest);
      assert b == init + [a[i]] && a[i] !in init;
    }
  }

  /** Some node is started by both calls: the second call read the table before the first had added the row. */
  ghost predicate BothRelease(w: Workflow, seen1: seq<RunJob>, e1: seq<Edge>, q1: nat -> bool,
                              seen2: seq<RunJob>, e2: seq<Edge>, q2: nat -> bool)
  {
    exists v :: Releasable(w, seen1, v) && Targets(e1, q1, v) && Releasable(w, seen2, v) && Targets(e2, q2, v)
  }

  lemma RowOf(rows: seq<RunJob>, k: Key) returns (r: RunJob)
    requires HasRow(rows, k)
    ensures r in rows && r.node == k
  {
    var i :| 0 <= i < |rows| && rows[i].node == k;
    r := rows[i];
  }

  lemma RowIn(rows: seq<RunJob>, r: RunJob)
    requires r in rows
    ensures HasRow(rows, r.node)
  {
  }

  lemma ReleasableIsNew(w: Workflow, seen: seq<RunJob>, v: Key)
    requires Releasable(w, seen, v)
    ensures !HasRow(seen, v)
  {
  }

  lemma BeyondFirstCall(w: Workflow, rows: seq<RunJob>, e1: seq<Edge>, q1: nat -> bool,
                        seen2: seq<RunJob>, e2: seq<Edge>, q2: nat -> bool)
    requires forall v :: HasRow(rows, v) ==> HasRow(seen2, v)
    ensures var r1, r2 := ReleasedRows(w, rows, e1, q1), ReleasedRows(w, seen2, e2, q2);
            (forall r :: r in r2 ==> !HasRow(rows + r1, r.node)) <==> !BothRelease(w, rows, e1, q1, seen2, e2, q2)
  {
    hide HasRow, Releasable, Targets, ReleasedRows;
    var r1, r2 := ReleasedRows(w, rows, e1, q1), ReleasedRows(w, seen2, e2, q2);
    ReleasedNodes(w, rows, e1, q1);
    ReleasedNodes(w, seen2, e2, q2);
    Joined(rows, r1);
    forall r | r in r2 ensures HasRow(r2, r.node) && !HasRow(seen2, r.node) {
      RowIn(r2, r);
      ReleasableIsNew(w, seen2, r.node);
    }
    if v :| Releasable(w, rows, v) && Targets(e1, q1, v) && Releasable(w, seen2, v) && Targets(e2, q2, v) {
      var r := RowOf(r2, v);
    }
  }

  lemma FirstCallSeen(w: Workflow, rows: seq<RunJob>, e1: seq<Edge>, q1: nat -> bool, seen2: seq<RunJob>)
    requires Nodes(seen2) == Nodes(rows + ReleasedRows(w, rows, e1, q1))
    ensures forall v :: HasRow(rows, v) ==> HasRow(seen2, v)
  {
    var more := ReleasedRows(w, rows, e1, q1);
    Joined(rows, more);
    NodesMean(rows + more);
    NodesMean(seen2);
  }

  /** Two calls of one run overlap when the lease of the first one's lock runs out: the first has come to its k-th
      edge when the second reads the table, seen2.  Whatever outcomes arrive meanwhile, and whatever the order in
      which the rows then stand, the run keeps one row per node if and only if neither call releases a node twice
      and no node is released by both. */
  lemma OverlappingCallsIff(w: Workflow, rows: seq<RunJob>, e1: seq<Edge>, q1: nat -> bool, k: nat,
                            seen2: seq<RunJob>, e2: seq<Edge>, q2: nat -> bool, after: seq<RunJob>)
    requires UniqueRows(rows) && k <= |e1| && Nodes(seen2) == Nodes(rows + ReleasedRows(w, rows, e1[..k], q1))
    requires multiset(Nodes(after)) ==
             multiset(Nodes(rows + ReleasedRows(w, rows, e1, q1) + ReleasedRows(w, seen2, e2, q2)))
    ensures UniqueRows(after) <==>
            !DoubleRelease(w, rows, e1, q1) && !DoubleRelease(w, seen2, e2, q2) &&
            !BothRelease(w, rows, e1, q1, seen2, e2, q2)
  {
    hide DoubleRelease, BothRelease, UniqueRows, HasRow, ReleasedRows, Nodes, Distinct;
    var r1, r2 := ReleasedRows(w, rows, e1, q1), ReleasedRows(w, seen2, e2, q2);
    FirstCallSeen(w, rows, e1[..k], q1, seen2);
    BeyondFirstCall(w, rows, e1, q1, seen2, e2, q2);
    CallKeepsUnique(w, rows, e1, q1);
    ReleasedUnique(w, seen2, e2, q2);
    Joined(rows + r1, r2);
    NodesMean(after);
    NodesMean(rows + r1 + r2);
    if UniqueRows(after) { DistinctInAnyOrder(Nodes(after), Nodes(rows + r1 + r2)); }
    if UniqueRows(rows + r1 + r2) { DistinctInAnyOrder(Nodes(rows + r1 + r2), Nodes(after)); }
  }

  /** Calls that do not overlap never both start a node. */
  lemma SerialCallsDisjoint(w: Workflow, rows: seq<RunJob>, e1: seq<Edge>, q1: nat -> bool,
                            e2: seq<Edge>, q2: nat -> bool)
    ensures !BothRelease(w, rows, e1, q1, rows + ReleasedRows(w, rows, e1, q1), e2, q2)
  {
    ReleasedNodes(w, rows, e1, q1);
    Joined(rows, ReleasedRows(w, rows, e1, q1));
  }

  lemma BothEligible()
    ensures var always, onSuccess := Edge("a", "b", Always), Edge("a", "b", OnSuccess);
            EligibleDeps([always, onSuccess], Note("a", Completed)) == [always, onSuccess]
  {
    var always, onSuccess := Edge("a", "b", Always), Edge("a", "b", OnSuccess);
    assert [always, onSuccess][..1] == [always] && [always][..0] == [];
    assert EligibleDeps([always], Note("a", Completed)) == [always];
  }

  /** Two parallel edges that accept the same outcome do produce two jobs for one node. */
  lemma ParallelEdgesDuplicate()
    ensures var w := Workflow(["a", "b"], [Edge("a", "b", Always), Edge("a", "b", OnSuccess)]);
            var rows := [RunJob("a", Completed)];
            !UniqueRows(rows + ReleasedRows(w, rows, EligibleDeps(w.deps, Note("a", Completed)), QueueAlways()))
  {
    var always, onSuccess := Edge("a", "b", Always), Edge("a", "b", OnSuccess);
    var w := Workflow(["a", "b"], [always, onSuccess]);
    var rows := [RunJob("a", Completed)];
    var n := Note("a", Completed);
    var eligible := EligibleDeps(w.deps, n);
    BothEligible();
    assert rows[..0] == [] && StatusOf(rows, "a") == Some(Completed);
    assert "b" in w.nodes by { assert w.nodes[1] == "b"; }
    assert Releasable(w, rows, "b");
    assert eligible[0].down == eligible[1].down == "b" && QueueAlways()(0) && QueueAlways()(1);
    CallKeepsUniqueIff(w, rows, n, QueueAlways());
  }
}
