/** What two parallel edges that accept the same outcome do to a run: a node gets two jobs, and the mark of the run
    changes after it was set. */
module ParallelEdges {
  import opened Common
  import opened Graph
  import opened WorkflowRun
  import opened Orchestration
  import opened RunRefinement

  function Twin(): Workflow {
    Workflow(["a", "b"], [Edge("a", "b", Always), Edge("a", "b", OnSuccess)])
  }

  function Stage(a: JobStatus, more: seq<RunJob>, status: RunStatus, pending: multiset<Note>): RowState {
    RowState([RunJob("a", a)] + more, status, pending, RowIdle)
  }

  function Pair(x: JobStatus, y: JobStatus): seq<RunJob> {
    [RunJob("b", x), RunJob("b", y)]
  }

  lemma TwinInit()
    ensures RowInit(Twin()) == Stage(Queued, [], RunRunning, multiset{})
  {
    var w := Twin();
    assert w.deps[0].down == "b";
    assert IsRoot(w, "a") && !IsRoot(w, "b");
    assert w.nodes[..1] == ["a"] && ["a"][..0] == [];
    assert RootRows(w, ["a"]) == [RunJob("a", Queued)];
    assert RootRows(w, w.nodes) == [RunJob("a", Queued)] + [];
  }

  lemma FinishStep(w: Workflow, c: RowState, i: nat, o: JobStatus)
    requires RowReachable(w, c, true) && CanRowFinish(c, i, o)
    ensures RowReachable(w, RowFinish(c, i, o), true)
  {
    RowReachStep(w, c, RowFinish(c, i, o), true);
  }

  lemma FirstDone()
    ensures RowReachable(Twin(), Stage(Completed, [], RunRunning, multiset{Note("a", Completed)}), true)
  {
    TwinInit();
    RowReachInit(Twin(), true);
    var c := Stage(Queued, [], RunRunning, multiset{});
    FinishStep(Twin(), c, 0, Completed);
    assert Updated(c.rows, 0, Completed) == [RunJob("a", Completed)] + [];
  }

  lemma StatusHere(rows: seq<RunJob>)
    requires |rows| >= 1 && rows[0].node == "a"
    ensures StatusOf(rows, "a") == Some(rows[0].status)
    ensures |rows| == 1 ==> StatusOf(rows, "b") == None
    ensures |rows| == 3 && rows[1].node == "b" ==> StatusOf(rows, "b") == Some(rows[1].status)
  {
    assert IsFirst(rows, 0);
    FirstStatus(rows, 0);
    if |rows| == 3 && rows[1].node == "b" {
      assert IsFirst(rows, 1);
      FirstStatus(rows, 1);
    }
  }

  lemma BothStart(rows: seq<RunJob>)
    requires rows == [RunJob("a", Completed)]
    ensures ReleasedRows(Twin(), rows, EligibleDeps(Twin().deps, Note("a", Completed)), QueueAlways()) ==
            Pair(Queued, Queued)
  {
    var w, e := Twin(), [Edge("a", "b", Always), Edge("a", "b", OnSuccess)];
    BothEligible();
    StatusHere(rows);
    assert w.nodes[1] == "b";
    assert Releasable(w, rows, "b");
    assert e[..1] == [e[0]] && e[..1][..0] == [] && e[..2] == e;
    ReleasedNext(w, rows, e, QueueAlways(), 0);
    ReleasedNext(w, rows, e, QueueAlways(), 1);
    assert e[..0] == [];
  }

  lemma NotDone(rows: seq<RunJob>)
    requires |rows| == 3 && rows[0].node == "a" && rows[1] == RunJob("b", Queued)
    ensures !RowsAllTerminal(Twin(), rows)
  {
    StatusHere(rows);
    assert Twin().nodes[1] == "b";
  }

  lemma OpeningCall()
    ensures AfterCall(Twin(), Stage(Completed, [], RunRunning, multiset{Note("a", Completed)}), Note("a", Completed))
            == Stage(Completed, Pair(Queued, Queued), RunRunning, multiset{})
  {
    hide ReleasedRows, EligibleDeps, RowsAllTerminal, RowsVerdict;
    var c := Stage(Completed, [], RunRunning, multiset{Note("a", Completed)});
    assert c.rows == [RunJob("a", Completed)];
    BothStart(c.rows);
    NotDone(c.rows + Pair(Queued, Queued));
    assert c.pending - multiset{Note("a", Completed)} == multiset{};
  }

  lemma TwoJobs()
    ensures RowReachable(Twin(), Stage(Completed, Pair(Queued, Queued), RunRunning, multiset{}), true)
  {
    FirstDone();
    OpeningCall();
    CallIsRun(Twin(), Stage(Completed, [], RunRunning, multiset{Note("a", Completed)}), Note("a", Completed));
  }

  lemma NoneEligible(o: JobStatus)
    ensures EligibleDeps(Twin().deps, Note("b", o)) == []
  {
    var e := EligibleDeps(Twin().deps, Note("b", o));
    assert forall i :: 0 <= i < |e| ==> e[i] in e;
  }

  lemma ClosingCall(x: JobStatus, y: JobStatus, o: JobStatus, status: RunStatus)
    requires Terminal(x)
    ensures var c := Stage(Completed, Pair(x, y), status, multiset{Note("b", o)});
            AfterCall(Twin(), c, Note("b", o)) == Stage(Completed, Pair(x, y), RowsVerdict(c.rows), multiset{})
  {
    var c := Stage(Completed, Pair(x, y), status, multiset{Note("b", o)});
    NoneEligible(o);
    StatusHere(c.rows);
    assert c.rows + ReleasedRows(Twin(), c.rows, [], QueueAlways()) == c.rows;
    assert forall k :: k in Twin().nodes ==> k == "a" || k == "b";
    assert c.pending - multiset{Note("b", o)} == multiset{};
  }

  /** A call for b starts nothing and closes the run by what the rows say now. */
  lemma ClosedBy(x: JobStatus, y: JobStatus, o: JobStatus, status: RunStatus)
    requires Terminal(x)
    requires RowReachable(Twin(), Stage(Completed, Pair(x, y), status, multiset{Note("b", o)}), true)
    ensures RowReachable(Twin(),
              Stage(Completed, Pair(x, y), RowsVerdict([RunJob("a", Completed)] + Pair(x, y)), multiset{}), true)
  {
    ClosingCall(x, y, o, status);
    CallIsRun(Twin(), Stage(Completed, Pair(x, y), status, multiset{Note("b", o)}), Note("b", o));
  }

  lemma OneDone()
    ensures RowReachable(Twin(),
              Stage(Completed, Pair(Completed, Queued), RunRunning, multiset{Note("b", Completed)}), true)
  {
    TwoJobs();
    var s := Stage(Completed, Pair(Queued, Queued), RunRunning, multiset{});
    FinishStep(Twin(), s, 1, Completed);
    assert Updated(s.rows, 1, Completed) == [RunJob("a", Completed)] + Pair(Completed, Queued);
    assert multiset{} + multiset{Note("b", Completed)} == multiset{Note("b", Completed)};
  }

  lemma OtherFails()
    requires RowReachable(Twin(), Stage(Completed, Pair(Completed, Queued), RunCompleted, multiset{}), true)
    ensures RowReachable(Twin(),
              Stage(Completed, Pair(Completed, Failed), RunCompleted, multiset{Note("b", Failed)}), true)
  {
    var c := Stage(Completed, Pair(Completed, Queued), RunCompleted, multiset{});
    FinishStep(Twin(), c, 2, Failed);
    assert Updated(c.rows, 2, Failed) == [RunJob("a", Completed)] + Pair(Completed, Failed);
    assert multiset{} + multiset{Note("b", Failed)} == multiset{Note("b", Failed)};
  }

  /** The mark of a run is not final when parallel edges match together: the run is marked Completed when the
      first job of b is done, and Failed when the second one has failed. */
  lemma MarkCanChange() returns (c: RowState, d: RowState)
    ensures RowReachable(Twin(), c, true) && c.status == RunCompleted
    ensures RowReachable(Twin(), d, true) && d.status == RunFailed
    ensures |c.rows| == |d.rows| == 3 && d.rows[..2] == c.rows[..2]
  {
    OneDone();
    ClosedBy(Completed, Queued, Completed, RunRunning);
    c := Stage(Completed, Pair(Completed, Queued), RunCompleted, multiset{});
    assert RowsVerdict(c.rows) == RunCompleted;
    OtherFails();
    ClosedBy(Completed, Failed, Failed, RunCompleted);
    d := Stage(Completed, Pair(Completed, Failed), RunFailed, multiset{});
    assert d.rows[2].status == Failed;
  }
}
