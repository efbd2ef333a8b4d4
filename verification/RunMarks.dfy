/** Exactly when the mark of a run is final. */
module RunMarks {
  import opened Common
  import opened Graph
  import opened WorkflowRun
  import opened Orchestration
  import opened RunRefinement

  // ---------------------------------------------------------------- continuing a run

  ghost predicate RowsContinue(w: Workflow, c: RowState, tr: seq<RowState>, reliable: bool) {
    && |tr| >= 1 && tr[0] == c
    && forall i :: 0 <= i < |tr| - 1 ==> RowStepAt(w, tr, i, reliable)
  }

  ghost predicate RowsLeadTo(w: Workflow, c: RowState, d: RowState, reliable: bool) {
    exists tr :: RowsContinue(w, c, tr, reliable) && tr[|tr| - 1] == d
  }

  /** The run keeps its mark whatever follows. */
  ghost predicate MarkFinal(w: Workflow, c: RowState, reliable: bool) {
    forall d :: RowsLeadTo(w, c, d, reliable) ==> d.status == c.status
  }

  lemma LeadsToSelf(w: Workflow, c: RowState, reliable: bool)
    ensures RowsLeadTo(w, c, c, reliable)
  {
    assert RowsContinue(w, c, [c], reliable);
  }

  lemma StepLeads(w: Workflow, c: RowState, d: RowState, e: RowState, reliable: bool)
    requires RowStep(w, c, d, reliable) && RowsLeadTo(w, d, e, reliable)
    ensures RowsLeadTo(w, c, e, reliable)
  {
    hide RowStep;
    var tr :| RowsContinue(w, d, tr, reliable) && tr[|tr| - 1] == e;
    var longer := [c] + tr;
    forall i | 0 <= i < |longer| - 1 ensures RowStepAt(w, longer, i, reliable) {
      if i > 0 { assert RowStepAt(w, tr, i - 1, reliable); }
    }
    assert RowsContinue(w, c, longer, reliable);
  }

  // ---------------------------------------------------------------- what a marked table keeps

  predicate SomeFailed(rows: seq<RunJob>) {
    exists i :: 0 <= i < |rows| && (rows[i].status == Failed || rows[i].status == DeadLetter)
  }

  predicate AllRowsTerminal(rows: seq<RunJob>) {
    forall i :: 0 <= i < |rows| ==> Terminal(rows[i].status)
  }

  /** A marked run has a finished row for each node, now and in what its open call has read; and one that is
      marked Failed has a row that failed. */
  predicate Marked(w: Workflow, c: RowState) {
    c.status != RunRunning ==>
      && RowsAllTerminal(w, c.rows)
      && (c.call.RowWorking? ==> RowsAllTerminal(w, c.call.seen))
      && (c.status == RunFailed ==> SomeFailed(c.rows))
  }

  lemma FinishedStay(w: Workflow, rows: seq<RunJob>, i: nat, o: JobStatus)
    requires i < |rows| && !Terminal(rows[i].status) && Finished(o)
    ensures RowsAllTerminal(w, rows) ==> RowsAllTerminal(w, Updated(rows, i, o))
    ensures SomeFailed(rows) ==> SomeFailed(Updated(rows, i, o))
  {
    var more := Updated(rows, i, o);
    if RowsAllTerminal(w, rows) {
      forall k | k in w.nodes ensures StatusOf(more, k).Some? && Terminal(StatusOf(more, k).value) {
        assert HasRow(rows, k);
        StatusUpdated(rows, i, o, k);
      }
    }
    if a :| 0 <= a < |rows| && (rows[a].status == Failed || rows[a].status == DeadLetter) { assert more[a] == rows[a]; }
  }

  /** A call that read a finished table starts nothing. */
  lemma NothingStarts(w: Workflow, c: RowState, queueFound: bool)
    requires CanRowStart(w, c) && RowsAllTerminal(w, c.call.seen)
    ensures RowStart(w, c, queueFound) == c.(call := RowWorking(c.call.note, c.call.seen, c.call.next + 1))
  {
    assert c.rows + [] == c.rows;
  }

  lemma FinishMarked(w: Workflow, c: RowState, i: nat, o: JobStatus)
    requires Marked(w, c) && CanRowFinish(c, i, o)
    ensures Marked(w, RowFinish(c, i, o))
  {
    hide RowsAllTerminal, SomeFailed;
    FinishedStay(w, c.rows, i, o);
  }

  lemma StartMarked(w: Workflow, c: RowState, queueFound: bool)
    requires Marked(w, c) && CanRowStart(w, c)
    ensures Marked(w, RowStart(w, c, queueFound))
  {
    hide RowsAllTerminal, SomeFailed, EligibleDeps;
    if c.status != RunRunning { NothingStarts(w, c, queueFound); }
  }

  lemma CloseMarked(w: Workflow, c: RowState)
    requires Marked(w, c)
    ensures Marked(w, RowClose(w, c)) && (c.status != RunRunning ==> RowClose(w, c).status != RunRunning)
  {
    hide RowsAllTerminal;
  }

  lemma NoteMarked(w: Workflow, c: RowState, n: Note)
    requires Marked(w, c)
    ensures Marked(w, RowBegin(c, n)) && Marked(w, RowLose(c, n)) && Marked(w, RowAbort(c))
  {
    hide RowsAllTerminal, SomeFailed;
  }

  lemma StepMarked(w: Workflow, c: RowState, d: RowState, reliable: bool)
    requires Marked(w, c) && RowStep(w, c, d, reliable)
    ensures Marked(w, d)
    ensures c.status != RunRunning ==> d.status != RunRunning
  {
    hide Marked, RowFor, RowsAllTerminal, RowsVerdict, Updated;
    if i, o :| CanRowFinish(c, i, o) && d == RowFinish(c, i, o) {
      FinishMarked(w, c, i, o);
    } else if CanRowClose(w, c) && d == RowClose(w, c) {
      CloseMarked(w, c);
    } else if CanRowStart(w, c) && (d == RowStart(w, c, true) || d == RowStart(w, c, false)) {
      StartMarked(w, c, d == RowStart(w, c, true));
    } else if n :| n in c.pending && (d == RowBegin(c, n) || d == RowLose(c, n)) {
      NoteMarked(w, c, n);
    } else {
      NoteMarked(w, c, Note("", Completed));
    }
  }

  lemma {:induction false} TraceMarked(w: Workflow, tr: seq<RowState>, reliable: bool, i: nat)
    requires IsRowTrace(w, tr, reliable) && i < |tr|
    ensures Marked(w, tr[i])
  {
    if i > 0 {
      TraceMarked(w, tr, reliable, i - 1);
      assert RowStepAt(w, tr, i - 1, reliable);
      StepMarked(w, tr[i - 1], tr[i], reliable);
    }
  }

  lemma ReachableMarked(w: Workflow, c: RowState, reliable: bool)
    requires RowReachable(w, c, reliable)
    ensures Marked(w, c)
  {
    var tr :| IsRowTrace(w, tr, reliable) && tr[|tr| - 1] == c;
    TraceMarked(w, tr, reliable, |tr| - 1);
  }

  // ---------------------------------------------------------------- a mark that stays

  predicate FailedMark(w: Workflow, c: RowState) {
    Marked(w, c) && c.status == RunFailed
  }

  /** All rows are finished and the mark is what they say. */
  predicate TrueMark(w: Workflow, c: RowState) {
    Marked(w, c) && c.status != RunRunning && AllRowsTerminal(c.rows) && RowsVerdict(c.rows) == c.status
  }

  /** All rows are finished, and no call is open or will be opened. */
  predicate Still(c: RowState) {
    AllRowsTerminal(c.rows) && c.pending == multiset{} && c.call.RowIdle?
  }

  lemma FailedStays(w: Workflow, c: RowState, d: RowState, reliable: bool)
    requires FailedMark(w, c) && RowStep(w, c, d, reliable)
    ensures FailedMark(w, d)
  {
    hide RowsAllTerminal, SomeFailed, Updated, RowFor;
    StepMarked(w, c, d, reliable);
    VerdictFails(c.rows);
  }

  lemma VerdictFails(rows: seq<RunJob>)
    ensures RowsVerdict(rows) == RunFailed <==> SomeFailed(rows)
  {
  }

  lemma TrueStays(w: Workflow, c: RowState, d: RowState, reliable: bool)
    requires TrueMark(w, c) && RowStep(w, c, d, reliable)
    ensures TrueMark(w, d) && d.status == c.status
  {
    hide RowsAllTerminal;
    StepMarked(w, c, d, reliable);
    if CanRowStart(w, c) {
      NothingStarts(w, c, true);
      NothingStarts(w, c, false);
    }
  }

  lemma StillEnds(w: Workflow, c: RowState, d: RowState, reliable: bool)
    requires Still(c)
    ensures !RowStep(w, c, d, reliable)
  {
    assert forall n :: n !in c.pending;
  }

  predicate Keeps(w: Workflow, c: RowState) {
    FailedMark(w, c) || TrueMark(w, c) || Still(c)
  }

  lemma KeepsStays(w: Workflow, c: RowState, d: RowState, reliable: bool)
    requires Keeps(w, c) && RowStep(w, c, d, reliable)
    ensures Keeps(w, d) && d.status == c.status
  {
    hide RowStep, Marked, TrueMark, Still;
    if FailedMark(w, c) {
      FailedStays(w, c, d, reliable);
    } else if TrueMark(w, c) {
      TrueStays(w, c, d, reliable);
    } else {
      StillEnds(w, c, d, reliable);
    }
  }

  lemma {:induction false} KeepsLasts(w: Workflow, c: RowState, tr: seq<RowState>, reliable: bool, i: nat)
    requires Keeps(w, c) && RowsContinue(w, c, tr, reliable) && i < |tr|
    ensures Keeps(w, tr[i]) && tr[i].status == c.status
  {
    if i > 0 {
      hide Keeps, RowStep;
      KeepsLasts(w, c, tr, reliable, i - 1);
      assert RowStepAt(w, tr, i - 1, reliable);
      KeepsStays(w, tr[i - 1], tr[i], reliable);
    }
  }

  // ---------------------------------------------------------------- a mark that can change

  /** An open call may run to its end, which marks the run by what the rows say now. */
  lemma {:induction false} CallEnds(w: Workflow, c: RowState, reliable: bool) returns (d: RowState)
    requires Marked(w, c) && c.status != RunRunning && c.call.RowWorking?
    ensures RowsLeadTo(w, c, d, reliable) && d.status == RowsVerdict(c.rows)
    decreases |EligibleDeps(w.deps, c.call.note)| - c.call.next
  {
    hide RowsAllTerminal, RowsLeadTo, EligibleDeps;
    if CanRowStart(w, c) {
      var e := RowStart(w, c, true);
      StepMarked(w, c, e, reliable);
      NothingStarts(w, c, true);
      d := CallEnds(w, e, reliable);
      StepLeads(w, c, e, d, reliable);
    } else {
      d := RowClose(w, c);
      LeadsToSelf(w, d, reliable);
      StepLeads(w, c, d, d, reliable);
    }
  }

  lemma NextCallEnds(w: Workflow, c: RowState, reliable: bool) returns (d: RowState)
    requires Marked(w, c) && c.status != RunRunning && (c.call.RowWorking? || c.pending != multiset{})
    ensures RowsLeadTo(w, c, d, reliable) && d.status == RowsVerdict(c.rows)
  {
    hide RowsAllTerminal, RowsLeadTo;
    if c.call.RowWorking? {
      d := CallEnds(w, c, reliable);
    } else {
      var n :| n in c.pending;
      var e := RowBegin(c, n);
      StepMarked(w, c, e, reliable);
      d := CallEnds(w, e, reliable);
      StepLeads(w, c, e, d, reliable);
    }
  }

  /** A row that has not finished may fail, and then a call tells. */
  lemma LateFailure(w: Workflow, c: RowState, i: nat, reliable: bool) returns (d: RowState)
    requires Marked(w, c) && c.status != RunRunning && i < |c.rows| && !Terminal(c.rows[i].status)
    ensures RowsLeadTo(w, c, d, reliable) && d.status == RunFailed
  {
    hide RowsAllTerminal, RowsLeadTo;
    var e := RowFinish(c, i, Failed);
    assert CanRowFinish(c, i, Failed);
    StepMarked(w, c, e, reliable);
    assert Note(c.rows[i].node, Failed) in e.pending;
    assert e.rows[i].status == Failed;
    d := NextCallEnds(w, e, reliable);
    StepLeads(w, c, e, d, reliable);
  }

  /** The mark of a run is final if and only if the run is marked Failed, or all its rows are finished and either
      they say what the mark says, or nobody looks again. */
  lemma MarkFinalIff(w: Workflow, c: RowState, reliable: bool)
    requires RowReachable(w, c, reliable) && c.status != RunRunning
    ensures MarkFinal(w, c, reliable) <==>
              c.status == RunFailed ||
              (AllRowsTerminal(c.rows) &&
               (RowsVerdict(c.rows) == c.status || (c.pending == multiset{} && c.call.RowIdle?)))
  {
    hide RowsLeadTo, RowReachable, RowsVerdict, RowsAllTerminal;
    ReachableMarked(w, c, reliable);
    if Keeps(w, c) {
      forall d | RowsLeadTo(w, c, d, reliable) ensures d.status == c.status { FromKeeper(w, c, d, reliable); }
    } else if AllRowsTerminal(c.rows) {
      var d := NextCallEnds(w, c, reliable);
    } else {
      var i :| 0 <= i < |c.rows| && !Terminal(c.rows[i].status);
      var d := LateFailure(w, c, i, reliable);
    }
  }

  lemma FromKeeper(w: Workflow, c: RowState, d: RowState, reliable: bool)
    requires Keeps(w, c) && RowsLeadTo(w, c, d, reliable)
    ensures d.status == c.status
  {
    hide Keeps;
    var tr :| RowsContinue(w, c, tr, reliable) && tr[|tr| - 1] == d;
    KeepsLasts(w, c, tr, reliable, |tr| - 1);
  }

  lemma MarkedView(w: Workflow, c: RowState, reliable: bool)
    requires WellFormed(w) && NoParallelMatch(w) && RowReachable(w, c, reliable) && c.status != RunRunning
    ensures UniqueRows(c.rows) && AllTerminal(w, View(c.rows)) && c.status == Verdict(View(c.rows))
    ensures forall k :: k in View(c.rows) ==> k in w.nodes
  {
    hide RowReachable, Reachable;
    RowsRefine(w, c, reliable);
    AlwaysSafe(w, Abs(w, c), Mode(reliable, true));
  }

  /** Without parallel edges that match together every mark is final, and it is what the rows say. */
  lemma SingleMarkFinal(w: Workflow, c: RowState, reliable: bool)
    requires WellFormed(w) && NoParallelMatch(w) && RowReachable(w, c, reliable) && c.status != RunRunning
    ensures MarkFinal(w, c, reliable) && c.status == RowsVerdict(c.rows)
  {
    hide RowReachable, MarkFinal, AllTerminal;
    MarkedView(w, c, reliable);
    ClosingMeans(w, c.rows);
    UniqueTerminal(w, c.rows);
    MarkFinalIff(w, c, reliable);
  }

  lemma UniqueTerminal(w: Workflow, rows: seq<RunJob>)
    requires UniqueRows(rows) && AllTerminal(w, View(rows)) && forall k :: k in View(rows) ==> k in w.nodes
    ensures AllRowsTerminal(rows)
  {
    ViewHas(rows);
    forall i | 0 <= i < |rows| ensures Terminal(rows[i].status) {
      assert HasRow(rows, rows[i].node);
      FirstStatus(rows, i);
    }
  }
}
