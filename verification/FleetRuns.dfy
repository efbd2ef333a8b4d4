/** Runs continued from a reachable state, and a claim followed from its select to its commit. */
module FleetRuns {
  import opened Common
  import opened JobCell
  import opened ClaimSelection
  import opened Fleet

  // ---------------------------------------------------------------- continuing a run

  ghost function From(s: State, evs: seq<Event>): Option<State>
    decreases |evs|
  {
    if evs == [] then Some(s)
    else if Allowed(s, evs[0]) then From(Next(s, evs[0]), evs[1..])
    else None
  }

  lemma ReachNext(s: State, ev: Event)
    requires Reachable(s) && Allowed(s, ev)
    ensures Reachable(Next(s, ev))
  {
    var evs :| After(evs) == Some(s);
    assert (evs + [ev])[..|evs|] == evs;
    assert After(evs + [ev]) == Some(Next(s, ev));
  }

  lemma {:induction false} FromReachable(s: State, evs: seq<Event>)
    requires Reachable(s) && From(s, evs).Some?
    ensures Reachable(From(s, evs).value)
    decreases |evs|
  {
    if evs != [] {
      ReachNext(s, evs[0]);
      FromReachable(Next(s, evs[0]), evs[1..]);
    }
  }

  lemma {:induction false} FromJoin(s: State, evs: seq<Event>, more: seq<Event>)
    requires From(s, evs).Some?
    ensures From(s, evs + more) == From(From(s, evs).value, more)
    decreases |evs|
  {
    if evs == [] {
      assert evs + more == more;
    } else {
      assert (evs + more)[1..] == evs[1..] + more;
      FromJoin(Next(s, evs[0]), evs[1..], more);
    }
  }

  // ---------------------------------------------------------------- a claim, from its select to its commit

  /** These events happen one after the other; w lives through them and none ends or begins a claim of it. */
  ghost predicate LeavesClaimOpen(s: State, evs: seq<Event>, w: WorkerId)
    decreases |evs|
  {
    evs != [] ==>
      && Allowed(s, evs[0]) && evs[0] != Crash(w) && (forall j :: j in s.cells ==> !OwnClaim(Local(s, evs[0], j), w))
      && LeavesClaimOpen(Next(s, evs[0]), evs[1..], w)
  }

  lemma OpenClaimQueued(s: State, w: WorkerId)
    requires Reachable(s)
    ensures forall j :: j in OpenClaim(s, w) ==> SameClaimable(s.cells[j], s.cells[j])
  {
    ReachableGood(s);
    forall j | j in OpenClaim(s, w) ensures SameClaimable(s.cells[j], s.cells[j]) { assert GoodCell(s.cells[j]); }
  }

  lemma StaysUp(s: State, ev: Event, w: WorkerId)
    requires Allowed(s, ev) && ev != Crash(w)
    ensures IsAlive(s, w) ==> IsAlive(Next(s, ev), w)
  {
    hide Apply, Enabled, NextCells;
  }

  lemma OpenStep(s: State, ev: Event, w: WorkerId)
    requires Reachable(s) && Allowed(s, ev) && ev != Crash(w)
    requires forall j :: j in s.cells ==> !OwnClaim(Local(s, ev, j), w)
    ensures OpenClaim(Next(s, ev), w) == OpenClaim(s, w) && (IsAlive(s, w) ==> IsAlive(Next(s, ev), w))
    ensures forall j :: j in OpenClaim(s, w) ==> SameClaimable(s.cells[j], Next(s, ev).cells[j])
  {
    hide Apply, Enabled, OwnClaim, SameClaimable, OpenClaim;
    OpenClaimStable(s, ev, w);
    StaysUp(s, ev, w);
  }

  lemma {:induction false} OpenClaimLasts(s: State, evs: seq<Event>, w: WorkerId)
    requires Reachable(s) && LeavesClaimOpen(s, evs, w)
    ensures From(s, evs).Some?
    ensures var t := From(s, evs).value;
            && OpenClaim(t, w) == OpenClaim(s, w) && (IsAlive(s, w) ==> IsAlive(t, w))
            && forall j :: j in OpenClaim(s, w) ==> SameClaimable(s.cells[j], t.cells[j])
    decreases |evs|
  {
    if evs == [] {
      OpenClaimQueued(s, w);
    } else {
      hide Apply, Enabled, OwnClaim, Guard, NextCells, NextProc, Allowed, Reachable;
      OpenStep(s, evs[0], w);
      ReachNext(s, evs[0]);
      OpenClaimLasts(Next(s, evs[0]), evs[1..], w);
    }
  }

  lemma SelectLocks(s: State, w: WorkerId, now: int, free: nat, rows: seq<JobId>)
    requires Allowed(s, ClaimSelect(w, now, free, rows))
    ensures var t := Next(s, ClaimSelect(w, now, free, rows));
            && OpenClaim(t, w) == ToSet(rows) && ToSet(rows) <= s.cells.Keys
            && forall j :: j in rows ==> t.cells[j] == s.cells[j].(lock := Some(w))
  {
  }

  lemma CommitAllowed(s: State, w: WorkerId)
    requires IsAlive(s, w)
    ensures Allowed(s, ClaimCommit(w))
  {
  }

  lemma CommitHandsOver(s: State, w: WorkerId)
    requires Allowed(s, ClaimCommit(w))
    ensures forall j :: j in s.cells ==>
              Next(s, ClaimCommit(w)).cells[j] ==
                if j in OpenClaim(s, w) then Apply(s.cells[j], CommitClaim(w)) else s.cells[j]
  {
  }

  /** selected became claimed; before is the row just before the commit. */
  predicate ClaimedAs(selected: Cell, before: Cell, claimed: Cell, w: WorkerId) {
    && selected.status == Queued && claimed.status == Claimed && claimed.owner == Some(w) && claimed.lock.None?
    && claimed.priority == selected.priority && claimed.runAt == selected.runAt
    && claimed.attempts == selected.attempts
    && claimed.executors == before.executors + [Executor(w, Batched, selected.attempts)]
  }

  lemma CommittedAs(c: Cell, d: Cell, w: WorkerId)
    requires c.status == Queued && d.lock == Some(w) && SameClaimable(c.(lock := Some(w)), d)
    ensures ClaimedAs(c, d, Apply(d, CommitClaim(w)), w)
  {
  }

  /** A claim is exact and all-or-nothing however long it stays open and whatever everybody else does in the
      meantime: its commit claims the rows it selected and no other, for its own worker, at the priority, run
      time and attempt count the select read. */
  lemma ClaimIsAtomic(s: State, w: WorkerId, now: int, free: nat, rows: seq<JobId>, meanwhile: seq<Event>)
    requires Reachable(s) && Allowed(s, ClaimSelect(w, now, free, rows))
    requires LeavesClaimOpen(Next(s, ClaimSelect(w, now, free, rows)), meanwhile, w)
    ensures From(Next(s, ClaimSelect(w, now, free, rows)), meanwhile).Some?
    ensures var before := From(Next(s, ClaimSelect(w, now, free, rows)), meanwhile).value;
            && Allowed(before, ClaimCommit(w))
            && var after := Next(before, ClaimCommit(w));
               && (forall j :: j in rows ==>
                     j in after.cells && ClaimedAs(s.cells[j], before.cells[j], after.cells[j], w))
               && (forall j :: j in before.cells && j !in rows ==> after.cells[j] == before.cells[j])
  {
    hide Apply, Enabled, IsSelection, Bounded, FailedIsSpent, Reachable;
    var locked := Next(s, ClaimSelect(w, now, free, rows));
    ReachNext(s, ClaimSelect(w, now, free, rows));
    SelectLocks(s, w, now, free, rows);
    OpenClaimLasts(locked, meanwhile, w);
    var before := From(locked, meanwhile).value;
    CommitAllowed(before, w);
    CommitHandsOver(before, w);
    forall j | j in rows
      ensures j in before.cells
      ensures ClaimedAs(s.cells[j], before.cells[j], Next(before, ClaimCommit(w)).cells[j], w)
    {
      assert j in OpenClaim(locked, w);
      CommittedAs(s.cells[j], before.cells[j], w);
    }
  }
}
