/** Exactly when a Claimed or Running job is lost: no process, no request and no scheduler pass can ever take it
    out of that status again. */
module LostJobs {
  import opened Common
  import opened JobCell
  import opened ClaimSelection
  import opened Fleet
  import opened FleetRuns
  import opened FleetFutures
  import opened CrashStop

  /** No reaper pass has the worker on its list, none sees its row, and no statement can make the row visible. */
  predicate OutOfSight(p: Proc) {
    && p.row == Offline && p.suspected == 0
    && (p.alive ==> p.beats == 0 && !p.stage.Serving? && !p.stage.Stopping?)
  }

  /** Nobody may write the row, no shutdown puts it back, and the reaper cannot find its owner. */
  predicate Lost(s: State, j: JobId)
    requires j in s.cells
  {
    var c := s.cells[j];
    && NoWriter(c) && NoShutdownWrites(s, j)
    && (c.owner.Some? && c.owner.value in s.procs ==> OutOfSight(s.procs[c.owner.value]))
  }

  // ---------------------------------------------------------------- a lost job stays lost

  lemma LostCellStays(c: Cell, e: CellEvent)
    requires c.status in {Claimed, Running} && c.lock.None? && NoWriter(c) && Enabled(c, e)
    requires !e.Release? && !e.Reap? && !e.CancelRead?
    ensures var d := Apply(c, e); d.status == c.status && d.owner == c.owner && d.lock.None? && NoWriter(d)
  {
    if e.Vanish? {
      forall i | 0 <= i < |Apply(c, e).executors| ensures Apply(c, e).executors[i].phase.Closing? {
        WithoutKeeps(c.executors, e.w, i);
      }
    }
  }

  lemma StaysOutOfSight(s: State, ev: Event, w: WorkerId)
    requires Allowed(s, ev) && w in s.procs && OutOfSight(s.procs[w])
    ensures OutOfSight(NextProc(s, ev, w))
  {
  }

  lemma NotReaped(s: State, ev: Event, j: JobId)
    requires Allowed(s, ev) && j in s.cells && Lost(s, j)
    ensures !Local(s, ev, j).Reap?
  {
  }

  lemma LostStays(s: State, ev: Event, j: JobId)
    requires Attended(s) && Allowed(s, ev) && j in s.cells && Lost(s, j) && !Asks(ev, j)
    requires s.cells[j].status in {Claimed, Running} && s.cells[j].lock.None?
    ensures var t := Next(s, ev);
            && j in t.cells && t.cells[j].status == s.cells[j].status && t.cells[j].lock.None? && Lost(t, j)
  {
    hide Apply, Enabled, NoWriter, NoShutdownWrites, OutOfSight;
    var c := s.cells[j];
    assert CellAttended(s, c);
    NotReaped(s, ev, j);
    NobodyActivates(c, Local(s, ev, j));
    NoShutdownWritesStays(s, ev, j);
    LostCellStays(c, Local(s, ev, j));
    if c.owner.Some? { StaysOutOfSight(s, ev, c.owner.value); }
  }

  lemma {:induction false} LostLasts(s: State, evs: seq<Event>, j: JobId)
    requires Attended(s) && j in s.cells && Lost(s, j) && From(s, evs).Some? && forall ev :: ev in evs ==> !Asks(ev, j)
    requires s.cells[j].status in {Claimed, Running} && s.cells[j].lock.None?
    ensures Has(From(s, evs).value, j, s.cells[j].status)
    decreases |evs|
  {
    if evs != [] {
      hide Lost, Attended, Enabled, Apply, Guard;
      assert evs[0] in evs;
      LostStays(s, evs[0], j);
      StepAttended(s, evs[0]);
      LostLasts(Next(s, evs[0]), evs[1..], j);
    }
  }

  // ---------------------------------------------------------------- a job that is not lost may be recovered

  lemma SuspectedLeads(s: State, j: JobId, w: WorkerId)
    requires Locked(s) == {} && j in s.cells && s.cells[j].status in {Claimed, Running} && s.cells[j].owner == Some(w)
    requires w in s.procs && s.procs[w].suspected > 0
    ensures Leads(s, j, [ReapJobs(w, 0)])
  {
    var ev := ReapJobs(w, 0);
    forall k | k in s.cells ensures Enabled(s.cells[k], Local(s, ev, k)) { assert k !in Locked(s); }
    assert [ev][1..] == [];
  }

  lemma SeenLeads(s: State, j: JobId, w: WorkerId) returns (evs: seq<Event>)
    requires Locked(s) == {} && j in s.cells && s.cells[j].status in {Claimed, Running} && s.cells[j].owner == Some(w)
    requires w in s.procs && s.procs[w].row != Offline
    ensures Leads(s, j, evs)
  {
    var ev := ReapRead(w);
    ProcStep(s, ev, w);
    SuspectedLeads(Next(s, ev), j, w);
    ThenLeads(s, j, ev, w, [ReapJobs(w, 0)]);
    evs := [ev] + [ReapJobs(w, 0)];
  }

  /** After an event that makes the row visible. */
  lemma ShownLeads(s: State, j: JobId, w: WorkerId, ev: Event) returns (evs: seq<Event>)
    requires Locked(s) == {} && j in s.cells && s.cells[j].status in {Claimed, Running} && s.cells[j].owner == Some(w)
    requires Guard(s, ev) && OfProcess(ev, w) && w in s.procs && OwnStep(s.procs[w], ev).row != Offline
    ensures Leads(s, j, evs)
  {
    ProcStep(s, ev, w);
    assert Locked(Next(s, ev)) == Locked(s);
    evs := SeenLeads(Next(s, ev), j, w);
    ThenLeads(s, j, ev, w, evs);
    evs := [ev] + evs;
  }

  lemma BeatLeads(s: State, j: JobId, w: WorkerId) returns (evs: seq<Event>)
    requires Locked(s) == {} && j in s.cells && s.cells[j].status in {Claimed, Running} && s.cells[j].owner == Some(w)
    requires IsAlive(s, w) && s.procs[w].stage.Serving?
    ensures Leads(s, j, evs)
  {
    var ev := BeatStart(w);
    ProcStep(s, ev, w);
    assert Locked(Next(s, ev)) == Locked(s);
    evs := ShownLeads(Next(s, ev), j, w, BeatWrite(w, true));
    ThenLeads(s, j, ev, w, evs);
    evs := [ev] + evs;
  }

  lemma VisibleLeads(s: State, j: JobId, w: WorkerId) returns (evs: seq<Event>)
    requires Locked(s) == {} && j in s.cells && s.cells[j].status in {Claimed, Running} && s.cells[j].owner == Some(w)
    requires w in s.procs && !OutOfSight(s.procs[w])
    ensures Leads(s, j, evs)
  {
    var p := s.procs[w];
    if p.suspected > 0 {
      SuspectedLeads(s, j, w);
      evs := [ReapJobs(w, 0)];
    } else if p.row != Offline {
      evs := SeenLeads(s, j, w);
    } else if p.beats > 0 {
      evs := ShownLeads(s, j, w, BeatWrite(w, true));
    } else if p.stage.Serving? {
      evs := BeatLeads(s, j, w);
    } else {
      evs := ShownLeads(s, j, w, ShutdownDrain(w, true));
    }
  }

  /** An owner the reaper can find, now or later, lets it take the job out of its status. */
  lemma ReaperLeads(s: State, j: JobId, w: WorkerId) returns (evs: seq<Event>)
    requires Attended(s) && j in s.cells && s.cells[j].lock.None? && s.cells[j].status in {Claimed, Running}
    requires s.cells[j].owner == Some(w) && w in s.procs && !OutOfSight(s.procs[w])
    ensures Leads(s, j, evs)
  {
    var unlock := AllUnlocked(s, j);
    var rest := VisibleLeads(From(s, unlock).value, j, w);
    UnlockedLeads(s, j, unlock, rest);
    evs := unlock + rest;
  }

  lemma NotLostLeads(s: State, j: JobId) returns (evs: seq<Event>)
    requires Attended(s) && j in s.cells && s.cells[j].lock.None? && s.cells[j].status in {Claimed, Running}
    requires !Lost(s, j)
    ensures Leads(s, j, evs)
  {
    var c := s.cells[j];
    if !NoWriter(c) {
      evs := WriterLeads(s, j);
    } else if !NoShutdownWrites(s, j) {
      evs := ShutdownLeads(s, j);
    } else {
      evs := ReaperLeads(s, j, c.owner.value);
    }
  }

  // ---------------------------------------------------------------- the theorems

  /** The job keeps its status through everything that may follow without another cancel request for it. */
  ghost predicate StaysUnlessAsked(s: State, j: JobId)
    requires j in s.cells
  {
    forall evs: seq<Event> :: From(s, evs).Some? && (forall ev :: ev in evs ==> !Asks(ev, j)) ==>
      Has(From(s, evs).value, j, s.cells[j].status)
  }

  /** The job keeps its status through everything that may follow. */
  ghost predicate Stays(s: State, j: JobId)
    requires j in s.cells
  {
    forall evs: seq<Event> :: From(s, evs).Some? ==> Has(From(s, evs).value, j, s.cells[j].status)
  }

  lemma HoldersUnlocked(s: State, j: JobId)
    requires Reachable(s) && j in s.cells && s.cells[j].status in {Claimed, Running}
    ensures Attended(s) && s.cells[j].lock.None?
  {
    ReachableGood(s);
    ReachableAttended(s);
    assert GoodCell(s.cells[j]);
  }

  /** A Claimed or Running job is lost, short of a new cancel request, if and only if nobody may write its row, no
      shutdown has it in hand or can come to have it, and its owner, if it has one, is out of the reaper's sight. */
  lemma LostForGoodIff(s: State, j: JobId)
    requires Reachable(s) && j in s.cells && s.cells[j].status in {Claimed, Running}
    ensures StaysUnlessAsked(s, j) <==> Lost(s, j)
  {
    hide Lost, Reachable, Attended;
    HoldersUnlocked(s, j);
    if Lost(s, j) {
      forall evs: seq<Event> | From(s, evs).Some? && (forall ev :: ev in evs ==> !Asks(ev, j))
        ensures Has(From(s, evs).value, j, s.cells[j].status)
      {
        LostLasts(s, evs, j);
      }
    } else {
      var evs := NotLostLeads(s, j);
      assert From(s, evs).Some?;
    }
  }

  lemma NotAsked(s: State, ev: Event, j: JobId)
    requires Allowed(s, ev) && j in s.cells && s.cells[j].status == Running
    ensures !Asks(ev, j)
  {
  }

  lemma {:induction false} RunningLasts(s: State, evs: seq<Event>, j: JobId)
    requires Attended(s) && j in s.cells && Lost(s, j) && From(s, evs).Some?
    requires s.cells[j].status == Running && s.cells[j].lock.None?
    ensures Has(From(s, evs).value, j, Running)
    decreases |evs|
  {
    if evs != [] {
      hide Lost, Attended, Enabled, Apply, Guard;
      NotAsked(s, evs[0], j);
      LostStays(s, evs[0], j);
      StepAttended(s, evs[0]);
      RunningLasts(Next(s, evs[0]), evs[1..], j);
    }
  }

  /** A Running job cannot even be cancelled: it stays Running for ever under the same condition. */
  lemma RunningForGoodIff(s: State, j: JobId)
    requires Reachable(s) && j in s.cells && s.cells[j].status == Running
    ensures Stays(s, j) <==> Lost(s, j)
  {
    hide Lost, Reachable, Attended;
    HoldersUnlocked(s, j);
    if Lost(s, j) {
      forall evs: seq<Event> | From(s, evs).Some? ensures Has(From(s, evs).value, j, Running) {
        RunningLasts(s, evs, j);
      }
    } else {
      var evs := NotLostLeads(s, j);
      assert From(s, evs).Some?;
    }
  }

  /** In crash-stop runs no Claimed or Running job is lost: something can always take it further. */
  lemma CrashStopLosesNothing(s: State, j: JobId)
    requires CrashStopReachable(s) && j in s.cells && s.cells[j].status in {Claimed, Running}
    ensures !StaysUnlessAsked(s, j)
  {
    NoJobLost(s, j);
    ReachableAnyway(AllBut(None), s);
    LostForGoodIff(s, j);
  }
}
