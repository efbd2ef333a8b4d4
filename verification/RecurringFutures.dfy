/** Which cron jobs ever recur. */
module RecurringFutures {
  import opened Common
  import opened RecurringJobs

  predicate Possible(s: State, ev: Event) {
    Allowed(s, ev) && (ev.Write? ==> ev.i < |s.rows|)
  }

  ghost function From(s: State, evs: seq<Event>, next: NextTime): Option<State>
    decreases |evs|
  {
    if evs == [] then Some(s)
    else if Possible(s, evs[0]) then From(Next(s, evs[0], next), evs[1..], next)
    else None
  }

  lemma {:induction false} FromJoin(s: State, evs: seq<Event>, more: seq<Event>, next: NextTime)
    requires From(s, evs, next).Some?
    ensures From(s, evs + more, next) == From(From(s, evs, next).value, more, next)
    decreases |evs|
  {
    if evs == [] {
      assert evs + more == more;
    } else {
      assert (evs + more)[1..] == evs[1..] + more;
      FromJoin(Next(s, evs[0], next), evs[1..], more, next);
    }
  }

  /** Row l has a successor. */
  predicate HasRecurred(rows: seq<Row>, l: nat) {
    exists i :: 0 <= i < |rows| && i != l && Lineage(rows, i) == l
  }

  ghost predicate CanRecur(s: State, l: nat, next: NextTime) {
    exists evs: seq<Event> :: From(s, evs, next).Some? && HasRecurred(From(s, evs, next).value.rows, l)
  }

  /** The expression has a next time at some moment at which the row is due. */
  ghost predicate HasNextWhenDue(row: Row, next: NextTime) {
    row.cron.Some? && exists now: int :: now >= row.runAt && next(row.cron.value, now).Some?
  }

  /** The row can be due, and can be followed by another. */
  ghost predicate Fertile(row: Row, next: NextTime) {
    row.status == Scheduled && row.recurring && HasNextWhenDue(row, next)
  }

  // ---------------------------------------------------------------- a row that can not

  /** Row l is the only one of its lineage, and if it is or may become due, then not before its run time. */
  predicate Childless(s: State, l: nat, row: Row) {
    && l < |s.rows| && s.rows[l].parent.None? && s.rows[l].recurring == row.recurring && s.rows[l].cron == row.cron
    && !HasRecurred(s.rows, l)
    && (s.rows[l].status == Scheduled ==> row.status == Scheduled && s.rows[l].runAt == row.runAt)
    && (l in s.due ==> row.status == Scheduled && row.recurring && s.readAt >= row.runAt)
    && forall i :: i in s.due ==> i < |s.rows|
  }

  lemma GrowsApart(rows: seq<Row>, more: seq<Row>, l: nat)
    requires l < |rows| <= |more| && !HasRecurred(rows, l)
    requires forall i :: 0 <= i < |rows| ==> more[i].parent == rows[i].parent
    requires forall i :: |rows| <= i < |more| ==> Lineage(more, i) != l
    ensures !HasRecurred(more, l)
  {
    forall i | 0 <= i < |more| && i != l ensures Lineage(more, i) != l {
      if i < |rows| { assert Lineage(rows, i) != l; }
    }
  }

  lemma WriteStaysChildless(s: State, ev: Event, l: nat, row: Row, next: NextTime)
    requires Childless(s, l, row) && !Fertile(row, next) && Possible(s, ev) && ev.Write?
    ensures Childless(Next(s, ev, next), l, row)
  {
    var t := Next(s, ev, next);
    if ev.i == l {
      assert row.status == Scheduled && row.recurring && ev.now >= row.runAt;
      assert NextRow(s.rows, l, ev.now, next).None?;
    } else {
      assert Lineage(s.rows, ev.i) != l;
    }
    GrowsApart(s.rows, t.rows, l);
  }

  lemma StaysChildless(s: State, ev: Event, l: nat, row: Row, next: NextTime)
    requires Childless(s, l, row) && !Fertile(row, next) && Possible(s, ev)
    ensures Childless(Next(s, ev, next), l, row)
  {
    match ev
    case Write(_, _, _) => WriteStaysChildless(s, ev, l, row, next);
    case Read(now) => assert forall i: nat :: i in DueRows(s.rows, now) <==> i < |s.rows| && IsDue(s.rows[i], now);
    case _ => GrowsApart(s.rows, Next(s, ev, next).rows, l);
  }

  lemma {:induction false} ChildlessForGood(s: State, evs: seq<Event>, l: nat, row: Row, next: NextTime)
    requires Childless(s, l, row) && !Fertile(row, next) && From(s, evs, next).Some?
    ensures !HasRecurred(From(s, evs, next).value.rows, l)
    decreases |evs|
  {
    if evs != [] {
      StaysChildless(s, evs[0], l, row, next);
      ChildlessForGood(Next(s, evs[0], next), evs[1..], l, row, next);
    }
  }

  // ---------------------------------------------------------------- a row that can

  /** A promoter may fail on everything it has read. */
  lemma {:induction false} AllSkipped(s: State, next: NextTime) returns (evs: seq<Event>)
    ensures From(s, evs, next) == Some(s.(due := {}))
    decreases s.due
  {
    if s.due == {} {
      evs := [];
    } else {
      var i :| i in s.due;
      var rest := AllSkipped(s.(due := s.due - {i}), next);
      evs := [Skip(i)] + rest;
      assert evs[1..] == rest;
    }
  }

  lemma PromotedOnce(s: State, i: nat, now: int, next: NextTime)
    requires s.due == {} && i < |s.rows| && IsDue(s.rows[i], now) && NextRow(s.rows, i, now, next).Some?
    ensures var u := From(s, [Read(now), Write(i, now, false)], next);
            && u.Some? && |u.value.rows| == |s.rows| + 1
            && u.value.rows[|s.rows|] == NextRow(s.rows, i, now, next).value
  {
    var evs := [Read(now), Write(i, now, false)];
    var t := Next(s, evs[0], next);
    assert i in t.due && t.rows == s.rows && Possible(t, evs[1]);
    var u := Next(t, evs[1], next);
    assert evs[1..] == [evs[1]] && evs[1..][1..] == [];
    assert From(t, evs[1..], next) == From(u, [], next) == Some(u);
  }

  /** An occurrence that can be due and whose expression has a next time then can be followed by one more. */
  lemma OnceMore(t: State, i: nat, now: int, next: NextTime) returns (evs: seq<Event>)
    requires i < |t.rows| && IsDue(t.rows[i], now) && NextRow(t.rows, i, now, next).Some?
    ensures var u := From(t, evs, next);
            && u.Some? && |u.value.rows| == |t.rows| + 1
            && u.value.rows[|t.rows|] == NextRow(t.rows, i, now, next).value
  {
    var skips := AllSkipped(t, next);
    evs := [Read(now), Write(i, now, false)];
    PromotedOnce(t.(due := {}), i, now, next);
    FromJoin(t, skips, evs, next);
    evs := skips + evs;
  }

  lemma FertileRecurs(t: State, l: nat, row: Row, next: NextTime)
    requires l < |t.rows| && t.rows[l] == row && row.parent.None? && Fertile(row, next)
    ensures CanRecur(t, l, next)
  {
    var now: int :| now >= row.runAt && next(row.cron.value, now).Some?;
    var evs := OnceMore(t, l, now, next);
    assert Lineage(From(t, evs, next).value.rows, |t.rows|) == l;
  }

  /** And so it goes on: in every reachable state a Scheduled recurring occurrence, the first or a later one, can be
      followed by a Scheduled one of the same lineage whenever the founder's expression has a next time at some
      moment at which it is due. */
  lemma RecursAgain(run: seq<Event>, s: State, i: nat, now: int, next: NextTime) returns (evs: seq<Event>)
    requires StrictlyLater(next) && After(run, next) == Some(s) && i < |s.rows|
    requires s.rows[i].status == Scheduled && s.rows[i].recurring && s.rows[i].runAt <= now
    requires var l := s.rows[i].parent.GetOr(i);
             l < |s.rows| && s.rows[l].cron.Some? && next(s.rows[l].cron.value, now).Some?
    ensures From(s, evs, next).Some?
    ensures var l, rows := s.rows[i].parent.GetOr(i), From(s, evs, next).value.rows;
            && |rows| == |s.rows| + 1
            && var row := rows[|s.rows|];
               && row.status == Scheduled && row.recurring && row.parent == Some(l)
               && row.runAt == next(s.rows[l].cron.value, now).value
               && row.cron == s.rows[l].cron && row.work == s.rows[l].work
  {
    RunKeeps(run, next);
    InheritedCron(s.rows, i);
    evs := OnceMore(s, i, now, next);
  }

  lemma CreatedChildless(s: State, row: Row, asked: Option<int>, now: int, next: NextTime)
    requires Inv(s) && Allowed(s, Create(row, asked, now))
    ensures Childless(Next(s, Create(row, asked, now), next), |s.rows|, row)
  {
    var l, t := |s.rows|, Next(s, Create(row, asked, now), next);
    forall i | 0 <= i < |t.rows| && i != l ensures Lineage(t.rows, i) != l {
      assert t.rows[i] == s.rows[i] && (s.rows[i].parent.Some? ==> s.rows[i].parent.value < i);
    }
  }

  /** A cron job just created can ever be followed by another occurrence if and only if it was given a run time in
      the future and its expression has a next time at some moment from then on.  In particular a cron job created
      without a future run time is Queued and never recurs. */
  lemma RecursIff(run: seq<Event>, s: State, row: Row, asked: Option<int>, now: int, next: NextTime)
    requires StrictlyLater(next) && After(run, next) == Some(s) && Allowed(s, Create(row, asked, now))
    ensures CanRecur(Next(s, Create(row, asked, now), next), |s.rows|, next) <==>
            asked.Some? && asked.value > now && row.cron.Some? &&
            exists t: int :: t >= asked.value && next(row.cron.value, t).Some?
  {
    RunKeeps(run, next);
    var l, t := |s.rows|, Next(s, Create(row, asked, now), next);
    if Fertile(row, next) {
      FertileRecurs(t, l, row, next);
    } else {
      CreatedChildless(s, row, asked, now, next);
      NeverRecurs(t, l, row, next);
    }
  }

  lemma NeverRecurs(t: State, l: nat, row: Row, next: NextTime)
    requires Childless(t, l, row) && !Fertile(row, next)
    ensures !CanRecur(t, l, next)
  {
    hide Childless, Fertile;
    forall evs: seq<Event> | From(t, evs, next).Some? ensures !HasRecurred(From(t, evs, next).value.rows, l) {
      ChildlessForGood(t, evs, l, row, next);
    }
  }
}
