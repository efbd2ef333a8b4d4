/** Recurring jobs: each due occurrence is queued and the next one is scheduled.  The promoter reads the due
    rows first and writes them one by one, so rows may be cancelled, run or retried in between. */
module RecurringJobs {
  import opened Common

  /** A cron expression; an empty one counts as absent. */
  type Cron = string

  /** The cron library: the next time after the given one, or None when the expression does not parse. */
  type NextTime = (Cron, int) -> Option<int>

  ghost predicate StrictlyLater(next: NextTime) {
    forall c, t :: next(c, t).Some? ==> next(c, t).value > t
  }

  /** What there is to do: the columns an occurrence takes over from the one before. */
  datatype Work = Work(queueId: string, projectId: string, jobType: string, payload: string, priority: int,
                       maxAttempts: Option<int>, retryPolicyId: Option<string>, shardKey: int)

  /** Rows are numbered in creation order. planned is the run time the row was created with; runAt may be
      overwritten once the row is queued. */
  datatype Row = Row(status: JobStatus, recurring: bool, runAt: int, planned: int,
                     cron: Option<Cron>, parent: Option<nat>, work: Work)

  /** A row belongs to the lineage of its parent, or founds one under its own id. */
  function Lineage(rows: seq<Row>, i: nat): nat
    requires i < |rows|
  {
    rows[i].parent.GetOr(i)
  }

  /** The row promoteRecurringJobs schedules after row i, if it schedules one. */
  function NextRow(rows: seq<Row>, i: nat, now: int, next: NextTime): Option<Row>
    requires i < |rows|
  {
    if rows[i].cron.None? then None
    else
      match next(rows[i].cron.value, now)
      case None => None
      case Some(t) => Some(Row(Scheduled, true, t, t, rows[i].cron, Some(Lineage(rows, i)), rows[i].work))
  }

  function PromoteOne(rows: seq<Row>, i: nat, now: int, next: NextTime): (r: seq<Row>)
    requires i < |rows|
    ensures |rows| <= |r|
  {
    rows[i := rows[i].(status := Queued)] +
    match NextRow(rows, i, now, next) case None => [] case Some(row) => [row]
  }

  predicate IsDue(row: Row, now: int) {
    row.status == Scheduled && row.recurring && row.runAt <= now
  }

  function DueRows(rows: seq<Row>, now: int): (r: seq<nat>)
    ensures forall a :: 0 <= a < |r| ==> r[a] < |rows|
    ensures forall i: nat :: i in r <==> i < |rows| && IsDue(rows[i], now)
  {
    if rows == [] then []
    else
      var n := |rows| - 1;
      var rest := DueRows(rows[..n], now);
      assert forall i: nat :: i in rest <==> i < n && IsDue(rows[i], now);
      rest + if IsDue(rows[n], now) then [n] else []
  }

  function PromoteAll(rows: seq<Row>, due: seq<nat>, now: int, next: NextTime): (r: seq<Row>)
    requires forall a :: 0 <= a < |due| ==> due[a] < |rows|
    ensures |rows| <= |r|
  {
    if due == [] then rows
    else
      var n := |due| - 1;
      var before := PromoteAll(rows, due[..n], now, next);
      assert due[n] < |before|;
      PromoteOne(before, due[n], now, next)
  }

  /** row is the next occurrence after row i: planned for the next time of its expression, with its expression, its
      work, and its lineage. */
  predicate FollowsRow(rows: seq<Row>, i: nat, now: int, next: NextTime, row: Row) {
    && i < |rows| && rows[i].cron.Some? && next(rows[i].cron.value, now) == Some(row.runAt)
    && row.status == Scheduled && row.recurring && row.planned == row.runAt
    && row.cron == rows[i].cron && row.work == rows[i].work
    && row.parent == Some(if rows[i].parent.Some? then rows[i].parent.value else i)
  }

  predicate Ascending(s: seq<nat>) {
    forall a, b :: 0 <= a < b < |s| ==> s[a] < s[b]
  }

  lemma {:induction false} DueAscending(rows: seq<Row>, now: int)
    ensures Ascending(DueRows(rows, now))
  {
    if rows != [] {
      var n := |rows| - 1;
      var rest := DueRows(rows[..n], now);
      DueAscending(rows[..n], now);
      forall a | 0 <= a < |rest| ensures rest[a] < n { assert rest[a] in rest; }
    }
  }

  /** What the promoted table r has: the due rows queued, and the followers of those in from after the old rows. */
  ghost predicate Promoted(rows: seq<Row>, due: seq<nat>, now: int, next: NextTime, r: seq<Row>, from: seq<nat>) {
    && |r| == |rows| + |from| && Ascending(from)
    && (forall i: nat :: i < |rows| ==> r[i] == if i in due then rows[i].(status := Queued) else rows[i])
    && (forall i: nat :: i in from <==>
          i in due && i < |rows| && rows[i].cron.Some? && next(rows[i].cron.value, now).Some?)
    && (forall a :: 0 <= a < |from| ==> from[a] in from && FollowsRow(rows, from[a], now, next, r[|rows| + a]))
  }

  lemma PromotedOne(rows: seq<Row>, due: seq<nat>, i: nat, now: int, next: NextTime, r: seq<Row>, before: seq<nat>)
    returns (from: seq<nat>)
    requires i < |rows| && i !in due && (forall k :: k in due ==> k < i) && Promoted(rows, due, now, next, r, before)
    ensures Promoted(rows, due + [i], now, next, PromoteOne(r, i, now, next), from)
  {
    AppendedMember(due, i);
    var more := PromoteOne(r, i, now, next);
    if rows[i].cron.Some? && next(rows[i].cron.value, now).Some? {
      from := before + [i];
      AppendedMember(before, i);
      assert more[|r|] == NextRow(r, i, now, next).value;
    } else {
      from := before;
    }
    forall k: nat | k < |r| && k != i ensures more[k] == r[k] {}
  }

  lemma {:induction false} PromoteAllExact(rows: seq<Row>, due: seq<nat>, now: int, next: NextTime)
    returns (from: seq<nat>)
    requires Ascending(due) && forall a :: 0 <= a < |due| ==> due[a] < |rows|
    ensures Promoted(rows, due, now, next, PromoteAll(rows, due, now, next), from)
  {
    if due == [] {
      from := [];
    } else {
      hide Promoted, PromoteOne;
      var n := |due| - 1;
      var before := PromoteAllExact(rows, due[..n], now, next);
      assert due == due[..n] + [due[n]];
      from := PromotedOne(rows, due[..n], due[n], now, next, PromoteAll(rows, due[..n], now, next), before);
    }
  }

  /** The whole pass, on the columns. */
  lemma PassExact(rows: seq<Row>, now: int, next: NextTime) returns (from: seq<nat>)
    ensures var r := PromoteAll(rows, DueRows(rows, now), now, next);
            && |r| == |rows| + |from|
            && (forall i :: 0 <= i < |rows| ==>
                  r[i] == if rows[i].status == Scheduled && rows[i].recurring && rows[i].runAt <= now
                          then rows[i].(status := Queued) else rows[i])
            && (forall i: nat :: i in from <==>
                  (i < |rows| && rows[i].status == Scheduled && rows[i].recurring && rows[i].runAt <= now &&
                   rows[i].cron.Some? && next(rows[i].cron.value, now).Some?))
            && (forall a, b :: 0 <= a < b < |from| ==> from[a] < from[b])
            && (forall a :: 0 <= a < |from| ==>
                  from[a] in from && FollowsRow(rows, from[a], now, next, r[|rows| + a]))
  {
    DueAscending(rows, now);
    from := PromoteAllExact(rows, DueRows(rows, now), now, next);
  }

  lemma NoneLeftDue(rows: seq<Row>, now: int, next: NextTime, r: seq<Row>, from: seq<nat>)
    requires StrictlyLater(next) && |r| == |rows| + |from|
    requires forall i :: 0 <= i < |rows| ==>
               r[i] == if rows[i].status == Scheduled && rows[i].recurring && rows[i].runAt <= now
                       then rows[i].(status := Queued) else rows[i]
    requires forall a :: 0 <= a < |from| ==>
               from[a] in from && FollowsRow(rows, from[a], now, next, r[|rows| + a])
    ensures forall row :: row in r ==> !(row.status == Scheduled && row.recurring && row.runAt <= now)
  {
    forall i | 0 <= i < |r| ensures !(r[i].status == Scheduled && r[i].recurring && r[i].runAt <= now) {
      if i >= |rows| { assert FollowsRow(rows, from[i - |rows|], now, next, r[|rows| + (i - |rows|)]); }
    }
  }

  lemma PromoteOneMeans(rows: seq<Row>, i: nat, now: int, next: NextTime)
    requires i < |rows|
    ensures PromoteOne(rows, i, now, next) ==
              rows[i := rows[i].(status := Queued)] +
              if rows[i].cron.Some? && next(rows[i].cron.value, now).Some? then
                var t := next(rows[i].cron.value, now).value;
                [Row(Scheduled, true, t, t, rows[i].cron,
                     Some(if rows[i].parent.Some? then rows[i].parent.value else i), rows[i].work)]
              else []
  {
  }

  class JobTable {
    var rows: seq<Row>

    constructor (rows: seq<Row>)
      ensures this.rows == rows
    {
      this.rows := rows;
    }

    /** promoteRecurringJobs as one undisturbed pass: every recurring row that is Scheduled and due is queued, and for
        those, in order, whose expression has a next time a row is added that does the same work then, under the
        same expression and in the same lineage; afterwards no recurring row is due. */
    method PromoteRecurringJobs(now: int, next: NextTime) returns (ghost from: seq<nat>)
      modifies this
      ensures rows == PromoteAll(old(rows), DueRows(old(rows), now), now, next)
      ensures StrictlyLater(next) ==>
                forall r :: r in rows ==> !(r.status == Scheduled && r.recurring && r.runAt <= now)
      ensures |rows| == |old(rows)| + |from|
      ensures forall i :: 0 <= i < |old(rows)| ==>
                var row := old(rows)[i];
                rows[i] == if row.status == Scheduled && row.recurring && row.runAt <= now
                           then row.(status := Queued) else row
      ensures forall i: nat :: i in from <==>
                (i < |old(rows)| &&
                 var row := old(rows)[i];
                 row.status == Scheduled && row.recurring && row.runAt <= now &&
                 row.cron.Some? && next(row.cron.value, now).Some?)
      ensures forall a, b :: 0 <= a < b < |from| ==> from[a] < from[b]
      ensures forall a :: 0 <= a < |from| ==>
                from[a] in from && FollowsRow(old(rows), from[a], now, next, rows[|old(rows)| + a])
    {
      hide FollowsRow, IsDue, PromoteOne, NextRow;
      var due := DueRows(rows, now);
      ghost var before := rows;
      for k := 0 to |due|
        invariant |rows| >= |before| && rows == PromoteAll(before, due[..k], now, next)
      {
        PromoteRow(due[k], now, next);
        assert due[..k + 1][..k] == due[..k];
      }
      assert due[..|due|] == due;
      from := PassExact(before, now, next);
      if StrictlyLater(next) { NoneLeftDue(before, now, next, rows, from); }
    }

    /** One turn of its loop. */
    method PromoteRow(i: nat, now: int, next: NextTime)
      requires i < |rows|
      modifies this
      ensures rows == PromoteOne(old(rows), i, now, next)
    {
      PromoteOneMeans(rows, i, now, next);
      hide PromoteOne, NextRow;
      var job := rows[i];
      rows := rows[i := job.(status := Queued)];
      if job.cron.Some? {
        var parsed := next(job.cron.value, now);
        if parsed.Some? {
          rows := rows + [Row(Scheduled, true, parsed.value, parsed.value, job.cron,
                              Some(if job.parent.Some? then job.parent.value else i), job.work)];
        }
      }
    }
  }

  // ---------------------------------------------------------------- all runs

  /** due: rows read by the promoter and not yet written; readAt: when it read them; broken: lineages that
      were not created as a schedule, had a Scheduled occurrence cancelled, or got no next occurrence because
      the expression did not parse or the insert failed (cut). */
  datatype State = State(rows: seq<Row>, due: set<nat>, readAt: int, broken: set<nat>)

  datatype Event =
    | Create(row: Row, asked: Option<int>, now: int)   // asked: the run time the client gave
    | Read(now: int)
    | Write(i: nat, now: int, cut: bool)
    | Skip(i: nat)                                   // the promoter's write failed
    | Cancel(i: nat)
    | Touch(i: nat, status: JobStatus, runAt: int)   // any other service, on a row that is past Scheduled

  predicate Allowed(s: State, ev: Event) {
    match ev
    case Create(row, asked, now) =>
      && row.parent.None? && row.runAt == row.planned == asked.GetOr(now) && row.recurring == row.cron.Some?
      && row.status == if asked.Some? && asked.value > now then Scheduled else Queued
    case Read(now) => s.due == {}                    // one promoter at a time
    case Write(i, now, _) => i in s.due && now >= s.readAt
    case Skip(i) => i in s.due
    case Cancel(i) => i < |s.rows|
    case Touch(i, status, _) => i < |s.rows| && s.rows[i].status != Scheduled && status != Scheduled
  }

  ghost predicate InRange(s: State) {
    forall i :: i in s.due ==> i < |s.rows|
  }

  /** The expression the lineage of row i was founded with. */
  function FounderCron(rows: seq<Row>, i: nat): Option<Cron>
    requires i < |rows|
  {
    var l := Lineage(rows, i);
    if l < |rows| then rows[l].cron else None
  }

  predicate HasNextTime(rows: seq<Row>, i: nat, now: int, next: NextTime)
    requires i < |rows|
  {
    FounderCron(rows, i).Some? && next(FounderCron(rows, i).value, now).Some?
  }

  function Next(s: State, ev: Event, next: NextTime): State
    requires Allowed(s, ev) && (ev.Write? ==> ev.i < |s.rows|)
  {
    match ev
    case Create(row, _, _) =>
      s.(rows := s.rows + [row],
         broken := if row.status == Scheduled && row.recurring then s.broken else s.broken + {|s.rows|})
    case Read(now) => State(s.rows, (set i | i in DueRows(s.rows, now)), now, s.broken)
    case Write(i, now, cut) =>
      s.(rows := if cut then s.rows[i := s.rows[i].(status := Queued)] else PromoteOne(s.rows, i, now, next),
         due := s.due - {i},
         broken := if cut || !HasNextTime(s.rows, i, now, next) then s.broken + {Lineage(s.rows, i)} else s.broken)
    case Skip(i) => s.(due := s.due - {i})
    case Cancel(i) =>
      s.(rows := s.rows[i := s.rows[i].(status := Cancelled)],
         broken := if s.rows[i].status == Scheduled then s.broken + {Lineage(s.rows, i)} else s.broken)
    case Touch(i, status, at) => s.(rows := s.rows[i := s.rows[i].(status := status, runAt := at)])
  }

  predicate IsLast(rows: seq<Row>, i: nat)
    requires i < |rows|
  {
    forall k :: i < k < |rows| ==> Lineage(rows, k) != Lineage(rows, i)
  }

  predicate ParentsEarlier(rows: seq<Row>) {
    forall i :: 0 <= i < |rows| && rows[i].parent.Some? ==> rows[i].parent.value < i
  }

  predicate PlansIncrease(rows: seq<Row>) {
    forall i, k :: 0 <= i < k < |rows| && Lineage(rows, i) == Lineage(rows, k) ==> rows[i].planned < rows[k].planned
  }

  /** Exactly the rows with an expression recur, and every later occurrence is the founder's job again: recurring,
      with its expression and its work. */
  predicate Inherited(rows: seq<Row>) {
    && (forall i :: 0 <= i < |rows| ==> rows[i].recurring == rows[i].cron.Some?)
    && forall i :: 0 <= i < |rows| && rows[i].parent.Some? ==>
         var p := rows[i].parent.value;
         && p < i && rows[p].parent.None?
         && rows[i].recurring && rows[i].cron == rows[p].cron && rows[i].work == rows[p].work
  }

  ghost predicate Inv(s: State) {
    && Inherited(s.rows)
    && InRange(s) && ParentsEarlier(s.rows) && PlansIncrease(s.rows)
    && (forall i :: 0 <= i < |s.rows| && s.rows[i].status == Scheduled ==>
          IsLast(s.rows, i) && s.rows[i].runAt == s.rows[i].planned)
    && (forall i :: i in s.due ==> IsLast(s.rows, i) && s.rows[i].planned <= s.readAt)
    && (forall l :: 0 <= l < |s.rows| && s.rows[l].parent.None? && l !in s.broken ==> HasScheduled(s.rows, l))
  }

  predicate HasScheduled(rows: seq<Row>, l: nat) {
    exists i :: 0 <= i < |rows| && rows[i].status == Scheduled && Lineage(rows, i) == l
  }

  /** Rows changed in place keep their lineage and plan. */
  predicate SamePlans(a: seq<Row>, b: seq<Row>) {
    && |a| == |b|
    && forall i :: 0 <= i < |a| ==> a[i].parent == b[i].parent && a[i].planned == b[i].planned
  }

  lemma SamePlansKeep(a: seq<Row>, b: seq<Row>)
    requires SamePlans(a, b) && ParentsEarlier(a) && PlansIncrease(a)
    ensures ParentsEarlier(b) && PlansIncrease(b)
    ensures forall i :: 0 <= i < |a| ==> Lineage(a, i) == Lineage(b, i) && (IsLast(a, i) <==> IsLast(b, i))
  {
    forall i | 0 <= i < |a| ensures IsLast(a, i) <==> IsLast(b, i) {
      assert forall k :: 0 <= k < |a| ==> Lineage(a, k) == Lineage(b, k);
    }
  }

  /** One more row, in a lineage whose last plan it exceeds. */
  lemma AppendKeeps(rows: seq<Row>, row: Row)
    requires ParentsEarlier(rows) && PlansIncrease(rows)
    requires row.parent.Some? ==> row.parent.value < |rows|
    requires forall i :: 0 <= i < |rows| && Lineage(rows, i) == row.parent.GetOr(|rows|) ==>
               rows[i].planned < row.planned
    ensures ParentsEarlier(rows + [row]) && PlansIncrease(rows + [row]) && IsLast(rows + [row], |rows|)
    ensures forall i :: 0 <= i < |rows| ==> Lineage(rows + [row], i) == Lineage(rows, i)
    ensures forall i :: 0 <= i < |rows| && Lineage(rows, i) != row.parent.GetOr(|rows|) && IsLast(rows, i) ==>
                          IsLast(rows + [row], i)
  {
    var more := rows + [row];
    assert forall i :: 0 <= i < |rows| ==> more[i] == rows[i];
  }

  ghost predicate RowsInv(rows: seq<Row>) {
    && ParentsEarlier(rows) && PlansIncrease(rows)
    && (forall i :: 0 <= i < |rows| && rows[i].status == Scheduled ==>
          IsLast(rows, i) && rows[i].runAt == rows[i].planned)
  }

  ghost predicate DueInv(rows: seq<Row>, due: set<nat>, readAt: int) {
    forall i :: i in due ==> i < |rows| && IsLast(rows, i) && rows[i].planned <= readAt
  }

  ghost predicate Alive(rows: seq<Row>, broken: set<nat>) {
    forall l :: 0 <= l < |rows| && rows[l].parent.None? && l !in broken ==> HasScheduled(rows, l)
  }

  /** A row that is not Scheduled afterwards: nothing is lost but possibly its lineage's occurrence. */
  lemma ChangeKeeps(rows: seq<Row>, i: nat, row: Row, due: set<nat>, readAt: int)
    requires RowsInv(rows) && DueInv(rows, due, readAt) && i < |rows|
    requires row.parent == rows[i].parent && row.planned == rows[i].planned && row.status != Scheduled
    ensures RowsInv(rows[i := row]) && DueInv(rows[i := row], due, readAt)
    ensures forall k :: 0 <= k < |rows| ==>
              (IsLast(rows[i := row], k) <==> IsLast(rows, k)) && Lineage(rows[i := row], k) == Lineage(rows, k)
  {
    SamePlansKeep(rows, rows[i := row]);
  }

  lemma ChangeAlive(rows: seq<Row>, i: nat, row: Row, broken: set<nat>)
    requires Alive(rows, broken) && i < |rows| && row.parent == rows[i].parent
    ensures Alive(rows[i := row], broken + {Lineage(rows, i)})
    ensures rows[i].status != Scheduled ==> Alive(rows[i := row], broken)
  {
    var more := rows[i := row];
    forall l | 0 <= l < |more| && more[l].parent.None? && l !in broken &&
               (l != Lineage(rows, i) || rows[i].status != Scheduled)
      ensures HasScheduled(more, l)
    {
      assert rows[l].parent.None?;
      var k :| 0 <= k < |rows| && rows[k].status == Scheduled && Lineage(rows, k) == l;
      assert k != i && more[k] == rows[k] && Lineage(more, k) == l;
    }
  }

  /** A new Scheduled row in lineage l, after l's last row. */
  lemma ScheduleKeeps(rows: seq<Row>, row: Row, l: nat, due: set<nat>, readAt: int)
    requires RowsInv(rows) && DueInv(rows, due, readAt)
    requires row.runAt == row.planned && l == row.parent.GetOr(|rows|)
    requires l <= |rows| && (row.parent.Some? ==> l < |rows|)
    requires forall i :: 0 <= i < |rows| && Lineage(rows, i) == l ==>
                           rows[i].planned < row.planned && rows[i].status != Scheduled && i !in due
    ensures RowsInv(rows + [row]) && DueInv(rows + [row], due, readAt)
  {
    AppendKeeps(rows, row);
  }

  lemma ScheduleAlive(rows: seq<Row>, row: Row, broken: set<nat>)
    requires Alive(rows, broken) && (row.parent.None? ==> row.status == Scheduled || |rows| in broken)
    ensures Alive(rows + [row], if row.status == Scheduled then broken - {row.parent.GetOr(|rows|)} else broken)
  {
    var more := rows + [row];
    forall l | 0 <= l < |more| && more[l].parent.None? &&
               l !in (if row.status == Scheduled then broken - {row.parent.GetOr(|rows|)} else broken)
      ensures HasScheduled(more, l)
    {
      if row.status == Scheduled && l == row.parent.GetOr(|rows|) {
        assert more[|rows|].status == Scheduled && Lineage(more, |rows|) == l;
      } else {
        assert l < |rows| && rows[l] == more[l];
        var k :| 0 <= k < |rows| && rows[k].status == Scheduled && Lineage(rows, k) == l;
        assert more[k] == rows[k] && Lineage(more, k) == l;
      }
    }
  }

  lemma InvParts(s: State)
    ensures Inv(s) <==>
            Inherited(s.rows) && RowsInv(s.rows) && DueInv(s.rows, s.due, s.readAt) && Alive(s.rows, s.broken)
  {
  }

  lemma InheritedCron(rows: seq<Row>, i: nat)
    requires Inherited(rows) && i < |rows|
    ensures Lineage(rows, i) < |rows| && rows[i].cron == rows[Lineage(rows, i)].cron == FounderCron(rows, i)
    ensures rows[i].work == rows[Lineage(rows, i)].work
    ensures rows[Lineage(rows, i)].parent.None?
  {
  }

  /** The promoter's write: the occurrence is queued and its lineage gets one planned for the next time of the
      founder's expression, under that expression and with the founder's work, unless there is none. */
  lemma WriteExact(s: State, i: nat, now: int, cut: bool, next: NextTime)
    requires Inv(s) && i in s.due && now >= s.readAt
    ensures var rows, l := s.rows[i := s.rows[i].(status := Queued)], Lineage(s.rows, i);
            && l < |s.rows| && s.rows[l].parent.None?
            && Next(s, Write(i, now, cut), next).rows ==
                 if !cut && s.rows[l].cron.Some? && next(s.rows[l].cron.value, now).Some? then
                   var at := next(s.rows[l].cron.value, now).value;
                   rows + [Row(Scheduled, true, at, at, s.rows[l].cron, Some(l), s.rows[l].work)]
                 else rows
  {
    InheritedCron(s.rows, i);
  }

  lemma WriteInherited(s: State, i: nat, now: int, next: NextTime)
    requires Inv(s) && i < |s.rows|
    ensures Inherited(PromoteOne(s.rows, i, now, next))
  {
    InheritedCron(s.rows, i);
    var more := PromoteOne(s.rows, i, now, next);
    forall k | 0 <= k < |more| && more[k].parent.Some?
      ensures var p := more[k].parent.value;
              && p < k && more[p].parent.None?
              && more[k].recurring && more[k].cron == more[p].cron && more[k].work == more[p].work
    {
      if k < |s.rows| { assert s.rows[k].parent == more[k].parent; }
    }
  }

  lemma ChangeInherited(rows: seq<Row>, i: nat, row: Row)
    requires Inherited(rows) && i < |rows|
    requires row == rows[i].(status := row.status, runAt := row.runAt)
    ensures Inherited(rows[i := row])
  {
    var more := rows[i := row];
    assert forall k :: 0 <= k < |rows| ==> more[k].parent == rows[k].parent && more[k].cron == rows[k].cron;
  }

  lemma InvOf(s: State)
    requires Inherited(s.rows) && RowsInv(s.rows) && DueInv(s.rows, s.due, s.readAt) && Alive(s.rows, s.broken)
    ensures Inv(s)
  {
    InvParts(s);
  }

  /** And it keeps the invariant. */
  lemma WriteKeeps(s: State, i: nat, now: int, next: NextTime)
    requires Inv(s) && StrictlyLater(next) && i in s.due && now >= s.readAt && HasNextTime(s.rows, i, now, next)
    ensures Inv(Next(s, Write(i, now, false), next))
  {
    InvParts(s);
    InheritedCron(s.rows, i);
    WriteInherited(s, i, now, next);
    var queued := s.rows[i].(status := Queued);
    var rows := s.rows[i := queued];
    var row := NextRow(s.rows, i, now, next).value;
    var l := Lineage(s.rows, i);
    var due := s.due - {i};
    LastOfLineage(s, i, rows, l, due);
    hide Inv, Inherited, RowsInv, DueInv, Alive;
    ChangeKeeps(s.rows, i, queued, due, s.readAt);
    ChangeAlive(s.rows, i, queued, s.broken);
    assert row.planned > now;
    ScheduleKeeps(rows, row, l, due, s.readAt);
    ScheduleAlive(rows, row, s.broken + {l});
    assert Next(s, Write(i, now, false), next).rows == rows + [row];
    AliveWider(rows + [row], (s.broken + {l}) - {l}, s.broken);
    InvOf(Next(s, Write(i, now, false), next));
  }

  lemma AliveWider(rows: seq<Row>, a: set<nat>, b: set<nat>)
    requires Alive(rows, a) && a <= b
    ensures Alive(rows, b)
  {
  }

  /** The row being promoted is the last of its lineage, so no other row of it is Scheduled or waiting. */
  lemma LastOfLineage(s: State, i: nat, rows: seq<Row>, l: nat, due: set<nat>)
    requires Inv(s) && i in s.due && l == Lineage(s.rows, i) && due == s.due - {i}
    requires rows == s.rows[i := s.rows[i].(status := Queued)]
    ensures forall k :: 0 <= k < |rows| && Lineage(rows, k) == l ==>
                          rows[k].planned <= s.readAt && rows[k].status != Scheduled && k !in due
  {
    forall k | 0 <= k < |rows| && Lineage(rows, k) == l
      ensures rows[k].planned <= s.readAt && rows[k].status != Scheduled && k !in due
    {
      assert Lineage(s.rows, k) == l && k <= i;
      if k < i {
        assert !IsLast(s.rows, k);
      }
    }
  }

  lemma ReadKeeps(s: State, now: int, next: NextTime)
    requires Inv(s) && s.due == {}
    ensures Inv(Next(s, Read(now), next))
  {
  }

  lemma CreateKeeps(s: State, row: Row, asked: Option<int>, now: int, next: NextTime)
    requires Inv(s) && Allowed(s, Create(row, asked, now))
    ensures Inv(Next(s, Create(row, asked, now), next))
  {
    InvParts(s);
    var t := Next(s, Create(row, asked, now), next);
    forall i | 0 <= i < |s.rows| ensures Lineage(s.rows, i) != |s.rows| {}
    forall i | i in s.due ensures i < |s.rows| {}
    ScheduleKeeps(s.rows, row, |s.rows|, s.due, s.readAt);
    AliveWider(s.rows, s.broken, t.broken);
    ScheduleAlive(s.rows, row, t.broken);
    AliveWider(t.rows, if row.status == Scheduled then t.broken - {|s.rows|} else t.broken, t.broken);
    InvParts(t);
  }

  lemma ChangeStepKeeps(s: State, ev: Event, next: NextTime)
    requires Inv(s) && Allowed(s, ev) && (ev.Cancel? || ev.Touch? || ev.Write?)
    requires ev.Write? ==> ev.i < |s.rows| && (ev.cut || !HasNextTime(s.rows, ev.i, ev.now, next))
    ensures Inv(Next(s, ev, next))
  {
    InvParts(s);
    InheritedCron(s.rows, ev.i);
    var t, i := Next(s, ev, next), ev.i;
    assert t.rows == s.rows[i := t.rows[i]];
    assert DueInv(s.rows, t.due, s.readAt);
    hide Inv, Inherited, RowsInv, DueInv, Alive;
    ChangeInherited(s.rows, i, t.rows[i]);
    ChangeKeeps(s.rows, i, t.rows[i], t.due, s.readAt);
    ChangeAlive(s.rows, i, t.rows[i], s.broken);
    InvOf(t);
  }

  lemma StepKeeps(s: State, ev: Event, next: NextTime)
    requires Inv(s) && StrictlyLater(next) && Allowed(s, ev)
    ensures (ev.Write? ==> ev.i < |s.rows|) && Inv(Next(s, ev, next))
  {
    match ev
    case Create(row, asked, now) => CreateKeeps(s, row, asked, now, next);
    case Read(now) => ReadKeeps(s, now, next);
    case Write(i, now, cut) =>
      if cut || !HasNextTime(s.rows, i, now, next) {
        ChangeStepKeeps(s, ev, next);
      } else {
        WriteKeeps(s, i, now, next);
      }
    case Skip(i) =>
    case Cancel(_) => ChangeStepKeeps(s, ev, next);
    case Touch(_, _, _) => ChangeStepKeeps(s, ev, next);
  }

  /** A run, from an empty table. */
  ghost function After(evs: seq<Event>, next: NextTime): Option<State> {
    if evs == [] then Some(State([], {}, 0, {}))
    else
      var ev := evs[|evs| - 1];
      match After(evs[..|evs| - 1], next)
      case None => None
      case Some(s) => if Allowed(s, ev) && (ev.Write? ==> ev.i < |s.rows|) then Some(Next(s, ev, next)) else None
  }

  lemma {:induction false} RunKeeps(evs: seq<Event>, next: NextTime)
    requires StrictlyLater(next) && After(evs, next).Some?
    ensures Inv(After(evs, next).value)
  {
    if evs != [] {
      RunKeeps(evs[..|evs| - 1], next);
      StepKeeps(After(evs[..|evs| - 1], next).value, evs[|evs| - 1], next);
    }
  }

  /** The event leaves lineage l without a Scheduled occurrence to come: it creates its first row not Scheduled or
      not recurring, it cancels a Scheduled occurrence, or it promotes one and no next one is inserted, because the
      founder's expression has no next time or the insert fails. */
  predicate Breaks(s: State, ev: Event, l: nat, next: NextTime) {
    match ev
    case Create(row, _, _) => l == |s.rows| && !(row.status == Scheduled && row.recurring)
    case Cancel(i) => i < |s.rows| && s.rows[i].status == Scheduled && l == s.rows[i].parent.GetOr(i)
    case Write(i, now, cut) =>
      && i < |s.rows| && l == s.rows[i].parent.GetOr(i)
      && (cut || l >= |s.rows| || s.rows[l].cron.None? || next(s.rows[l].cron.value, now).None?)
    case _ => false
  }

  lemma StepBreaks(s: State, ev: Event, next: NextTime)
    requires Allowed(s, ev) && (ev.Write? ==> ev.i < |s.rows|)
    ensures forall l :: l in Next(s, ev, next).broken <==> l in s.broken || Breaks(s, ev, l, next)
  {
  }

  ghost predicate BrokenBy(evs: seq<Event>, l: nat, next: NextTime) {
    exists k: nat :: k < |evs| && BreaksAt(evs, k, l, next)
  }

  ghost predicate BreaksAt(evs: seq<Event>, k: nat, l: nat, next: NextTime)
    requires k < |evs|
  {
    After(evs[..k], next).Some? && Breaks(After(evs[..k], next).value, evs[k], l, next)
  }

  lemma {:induction false} BrokenIff(evs: seq<Event>, l: nat, next: NextTime)
    requires After(evs, next).Some?
    ensures l in After(evs, next).value.broken <==> BrokenBy(evs, l, next)
  {
    if evs != [] {
      var n := |evs| - 1;
      BrokenIff(evs[..n], l, next);
      StepBreaks(After(evs[..n], next).value, evs[n], next);
      assert BreaksAt(evs, n, l, next) <==> Breaks(After(evs[..n], next).value, evs[n], l, next);
      forall k: nat | k < n ensures BreaksAt(evs[..n], k, l, next) <==> BreaksAt(evs, k, l, next) {
        assert evs[..n][..k] == evs[..k];
      }
    }
  }

  /** In every reachable state a lineage has at most one Scheduled occurrence, and its planned times strictly
      increase; exactly the rows with an expression recur; each occurrence after the first is recurring and has the
      founder's expression and work; and there is exactly one Scheduled occurrence unless some event has broken the
      lineage. */
  lemma LineageTheorem(evs: seq<Event>, next: NextTime)
    requires StrictlyLater(next) && After(evs, next).Some?
    ensures var s := After(evs, next).value;
            && (forall i, k :: 0 <= i < k < |s.rows| && Lineage(s.rows, i) == Lineage(s.rows, k) ==>
                  s.rows[i].planned < s.rows[k].planned &&
                  !(s.rows[i].status == Scheduled && s.rows[k].status == Scheduled))
            && (forall i :: 0 <= i < |s.rows| && s.rows[i].parent.Some? ==>
                  var p := s.rows[i].parent.value;
                  && p < i && s.rows[p].parent.None? && s.rows[i].recurring
                  && s.rows[i].cron == s.rows[p].cron && s.rows[i].work == s.rows[p].work)
            && (forall i :: 0 <= i < |s.rows| ==> s.rows[i].recurring == s.rows[i].cron.Some?)
            && (forall l: nat :: l < |s.rows| && s.rows[l].parent.None? && !BrokenBy(evs, l, next) ==>
                  HasScheduled(s.rows, l))
  {
    RunKeeps(evs, next);
    var s := After(evs, next).value;
    forall l: nat | l < |s.rows| && s.rows[l].parent.None? && !BrokenBy(evs, l, next) ensures HasScheduled(s.rows, l) {
      BrokenIff(evs, l, next);
    }
  }
}
