/** Which rows a claim takes: ORDER BY priority DESC, run_at ASC LIMIT free FOR UPDATE SKIP LOCKED. */
module ClaimSelection {
  import opened Common
  import opened JobCell

  type JobId = string

  type Table = map<JobId, Cell>

  /** Queued, due, in a queue that is neither paused nor deleted, and not locked by another claim. */
  predicate Eligible(c: Cell, open: set<QueueId>, now: int) {
    c.status == Queued && c.runAt <= now && c.queue in open && c.lock.None?
  }

  function EligibleRows(t: Table, open: set<QueueId>, now: int): set<JobId> {
    set j | j in t && Eligible(t[j], open, now)
  }

  /** a may stand before b. */
  predicate Before(a: Cell, b: Cell) {
    a.priority > b.priority || (a.priority == b.priority && a.runAt <= b.runAt)
  }

  predicate RowBefore(t: Table, a: JobId, b: JobId) {
    a in t && b in t && Before(t[a], t[b])
  }

  ghost predicate NoRepeats(rows: seq<JobId>) {
    forall i, k :: 0 <= i < k < |rows| ==> rows[i] != rows[k]
  }

  ghost predicate Ordered(t: Table, rows: seq<JobId>) {
    forall i, k :: 0 <= i < k < |rows| ==> RowBefore(t, rows[i], rows[k])
  }

  /** rows are the first min(free, n) of the n eligible rows; ties may fall either way. */
  ghost predicate IsSelection(t: Table, open: set<QueueId>, now: int, free: nat, rows: seq<JobId>) {
    var all := EligibleRows(t, open, now);
    && (forall j :: j in rows ==> j in all)
    && NoRepeats(rows) && Ordered(t, rows)
    && (forall j, r :: j in all && j !in rows && r in rows ==> RowBefore(t, r, j))
    && |rows| == Min(free, |all|)
  }

  function ToSet(rows: seq<JobId>): set<JobId> {
    set j | j in rows
  }

  lemma {:induction false} ToSetSize(rows: seq<JobId>)
    requires NoRepeats(rows)
    ensures |ToSet(rows)| == |rows|
  {
    if rows != [] {
      var n := |rows| - 1;
      ToSetSize(rows[..n]);
      assert rows == rows[..n] + [rows[n]];
      assert ToSet(rows) == ToSet(rows[..n]) + {rows[n]};
      assert rows[n] !in rows[..n];
    }
  }

  /** An element that may stand before every other. */
  method First(t: Table, rows: set<JobId>) returns (best: JobId)
    requires rows != {} && rows <= t.Keys
    ensures best in rows && forall j :: j in rows ==> RowBefore(t, best, j)
  {
    best :| best in rows;
    var rest := rows - {best};
    while rest != {}
      invariant best in rows && rest <= rows
      invariant forall j :: j in rows - rest ==> RowBefore(t, best, j)
      decreases rest
    {
      var j :| j in rest;
      assert j in t && best in t;
      if !Before(t[best], t[j]) {
        forall k | k in rows - rest ensures RowBefore(t, j, k) { assert RowBefore(t, best, k); }
        best := j;
      }
      rest := rest - {j};
    }
  }

  /** On the columns alone: no row twice; each row taken is Queued, due, in an open queue and unlocked; they stand
      by falling priority, then by rising run time; and a row that could be taken is left out only when all
      slots are full and none of the rows taken comes after it. */
  ghost predicate TakesFirst(t: Table, open: set<QueueId>, now: int, free: nat, rows: seq<JobId>) {
    && |rows| <= free
    && (forall i, k :: 0 <= i < k < |rows| ==> rows[i] != rows[k])
    && (forall j :: j in rows ==>
          j in t && t[j].status == Queued && t[j].runAt <= now && t[j].queue in open && t[j].lock.None?)
    && (forall i, k :: 0 <= i < k < |rows| ==>
          t[rows[i]].priority > t[rows[k]].priority ||
          (t[rows[i]].priority == t[rows[k]].priority && t[rows[i]].runAt <= t[rows[k]].runAt))
    && (forall j :: j in t && j !in rows &&
                    t[j].status == Queued && t[j].runAt <= now && t[j].queue in open && t[j].lock.None? ==>
          |rows| == free &&
          forall r :: r in rows ==>
            t[r].priority > t[j].priority || (t[r].priority == t[j].priority && t[r].runAt <= t[j].runAt))
  }

  lemma SelectionFits(t: Table, open: set<QueueId>, now: int, free: nat, rows: seq<JobId>)
    requires NoRepeats(rows) && forall j :: j in rows ==> j in EligibleRows(t, open, now)
    ensures |rows| == Min(free, |EligibleRows(t, open, now)|) <==>
            |rows| <= free && ((exists j :: j in EligibleRows(t, open, now) && j !in rows) ==> |rows| == free)
  {
    var all := EligibleRows(t, open, now);
    ToSetSize(rows);
    SubsetSize(ToSet(rows), all);
    if ToSet(rows) != all {
      assert all == ToSet(rows) + (all - ToSet(rows));
      assert exists j :: j in all - ToSet(rows);
    }
  }

  lemma SelectionIff(t: Table, open: set<QueueId>, now: int, free: nat, rows: seq<JobId>)
    ensures IsSelection(t, open, now, free, rows) <==> TakesFirst(t, open, now, free, rows)
  {
    if NoRepeats(rows) && forall j :: j in rows ==> j in EligibleRows(t, open, now) {
      SelectionFits(t, open, now, free, rows);
      forall i | 0 <= i < |rows| ensures rows[i] in t { assert rows[i] in EligibleRows(t, open, now); }
    }
  }

  /** The query, row by row: a selection always exists, so a claim never waits for another. */
  method SelectCandidates(t: Table, open: set<QueueId>, now: int, free: nat) returns (rows: seq<JobId>)
    ensures IsSelection(t, open, now, free, rows)
    ensures TakesFirst(t, open, now, free, rows)
  {
    hide TakesFirst;
    rows := [];
    var rest := EligibleRows(t, open, now);
    ghost var all := rest;
    while |rows| < free && rest != {}
      invariant rest <= all && ToSet(rows) == all - rest && |rows| <= free
      invariant |rows| + |rest| == |all|
      invariant NoRepeats(rows) && Ordered(t, rows)
      invariant forall j, r :: j in rest && r in rows ==> RowBefore(t, r, j)
      decreases rest
    {
      var best := First(t, rest);
      Appended(t, rows, best);
      rows := rows + [best];
      rest := rest - {best};
    }
    assert forall j :: j in rows <==> j in ToSet(rows);
    SelectionIff(t, open, now, free, rows);
  }

  lemma Appended(t: Table, rows: seq<JobId>, best: JobId)
    requires best !in rows && NoRepeats(rows) && Ordered(t, rows)
    requires forall r :: r in rows ==> RowBefore(t, r, best)
    ensures NoRepeats(rows + [best]) && Ordered(t, rows + [best]) && ToSet(rows + [best]) == ToSet(rows) + {best}
  {
    var more := rows + [best];
    forall i, k | 0 <= i < k < |more| ensures more[i] != more[k] && RowBefore(t, more[i], more[k]) {
      assert more[i] in rows;
    }
  }

  /** The order keys of a selection are determined: two selections agree position by position. */
  lemma SelectionKeysUnique(t: Table, open: set<QueueId>, now: int, free: nat, a: seq<JobId>, b: seq<JobId>)
    requires IsSelection(t, open, now, free, a) && IsSelection(t, open, now, free, b)
    ensures |a| == |b|
    ensures forall i :: 0 <= i < |a| ==> RowBefore(t, a[i], b[i]) && RowBefore(t, b[i], a[i])
  {
    forall i | 0 <= i < |a| ensures RowBefore(t, a[i], b[i]) && RowBefore(t, b[i], a[i]) {
      NotLater(t, open, now, free, a, b, i);
      NotLater(t, open, now, free, b, a, i);
    }
  }

  lemma NotLater(t: Table, open: set<QueueId>, now: int, free: nat, a: seq<JobId>, b: seq<JobId>, i: nat)
    requires IsSelection(t, open, now, free, a) && IsSelection(t, open, now, free, b) && i < |a|
    ensures RowBefore(t, b[i], a[i])
  {
    assert a[i] in a && b[i] in b;
    if !RowBefore(t, b[i], a[i]) {
      // the i + 1 rows a[..i + 1] all stand strictly before b[i], so they are among the i rows b[..i]
      forall j | j in ToSet(a[..i + 1]) ensures j in ToSet(b[..i]) {
        var k :| 0 <= k < i + 1 && a[..i + 1][k] == j;
        StrictlyBefore(t, open, now, free, a, b, i, k);
      }
      SubsetSize(ToSet(a[..i + 1]), ToSet(b[..i]));
      ToSetSize(a[..i + 1]);
      ToSetSize(b[..i]);
    }
  }

  lemma StrictlyBefore(t: Table, open: set<QueueId>, now: int, free: nat, a: seq<JobId>, b: seq<JobId>, i: nat, k: nat)
    requires IsSelection(t, open, now, free, a) && IsSelection(t, open, now, free, b) && k <= i < |a|
    requires !RowBefore(t, b[i], a[i])
    ensures a[k] in b[..i]
  {
    assert a[k] in a && a[i] in a && b[i] in b;
    assert k == i || RowBefore(t, a[k], a[i]);
    assert !RowBefore(t, b[i], a[k]);
    assert a[k] in b;
    var m :| 0 <= m < |b| && b[m] == a[k];
    assert m < i && b[..i][m] == a[k];
  }
}
