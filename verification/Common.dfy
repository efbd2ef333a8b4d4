/** Types shared by the modules of the job platform. */
module Common {
  datatype Option<+T> = None | Some(value: T) {
    function GetOr(default: T): T {
      match this
      case Some(v) => v
      case None => default
    }
  }

  /** The states of a job. */
  datatype JobStatus = Scheduled | Queued | Claimed | Running | Completed | Failed | DeadLetter | Cancelled

  /** The states of a worker row. */
  datatype WorkerStatus = Online | Draining | Offline

  function Max(a: int, b: int): (r: int)
    ensures r >= a && r >= b && (r == a || r == b)
  {
    if a >= b then a else b
  }

  function Min(a: int, b: int): (r: int)
    ensures r <= a && r <= b && (r == a || r == b)
  {
    if a <= b then a else b
  }

  /** r takes the elements of all at the positions at, in order. */
  ghost predicate Picks<T>(all: seq<T>, r: seq<T>, at: seq<nat>) {
    && |at| == |r|
    && (forall a :: 0 <= a < |at| ==> at[a] < |all| && r[a] == all[at[a]])
    && (forall a, b :: 0 <= a < b < |at| ==> at[a] < at[b])
  }

  lemma PicksMore<T>(all: seq<T>, x: T, r: seq<T>, at: seq<nat>)
    requires Picks(all, r, at)
    ensures Picks(all + [x], r, at) && Picks(all + [x], r + [x], at + [|all|])
  {
  }

  lemma AppendedMember(s: seq<nat>, x: nat)
    ensures forall i: nat :: i in s + [x] <==> i in s || i == x
  {
    forall i: nat | i in s ensures i in s + [x] {
      var a :| 0 <= a < |s| && s[a] == i;
      assert (s + [x])[a] == i;
    }
    assert (s + [x])[|s|] == x;
  }

  /** All but the last. */
  lemma PicksInit<T>(all: seq<T>, r: seq<T>, at: seq<nat>)
    requires Picks(all, r, at) && r != []
    ensures var k := |r| - 1;
            && |at| == |r| && Picks(all, r[..k], at[..k]) && at[k] < |all| && r[k] == all[at[k]]
            && (forall i :: i in at[..k] ==> i < at[k])
            && (forall i: nat :: i in at <==> i in at[..k] || i == at[k])
  {
    var k := |r| - 1;
    forall i | i in at[..k] ensures i < at[k] {
      var a :| 0 <= a < k && at[..k][a] == i;
    }
    AppendedMember(at[..k], at[k]);
    assert at == at[..k] + [at[k]];
  }

  lemma SubsetSize<T>(a: set<T>, b: set<T>)
    requires a <= b
    ensures |a| <= |b|
  {
    assert b == a + (b - a);
    assert |b| == |a| + |b - a|;
  }
}
