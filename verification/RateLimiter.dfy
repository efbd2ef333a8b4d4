/** The request counter kept in Redis, and how many requests it lets through over any trace and any interval. */
module RateLimiter {
  import opened Common

  /** A counted key with the moment it vanishes, in milliseconds. */
  datatype Counter = Counter(count: nat, expires: int)

  predicate IsLive(c: Option<Counter>, now: int) {
    c.Some? && now < c.value.expires
  }

  /** Requests already counted in the current window. */
  function Seen(c: Option<Counter>, now: int): nat {
    if IsLive(c, now) then c.value.count else 0
  }

  predicate Admits(c: Option<Counter>, now: int, limit: int) {
    Seen(c, now) < limit
  }

  /** The key after one request: the window opens with the first request and later ones do not extend it. */
  function Counted(c: Option<Counter>, now: int, window: int): (next: Option<Counter>)
    ensures next.Some? && IsLive(next, now) ==> next.value.count == Seen(c, now) + 1
  {
    if IsLive(c, now) && c.value.count > 0 then Some(Counter(c.value.count + 1, c.value.expires))
    else if window > 0 then Some(Counter(1, now + window))
    else None
  }

  class RedisCounters {
    var now: int
    var counters: map<string, Counter>

    constructor ()
      ensures now == 0 && counters == map[] && Valid()
    {
      now, counters := 0, map[];
    }

    predicate Valid()
      reads this
    {
      forall key :: key in counters ==> counters[key].count > 0
    }

    function Lookup(key: string): Option<Counter>
      reads this
    {
      if key in counters then Some(counters[key]) else None
    }

    /** checkRateLimit, one atomic script: INCR, then EXPIRE only when the count came out as 1. An EXPIRE with a
        window that is not positive deletes the key at once. */
    method CheckRateLimit(key: string, limit: int, windowSeconds: int) returns (allowed: bool, remaining: int)
      requires Valid()
      modifies `counters
      ensures Valid()
      ensures var live := key in old(counters) && now < old(counters)[key].expires;
              var seen := if live then old(counters)[key].count else 0;
              && (allowed <==> seen < limit)
              && remaining == (if seen < limit then limit - seen - 1 else 0)
              && counters == if live then old(counters)[key := Counter(seen + 1, old(counters)[key].expires)]
                             else if windowSeconds > 0 then old(counters)[key := Counter(1, now + windowSeconds * 1000)]
                             else old(counters) - {key}
      ensures allowed <==> Admits(old(Lookup(key)), now, limit)
      ensures remaining == if allowed then limit - Seen(old(Lookup(key)), now) - 1 else 0
      ensures Lookup(key) == Counted(old(Lookup(key)), now, windowSeconds * 1000)
      ensures counters - {key} == old(counters) - {key}
    {
      var live := key in counters && now < counters[key].expires;
      var count := if live then counters[key].count + 1 else 1;
      if live { counters := counters[key := Counter(count, counters[key].expires)]; }
      if count == 1 {
        if windowSeconds > 0 {
          counters := counters[key := Counter(1, now + windowSeconds * 1000)];
        } else {
          counters := counters - {key};
        }
      }
      if count > limit { return false, 0; }
      return true, limit - count;
    }
  }

  // ---------------------------------------------------------------- traces of requests for one key

  predicate Sorted(times: seq<int>) {
    forall i, j :: 0 <= i < j < |times| ==> times[i] <= times[j]
  }

  /** The key after the requests at these times. */
  function StateAfter(times: seq<int>, window: int): Option<Counter> {
    if times == [] then None
    else Counted(StateAfter(times[..|times| - 1], window), times[|times| - 1], window)
  }

  /** Is the i-th request let through? */
  predicate Allowed(times: seq<int>, window: int, limit: int, i: nat)
    requires i < |times|
  {
    Admits(StateAfter(times[..i], window), times[i], limit)
  }

  /** The first request of the window that the i-th request falls into, from the times alone. */
  function Opener(times: seq<int>, window: int, i: nat): (f: nat)
    requires i < |times|
    ensures f <= i
  {
    if i == 0 then 0
    else
      var f := Opener(times, window, i - 1);
      if times[i] < times[f] + window then f else i
  }

  /** How many of the requests lo..hi-1 are let through. */
  function Passed(times: seq<int>, window: int, limit: int, lo: nat, hi: nat): nat
    requires lo <= hi <= |times|
  {
    if lo == hi then 0
    else Passed(times, window, limit, lo, hi - 1) + if Allowed(times, window, limit, hi - 1) then 1 else 0
  }

  lemma {:induction false} OpenerOfSelf(times: seq<int>, window: int, i: nat)
    requires i < |times|
    ensures Opener(times, window, Opener(times, window, i)) == Opener(times, window, i)
  {
    if i > 0 { OpenerOfSelf(times, window, i - 1); }
  }

  lemma {:induction false} StateIsWindow(times: seq<int>, window: int, i: nat)
    requires Sorted(times) && i < |times|
    ensures var f, c := Opener(times, window, i), StateAfter(times[..i + 1], window);
            if window > 0 then c == Some(Counter(i - f + 1, times[f] + window)) else c == None && f == i
  {
    assert times[..i + 1][..i] == times[..i];
    if i > 0 {
      StateIsWindow(times, window, i - 1);
    } else {
      assert times[..0] == [];
    }
  }

  /** Which requests pass: the i-th is let through exactly when it is among the first `limit` requests since
      its window was opened. */
  lemma AllowedIff(times: seq<int>, window: int, limit: int, i: nat)
    requires Sorted(times) && i < |times|
    ensures Allowed(times, window, limit, i) <==> i - Opener(times, window, i) < limit
  {
    if i > 0 {
      StateIsWindow(times, window, i - 1);
    } else {
      assert times[..0] == [];
    }
  }

  lemma {:induction false} PassedInWindow(times: seq<int>, window: int, limit: int, f: nat, lo: nat, hi: nat)
    requires Sorted(times) && f <= lo <= hi <= |times|
    requires forall i :: lo <= i < hi ==> Opener(times, window, i) == f
    ensures Passed(times, window, limit, lo, hi) == Max(0, Min(hi, f + limit) - lo)
  {
    if lo < hi {
      PassedInWindow(times, window, limit, f, lo, hi - 1);
      AllowedIff(times, window, limit, hi - 1);
    }
  }

  /** Every window admits exactly min(requests, limit): f opens it, and its requests are f..hi-1. */
  lemma WindowAdmits(times: seq<int>, window: int, limit: int, f: nat, hi: nat)
    requires Sorted(times) && f <= hi <= |times|
    requires forall i :: f <= i < hi ==> Opener(times, window, i) == f
    ensures Passed(times, window, limit, f, hi) == Min(hi - f, Max(0, limit))
  {
    PassedInWindow(times, window, limit, f, f, hi);
  }

  lemma {:induction false} PassedSplits(times: seq<int>, window: int, limit: int, lo: nat, mid: nat, hi: nat)
    requires lo <= mid <= hi <= |times|
    ensures Passed(times, window, limit, lo, hi) ==
              Passed(times, window, limit, lo, mid) + Passed(times, window, limit, mid, hi)
  {
    if mid < hi { PassedSplits(times, window, limit, lo, mid, hi - 1); }
  }

  /** An interval no longer than a window meets at most two windows, and a second one only if the first was
      opened before the interval. */
  lemma {:induction false} TwoWindows(times: seq<int>, window: int, a: int, lo: nat, hi: nat) returns (g: nat)
    requires Sorted(times) && lo < hi <= |times|
    requires forall i :: lo <= i < hi ==> a <= times[i] < a + window
    ensures lo < g <= hi
    ensures forall i :: lo <= i < g ==> Opener(times, window, i) == Opener(times, window, lo)
    ensures forall i :: g <= i < hi ==> Opener(times, window, i) == g
    ensures g < hi ==> Opener(times, window, lo) < lo
  {
    if hi == lo + 1 {
      g := hi;
    } else {
      g := TwoWindows(times, window, a, lo, hi - 1);
      assert g == hi - 1 ==> Opener(times, window, hi - 2) == Opener(times, window, lo);
      if g == hi - 1 && Opener(times, window, hi - 1) != hi - 1 { g := hi; }
    }
  }

  /** Every interval one window long, however aligned, admits at most 2 * limit - 1 requests. */
  lemma AnyInterval(times: seq<int>, window: int, limit: int, a: int, lo: nat, hi: nat)
    requires Sorted(times) && lo <= hi <= |times|
    requires forall i :: lo <= i < hi ==> a <= times[i] < a + window
    ensures Passed(times, window, limit, lo, hi) <= Max(0, 2 * limit - 1)
  {
    if lo < hi {
      var f := Opener(times, window, lo);
      var g := TwoWindows(times, window, a, lo, hi);
      PassedSplits(times, window, limit, lo, g, hi);
      PassedInWindow(times, window, limit, f, lo, g);
      PassedInWindow(times, window, limit, g, g, hi);
    }
  }

  /** One early request, the rest of the quota at the end of the window, and a full quota right after it. */
  function Burst(window: int, limit: nat): seq<int> {
    seq(2 * limit, i => if i == 0 then 0 else if i < limit then window - 1 else window)
  }

  lemma {:induction false} BurstOpeners(window: int, limit: nat, i: nat)
    requires window > 1 && i < 2 * limit
    ensures Opener(Burst(window, limit), window, i) == if i < limit then 0 else limit
  {
    if i > 0 { BurstOpeners(window, limit, i - 1); }
  }

  /** The bound is attained for every limit and window: it cannot be improved, and twice the limit minus one
      really passes within one window length. */
  lemma AnyIntervalTight(window: int, limit: nat)
    requires window > 1 && limit > 0
    ensures var times := Burst(window, limit);
            && Sorted(times)
            && (forall i :: 1 <= i < |times| ==> window - 1 <= times[i] < (window - 1) + window)
            && Passed(times, window, limit, 1, |times|) == 2 * limit - 1
  {
    var times := Burst(window, limit);
    forall i: nat | i < |times| ensures Opener(times, window, i) == if i < limit then 0 else limit {
      BurstOpeners(window, limit, i);
    }
    PassedSplits(times, window, limit, 1, limit, |times|);
    PassedInWindow(times, window, limit, 0, 1, limit);
    PassedInWindow(times, window, limit, limit, limit, |times|);
  }
}
