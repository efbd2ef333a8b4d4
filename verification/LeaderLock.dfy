/** The lease lock kept in Redis, leader election on top of it, and why two leaders never overlap. */
module LeaderLock {
  import opened Common

  type Token = string

  type Instance = nat

  datatype Lease = Lease(token: Token, expires: int)

  /** A key past its expiry does not exist. */
  predicate IsLive(lease: Option<Lease>, now: int) {
    lease.Some? && now < lease.value.expires
  }

  predicate HeldBy(lease: Option<Lease>, now: int, token: Token) {
    IsLive(lease, now) && lease.value.token == token
  }

  /** What the three commands do to one key. */
  function Taken(lease: Option<Lease>, now: int, token: Token, ttl: int): Option<Lease> {
    if IsLive(lease, now) then lease else Some(Lease(token, now + ttl))
  }

  function Renewed(lease: Option<Lease>, now: int, token: Token, ttl: int): Option<Lease> {
    if HeldBy(lease, now, token) then Some(Lease(token, now + ttl)) else lease
  }

  function Freed(lease: Option<Lease>, now: int, token: Token): Option<Lease> {
    if HeldBy(lease, now, token) then None else lease
  }

  /** One Redis server. Each method is one command or script, so it is atomic. */
  class RedisStore {
    var now: int
    var leases: map<string, Lease>

    constructor ()
      ensures now == 0 && leases == map[]
    {
      now, leases := 0, map[];
    }

    function Lookup(key: string): Option<Lease>
      reads this
    {
      if key in leases then Some(leases[key]) else None
    }

    /** acquireLock: sets the key with an expiry, unless it exists. */
    method AcquireLock(key: string, token: Token, ttl: int) returns (ok: bool)
      requires ttl > 0
      modifies `leases
      ensures ok <==> !(key in old(leases) && now < old(leases)[key].expires)
      ensures leases == if ok then old(leases)[key := Lease(token, now + ttl)] else old(leases)
      ensures ok <==> !IsLive(old(Lookup(key)), now)
      ensures Lookup(key) == Taken(old(Lookup(key)), now, token, ttl) && leases - {key} == old(leases) - {key}
    {
      if key in leases && now < leases[key].expires { return false; }
      leases := leases[key := Lease(token, now + ttl)];
      return true;
    }

    /** renewLock: extends the lease only for the token that holds it. */
    method RenewLock(key: string, token: Token, ttl: int) returns (ok: bool)
      requires ttl > 0
      modifies `leases
      ensures ok <==> key in old(leases) && now < old(leases)[key].expires && old(leases)[key].token == token
      ensures leases == if ok then old(leases)[key := Lease(token, now + ttl)] else old(leases)
      ensures ok <==> HeldBy(old(Lookup(key)), now, token)
      ensures Lookup(key) == Renewed(old(Lookup(key)), now, token, ttl) && leases - {key} == old(leases) - {key}
    {
      ok := false;
      if key in leases && now < leases[key].expires && leases[key].token == token {
        leases := leases[key := Lease(token, now + ttl)];
        ok := true;
      }
    }

    /** releaseLock: deletes the key only for the token that holds it. */
    method ReleaseLock(key: string, token: Token) returns (ok: bool)
      modifies `leases
      ensures ok <==> key in old(leases) && now < old(leases)[key].expires && old(leases)[key].token == token
      ensures leases == if ok then old(leases) - {key} else old(leases)
      ensures ok <==> HeldBy(old(Lookup(key)), now, token)
      ensures Lookup(key) == Freed(old(Lookup(key)), now, token) && leases - {key} == old(leases) - {key}
    {
      ok := false;
      if key in leases && now < leases[key].expires && leases[key].token == token {
        leases := leases - {key};
        ok := true;
      }
    }
  }

  class Scheduler {
    var leaderLockToken: Option<Token>

    constructor ()
      ensures leaderLockToken.None?
    {
      leaderLockToken := None;
    }

    /** acquireLeadership: renew with the remembered token, else try to take the lock with a fresh one.
        It succeeds exactly when the lease is this instance's or nobody's. */
    method AcquireLeadership(redis: RedisStore, newToken: Token, ttl: int) returns (leader: bool)
      requires ttl > 0
      modifies this, redis`leases
      ensures leader <==>
                "scheduler_leader" !in old(redis.leases) ||
                redis.now >= old(redis.leases)["scheduler_leader"].expires ||
                old(leaderLockToken) == Some(old(redis.leases)["scheduler_leader"].token)
      ensures leader ==> leaderLockToken.Some?
      ensures leader ==> leaderLockToken.value == newToken || leaderLockToken == old(leaderLockToken)
      ensures leader ==> redis.Lookup("scheduler_leader") == Some(Lease(leaderLockToken.value, redis.now + ttl))
      ensures !leader ==> leaderLockToken.None?
      ensures !leader ==> redis.Lookup("scheduler_leader") == old(redis.Lookup("scheduler_leader"))
      ensures redis.leases - {"scheduler_leader"} == old(redis.leases) - {"scheduler_leader"}
    {
      if leaderLockToken.Some? {
        var renewed := redis.RenewLock("scheduler_leader", leaderLockToken.value, ttl);
        if renewed { return true; }
        leaderLockToken := None;
      }
      var ok := redis.AcquireLock("scheduler_leader", newToken, ttl);
      if ok {
        leaderLockToken := Some(newToken);
        return true;
      }
      return false;
    }
  }

  // ---------------------------------------------------------------- any number of instances

  datatype Entry = Granted(who: Instance, at: int) | Dropped(who: Instance)

  /** One lock key, who generated which token, and the log of successes. An instance may use any token it
      ever generated, however stale, and its calls may overlap. */
  datatype State = State(now: int, lease: Option<Lease>, owners: map<Token, Instance>, log: seq<Entry>)

  datatype Event =
    | Tick(ms: nat)
    | Take(who: Instance, newToken: Token)
    | Renew(who: Instance, token: Token)
    | Free(who: Instance, token: Token)

  predicate Possible(s: State, e: Event) {
    match e
    case Tick(_) => true
    case Take(_, newToken) => newToken !in s.owners
    case Renew(who, token) => token in s.owners && s.owners[token] == who
    case Free(who, token) => token in s.owners && s.owners[token] == who
  }

  function Next(s: State, e: Event, ttl: int): State
    requires Possible(s, e)
  {
    match e
    case Tick(ms) => s.(now := s.now + ms)
    case Take(who, newToken) =>
      State(s.now, Taken(s.lease, s.now, newToken, ttl), s.owners[newToken := who],
            if IsLive(s.lease, s.now) then s.log else s.log + [Granted(who, s.now)])
    case Renew(who, token) =>
      s.(lease := Renewed(s.lease, s.now, token, ttl),
         log := if HeldBy(s.lease, s.now, token) then s.log + [Granted(who, s.now)] else s.log)
    case Free(who, token) =>
      s.(lease := Freed(s.lease, s.now, token),
         log := if HeldBy(s.lease, s.now, token) then s.log + [Dropped(who)] else s.log)
  }

  function After(events: seq<Event>, ttl: int): Option<State> {
    if events == [] then Some(State(0, None, map[], []))
    else
      var e := events[|events| - 1];
      match After(events[..|events| - 1], ttl)
      case None => None
      case Some(s) => if Possible(s, e) then Some(Next(s, e, ttl)) else None
  }

  predicate FreedBetween(log: seq<Entry>, p: nat, q: nat, who: Instance) {
    exists r :: p < r < q && r < |log| && log[r] == Dropped(who)
  }

  /** The p-th success may still be in force. */
  predicate InForce(s: State, p: nat, ttl: int)
    requires p < |s.log|
  {
    s.log[p].Granted? && s.now < s.log[p].at + ttl && !FreedBetween(s.log, p, |s.log|, s.log[p].who)
  }

  /** A success in force is backed by a live lease of the same instance. */
  predicate Backed(s: State, ttl: int) {
    forall p :: 0 <= p < |s.log| && InForce(s, p, ttl) ==>
      && s.lease.Some? && s.lease.value.expires >= s.log[p].at + ttl
      && s.lease.value.token in s.owners && s.owners[s.lease.value.token] == s.log[p].who
  }

  predicate Disjoint(log: seq<Entry>, ttl: int) {
    forall p, q :: 0 <= p < q < |log| && log[p].Granted? && log[q].Granted? && log[p].who != log[q].who ==>
      log[q].at >= log[p].at + ttl || FreedBetween(log, p, q, log[p].who)
  }

  lemma FreedStays(log: seq<Entry>, e: Entry, p: nat, who: Instance)
    requires p < |log|
    ensures FreedBetween(log, p, |log|, who) ==> FreedBetween(log + [e], p, |log| + 1, who)
    ensures e == Dropped(who) ==> FreedBetween(log + [e], p, |log| + 1, who)
    ensures forall q: nat :: q <= |log| ==> (FreedBetween(log + [e], p, q, who) <==> FreedBetween(log, p, q, who))
  {
    var more := log + [e];
    if r :| p < r < |log| && log[r] == Dropped(who) { assert more[r] == Dropped(who); }
    if e == Dropped(who) { assert more[|log|] == Dropped(who); }
    forall q: nat | q <= |log| ensures FreedBetween(more, p, q, who) <==> FreedBetween(log, p, q, who) {
      if r :| p < r < q && r < |log| && log[r] == Dropped(who) { assert more[r] == Dropped(who); }
    }
  }

  lemma GrantDisjoint(s: State, who: Instance, ttl: int)
    requires Backed(s, ttl) && Disjoint(s.log, ttl)
    requires forall p :: 0 <= p < |s.log| && InForce(s, p, ttl) ==> s.log[p].who == who
    ensures Disjoint(s.log + [Granted(who, s.now)], ttl)
  {
    var e := Granted(who, s.now);
    var more := s.log + [e];
    forall p, q | 0 <= p < q < |more| && more[p].Granted? && more[q].Granted? && more[p].who != more[q].who
      ensures more[q].at >= more[p].at + ttl || FreedBetween(more, p, q, more[p].who)
    {
      FreedStays(s.log, e, p, more[p].who);
      if q == |s.log| { assert !InForce(s, p, ttl); }
    }
  }

  lemma GrantBacked(s: State, t: State, who: Instance, ttl: int)
    requires Backed(s, ttl) && t.now == s.now && t.log == s.log + [Granted(who, s.now)]
    requires forall p :: 0 <= p < |s.log| && InForce(s, p, ttl) ==> s.log[p].who == who
    requires t.lease.Some? && t.lease.value.expires == s.now + ttl
    requires t.lease.value.token in t.owners && t.owners[t.lease.value.token] == who
    requires forall p :: 0 <= p < |s.log| && s.log[p].Granted? ==> s.log[p].at <= s.now
    ensures Backed(t, ttl)
  {
    forall p | 0 <= p < |t.log| && InForce(t, p, ttl)
      ensures t.lease.value.expires >= t.log[p].at + ttl && t.log[p].who == who
    {
      if p < |s.log| {
        FreedStays(s.log, Granted(who, s.now), p, s.log[p].who);
        assert InForce(s, p, ttl);
      }
    }
  }

  predicate LogPast(s: State) {
    forall p :: 0 <= p < |s.log| && s.log[p].Granted? ==> s.log[p].at <= s.now
  }

  predicate Inv(s: State, ttl: int) {
    Backed(s, ttl) && Disjoint(s.log, ttl) && LogPast(s)
  }

  lemma StepInv(s: State, e: Event, ttl: int)
    requires Inv(s, ttl) && Possible(s, e)
    ensures Inv(Next(s, e, ttl), ttl)
  {
    var t := Next(s, e, ttl);
    match e
    case Tick(ms) =>
      forall p | 0 <= p < |t.log| && InForce(t, p, ttl) ensures InForce(s, p, ttl) {}
    case Take(who, newToken) =>
      if IsLive(s.lease, s.now) {
        forall p | 0 <= p < |t.log| && InForce(t, p, ttl) ensures InForce(s, p, ttl) {}
      } else {
        GrantDisjoint(s, who, ttl);
        GrantBacked(s, t, who, ttl);
      }
    case Renew(who, token) =>
      if HeldBy(s.lease, s.now, token) {
        GrantDisjoint(s, who, ttl);
        GrantBacked(s, t, who, ttl);
      }
    case Free(who, token) =>
      if HeldBy(s.lease, s.now, token) { FreeInv(s, who, token, ttl); }
  }

  lemma FreeInv(s: State, who: Instance, token: Token, ttl: int)
    requires Inv(s, ttl) && Possible(s, Free(who, token)) && HeldBy(s.lease, s.now, token)
    ensures Inv(Next(s, Free(who, token), ttl), ttl)
  {
    var t := Next(s, Free(who, token), ttl);
    forall p | 0 <= p < |s.log| ensures !InForce(t, p, ttl) {
      FreedStays(s.log, Dropped(who), p, who);
      if s.log[p].Granted? {
        FreedStays(s.log, Dropped(who), p, s.log[p].who);
        if s.log[p].who != who { assert !InForce(s, p, ttl); }
      }
    }
    forall p, q | 0 <= p < q < |t.log| && t.log[p].Granted? && t.log[q].Granted? && t.log[p].who != t.log[q].who
      ensures t.log[q].at >= t.log[p].at + ttl || FreedBetween(t.log, p, q, t.log[p].who)
    {
      FreedStays(s.log, Dropped(who), p, s.log[p].who);
    }
  }

  lemma {:induction false} RunInv(events: seq<Event>, ttl: int)
    requires After(events, ttl).Some?
    ensures Inv(After(events, ttl).value, ttl)
  {
    if events != [] {
      RunInv(events[..|events| - 1], ttl);
      StepInv(After(events[..|events| - 1], ttl).value, events[|events| - 1], ttl);
    }
  }

  /** Leases are disjoint: after a success of one instance at time t, no other instance succeeds before
      t + ttl, unless the first one released the lock itself in between. */
  lemma LeasesDisjoint(events: seq<Event>, ttl: int, p: nat, q: nat)
    requires After(events, ttl).Some?
    requires var log := After(events, ttl).value.log;
             p < q < |log| && log[p].Granted? && log[q].Granted? && log[p].who != log[q].who
    ensures var log := After(events, ttl).value.log;
            log[q].at >= log[p].at + ttl || exists r :: p < r < q && log[r] == Dropped(log[p].who)
  {
    RunInv(events, ttl);
  }

  lemma {:induction false} NothingFreed(events: seq<Event>, ttl: int)
    requires After(events, ttl).Some?
    requires forall e :: e in events ==> !e.Free?
    ensures forall r :: 0 <= r < |After(events, ttl).value.log| ==> After(events, ttl).value.log[r].Granted?
  {
    if events != [] {
      assert events[|events| - 1] in events;
      NothingFreed(events[..|events| - 1], ttl);
    }
  }

  /** Leader election never releases the lock, so two leaderships of different instances are always at least
      a whole ttl apart. */
  lemma LeadersDisjoint(events: seq<Event>, ttl: int, p: nat, q: nat)
    requires After(events, ttl).Some?
    requires forall e :: e in events ==> !e.Free?
    requires var log := After(events, ttl).value.log;
             p < q < |log| && log[p].Granted? && log[q].Granted? && log[p].who != log[q].who
    ensures var log := After(events, ttl).value.log;
            log[q].at >= log[p].at + ttl
  {
    NothingFreed(events, ttl);
    LeasesDisjoint(events, ttl, p, q);
  }

  /** While a success is in force the lock is immune to everybody else: no other instance takes, renews or
      deletes it with any token it ever had, and neither does the holder with a token it no longer holds. */
  lemma HolderUndisturbed(events: seq<Event>, ttl: int, p: nat, e: Event)
    requires After(events, ttl).Some?
    requires var s := After(events, ttl).value;
             p < |s.log| && InForce(s, p, ttl) && Possible(s, e) &&
             match e
             case Tick(_) => false
             case Take(who, _) => true
             case Renew(who, token) => who != s.log[p].who || !HeldBy(s.lease, s.now, token)
             case Free(who, token) => who != s.log[p].who || !HeldBy(s.lease, s.now, token)
    ensures var s, t := After(events, ttl).value, Next(After(events, ttl).value, e, ttl);
            t.lease == s.lease && t.log == s.log
  {
    RunInv(events, ttl);
  }
}
