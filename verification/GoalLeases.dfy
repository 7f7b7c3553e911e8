/** Per-goal leases with owner tokens: exclusive while they last, and fenced once replaced. */
module GoalLeases {
  import opened Prelude

  type GoalId = string
  type Token = string

  datatype Lease = Lease(token: Token, workerId: string, leaseUntil: int, acquiredAt: int, lastRenewedAt: int)

  type Records = map<GoalId, Lease>

  // ----- The locked blocks on the record files -----

  function AcquireLease(records: Records, goal: GoalId, token: Token, worker: string, leaseMs: int,
      now: int): Option<Lease> {
    if goal in records && records[goal].leaseUntil > now then None
    else Some(Lease(token, worker, now + leaseMs, now, now))
  }

  function RenewLease(records: Records, goal: GoalId, token: Token, leaseMs: int, now: int): Option<Lease> {
    if goal !in records || records[goal].token != token || records[goal].leaseUntil <= now then None
    else Some(records[goal].(leaseUntil := now + leaseMs, lastRenewedAt := now))
  }

  predicate MayRelease(records: Records, goal: GoalId, token: Token) {
    goal in records && records[goal].token == token
  }

  predicate MayReap(records: Records, goal: GoalId, now: int) {
    goal in records && records[goal].leaseUntil <= now
  }

  function Stored(records: Records, goal: GoalId, lease: Option<Lease>): Records {
    if lease.None? then records else records[goal := lease.value]
  }

  /** One sweep over the listed record files: what is left, and the removed records in order. */
  function Sweep(records: Records, goals: seq<GoalId>, now: int): (Records, seq<Lease>) {
    if goals == [] then (records, []) else
    var g := goals[|goals| - 1];
    var (left, removed) := Sweep(records, goals[..|goals| - 1], now);
    if MayReap(left, g, now) then (left - {g}, removed + [left[g]]) else (left, removed)
  }

  class GoalLeaseManager {
    var leases: Records

    constructor ()
      ensures leases == map[]
    {
      leases := map[];
    }

    method Acquire(goal: GoalId, token: Token, worker: string, leaseMs: int, now: int) returns (r: Option<Lease>)
      modifies this
      ensures r == AcquireLease(old(leases), goal, token, worker, leaseMs, now)
      ensures leases == Stored(old(leases), goal, r)
      ensures r.None? <==> goal in old(leases) && old(leases)[goal].leaseUntil > now
      ensures r.Some? ==> leases == old(leases)[goal := r.value] && r.value.token == token && r.value.workerId == worker
      ensures r.Some? ==>
        r.value.leaseUntil == now + leaseMs && r.value.acquiredAt == now && r.value.lastRenewedAt == now
      ensures r.None? ==> leases == old(leases)
      ensures forall s: State :: s.records == old(leases) ==>
        leases == Next(s, Event.Acquire(goal, token, worker, leaseMs, now)).records
    {
      if goal in leases && leases[goal].leaseUntil > now {
        return None;
      }
      var record := Lease(token, worker, now + leaseMs, now, now);
      leases := leases[goal := record];
      r := Some(record);
    }

    method Renew(goal: GoalId, token: Token, leaseMs: int, now: int) returns (r: Option<Lease>)
      modifies this
      ensures r == RenewLease(old(leases), goal, token, leaseMs, now)
      ensures leases == Stored(old(leases), goal, r)
      ensures r.Some? <==> goal in old(leases) && old(leases)[goal].token == token && old(leases)[goal].leaseUntil > now
      ensures r.Some? ==> leases == old(leases)[goal := r.value] && r.value.leaseUntil == now + leaseMs
      ensures r.Some? ==> r.value.token == token && r.value.workerId == old(leases)[goal].workerId
      ensures r.Some? ==> r.value.acquiredAt == old(leases)[goal].acquiredAt && r.value.lastRenewedAt == now
      ensures r.None? ==> leases == old(leases)
      ensures forall s: State :: s.records == old(leases) ==>
        leases == Next(s, Event.Renew(goal, token, leaseMs, now)).records
    {
      if goal !in leases || leases[goal].token != token || leases[goal].leaseUntil <= now {
        return None;
      }
      var renewed := leases[goal].(leaseUntil := now + leaseMs, lastRenewedAt := now);
      leases := leases[goal := renewed];
      r := Some(renewed);
    }

    method Release(goal: GoalId, token: Token) returns (released: bool)
      modifies this
      ensures released <==> MayRelease(old(leases), goal, token)
      ensures released <==> goal in old(leases) && old(leases)[goal].token == token
      ensures leases == if released then old(leases) - {goal} else old(leases)
      ensures forall s: State :: s.records == old(leases) ==> leases == Next(s, Event.Release(goal, token)).records
    {
      if goal !in leases || leases[goal].token != token {
        return false;
      }
      leases := leases - {goal};
      released := true;
    }

    method ReapStale(entries: seq<GoalId>, now: int) returns (removed: seq<Lease>)
      modifies this
      ensures (leases, removed) == Sweep(old(leases), entries, now)
    {
      removed := [];
      for i := 0 to |entries|
        invariant (leases, removed) == Sweep(old(leases), entries[..i], now)
      {
        assert entries[..i + 1][..i] == entries[..i];
        var goal := entries[i];
        if goal in leases && leases[goal].leaseUntil <= now {
          removed := removed + [leases[goal]];
          leases := leases - {goal};
        }
      }
      assert entries[..|entries|] == entries;
    }
  }

  // ----- Runs -----

  /** The last lease a token was given and has not given back, up to the time that its request asked for. */
  datatype Grant = Grant(goal: GoalId, until: int)

  datatype State = State(records: Records, clock: int, grants: map<Token, Grant>, used: set<Token>)

  /** now is the time a call has read before it took the lock, so it may lag behind the clock. */
  datatype Event =
    | Tick(to: int)
    | Acquire(goal: GoalId, token: Token, worker: string, leaseMs: int, now: int)
    | Renew(goal: GoalId, token: Token, leaseMs: int, now: int)
    | Release(goal: GoalId, token: Token)
    | Reap(goal: GoalId, now: int)

  predicate Enabled(s: State, e: Event) {
    match e
    case Tick(to) => to >= s.clock
    case Acquire(_, token, _, _, now) => now <= s.clock && token !in s.used
    case Renew(_, _, _, now) => now <= s.clock
    case Release(_, _) => true
    case Reap(_, now) => now <= s.clock
  }

  function Next(s: State, e: Event): State {
    match e
    case Tick(to) => s.(clock := to)
    case Acquire(goal, token, worker, leaseMs, now) =>
      var r := AcquireLease(s.records, goal, token, worker, leaseMs, now);
      s.(records := Stored(s.records, goal, r), used := s.used + {token},
         grants := if r.None? then s.grants else s.grants[token := Grant(goal, now + leaseMs)])
    case Renew(goal, token, leaseMs, now) =>
      var r := RenewLease(s.records, goal, token, leaseMs, now);
      s.(records := Stored(s.records, goal, r),
         grants := if r.None? then s.grants else s.grants[token := Grant(goal, now + leaseMs)])
    case Release(goal, token) =>
      if MayRelease(s.records, goal, token) then s.(records := s.records - {goal}, grants := s.grants - {token}) else s
    case Reap(goal, now) =>
      if MayReap(s.records, goal, now) then s.(records := s.records - {goal}) else s
  }

  function Run(s: State, events: seq<Event>): State
    decreases |events|
  {
    if events == [] then s else Run(Next(s, events[0]), events[1..])
  }

  ghost predicate ValidRun(s: State, events: seq<Event>)
    decreases |events|
  {
    events == [] || (Enabled(s, events[0]) && ValidRun(Next(s, events[0]), events[1..]))
  }

  function Start(clock: int): State {
    State(map[], clock, map[], {})
  }

  /** The token holds the goal: its last lease has neither run out nor been given back. */
  predicate Holds(s: State, goal: GoalId, token: Token) {
    token in s.grants && s.grants[token].goal == goal && s.grants[token].until > s.clock
  }

  /** The token was used, and no record is its own any more. */
  ghost predicate Replaced(s: State, token: Token) {
    token in s.used && forall g :: g in s.records ==> s.records[g].token != token
  }

  ghost predicate Inv(s: State) {
    && (forall g :: g in s.records ==>
          s.records[g].token in s.grants && s.grants[s.records[g].token] == Grant(g, s.records[g].leaseUntil))
    && (forall t :: t in s.grants ==>
          t in s.used && (MayRelease(s.records, s.grants[t].goal, t) || s.grants[t].until <= s.clock))
  }

  lemma StepKeepsInv(s: State, e: Event)
    requires Inv(s) && Enabled(s, e)
    ensures Inv(Next(s, e))
  {
  }

  lemma {:induction false} RunKeepsInv(s: State, events: seq<Event>)
    requires Inv(s) && ValidRun(s, events)
    ensures Inv(Run(s, events))
    decreases |events|
  {
    if events != [] {
      StepKeepsInv(s, events[0]);
      RunKeepsInv(Next(s, events[0]), events[1..]);
    }
  }

  /** At every point of every run at most one token holds a goal, and it is the one in the record. */
  lemma Exclusivity(clock: int, events: seq<Event>, goal: GoalId, t1: Token, t2: Token)
    requires ValidRun(Start(clock), events)
    ensures var s := Run(Start(clock), events);
      && (Holds(s, goal, t1) && Holds(s, goal, t2) ==> t1 == t2)
      && (Holds(s, goal, t1) ==> goal in s.records && s.records[goal].token == t1)
  {
    RunKeepsInv(Start(clock), events);
  }

  /** An attempt now succeeds exactly when nobody holds the goal, and a renewal now exactly for the holder. */
  lemma GrantedIffFree(clock: int, events: seq<Event>, goal: GoalId, token: Token, worker: string, leaseMs: int)
    requires ValidRun(Start(clock), events)
    ensures var s := Run(Start(clock), events);
      && (AcquireLease(s.records, goal, token, worker, leaseMs, s.clock).Some? <==> forall t :: !Holds(s, goal, t))
      && (RenewLease(s.records, goal, token, leaseMs, s.clock).Some? <==> Holds(s, goal, token))
  {
    RunKeepsInv(Start(clock), events);
    var s := Run(Start(clock), events);
    if goal in s.records && s.records[goal].leaseUntil > s.clock {
      assert Holds(s, goal, s.records[goal].token);
    }
  }

  /** A token whose record was replaced or removed can never renew, release or hold anything again. */
  lemma {:induction false} Fencing(s: State, events: seq<Event>, token: Token)
    requires Inv(s) && ValidRun(s, events) && Replaced(s, token)
    ensures var t := Run(s, events);
      && Replaced(t, token)
      && (forall goal, leaseMs, now :: RenewLease(t.records, goal, token, leaseMs, now).None?)
      && (forall goal :: !MayRelease(t.records, goal, token) && !Holds(t, goal, token))
    decreases |events|
  {
    if events != [] {
      StepKeepsInv(s, events[0]);
      Fencing(Next(s, events[0]), events[1..], token);
    }
  }

  lemma {:induction false} GrantKeepsGoal(s: State, events: seq<Event>, token: Token)
    requires Inv(s) && ValidRun(s, events) && token in s.used
    ensures var t := Run(s, events);
      token in t.used && (token in t.grants ==> token in s.grants && t.grants[token].goal == s.grants[token].goal)
    decreases |events|
  {
    if events != [] {
      StepKeepsInv(s, events[0]);
      GrantKeepsGoal(Next(s, events[0]), events[1..], token);
    }
  }

  /** Tenures do not interleave: once another token has held the goal, the former holder never holds it again. */
  lemma TenuresNeverInterleave(clock: int, before: seq<Event>, between: seq<Event>, after: seq<Event>,
                               goal: GoalId, t1: Token, t2: Token)
    requires var s1 := Run(Start(clock), before); var s2 := Run(s1, between);
      && ValidRun(Start(clock), before) && ValidRun(s1, between) && ValidRun(s2, after)
      && Holds(s1, goal, t1) && Holds(s2, goal, t2) && t1 != t2
    ensures !Holds(Run(Run(Run(Start(clock), before), between), after), goal, t1)
  {
    var s1 := Run(Start(clock), before);
    var s2 := Run(s1, between);
    assert Inv(Start(clock));
    RunKeepsInv(Start(clock), before);
    RunKeepsInv(s1, between);
    GrantKeepsGoal(s1, between, t1);
    assert s2.records[goal].token == t2;
    assert Replaced(s2, t1);
    Fencing(s2, after, t1);
  }

  /** A sweep over distinct entries removes exactly the expired records among them, and answers them in order. */
  lemma {:induction false} SweepRemovesExpired(records: Records, goals: seq<GoalId>, now: int)
    requires forall i, j :: 0 <= i < j < |goals| ==> goals[i] != goals[j]
    ensures var (left, removed) := Sweep(records, goals, now);
      && (forall g :: g in left <==> g in records && !(g in goals && records[g].leaseUntil <= now))
      && (forall g :: g in left ==> left[g] == records[g])
      && var found := Filtered(goals, g => g in records && records[g].leaseUntil <= now);
         && |removed| == |found|
         && forall k :: 0 <= k < |removed| ==> found[k] in records && removed[k] == records[found[k]]
  {
    if goals != [] {
      var init, g := goals[..|goals| - 1], goals[|goals| - 1];
      SweepRemovesExpired(records, init, now);
      assert goals == init + [g] && g !in init;
    }
  }

  /** The token neither renews nor gives back its lease. */
  ghost predicate Untouched(events: seq<Event>, token: Token) {
    forall e :: e in events ==> !(e.Renew? && e.token == token) && !(e.Release? && e.token == token)
  }

  ghost predicate LeasedUntil(s: State, goal: GoalId, token: Token, until: int) {
    token in s.used && token in s.grants && s.grants[token] == Grant(goal, until)
  }

  lemma {:induction false} LeaseStays(s: State, events: seq<Event>, goal: GoalId, token: Token, until: int)
    requires Inv(s) && ValidRun(s, events) && Untouched(events, token) && LeasedUntil(s, goal, token, until)
    ensures Inv(Run(s, events)) && LeasedUntil(Run(s, events), goal, token, until)
    decreases |events|
  {
    if events != [] {
      assert events[0] in events;
      StepKeepsInv(s, events[0]);
      LeaseStays(Next(s, events[0]), events[1..], goal, token, until);
    }
  }

  /** Until its time the token holds the goal and no attempt succeeds; from then on one does unless another has come. */
  ghost predicate LeasedExactly(s: State, goal: GoalId, token: Token, until: int) {
    && (s.clock < until ==> Holds(s, goal, token))
    && (forall other, worker, ms, at :: s.clock < until && at <= s.clock ==>
          AcquireLease(s.records, goal, other, worker, ms, at).None?)
    && (s.clock >= until ==> !Holds(s, goal, token))
    && (forall other, worker, ms :: s.clock >= until ==>
          (AcquireLease(s.records, goal, other, worker, ms, s.clock).Some? <==> forall t :: !Holds(s, goal, t)))
  }

  lemma LeasedMeansExactly(s: State, goal: GoalId, token: Token, until: int)
    requires Inv(s) && LeasedUntil(s, goal, token, until)
    ensures LeasedExactly(s, goal, token, until)
  {
    if goal in s.records && s.records[goal].leaseUntil > s.clock {
      assert Holds(s, goal, s.records[goal].token);
    }
  }

  /**
   * A granted lease lasts exactly the time asked for: with no renewal or release of its own, its token holds the goal
   * and keeps every attempt out at every clock before now + leaseMs, and from then on it does not.
   */
  lemma LeaseLastsAsAsked(clock: int, before: seq<Event>, goal: GoalId, token: Token, worker: string, leaseMs: int,
      now: int, after: seq<Event>)
    requires var e := Acquire(goal, token, worker, leaseMs, now); var s := Run(Start(clock), before);
      && ValidRun(Start(clock), before) && Enabled(s, e) && ValidRun(Next(s, e), after) && Untouched(after, token)
      && AcquireLease(s.records, goal, token, worker, leaseMs, now).Some?
    ensures var s := Run(Next(Run(Start(clock), before), Acquire(goal, token, worker, leaseMs, now)), after);
      LeasedExactly(s, goal, token, now + leaseMs)
  {
    var e, s := Acquire(goal, token, worker, leaseMs, now), Run(Start(clock), before);
    RunKeepsInv(Start(clock), before);
    StepKeepsInv(s, e);
    LeaseStays(Next(s, e), after, goal, token, now + leaseMs);
    LeasedMeansExactly(Run(Next(s, e), after), goal, token, now + leaseMs);
  }

  /** And a renewal makes it last the time asked for from the renewal on. */
  lemma RenewalLastsAsAsked(clock: int, before: seq<Event>, goal: GoalId, token: Token, leaseMs: int, now: int,
      after: seq<Event>)
    requires var e := Renew(goal, token, leaseMs, now); var s := Run(Start(clock), before);
      && ValidRun(Start(clock), before) && Enabled(s, e) && ValidRun(Next(s, e), after) && Untouched(after, token)
      && RenewLease(s.records, goal, token, leaseMs, now).Some?
    ensures var s := Run(Next(Run(Start(clock), before), Renew(goal, token, leaseMs, now)), after);
      LeasedExactly(s, goal, token, now + leaseMs)
  {
    var e, s := Renew(goal, token, leaseMs, now), Run(Start(clock), before);
    RunKeepsInv(Start(clock), before);
    StepKeepsInv(s, e);
    LeaseStays(Next(s, e), after, goal, token, now + leaseMs);
    LeasedMeansExactly(Run(Next(s, e), after), goal, token, now + leaseMs);
  }

  /** Giving a lease back, or outliving it, makes the goal free for the next attempt. */
  lemma FreedByReleaseOrTime(clock: int, events: seq<Event>, goal: GoalId, token: Token, to: int)
    requires ValidRun(Start(clock), events) && Holds(Run(Start(clock), events), goal, token)
    ensures var s := Run(Start(clock), events); var t := Next(s, Release(goal, token));
      forall other, worker, ms :: AcquireLease(t.records, goal, other, worker, ms, t.clock).Some?
    ensures var s := Run(Start(clock), events); var t := Next(s, Tick(to));
      to >= s.grants[token].until ==>
        t.clock == to && forall other, worker, ms :: AcquireLease(t.records, goal, other, worker, ms, to).Some?
  {
    RunKeepsInv(Start(clock), events);
  }

  /** A sweep is a run of single reaps, between which other calls may come. */
  lemma {:induction false} SweepIsReaps(s: State, goals: seq<GoalId>, now: int)
    ensures Run(s, seq(|goals|, i requires 0 <= i < |goals| => Reap(goals[i], now))) ==
      s.(records := Sweep(s.records, goals, now).0)
  {
    var reaps := seq(|goals|, i requires 0 <= i < |goals| => Reap(goals[i], now));
    if goals != [] {
      var init := goals[..|goals| - 1];
      SweepIsReaps(s, init, now);
      assert reaps == seq(|init|, i requires 0 <= i < |init| => Reap(init[i], now)) + [Reap(goals[|goals| - 1], now)];
      RunSnoc(s, seq(|init|, i requires 0 <= i < |init| => Reap(init[i], now)), Reap(goals[|goals| - 1], now));
    }
  }

  lemma {:induction false} RunSnoc(s: State, events: seq<Event>, e: Event)
    ensures Run(s, events + [e]) == Next(Run(s, events), e)
    decreases |events|
  {
    if events == [] {
      assert [e][1..] == [];
    } else {
      RunSnoc(Next(s, events[0]), events[1..], e);
      assert (events + [e])[1..] == events[1..] + [e];
    }
  }
}
