/** The leader lock: one lease record, which the death of its process also frees. */
module LeaderLock {
  import opened Prelude

  type Token = string
  type Pid = nat

  datatype Leader = Leader(token: Token, pid: Pid, acquiredAt: int, lastRenewedAt: int, leaseUntil: int)

  // ----- The locked blocks on the record file -----

  /** alive is the answer of the liveness probe for the recorded process. */
  function AcquireLead(record: Option<Leader>, alive: bool, pid: Pid, token: Token, leaseMs: int,
      now: int): Option<Leader> {
    if record.Some? && record.value.leaseUntil > now && alive then None
    else Some(Leader(token, pid, now, now, now + leaseMs))
  }

  function RenewLead(record: Option<Leader>, token: Token, leaseMs: int, now: int): Option<Leader> {
    if record.None? || record.value.token != token || record.value.leaseUntil <= now then None
    else Some(record.value.(lastRenewedAt := now, leaseUntil := now + leaseMs))
  }

  predicate MayRelease(record: Option<Leader>, token: Token) {
    record.Some? && record.value.token == token
  }

  predicate MayReap(record: Option<Leader>, now: int) {
    record.Some? && record.value.leaseUntil <= now
  }

  function Stored(record: Option<Leader>, written: Option<Leader>): Option<Leader> {
    if written.None? then record else written
  }

  class LeaderLockManager {
    const pid: Pid
    var record: Option<Leader>

    constructor (pid: Pid)
      ensures this.pid == pid && record == None
    {
      this.pid, record := pid, None;
    }

    method Acquire(token: Token, leaseMs: int, now: int, alive: bool) returns (r: Option<Leader>)
      modifies this
      ensures r == AcquireLead(old(record), alive, pid, token, leaseMs, now)
      ensures record == Stored(old(record), r)
      ensures r.None? <==> old(record).Some? && old(record).value.leaseUntil > now && alive
      ensures record == if r.None? then old(record) else r
      ensures r.Some? ==> r.value.token == token && r.value.pid == pid && r.value.leaseUntil == now + leaseMs
      ensures r.Some? ==> r.value.acquiredAt == now && r.value.lastRenewedAt == now
      ensures forall s: State :: s.record == old(record) && (s.record.Some? ==> alive == OwnerAlive(s)) ==>
        record == Next(s, Event.Acquire(pid, token, leaseMs, now)).record
    {
      if record.Some? && record.value.leaseUntil > now && alive {
        return None;
      }
      record := Some(Leader(token, pid, now, now, now + leaseMs));
      r := record;
    }

    method Renew(token: Token, leaseMs: int, now: int) returns (r: Option<Leader>)
      modifies this
      ensures r == RenewLead(old(record), token, leaseMs, now)
      ensures record == Stored(old(record), r)
      ensures r.Some? <==> old(record).Some? && old(record).value.token == token && old(record).value.leaseUntil > now
      ensures record == if r.None? then old(record) else r
      ensures r.Some? ==> r.value.token == token && r.value.pid == old(record).value.pid
      ensures r.Some? ==> r.value.leaseUntil == now + leaseMs && r.value.lastRenewedAt == now
      ensures r.Some? ==> r.value.acquiredAt == old(record).value.acquiredAt
      ensures forall s: State :: s.record == old(record) ==> record == Next(s, Event.Renew(token, leaseMs, now)).record
    {
      if record.None? || record.value.token != token || record.value.leaseUntil <= now {
        return None;
      }
      record := Some(record.value.(lastRenewedAt := now, leaseUntil := now + leaseMs));
      r := record;
    }

    method Release(token: Token) returns (released: bool)
      modifies this
      ensures released <==> MayRelease(old(record), token)
      ensures released <==> old(record).Some? && old(record).value.token == token
      ensures record == if released then None else old(record)
      ensures forall s: State :: s.record == old(record) ==> record == Next(s, Event.Release(token)).record
    {
      if record.None? || record.value.token != token {
        return false;
      }
      record := None;
      released := true;
    }

    method ReapStale(now: int) returns (removed: Option<Leader>)
      modifies this
      ensures removed == if MayReap(old(record), now) then old(record) else None
      ensures removed.Some? <==> old(record).Some? && old(record).value.leaseUntil <= now
      ensures record == if MayReap(old(record), now) then None else old(record)
      ensures forall s: State :: s.record == old(record) ==> record == Next(s, Event.Reap(now)).record
    {
      if record.None? || record.value.leaseUntil > now {
        return None;
      }
      removed := record;
      record := None;
    }
  }

  // ----- Runs -----

  datatype Grant = Grant(pid: Pid, until: int)

  /** dead only grows: a process id does not come back. */
  datatype State = State(record: Option<Leader>, clock: int, dead: set<Pid>, grants: map<Token, Grant>,
    used: set<Token>)

  datatype Event =
    | Tick(to: int)
    | Die(pid: Pid)
    | Acquire(pid: Pid, token: Token, leaseMs: int, now: int)
    | Renew(token: Token, leaseMs: int, now: int)
    | Release(token: Token)
    | Reap(now: int)

  predicate OwnerAlive(s: State) {
    s.record.Some? && s.record.value.pid !in s.dead
  }

  predicate Enabled(s: State, e: Event) {
    match e
    case Tick(to) => to >= s.clock
    case Die(_) => true
    case Acquire(pid, token, _, now) => now <= s.clock && token !in s.used && pid !in s.dead
    case Renew(_, _, now) => now <= s.clock
    case Release(_) => true
    case Reap(now) => now <= s.clock
  }

  function Next(s: State, e: Event): State {
    match e
    case Tick(to) => s.(clock := to)
    case Die(pid) => s.(dead := s.dead + {pid})
    case Acquire(pid, token, leaseMs, now) =>
      var r := AcquireLead(s.record, OwnerAlive(s), pid, token, leaseMs, now);
      s.(record := Stored(s.record, r), used := s.used + {token},
         grants := if r.None? then s.grants else s.grants[token := Grant(pid, now + leaseMs)])
    case Renew(token, leaseMs, now) =>
      var r := RenewLead(s.record, token, leaseMs, now);
      s.(record := Stored(s.record, r),
         grants := if r.None? then s.grants else s.grants[token := Grant(r.value.pid, now + leaseMs)])
    case Release(token) =>
      if MayRelease(s.record, token) then s.(record := None, grants := s.grants - {token}) else s
    case Reap(now) => if MayReap(s.record, now) then s.(record := None) else s
  }

  function Run(s: State, events: seq<Event>): State
    decreases |events|
  {
    if events == [] then s else Run(Next(s, events[0]), events[1..])
  }

  ghost predicate ValidRun(s: State, events: seq<Event>)
    decreases |events|
  {
    events == [] || (Enabled(s, events[0]) && ValidRun(Next(s, events[0]), events[1..]))
  }

  function Start(clock: int): State {
    State(None, clock, {}, map[], {})
  }

  /** The process is alive and its lease under this token has neither run out nor been given back. */
  predicate Leads(s: State, pid: Pid, token: Token) {
    token in s.grants && s.grants[token].pid == pid && s.grants[token].until > s.clock && pid !in s.dead
  }

  ghost predicate Replaced(s: State, token: Token) {
    token in s.used && !MayRelease(s.record, token)
  }

  ghost predicate Inv(s: State) {
    && (s.record.Some? ==>
          var r := s.record.value; r.token in s.grants && s.grants[r.token] == Grant(r.pid, r.leaseUntil))
    && (forall t :: t in s.grants ==>
          t in s.used && (MayRelease(s.record, t) || s.grants[t].until <= s.clock || s.grants[t].pid in s.dead))
  }

  lemma StepKeepsInv(s: State, e: Event)
    requires Inv(s) && Enabled(s, e)
    ensures Inv(Next(s, e))
  {
  }

  lemma {:induction false} RunKeepsInv(s: State, events: seq<Event>)
    requires Inv(s) && ValidRun(s, events)
    ensures Inv(Run(s, events))
    decreases |events|
  {
    if events != [] {
      StepKeepsInv(s, events[0]);
      RunKeepsInv(Next(s, events[0]), events[1..]);
    }
  }

  /** At every point of every run at most one live process leads, under one token, and the record names it. */
  lemma OneLiveLeader(clock: int, events: seq<Event>, p1: Pid, t1: Token, p2: Pid, t2: Token)
    requires ValidRun(Start(clock), events)
    ensures var s := Run(Start(clock), events);
      && (Leads(s, p1, t1) && Leads(s, p2, t2) ==> p1 == p2 && t1 == t2)
      && (Leads(s, p1, t1) ==> s.record.Some? && s.record.value.token == t1 && s.record.value.pid == p1)
  {
    RunKeepsInv(Start(clock), events);
  }

  /** A deposed token can never renew, release or lead again. */
  lemma {:induction false} Fencing(s: State, events: seq<Event>, token: Token)
    requires Inv(s) && ValidRun(s, events) && Replaced(s, token)
    ensures var t := Run(s, events);
      && Replaced(t, token) && !MayRelease(t.record, token)
      && (forall leaseMs, now :: RenewLead(t.record, token, leaseMs, now).None?)
      && forall pid :: !Leads(t, pid, token)
    decreases |events|
  {
    if events != [] {
      StepKeepsInv(s, events[0]);
      Fencing(Next(s, events[0]), events[1..], token);
    }
  }

  /**
   * A live leader can renew and keeps every other process out; once its process is dead, the next attempt gets the lock
   * at once.
   */
  lemma OnlyDeathOrExpiryFrees(clock: int, events: seq<Event>, pid: Pid, token: Token, other: Pid, t2: Token,
      leaseMs: int)
    requires ValidRun(Start(clock), events)
    ensures var s := Run(Start(clock), events);
      && (Leads(s, pid, token) ==>
            && AcquireLead(s.record, OwnerAlive(s), other, t2, leaseMs, s.clock).None?
            && RenewLead(s.record, token, leaseMs, s.clock).Some?)
      && ((forall p, t :: !Leads(s, p, t)) ==> AcquireLead(s.record, OwnerAlive(s), other, t2, leaseMs, s.clock).Some?)
  {
    RunKeepsInv(Start(clock), events);
    var s := Run(Start(clock), events);
    if s.record.Some? && s.record.value.leaseUntil > s.clock && s.record.value.pid !in s.dead {
      assert Leads(s, s.record.value.pid, s.record.value.token);
    }
  }

  // ----- How long it lasts -----

  /** The token neither renews nor gives back its lease. */
  ghost predicate Untouched(events: seq<Event>, token: Token) {
    forall e :: e in events ==> !(e.Renew? && e.token == token) && !(e.Release? && e.token == token)
  }

  ghost predicate LeasedUntil(s: State, pid: Pid, token: Token, until: int) {
    token in s.used && token in s.grants && s.grants[token] == Grant(pid, until)
  }

  lemma {:induction false} LeaseStays(s: State, events: seq<Event>, pid: Pid, token: Token, until: int)
    requires Inv(s) && ValidRun(s, events) && Untouched(events, token) && LeasedUntil(s, pid, token, until)
    ensures Inv(Run(s, events)) && LeasedUntil(Run(s, events), pid, token, until)
    decreases |events|
  {
    if events != [] {
      assert events[0] in events;
      StepKeepsInv(s, events[0]);
      LeaseStays(Next(s, events[0]), events[1..], pid, token, until);
    }
  }

  /**
   * While its process lives the token leads until its time, and keeps out every attempt, whatever time that has read;
   * when its time is over, or its process dead, it does not lead, and an attempt succeeds unless another leads.
   */
  ghost predicate LeasedExactly(s: State, pid: Pid, token: Token, until: int) {
    && (Leads(s, pid, token) <==> s.clock < until && pid !in s.dead)
    && (forall other, t, ms, at :: s.clock < until && pid !in s.dead && at <= s.clock ==>
          AcquireLead(s.record, OwnerAlive(s), other, t, ms, at).None?)
    && (forall other, t, ms :: s.clock >= until || pid in s.dead ==>
          (AcquireLead(s.record, OwnerAlive(s), other, t, ms, s.clock).Some? <==> forall p, u :: !Leads(s, p, u)))
  }

  lemma LeasedMeansExactly(s: State, pid: Pid, token: Token, until: int)
    requires Inv(s) && LeasedUntil(s, pid, token, until)
    ensures LeasedExactly(s, pid, token, until)
  {
    if s.clock < until && pid !in s.dead {
      assert MayRelease(s.record, token) && OwnerAlive(s) && s.record.value.leaseUntil == until;
    }
    forall p, u | Leads(s, p, u) ensures s.record.Some? && s.record.value.leaseUntil > s.clock && OwnerAlive(s) {
      assert MayRelease(s.record, u);
    }
    if s.record.Some? && s.record.value.leaseUntil > s.clock && s.record.value.pid !in s.dead {
      assert Leads(s, s.record.value.pid, s.record.value.token);
    }
  }

  /** Leadership that was granted lasts exactly the time asked for, as long as its process lives. */
  lemma LeadLastsAsAsked(clock: int, before: seq<Event>, pid: Pid, token: Token, leaseMs: int, now: int,
      after: seq<Event>)
    requires var e := Acquire(pid, token, leaseMs, now); var s := Run(Start(clock), before);
      && ValidRun(Start(clock), before) && Enabled(s, e) && ValidRun(Next(s, e), after) && Untouched(after, token)
      && AcquireLead(s.record, OwnerAlive(s), pid, token, leaseMs, now).Some?
    ensures var s := Run(Next(Run(Start(clock), before), Acquire(pid, token, leaseMs, now)), after);
      LeasedExactly(s, pid, token, now + leaseMs)
  {
    var e, s := Acquire(pid, token, leaseMs, now), Run(Start(clock), before);
    RunKeepsInv(Start(clock), before);
    StepKeepsInv(s, e);
    LeaseStays(Next(s, e), after, pid, token, now + leaseMs);
    LeasedMeansExactly(Run(Next(s, e), after), pid, token, now + leaseMs);
  }

  /** Giving it back, outliving it or dying makes the lock free for the next attempt. */
  lemma FreedByReleaseTimeOrDeath(clock: int, events: seq<Event>, pid: Pid, token: Token, to: int)
    requires ValidRun(Start(clock), events) && Leads(Run(Start(clock), events), pid, token)
    ensures var s := Run(Start(clock), events); var t := Next(s, Release(token));
      forall other, u, ms :: AcquireLead(t.record, OwnerAlive(t), other, u, ms, t.clock).Some?
    ensures var s := Run(Start(clock), events); var t := Next(s, Die(pid));
      forall other, u, ms :: AcquireLead(t.record, OwnerAlive(t), other, u, ms, t.clock).Some?
    ensures var s := Run(Start(clock), events); var t := Next(s, Tick(to));
      to >= s.grants[token].until ==>
        t.clock == to && forall other, u, ms :: AcquireLead(t.record, OwnerAlive(t), other, u, ms, to).Some?
  {
    RunKeepsInv(Start(clock), events);
  }

  /** And a renewal makes it last the time asked for from the renewal on. */
  lemma RenewalLastsAsAsked(clock: int, before: seq<Event>, token: Token, leaseMs: int, now: int, after: seq<Event>)
    requires var e := Renew(token, leaseMs, now); var s := Run(Start(clock), before);
      && ValidRun(Start(clock), before) && Enabled(s, e) && ValidRun(Next(s, e), after) && Untouched(after, token)
      && RenewLead(s.record, token, leaseMs, now).Some?
    ensures var s0 := Run(Start(clock), before); var s := Run(Next(s0, Renew(token, leaseMs, now)), after);
      token in s0.grants && LeasedExactly(s, s0.grants[token].pid, token, now + leaseMs)
  {
    var e, s := Renew(token, leaseMs, now), Run(Start(clock), before);
    RunKeepsInv(Start(clock), before);
    StepKeepsInv(s, e);
    LeaseStays(Next(s, e), after, s.grants[token].pid, token, now + leaseMs);
    LeasedMeansExactly(Run(Next(s, e), after), s.grants[token].pid, token, now + leaseMs);
  }
}
