/** The tool concurrency controller: waking of queued calls, and aborts between shell calls of one directory. */
module ToolConcurrency {
  import opened Prelude

  type CallId = nat

  /** A call with the working directory it would run in, if it is a shell call. */
  datatype Call = Call(id: CallId, cwd: Option<string>)

  /** woken calls have been resolved out of the queue but have not resumed yet. */
  datatype State = State(
    activeCount: nat,
    queue: seq<Call>,
    woken: map<CallId, Call>,
    running: map<CallId, Call>,
    activeShells: map<string, CallId>,
    aborted: set<CallId>)

  // ----- What the steps of a call do to the state -----

  function Enter(s: State, c: Call): State {
    s.(activeCount := s.activeCount + 1,
       running := s.running[c.id := c],
       aborted := if c.cwd.Some? && c.cwd.value in s.activeShells then s.aborted + {s.activeShells[c.cwd.value]}
         else s.aborted,
       activeShells := if c.cwd.Some? then s.activeShells[c.cwd.value := c.id] else s.activeShells)
  }

  function Arrive(s: State, c: Call, limit: nat): State {
    if s.activeCount >= limit then s.(queue := s.queue + [c]) else Enter(s, c)
  }

  function Resume(s: State, id: CallId): State
    requires id in s.woken
  {
    Enter(s.(woken := s.woken - {id}), s.woken[id])
  }

  function Finish(s: State, id: CallId): State
    requires id in s.running && s.activeCount > 0
  {
    var cwd := s.running[id].cwd;
    var shells :=
      if cwd.Some? && cwd.value in s.activeShells && s.activeShells[cwd.value] == id then s.activeShells - {cwd.value}
      else s.activeShells;
    var t := s.(activeCount := s.activeCount - 1, running := s.running - {id}, activeShells := shells);
    if s.queue == [] then t else t.(queue := s.queue[1..], woken := s.woken[s.queue[0].id := s.queue[0]])
  }

  function Idle(): State {
    State(0, [], map[], map[], map[], {})
  }

  /**
   * The three places where a call's run touches the controller: before and after its wait, and in its finally block.
   */
  class ConcurrencyController {
    const maxConcurrent: nat
    var activeCount: nat
    var queue: seq<Call>
    var activeShells: map<string, CallId>
    ghost var woken: map<CallId, Call>
    ghost var running: map<CallId, Call>
    var aborted: set<CallId>

    constructor (maxConcurrent: nat)
      ensures this.maxConcurrent == maxConcurrent && S() == Idle()
    {
      this.maxConcurrent := maxConcurrent;
      activeCount, queue, activeShells, woken, running, aborted := 0, [], map[], map[], map[], {};
    }

    ghost function S(): State
      reads this
    {
      State(activeCount, queue, woken, running, activeShells, aborted)
    }

    method RunBegins(c: Call) returns (waits: bool)
      modifies this
      ensures S() == Arrive(old(S()), c, maxConcurrent) == Next(old(S()), Arrival(c), maxConcurrent)
      ensures waits <==> old(activeCount) >= maxConcurrent
    {
      if activeCount >= maxConcurrent {
        queue := queue + [c];
        return true;
      }
      EnterCall(c);
      waits := false;
    }

    method WaitEnds(c: Call)
      requires c.id in woken && woken[c.id] == c
      modifies this
      ensures S() == Resume(old(S()), c.id) == Next(old(S()), Resumption(c.id), maxConcurrent)
    {
      woken := woken - {c.id};
      EnterCall(c);
    }

    method EnterCall(c: Call)
      modifies this
      ensures S() == Enter(old(S()), c)
    {
      activeCount := activeCount + 1;
      running := running[c.id := c];
      if c.cwd.Some? {
        if c.cwd.value in activeShells {
          aborted := aborted + {activeShells[c.cwd.value]};
        }
        activeShells := activeShells[c.cwd.value := c.id];
      }
    }

    method RunEnds(c: Call)
      requires c.id in running && running[c.id] == c && activeCount > 0
      modifies this
      ensures S() == Finish(old(S()), c.id) == Next(old(S()), Completion(c.id), maxConcurrent)
    {
      activeCount := activeCount - 1;
      running := running - {c.id};
      if c.cwd.Some? && c.cwd.value in activeShells && activeShells[c.cwd.value] == c.id {
        activeShells := activeShells - {c.cwd.value};
      }
      if queue != [] {
        woken := woken[queue[0].id := queue[0]];
        queue := queue[1..];
      }
    }
  }

  // ----- Runs -----

  datatype Event = Arrival(call: Call) | Resumption(id: CallId) | Completion(id: CallId)

  /** New calls have new ids. */
  ghost predicate Enabled(s: State, e: Event) {
    match e
    case Arrival(c) => NewCall(s, c)
    case Resumption(id) => id in s.woken
    case Completion(id) => id in s.running && s.activeCount > 0
  }

  function Next(s: State, e: Event, limit: nat): State {
    match e
    case Arrival(c) => Arrive(s, c, limit)
    case Resumption(id) => if id in s.woken then Resume(s, id) else s
    case Completion(id) => if id in s.running && s.activeCount > 0 then Finish(s, id) else s
  }

  function Run(s: State, events: seq<Event>, limit: nat): State
    decreases |events|
  {
    if events == [] then s else Run(Next(s, events[0], limit), events[1..], limit)
  }

  ghost predicate ValidRun(s: State, events: seq<Event>, limit: nat)
    decreases |events|
  {
    events == [] || (Enabled(s, events[0]) && ValidRun(Next(s, events[0], limit), events[1..], limit))
  }

  // ----- The invariant -----

  ghost predicate IdsApart(s: State) {
    && (forall i, j :: 0 <= i < j < |s.queue| ==> s.queue[i].id != s.queue[j].id)
    && (forall i :: 0 <= i < |s.queue| ==>
          s.queue[i].id !in s.woken && s.queue[i].id !in s.running && s.queue[i].id !in s.aborted)
    && (forall id :: id in s.woken ==> s.woken[id].id == id && id !in s.running && id !in s.aborted)
    && (forall id :: id in s.running ==> s.running[id].id == id)
  }

  /**
   * The registered call of a directory runs there unaborted, and a running shell call that is not aborted is
   * registered.
   */
  ghost predicate ShellsRegistered(s: State) {
    && (forall d :: d in s.activeShells ==>
          var id := s.activeShells[d]; id in s.running && s.running[id].cwd == Some(d) && id !in s.aborted)
    && (forall id :: id in s.running && s.running[id].cwd.Some? && id !in s.aborted ==>
          var d := s.running[id].cwd.value; d in s.activeShells && s.activeShells[d] == id)
  }

  ghost predicate Inv(s: State, limit: nat) {
    && IdsApart(s) && ShellsRegistered(s)
    && s.activeCount == |s.running|
    && (s.queue != [] ==> s.activeCount + |s.woken| >= limit)
  }

  lemma RemoveOne<V>(m: map<CallId, V>, id: CallId)
    requires id in m
    ensures |m - {id}| == |m| - 1
  {
    assert (m - {id}).Keys == m.Keys - {id};
  }

  ghost predicate NewCall(s: State, c: Call) {
    c.id !in s.woken && c.id !in s.running && c.id !in s.aborted &&
    forall i :: 0 <= i < |s.queue| ==> s.queue[i].id != c.id
  }

  lemma EnterKeepsIds(s: State, c: Call)
    requires IdsApart(s) && ShellsRegistered(s) && NewCall(s, c)
    ensures IdsApart(Enter(s, c))
  {
  }

  lemma EnterKeepsShells(s: State, c: Call)
    requires IdsApart(s) && ShellsRegistered(s) && NewCall(s, c)
    ensures ShellsRegistered(Enter(s, c))
  {
    var t := Enter(s, c);
    forall d | d in t.activeShells
      ensures t.activeShells[d] in t.running && t.running[t.activeShells[d]].cwd == Some(d) &&
        t.activeShells[d] !in t.aborted
    {
    }
  }

  /** Taking the finished call off the books. */
  function Left(s: State, id: CallId): State
    requires id in s.running && s.activeCount > 0
  {
    Finish(s.(queue := []), id).(queue := s.queue)
  }

  lemma FinishSplit(s: State, id: CallId)
    requires id in s.running && s.activeCount > 0
    ensures var t := Left(s, id);
      Finish(s, id) == if s.queue == [] then t
        else t.(queue := s.queue[1..], woken := s.woken[s.queue[0].id := s.queue[0]])
  {
  }

  lemma LeftKeepsShells(s: State, id: CallId)
    requires IdsApart(s) && ShellsRegistered(s) && id in s.running && s.activeCount > 0
    ensures IdsApart(Left(s, id)) && ShellsRegistered(Left(s, id))
  {
  }

  lemma WakeKeepsIds(s: State)
    requires IdsApart(s) && s.queue != []
    ensures IdsApart(s.(queue := s.queue[1..], woken := s.woken[s.queue[0].id := s.queue[0]]))
  {
  }

  lemma FinishKeepsInv(s: State, id: CallId, limit: nat)
    requires Inv(s, limit) && id in s.running && s.activeCount > 0
    ensures Inv(Finish(s, id), limit)
  {
    FinishSplit(s, id);
    LeftKeepsShells(s, id);
    RemoveOne(s.running, id);
    if s.queue != [] {
      WakeKeepsIds(Left(s, id));
    }
  }

  lemma EnterKeepsInv(s: State, c: Call, limit: nat)
    requires Inv(s, limit) && NewCall(s, c)
    ensures Inv(Enter(s, c), limit)
  {
    EnterKeepsIds(s, c);
    EnterKeepsShells(s, c);
  }

  lemma ResumeKeepsInv(s: State, id: CallId, limit: nat)
    requires Inv(s, limit) && id in s.woken
    ensures Inv(Resume(s, id), limit)
  {
    RemoveOne(s.woken, id);
    var t := s.(woken := s.woken - {id});
    EnterKeepsIds(t, s.woken[id]);
    EnterKeepsShells(t, s.woken[id]);
  }

  lemma QueueKeepsInv(s: State, c: Call, limit: nat)
    requires Inv(s, limit) && NewCall(s, c) && s.activeCount >= limit
    ensures Inv(s.(queue := s.queue + [c]), limit)
  {
  }

  lemma StepKeepsInv(s: State, e: Event, limit: nat)
    requires Inv(s, limit) && Enabled(s, e)
    ensures Inv(Next(s, e, limit), limit)
  {
    match e
    case Arrival(c) => if s.activeCount < limit { EnterKeepsInv(s, c, limit); } else { QueueKeepsInv(s, c, limit); }
    case Resumption(id) => ResumeKeepsInv(s, id, limit);
    case Completion(id) => FinishKeepsInv(s, id, limit);
  }

  lemma {:induction false} RunKeepsInv(s: State, events: seq<Event>, limit: nat)
    requires Inv(s, limit) && ValidRun(s, events, limit)
    ensures Inv(Run(s, events, limit), limit)
    decreases |events|
  {
    if events != [] {
      StepKeepsInv(s, events[0], limit);
      RunKeepsInv(Next(s, events[0], limit), events[1..], limit);
    }
  }

  /**
   * No wake-up is lost: while a call waits, the running and the woken calls fill the limit, so one of them will wake
   * the next.
   */
  lemma NoLostWakeUp(events: seq<Event>, limit: nat)
    requires ValidRun(Idle(), events, limit)
    ensures var s := Run(Idle(), events, limit);
      && (s.queue != [] ==> |s.running| + |s.woken| >= limit)
      && (limit >= 1 && s.running == map[] && s.woken == map[] ==> s.queue == [])
  {
    RunKeepsInv(Idle(), events, limit);
  }

  /** At most one running shell call of a directory is not aborted, and it is the registered one. */
  lemma OneLiveShellPerDirectory(events: seq<Event>, limit: nat, a: CallId, b: CallId)
    requires ValidRun(Idle(), events, limit)
    ensures var s := Run(Idle(), events, limit);
      a in s.running && a !in s.aborted && s.running[a].cwd.Some? ==>
        && s.running[a].cwd.value in s.activeShells && s.activeShells[s.running[a].cwd.value] == a
        && (b in s.running && b !in s.aborted && s.running[b].cwd == s.running[a].cwd ==> a == b)
  {
    RunKeepsInv(Idle(), events, limit);
  }

  /** The call that enters next under the limit, at once or out of the queue. */
  ghost predicate Enters(s: State, e: Event, c: Call, limit: nat) {
    || (e == Arrival(c) && s.activeCount < limit)
    || (e == Resumption(c.id) && c.id in s.woken && s.woken[c.id] == c)
  }

  /**
   * A shell call that enters goes on unaborted; of all other running calls it aborts exactly those that were live in
   * its directory. A call that is no shell aborts nothing.
   */
  lemma NewShellTakesOver(events: seq<Event>, limit: nat, e: Event, c: Call)
    requires ValidRun(Idle(), events, limit)
    requires var s := Run(Idle(), events, limit); Enabled(s, e) && Enters(s, e, c, limit)
    ensures var s := Run(Idle(), events, limit); var t := Next(s, e, limit);
      && c.id in t.running && t.running[c.id] == c && c.id !in t.aborted
      && (forall id :: id in s.running ==> id in t.running && t.running[id] == s.running[id])
      && (forall id :: id in s.running ==>
            (id in t.aborted <==> id in s.aborted || (c.cwd.Some? && s.running[id].cwd == c.cwd)))
  {
    RunKeepsInv(Idle(), events, limit);
  }

  // ----- Waking is first come, first served -----

  /** The calls that had to wait, in the order of their arrival. */
  function Waited(s: State, events: seq<Event>, limit: nat): seq<Call>
    decreases |events|
  {
    if events == [] then []
    else
      var e := events[0];
      WaitedBy(s, e, limit) + Waited(Next(s, e, limit), events[1..], limit)
  }

  /** The calls woken, in the order of their waking. */
  function Woken(s: State, events: seq<Event>, limit: nat): seq<Call>
    decreases |events|
  {
    if events == [] then []
    else
      var e := events[0];
      WokenBy(s, e) + Woken(Next(s, e, limit), events[1..], limit)
  }

  /** What one event adds to the calls that had to wait, and to those woken. */
  function WaitedBy(s: State, e: Event, limit: nat): seq<Call> {
    if e.Arrival? && s.activeCount >= limit then [e.call] else []
  }

  function WokenBy(s: State, e: Event): seq<Call> {
    if e.Completion? && e.id in s.running && s.activeCount > 0 && s.queue != [] then [s.queue[0]] else []
  }

  lemma StepKeepsOrder(s: State, e: Event, limit: nat)
    ensures s.queue + WaitedBy(s, e, limit) == WokenBy(s, e) + Next(s, e, limit).queue
  {
  }

  lemma Rearranged(q: seq<Call>, a: seq<Call>, b: seq<Call>, c: seq<Call>, q1: seq<Call>, d: seq<Call>, q2: seq<Call>)
    requires q + a == b + q1 && q1 + c == d + q2
    ensures q + (a + c) == (b + d) + q2
  {
    assert q + (a + c) == (q + a) + c == b + (q1 + c) == (b + d) + q2;
  }

  lemma {:induction false} WakingKeepsOrder(s: State, events: seq<Event>, limit: nat)
    ensures s.queue + Waited(s, events, limit) == Woken(s, events, limit) + Run(s, events, limit).queue
    decreases |events|
  {
    if events == [] {
      assert s.queue + [] == [] + s.queue;
    } else {
      var e, t, rest := events[0], Next(s, events[0], limit), events[1..];
      WakingKeepsOrder(t, rest, limit);
      StepKeepsOrder(s, e, limit);
      Rearranged(s.queue, WaitedBy(s, e, limit), WokenBy(s, e), Waited(t, rest, limit), t.queue, Woken(t, rest, limit),
                 Run(t, rest, limit).queue);
    }
  }

  /** Every waiting call is woken in its turn: those woken so far and then those still queued are those that waited. */
  lemma FirstComeFirstServed(events: seq<Event>, limit: nat)
    ensures Waited(Idle(), events, limit) == Woken(Idle(), events, limit) + Run(Idle(), events, limit).queue
  {
    WakingKeepsOrder(Idle(), events, limit);
    assert [] + Waited(Idle(), events, limit) == Waited(Idle(), events, limit);
  }

  // ----- The limit itself -----

  /** A new call starts while woken calls still hold the places they were given. */
  predicate BargesIn(s: State, e: Event, limit: nat) {
    e.Arrival? && s.activeCount < limit <= s.activeCount + |s.woken|
  }

  ghost predicate NoBargingIn(s: State, events: seq<Event>, limit: nat)
    decreases |events|
  {
    events == [] || (!BargesIn(s, events[0], limit) && NoBargingIn(Next(s, events[0], limit), events[1..], limit))
  }

  /** Running and woken calls together stay within the limit at every point of the run. */
  ghost predicate LimitKeptThroughout(s: State, events: seq<Event>, limit: nat)
    decreases |events|
  {
    && s.activeCount + |s.woken| <= limit
    && (events == [] || LimitKeptThroughout(Next(s, events[0], limit), events[1..], limit))
  }

  /** What one event does to the number of running and woken calls. */
  lemma PlacesTaken(s: State, e: Event, limit: nat)
    requires Inv(s, limit) && Enabled(s, e)
    ensures var before := s.activeCount + |s.woken|; var t := Next(s, e, limit); var after := t.activeCount + |t.woken|;
      match e
      case Arrival(_) => after == before + if s.activeCount < limit then 1 else 0
      case Resumption(_) => after == before
      case Completion(_) => after == before - if s.queue == [] then 1 else 0
  {
    if e.Resumption? {
      RemoveOne(s.woken, e.id);
    }
  }

  /** The limit is kept throughout a run exactly when no call barges in. */
  lemma {:induction false} LimitKeptIffNoBargingIn(s: State, events: seq<Event>, limit: nat)
    requires Inv(s, limit) && ValidRun(s, events, limit) && s.activeCount + |s.woken| <= limit
    ensures LimitKeptThroughout(s, events, limit) <==> NoBargingIn(s, events, limit)
    decreases |events|
  {
    if events != [] {
      var t := Next(s, events[0], limit);
      StepKeepsInv(s, events[0], limit);
      PlacesTaken(s, events[0], limit);
      if t.activeCount + |t.woken| <= limit {
        LimitKeptIffNoBargingIn(t, events[1..], limit);
      }
    }
  }

  /**
   * In every run of a fresh controller, running calls stay within the limit when no call barges in, whoever is resumed
   * next.
   */
  lemma RunningWithinLimit(events: seq<Event>, limit: nat)
    requires ValidRun(Idle(), events, limit) && NoBargingIn(Idle(), events, limit)
    ensures Run(Idle(), events, limit).activeCount <= limit && !CanExceedByResuming(Run(Idle(), events, limit), limit)
  {
    LimitKeptIffNoBargingIn(Idle(), events, limit);
    LimitKeptInTheEnd(Idle(), events, limit);
    RunKeepsInv(Idle(), events, limit);
    ResumptionsExceedLimit(Run(Idle(), events, limit), limit);
  }

  /** An event makes it possible for resumptions to lead above the limit exactly when it is a barging in. */
  lemma BargingInIsTheOnlyWay(s: State, e: Event, limit: nat)
    requires Inv(s, limit) && Enabled(s, e) && !CanExceedByResuming(s, limit)
    ensures CanExceedByResuming(Next(s, e, limit), limit) <==> BargesIn(s, e, limit)
  {
    ResumptionsExceedLimit(s, limit);
    StepKeepsInv(s, e, limit);
    PlacesTaken(s, e, limit);
    ResumptionsExceedLimit(Next(s, e, limit), limit);
  }

  lemma {:induction false} LimitKeptInTheEnd(s: State, events: seq<Event>, limit: nat)
    requires LimitKeptThroughout(s, events, limit)
    ensures var t := Run(s, events, limit); t.activeCount + |t.woken| <= limit
    decreases |events|
  {
    if events != [] {
      LimitKeptInTheEnd(Next(s, events[0], limit), events[1..], limit);
    }
  }

  ghost predicate CanExceedByResuming(s: State, limit: nat) {
    exists events :: OnlyResumptions(events) && ValidRun(s, events, limit) && Run(s, events, limit).activeCount > limit
  }

  /** Resumptions alone can lead above the limit exactly when running and woken calls exceed it together. */
  lemma ResumptionsExceedLimit(s: State, limit: nat)
    requires Inv(s, limit)
    ensures CanExceedByResuming(s, limit) <==> s.activeCount + |s.woken| > limit
  {
    if CanExceedByResuming(s, limit) {
      var events :| OnlyResumptions(events) && ValidRun(s, events, limit) && Run(s, events, limit).activeCount > limit;
      ResumptionsKeepSum(s, events, limit);
    }
    if s.activeCount + |s.woken| > limit {
      ResumeAll(s, limit);
    }
  }

  lemma ExceedsAfterResuming(s: State, id: CallId, limit: nat)
    requires id in s.woken && CanExceedByResuming(Resume(s, id), limit)
    ensures CanExceedByResuming(s, limit)
  {
    var t := Resume(s, id);
    var rest :| OnlyResumptions(rest) && ValidRun(t, rest, limit) && Run(t, rest, limit).activeCount > limit;
    RunStep(s, Resumption(id), rest, limit);
    assert OnlyResumptions([Resumption(id)] + rest);
  }

  lemma {:induction false} ResumeAll(s: State, limit: nat)
    requires Inv(s, limit) && s.activeCount + |s.woken| > limit
    ensures CanExceedByResuming(s, limit)
    decreases |s.woken|
  {
    if s.activeCount > limit {
      assert OnlyResumptions([]) && ValidRun(s, [], limit) && Run(s, [], limit) == s;
    } else {
      assert s.woken.Keys != {};
      var id :| id in s.woken;
      RemoveOne(s.woken, id);
      ResumeKeepsInv(s, id, limit);
      ResumeAll(Resume(s, id), limit);
      ExceedsAfterResuming(s, id, limit);
    }
  }

  ghost predicate OnlyResumptions(events: seq<Event>) {
    forall i :: 0 <= i < |events| ==> events[i].Resumption?
  }

  lemma {:induction false} ResumptionsKeepSum(s: State, events: seq<Event>, limit: nat)
    requires OnlyResumptions(events) && ValidRun(s, events, limit)
    ensures Run(s, events, limit).activeCount + |Run(s, events, limit).woken| == s.activeCount + |s.woken|
    decreases |events|
  {
    if events != [] {
      RemoveOne(s.woken, events[0].id);
      ResumptionsKeepSum(Next(s, events[0], limit), events[1..], limit);
    }
  }

  /** Two calls at once under a limit of one: a third call enters between a wake-up and its resumption. */
  lemma LimitOfOneExceeded()
    ensures var events := [Arrival(Call(0, None)), Arrival(Call(1, None)), Completion(0), Arrival(Call(2, None)),
      Resumption(1)];
      ValidRun(Idle(), events, 1) && Run(Idle(), events, 1).activeCount == 2
  {
    var c0, c1, c2 := Call(0, None), Call(1, None), Call(2, None);
    var s1 := Arrive(Idle(), c0, 1);
    var s2 := Arrive(s1, c1, 1);
    var s3 := Finish(s2, 0);
    var s4 := Arrive(s3, c2, 1);
    var s5 := Resume(s4, 1);
    assert s5.activeCount == 2;
    RunStep(s4, Resumption(1), [], 1);
    RunStep(s3, Arrival(c2), [Resumption(1)], 1);
    RunStep(s2, Completion(0), [Arrival(c2), Resumption(1)], 1);
    RunStep(s1, Arrival(c1), [Completion(0), Arrival(c2), Resumption(1)], 1);
    RunStep(Idle(), Arrival(c0), [Arrival(c1), Completion(0), Arrival(c2), Resumption(1)], 1);
  }

  lemma RunStep(s: State, e: Event, rest: seq<Event>, limit: nat)
    ensures Run(s, [e] + rest, limit) == Run(Next(s, e, limit), rest, limit)
    ensures ValidRun(s, [e] + rest, limit) <==> Enabled(s, e) && ValidRun(Next(s, e, limit), rest, limit)
  {
    assert ([e] + rest)[1..] == rest;
  }
}
