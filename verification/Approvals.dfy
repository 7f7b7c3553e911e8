/** The approval broker: saves, responses, timeouts and stops racing for one verdict. */
module Approvals {
  import opened Prelude

  type Id = string
  type CallId = nat

  datatype Verdict = Approved | Denied | Expired

  /** A tracked approval; a restored one has no ready promise and no waiter. */
  datatype Session = Session(finalizing: bool, waiter: bool, hasReady: bool)

  /** A finalizeApproval in progress: waiting for the save to settle, or about to hear from the store. */
  datatype Call = Awaiting(id: Id, verdict: Verdict) | AtStore(id: Id, verdict: Verdict, tookWaiter: bool)

  datatype Out =
    | Required(id: Id)
    | Resolved(id: Id, verdict: Verdict)
    | WaiterGets(id: Id, approved: bool)
    | WaiterRejected(id: Id)

  datatype State = State(
    sessions: map<Id, Session>,
    timers: set<Id>,
    saving: map<Id, bool>,            // saves not yet settled, and whether their record is on disk
    listed: set<Id>,                  // records that some start has found pending, and may still handle
    pendingFiles: set<Id>,
    resolvedFiles: map<Id, Verdict>,
    calls: map<CallId, Call>,
    log: seq<Out>,
    used: set<Id>)

  // ----- Steps -----

  datatype Event =
    | Request(id: Id)
    | SaveOnDisk(id: Id)
    | SaveSettles(id: Id)
    | SaveFails(id: Id)
    | Respond(call: CallId, id: Id, approve: bool)
    | TimerFires(call: CallId, id: Id)
    | Lapsed(call: CallId, id: Id)
    | Continue(call: CallId)
    | StoreAnswers(call: CallId)
    | Stop
    | List
    | Restore(id: Id)

  predicate Locked(s: State, id: Id) {
    id in s.saving && s.saving[id]
  }

  /**
   * Ids are fresh and answered only once requested. A start tracks a record that it has listed, or expires it if it has
   * lapsed, at any later time, whatever has become of the record meanwhile. The store's lock on an approval is held
   * from before its record is on disk until its save settles, and no call hears from the store in between.
   */
  predicate Enabled(s: State, e: Event) {
    match e
    case Request(id) => id !in s.used
    case SaveOnDisk(id) => id in s.saving && !s.saving[id]
    case SaveSettles(id) => id in s.saving && s.saving[id]
    case SaveFails(id) => id in s.saving && !s.saving[id]
    case Respond(c, id, _) => c !in s.calls && id in s.used
    case TimerFires(c, id) => c !in s.calls && id in s.timers
    case Lapsed(c, id) => c !in s.calls && id in s.listed
    case Continue(c) => c in s.calls && s.calls[c].Awaiting? && s.calls[c].id !in s.saving
    case StoreAnswers(c) => c in s.calls && s.calls[c].AtStore? && !Locked(s, s.calls[c].id)
    case Stop => true
    case List => true
    case Restore(id) => id in s.listed
  }

  /** Takes the session off the books: its timer is cleared and its waiter is now this call's to resolve. */
  function Take(s: State, c: CallId, id: Id, verdict: Verdict): State {
    s.(sessions := s.sessions - {id}, timers := s.timers - {id},
       calls := s.calls[c := AtStore(id, verdict, id in s.sessions && s.sessions[id].waiter)])
  }

  function Finalize(s: State, c: CallId, id: Id, verdict: Verdict): State {
    if id in s.sessions && s.sessions[id].hasReady then
      s.(sessions := s.sessions[id := s.sessions[id].(finalizing := true)],
        calls := s.calls[c := Awaiting(id, verdict)])
    else Take(s, c, id, verdict)
  }

  /** What resolvePending returns: the record just resolved, else one resolved before, else nothing. */
  function StoreResult(s: State, id: Id, verdict: Verdict): Option<Verdict> {
    if id in s.pendingFiles then Some(verdict)
    else if id in s.resolvedFiles then Some(s.resolvedFiles[id])
    else None
  }

  function AfterStore(s: State, c: CallId, id: Id, verdict: Verdict, tookWaiter: bool): State {
    var t := s.(calls := s.calls - {c});
    if StoreResult(s, id, verdict).None? then t else
    var waiter := if tookWaiter then [WaiterGets(id, verdict == Approved)] else [];
    var u := t.(log := s.log + waiter + [Resolved(id, verdict)]);
    if id in s.pendingFiles then
      u.(pendingFiles := s.pendingFiles - {id}, resolvedFiles := s.resolvedFiles[id := verdict])
    else u
  }

  function Next(s: State, e: Event): State {
    match e
    case Request(id) =>
      s.(sessions := s.sessions[id := Session(false, true, true)], timers := s.timers + {id},
         saving := s.saving[id := false], used := s.used + {id})
    case SaveOnDisk(id) =>
      s.(saving := s.saving[id := true],
         pendingFiles := if id in s.resolvedFiles then s.pendingFiles else s.pendingFiles + {id})
    case SaveSettles(id) =>
      s.(saving := s.saving - {id},
         log := if id in s.sessions && !s.sessions[id].finalizing then s.log + [Required(id)] else s.log)
    case SaveFails(id) =>
      s.(saving := s.saving - {id}, sessions := s.sessions - {id}, timers := s.timers - {id},
         log := s.log + [WaiterRejected(id)])
    case Respond(c, id, approve) => Finalize(s, c, id, if approve then Approved else Denied)
    case TimerFires(c, id) => Finalize(s.(timers := s.timers - {id}), c, id, Expired)
    case Lapsed(c, id) => Finalize(s, c, id, Expired)
    case Continue(c) => if c in s.calls then Take(s, c, s.calls[c].id, s.calls[c].verdict) else s
    case StoreAnswers(c) =>
      if c in s.calls && s.calls[c].AtStore? then
        AfterStore(s, c, s.calls[c].id, s.calls[c].verdict, s.calls[c].tookWaiter)
      else s
    case Stop => s.(sessions := map[], timers := {})
    case List => s.(listed := s.listed + s.pendingFiles)
    case Restore(id) => s.(sessions := s.sessions[id := Session(false, false, false)], timers := s.timers + {id})
  }

  function Run(s: State, events: seq<Event>): State {
    if events == [] then s else Next(Run(s, events[..|events| - 1]), events[|events| - 1])
  }

  ghost predicate ValidRun(s: State, events: seq<Event>) {
    events == [] ||
    (ValidRun(s, events[..|events| - 1]) && Enabled(Run(s, events[..|events| - 1]), events[|events| - 1]))
  }

  /** A broker over a store that may hold pending records of an earlier process. */
  function Start(pendingFiles: set<Id>): State {
    State(map[], {}, map[], {}, pendingFiles, map[], map[], [], pendingFiles)
  }

  // ----- The broker's own methods, each a stretch between two awaits -----

  class ApprovalStore {
    var pendingFiles: set<Id>
    var resolvedFiles: map<Id, Verdict>

    constructor ()
      ensures pendingFiles == {} && resolvedFiles == map[]
    {
      pendingFiles, resolvedFiles := {}, map[];
    }

    method SavePending(id: Id)
      modifies this
      ensures pendingFiles == if id in old(resolvedFiles) then old(pendingFiles) else old(pendingFiles) + {id}
      ensures resolvedFiles == old(resolvedFiles)
    {
      if id !in resolvedFiles {
        pendingFiles := pendingFiles + {id};
      }
    }

    method ResolvePending(id: Id, verdict: Verdict) returns (r: Option<Verdict>)
      modifies this
      ensures r == if id in old(pendingFiles) then Some(verdict)
                   else if id in old(resolvedFiles) then Some(old(resolvedFiles)[id]) else None
      ensures id in old(pendingFiles) ==>
        pendingFiles == old(pendingFiles) - {id} && resolvedFiles == old(resolvedFiles)[id := verdict]
      ensures id !in old(pendingFiles) ==> pendingFiles == old(pendingFiles) && resolvedFiles == old(resolvedFiles)
    {
      if id !in pendingFiles {
        return if id in resolvedFiles then Some(resolvedFiles[id]) else None;
      }
      resolvedFiles := resolvedFiles[id := verdict];
      pendingFiles := pendingFiles - {id};
      r := Some(verdict);
    }
  }

  class ApprovalBroker {
    const store: ApprovalStore
    var pending: map<Id, Session>
    var timers: set<Id>
    var log: seq<Out>
    ghost var saving: map<Id, bool>
    ghost var listed: set<Id>
    ghost var calls: map<CallId, Call>
    ghost var used: set<Id>

    constructor (store: ApprovalStore)
      ensures this.store == store && pending == map[] && timers == {} && log == []
      ensures saving == map[] && listed == {} && calls == map[] && used == {}
    {
      this.store := store;
      pending, timers, log, saving, listed, calls, used := map[], {}, [], map[], {}, map[], {};
    }

    ghost function S(): State
      reads this, store
    {
      State(pending, timers, saving, listed, store.pendingFiles, store.resolvedFiles, calls, log, used)
    }

    method RequestApproval(id: Id)
      modifies this
      ensures S() == Next(old(S()), Request(id))
      ensures id in pending && !pending[id].finalizing && pending[id].waiter && pending[id].hasReady
      ensures pending == old(pending)[id := pending[id]] && timers == old(timers) + {id} && log == old(log)
    {
      pending, timers := pending[id := Session(false, true, true)], timers + {id};
      saving, used := saving[id := false], used + {id};
    }

    method OnSaved(id: Id)
      modifies this
      ensures S() == Next(old(S()), SaveSettles(id))
      ensures pending == old(pending) && timers == old(timers)
      ensures id in old(pending) && !old(pending)[id].finalizing ==> log == old(log) + [Required(id)]
      ensures id !in old(pending) || old(pending)[id].finalizing ==> log == old(log)
    {
      if id in pending && !pending[id].finalizing {
        log := log + [Required(id)];
      }
      saving := saving - {id};
    }

    method OnSaveFailed(id: Id)
      modifies this
      ensures S() == Next(old(S()), SaveFails(id))
      ensures pending == old(pending) - {id} && timers == old(timers) - {id} && log == old(log) + [WaiterRejected(id)]
    {
      pending, timers, saving := pending - {id}, timers - {id}, saving - {id};
      log := log + [WaiterRejected(id)];
    }

    method FinalizeBegins(c: CallId, id: Id, verdict: Verdict) returns (waits: bool)
      modifies this
      ensures S() == Finalize(old(S()), c, id, verdict)
      ensures waits <==> id in old(pending) && old(pending)[id].hasReady
      ensures waits ==> calls == old(calls)[c := Awaiting(id, verdict)] && timers == old(timers)
      ensures waits ==> pending == old(pending)[id := Session(true, old(pending)[id].waiter, true)]
      ensures !waits ==> pending == old(pending) - {id} && timers == old(timers) - {id}
      ensures !waits ==> c in calls && calls == old(calls)[c := calls[c]] && calls[c].AtStore?
      ensures !waits ==> calls[c].id == id && calls[c].verdict == verdict
      ensures !waits ==> (calls[c].tookWaiter <==> id in old(pending) && old(pending)[id].waiter)
      ensures log == old(log)
    {
      if id in pending && pending[id].hasReady {
        pending := pending[id := pending[id].(finalizing := true)];
        calls := calls[c := Awaiting(id, verdict)];
        return true;
      }
      TakeSession(c, id, verdict);
      waits := false;
    }

    method ResolveApproval(c: CallId, id: Id, approved: bool) returns (waits: bool)
      modifies this
      ensures S() == Next(old(S()), Respond(c, id, approved))
    {
      waits := FinalizeBegins(c, id, if approved then Approved else Denied);
    }

    method OnTimeout(c: CallId, id: Id) returns (waits: bool)
      modifies this
      ensures S() == Next(old(S()), TimerFires(c, id))
    {
      timers := timers - {id};
      waits := FinalizeBegins(c, id, Expired);
    }

    /** What a start does with a listed record whose time is over. */
    method ExpireLapsed(c: CallId, id: Id) returns (waits: bool)
      modifies this
      ensures S() == Next(old(S()), Lapsed(c, id))
    {
      waits := FinalizeBegins(c, id, Expired);
    }

    method TakeSession(c: CallId, id: Id, verdict: Verdict)
      modifies this
      ensures S() == Take(old(S()), c, id, verdict)
      ensures old(c in calls && calls[c] == Awaiting(id, verdict)) ==> S() == Next(old(S()), Continue(c))
    {
      calls := calls[c := AtStore(id, verdict, id in pending && pending[id].waiter)];
      pending, timers := pending - {id}, timers - {id};
    }

    method FinalizeEnds(c: CallId, id: Id, verdict: Verdict, tookWaiter: bool)
      modifies this, store
      ensures S() == AfterStore(old(S()), c, id, verdict, tookWaiter)
      ensures old(c in calls && calls[c] == AtStore(id, verdict, tookWaiter)) ==> S() == Next(old(S()), StoreAnswers(c))
      ensures pending == old(pending) && timers == old(timers) && calls == old(calls) - {c}
      ensures id in old(store.pendingFiles) ==> store.resolvedFiles == old(store.resolvedFiles)[id := verdict]
      ensures id !in old(store.pendingFiles) ==> store.resolvedFiles == old(store.resolvedFiles)
      ensures store.pendingFiles == old(store.pendingFiles) - {id}
      ensures id !in store.resolvedFiles ==> log == old(log)
      ensures id in store.resolvedFiles ==>
        log == old(log) + (if tookWaiter then [WaiterGets(id, verdict.Approved?)] else []) + [Resolved(id, verdict)]
    {
      calls := calls - {c};
      var resolved := store.ResolvePending(id, verdict);
      if resolved.Some? {
        if tookWaiter {
          log := log + [WaiterGets(id, verdict == Approved)];
        }
        log := log + [Resolved(id, verdict)];
      }
    }

    method StopBroker()
      modifies this
      ensures S() == Next(old(S()), Stop)
      ensures pending == map[] && timers == {} && log == old(log)
    {
      pending, timers := map[], {};
    }

    method ListPending() returns (records: set<Id>)
      modifies this
      ensures S() == Next(old(S()), List) && records == store.pendingFiles
      ensures pending == old(pending) && timers == old(timers) && log == old(log)
    {
      records := store.pendingFiles;
      listed := listed + records;
    }

    method TrackRestored(id: Id)
      modifies this
      ensures S() == Next(old(S()), Restore(id))
      ensures id in pending && !pending[id].finalizing && !pending[id].waiter && !pending[id].hasReady
      ensures pending == old(pending)[id := pending[id]] && timers == old(timers) + {id} && log == old(log)
    {
      pending, timers := pending[id := Session(false, false, false)], timers + {id};
    }
  }

  // ----- Counting -----

  datatype Kind = Resolution | Answer | Rejection

  predicate Is(o: Out, kind: Kind) {
    match kind
    case Resolution => o.Resolved?
    case Answer => o.WaiterGets?
    case Rejection => o.WaiterRejected?
  }

  function One(b: bool): nat {
    if b then 1 else 0
  }

  function CountUpTo(log: seq<Out>, n: nat, id: Id, kind: Kind): nat
    requires n <= |log|
  {
    if n == 0 then 0 else CountUpTo(log, n - 1, id, kind) + One(Is(log[n - 1], kind) && log[n - 1].id == id)
  }

  function Count(log: seq<Out>, id: Id, kind: Kind): nat {
    CountUpTo(log, |log|, id, kind)
  }

  function Broadcasts(log: seq<Out>, id: Id): nat {
    Count(log, id, Resolution)
  }

  function WaiterResults(log: seq<Out>, id: Id): nat {
    Count(log, id, Answer)
  }

  lemma {:induction false} CountPrefix(log: seq<Out>, outs: seq<Out>, n: nat, id: Id, kind: Kind)
    requires n <= |log|
    ensures CountUpTo(log + outs, n, id, kind) == CountUpTo(log, n, id, kind)
  {
    if n > 0 {
      CountPrefix(log, outs, n - 1, id, kind);
    }
  }

  lemma {:induction false} CountRest(log: seq<Out>, outs: seq<Out>, n: nat, id: Id, kind: Kind)
    requires n <= |outs|
    ensures CountUpTo(log + outs, |log| + n, id, kind) == Count(log, id, kind) + CountUpTo(outs, n, id, kind)
  {
    if n > 0 {
      CountRest(log, outs, n - 1, id, kind);
      assert (log + outs)[|log| + n - 1] == outs[n - 1];
    } else {
      CountPrefix(log, outs, |log|, id, kind);
    }
  }

  lemma CountFew(log: seq<Out>, id: Id, kind: Kind)
    requires |log| <= 2
    ensures Count(log, id, kind) ==
      One(|log| > 0 && Is(log[0], kind) && log[0].id == id) + One(|log| > 1 && Is(log[1], kind) && log[1].id == id)
  {
    assert CountUpTo(log, 0, id, kind) == 0;
    if |log| > 0 {
      assert CountUpTo(log, 1, id, kind) == One(Is(log[0], kind) && log[0].id == id);
    }
  }

  lemma CountConcat(log: seq<Out>, outs: seq<Out>, id: Id, kind: Kind)
    ensures Count(log + outs, id, kind) == Count(log, id, kind) + Count(outs, id, kind)
  {
    CountRest(log, outs, |outs|, id, kind);
  }

  /** What one event adds to the log. */
  function Outs(s: State, e: Event): seq<Out> {
    match e
    case SaveSettles(id) => if id in s.sessions && !s.sessions[id].finalizing then [Required(id)] else []
    case SaveFails(id) => [WaiterRejected(id)]
    case StoreAnswers(c) =>
      if c in s.calls && s.calls[c].AtStore? && StoreResult(s, s.calls[c].id, s.calls[c].verdict).Some? then
        var call := s.calls[c];
        (if call.tookWaiter then [WaiterGets(call.id, call.verdict == Approved)] else []) +
          [Resolved(call.id, call.verdict)]
      else []
    case _ => []
  }

  lemma LogGrows(s: State, e: Event)
    ensures Next(s, e).log == s.log + Outs(s, e)
  {
    assert s.log + [] == s.log;
    if e.StoreAnswers? && e.call in s.calls && s.calls[e.call].AtStore? {
      var call := s.calls[e.call];
      var waiter := if call.tookWaiter then [WaiterGets(call.id, call.verdict == Approved)] else [];
      assert s.log + waiter + [Resolved(call.id, call.verdict)] == s.log + (waiter + [Resolved(call.id, call.verdict)]);
    }
  }

  /** What one event adds to a count. */
  function Adds(s: State, e: Event, id: Id, kind: Kind): nat {
    match e
    case SaveFails(x) => One(kind == Rejection && x == id)
    case StoreAnswers(c) =>
      if c in s.calls && s.calls[c].AtStore? && StoreResult(s, s.calls[c].id, s.calls[c].verdict).Some? then
        One(kind == Resolution && s.calls[c].id == id) +
        One(kind == Answer && s.calls[c].tookWaiter && s.calls[c].id == id)
      else 0
    case _ => 0
  }

  lemma CountOfOuts(s: State, e: Event, id: Id, kind: Kind)
    ensures Count(Outs(s, e), id, kind) == Adds(s, e, id, kind)
  {
    CountFew(Outs(s, e), id, kind);
  }

  lemma CountOfStep(s: State, e: Event, id: Id, kind: Kind)
    ensures Count(Next(s, e).log, id, kind) == Count(s.log, id, kind) + Adds(s, e, id, kind)
  {
    LogGrows(s, e);
    CountConcat(s.log, Outs(s, e), id, kind);
    CountOfOuts(s, e, id, kind);
  }

  predicate TookWaiter(c: Call, id: Id) {
    c.AtStore? && c.id == id && c.tookWaiter
  }

  /** The store has something to tell the call. */
  predicate Answers(s: State, e: Event) {
    && e.StoreAnswers? && e.call in s.calls && s.calls[e.call].AtStore?
    && StoreResult(s, s.calls[e.call].id, s.calls[e.call].verdict).Some?
  }

  lemma AnswersOfStep(s: State, e: Event, id: Id)
    ensures WaiterResults(Next(s, e).log, id) ==
      WaiterResults(s.log, id) + One(Answers(s, e) && TookWaiter(s.calls[e.call], id))
  {
    CountOfStep(s, e, id, Answer);
  }

  lemma BroadcastsOfAnswers(s: State, e: Event, id: Id)
    ensures Broadcasts(Next(s, e).log, id) == Broadcasts(s.log, id) + One(Answers(s, e) && s.calls[e.call].id == id)
  {
    CountOfStep(s, e, id, Resolution);
  }

  /** The store answers a call whose record another call has resolved before. */
  predicate AnswersLate(s: State, e: Event) {
    && e.StoreAnswers? && e.call in s.calls && s.calls[e.call].AtStore?
    && s.calls[e.call].id !in s.pendingFiles && s.calls[e.call].id in s.resolvedFiles
  }

  function LateAnswers(s: State, events: seq<Event>, id: Id): nat {
    if events == [] then 0
    else
      var init, e := events[..|events| - 1], events[|events| - 1];
      LateAnswers(s, init, id) + if AnswersLate(Run(s, init), e) && Run(s, init).calls[e.call].id == id then 1 else 0
  }

  // ----- The invariant -----

  predicate HasWaiter(s: State, id: Id) {
    id in s.sessions && s.sessions[id].waiter
  }

  /** The waiter of id is in a session, or in the hands of one call, or has had its one result. */
  ghost predicate WaiterOnce(s: State, id: Id) {
    && (forall c :: c in s.calls && TookWaiter(s.calls[c], id) ==> !HasWaiter(s, id) && WaiterResults(s.log, id) == 0)
    && (forall c, d ::
          c in s.calls && d in s.calls && TookWaiter(s.calls[c], id) && TookWaiter(s.calls[d], id) ==> c == d)
    && (HasWaiter(s, id) ==> WaiterResults(s.log, id) == 0)
    && WaiterResults(s.log, id) <= 1
    && (id !in s.used ==> !HasWaiter(s, id) && WaiterResults(s.log, id) == 0 && NoCallFor(s, id))
  }

  ghost predicate NoCallFor(s: State, id: Id) {
    forall c :: c in s.calls ==> s.calls[c].id != id
  }

  ghost predicate StoreSound(s: State, id: Id) {
    && !(id in s.pendingFiles && id in s.resolvedFiles)
    && ((id in s.pendingFiles || id in s.resolvedFiles || id in s.saving || id in s.sessions || id in s.timers ||
         id in s.listed) ==> id in s.used)
    && (id in s.saving ==> id !in s.resolvedFiles && (!s.saving[id] ==> id !in s.pendingFiles))
  }

  ghost predicate IdInv(s: State, id: Id) {
    WaiterOnce(s, id) && StoreSound(s, id)
  }

  lemma TakeKeepsInv(s: State, c: CallId, id: Id, verdict: Verdict, x: Id)
    requires IdInv(s, x) && id in s.used
    requires c in s.calls ==> s.calls[c].Awaiting?
    ensures IdInv(Take(s, c, id, verdict), x)
  {
  }

  /** A call leaves the store, and its waiter, if it had one, may have been answered. */
  lemma CallLeaves(s: State, t: State, c: CallId, x: Id)
    requires WaiterOnce(s, x) && c in s.calls && s.calls[c].id in s.used
    requires t.calls == s.calls - {c} && t.sessions == s.sessions && t.used == s.used
    requires WaiterResults(t.log, x) == WaiterResults(s.log, x) ||
      (WaiterResults(t.log, x) == WaiterResults(s.log, x) + 1 && TookWaiter(s.calls[c], x))
    ensures WaiterOnce(t, x)
  {
    forall d | d in t.calls ensures d in s.calls && t.calls[d] == s.calls[d] {
    }
  }

  lemma AfterStoreKeepsWaiter(s: State, c: CallId, x: Id)
    requires WaiterOnce(s, x) && c in s.calls && s.calls[c].AtStore? && s.calls[c].id in s.used
    ensures WaiterOnce(Next(s, StoreAnswers(c)), x)
  {
    var t := Next(s, StoreAnswers(c));
    AnswersOfStep(s, StoreAnswers(c), x);
    assert t.calls == s.calls - {c} && t.sessions == s.sessions && t.used == s.used;
    CallLeaves(s, t, c, x);
  }

  lemma AfterStoreKeepsInv(s: State, c: CallId, x: Id)
    requires IdInv(s, x) && Enabled(s, StoreAnswers(c)) && s.calls[c].id in s.used
    ensures IdInv(Next(s, StoreAnswers(c)), x)
  {
    assert WaiterOnce(Next(s, StoreAnswers(c)), x) by {
      AfterStoreKeepsWaiter(s, c, x);
    }
    AfterStoreKeepsStore(s, c, x);
  }

  lemma AfterStoreKeepsStore(s: State, c: CallId, x: Id)
    requires IdInv(s, x) && Enabled(s, StoreAnswers(c)) && s.calls[c].id in s.used
    ensures StoreSound(Next(s, StoreAnswers(c)), x)
  {
  }

  lemma SettleKeepsInv(s: State, id: Id, x: Id)
    requires IdInv(s, x) && Enabled(s, SaveSettles(id))
    ensures IdInv(Next(s, SaveSettles(id)), x)
  {
    AnswersOfStep(s, SaveSettles(id), x);
  }

  lemma FinalizeKeepsInv(s: State, c: CallId, id: Id, verdict: Verdict, x: Id)
    requires IdInv(s, x) && IdInv(s, id) && id in s.used && c !in s.calls
    ensures IdInv(Finalize(s, c, id, verdict), x)
  {
    if !(id in s.sessions && s.sessions[id].hasReady) {
      TakeKeepsInv(s, c, id, verdict, x);
    }
  }

  ghost predicate Inv(s: State) {
    && (forall id :: IdInv(s, id))
    && (forall c :: c in s.calls ==> s.calls[c].id in s.used)
  }

  lemma StepKeepsInv(s: State, e: Event)
    requires Inv(s) && Enabled(s, e)
    ensures Inv(Next(s, e))
  {
    forall x ensures IdInv(Next(s, e), x) {
      assert IdInv(s, x);
      match e
      case SaveSettles(id) => SettleKeepsInv(s, id, x);
      case Respond(c, id, approve) =>
        assert IdInv(s, id);
        FinalizeKeepsInv(s, c, id, if approve then Approved else Denied, x);
      case TimerFires(c, id) =>
        assert IdInv(s, id);
        var t := s.(timers := s.timers - {id});
        FinalizeKeepsInv(t, c, id, Expired, x);
      case Lapsed(c, id) =>
        assert IdInv(s, id);
        FinalizeKeepsInv(s, c, id, Expired, x);
      case Continue(c) => TakeKeepsInv(s, c, s.calls[c].id, s.calls[c].verdict, x);
      case StoreAnswers(c) => AfterStoreKeepsInv(s, c, x);
      case _ => OtherStepKeepsInv(s, e, x);
    }
    CallsStayUsed(s, e);
  }

  lemma OtherStepKeepsInv(s: State, e: Event, x: Id)
    requires IdInv(s, x) && Enabled(s, e)
    requires e.Request? || e.SaveOnDisk? || e.SaveFails? || e.Stop? || e.List? || e.Restore?
    ensures IdInv(Next(s, e), x)
  {
    if e.SaveFails? {
      AnswersOfStep(s, e, x);
    }
  }

  lemma CallsStayUsed(s: State, e: Event)
    requires Inv(s) && Enabled(s, e)
    ensures forall c :: c in Next(s, e).calls ==> Next(s, e).calls[c].id in Next(s, e).used
  {
    if e.TimerFires? || e.Lapsed? {
      assert IdInv(s, e.id);
    }
  }

  lemma {:induction false} RunKeepsInv(s: State, events: seq<Event>)
    requires Inv(s) && ValidRun(s, events)
    ensures Inv(Run(s, events))
  {
    if events != [] {
      RunKeepsInv(s, events[..|events| - 1]);
      StepKeepsInv(Run(s, events[..|events| - 1]), events[|events| - 1]);
    }
  }

  lemma StartInv(pendingFiles: set<Id>)
    ensures Inv(Start(pendingFiles))
  {
  }

  // ----- Main results -----

  /** Only stored approvals have been announced as resolved. */
  ghost predicate AnnouncedAreStored(s: State) {
    forall i :: 0 <= i < |s.log| && (s.log[i].Resolved? || s.log[i].WaiterGets?) ==> s.log[i].id in s.resolvedFiles
  }

  ghost predicate Announced(log: seq<Out>, id: Id) {
    exists i :: 0 <= i < |log| && log[i].Resolved? && log[i].id == id
  }

  lemma OutsKeepStored(s: State, t: State, outs: seq<Out>)
    requires AnnouncedAreStored(s) && t.log == s.log + outs
    requires forall id :: id in s.resolvedFiles ==> id in t.resolvedFiles
    requires forall o :: o in outs && (o.Resolved? || o.WaiterGets?) ==> o.id in t.resolvedFiles
    ensures AnnouncedAreStored(t)
  {
    forall i | 0 <= i < |t.log| && (t.log[i].Resolved? || t.log[i].WaiterGets?) ensures t.log[i].id in t.resolvedFiles {
      if i >= |s.log| {
        assert t.log[i] in outs;
      }
    }
  }

  lemma StepKeepsAnnounced(s: State, e: Event, id: Id)
    requires AnnouncedAreStored(s) && (id in s.resolvedFiles ==> Announced(s.log, id))
    ensures var t := Next(s, e);
      AnnouncedAreStored(t) && (id in t.resolvedFiles ==> Announced(t.log, id))
  {
    var t, outs := Next(s, e), Outs(s, e);
    LogGrows(s, e);
    OutsKeepStored(s, t, outs);
    if id in s.resolvedFiles {
      var i :| 0 <= i < |s.log| && s.log[i].Resolved? && s.log[i].id == id;
      assert t.log[i] == s.log[i];
    } else if id in t.resolvedFiles {
      assert outs[|outs| - 1] == t.log[|t.log| - 1] && outs[|outs| - 1].Resolved? && outs[|outs| - 1].id == id;
    }
  }

  lemma {:induction false} AnnouncedIffStored(pendingFiles: set<Id>, events: seq<Event>, id: Id)
    ensures var s := Run(Start(pendingFiles), events);
      AnnouncedAreStored(s) && (id in s.resolvedFiles <==> Announced(s.log, id))
  {
    if events != [] {
      var init := events[..|events| - 1];
      AnnouncedIffStored(pendingFiles, init, id);
      StepKeepsAnnounced(Run(Start(pendingFiles), init), events[|events| - 1], id);
    }
  }

  /** The required event of the approval never follows its resolved event. */
  ghost predicate RequiredFirst(log: seq<Out>, id: Id) {
    forall i, j :: 0 <= i < j < |log| && log[i].Resolved? && log[i].id == id ==> log[j] != Required(id)
  }

  lemma RequiredFirstGrows(log: seq<Out>, outs: seq<Out>, id: Id)
    requires Required(id) in outs ==> outs == [Required(id)]
    ensures RequiredFirst(log + outs, id) <==> RequiredFirst(log, id) && !(Required(id) in outs && Announced(log, id))
  {
    var grown := log + outs;
    if Required(id) in outs && Announced(log, id) {
      var i :| 0 <= i < |log| && log[i].Resolved? && log[i].id == id;
      assert grown[i] == log[i] && grown[|log|] == Required(id);
    }
    if RequiredFirst(grown, id) {
      forall i, j | 0 <= i < j < |log| && log[i].Resolved? && log[i].id == id ensures log[j] != Required(id) {
        assert grown[i] == log[i] && grown[j] == log[j];
      }
    } else {
      var i, j :| 0 <= i < j < |grown| && grown[i].Resolved? && grown[i].id == id && grown[j] == Required(id);
      if j >= |log| {
        assert grown[j] in outs && i < |log| && log[i] == grown[i];
      }
    }
  }

  /** An approval is never announced as required after it was announced as resolved: its save holds the store's lock. */
  lemma {:induction false} RequiredNeverFollowsResolved(pendingFiles: set<Id>, events: seq<Event>, id: Id)
    requires ValidRun(Start(pendingFiles), events)
    ensures RequiredFirst(Run(Start(pendingFiles), events).log, id)
  {
    if events != [] {
      var init, e := events[..|events| - 1], events[|events| - 1];
      var s := Run(Start(pendingFiles), init);
      RequiredNeverFollowsResolved(pendingFiles, init, id);
      AnnouncedIffStored(pendingFiles, init, id);
      StartInv(pendingFiles);
      RunKeepsInv(Start(pendingFiles), init);
      assert IdInv(s, id);
      LogGrows(s, e);
      RequiredFirstGrows(s.log, Outs(s, e), id);
    }
  }

  /** Each waiter gets at most one result, and a stored verdict never changes, whatever races there are. */
  lemma WaiterAnsweredOnce(pendingFiles: set<Id>, events: seq<Event>, e: Event, id: Id)
    requires ValidRun(Start(pendingFiles), events) && Enabled(Run(Start(pendingFiles), events), e)
    ensures var s := Run(Start(pendingFiles), events);
      && WaiterResults(s.log, id) <= 1
      && (id in s.resolvedFiles ==>
            id in Next(s, e).resolvedFiles && Next(s, e).resolvedFiles[id] == s.resolvedFiles[id])
  {
    StartInv(pendingFiles);
    RunKeepsInv(Start(pendingFiles), events);
    assert IdInv(Run(Start(pendingFiles), events), id);
  }

  lemma BroadcastsOfStep(s: State, e: Event, id: Id)
    requires StoreSound(s, id) && Enabled(s, e)
    ensures var t := Next(s, e);
      Broadcasts(t.log, id) + (if id in s.resolvedFiles then 1 else 0) ==
      Broadcasts(s.log, id) + (if id in t.resolvedFiles then 1 else 0) +
      if AnswersLate(s, e) && s.calls[e.call].id == id then 1 else 0
  {
    BroadcastsOfAnswers(s, e, id);
  }

  /** An approval is broadcast as resolved once for its stored verdict and once more for every late answer. */
  lemma {:induction false} BroadcastsCounted(pendingFiles: set<Id>, events: seq<Event>, id: Id)
    requires ValidRun(Start(pendingFiles), events)
    ensures var s := Run(Start(pendingFiles), events);
      Broadcasts(s.log, id) == (if id in s.resolvedFiles then 1 else 0) + LateAnswers(Start(pendingFiles), events, id)
  {
    if events != [] {
      var init := events[..|events| - 1];
      BroadcastsCounted(pendingFiles, init, id);
      StartInv(pendingFiles);
      RunKeepsInv(Start(pendingFiles), init);
      assert IdInv(Run(Start(pendingFiles), init), id);
      BroadcastsOfStep(Run(Start(pendingFiles), init), events[|events| - 1], id);
    }
  }

  lemma ResolvedStays(s: State, e: Event, id: Id)
    requires id in s.resolvedFiles
    ensures id in Next(s, e).resolvedFiles
  {
  }

  lemma {:induction false} LateMeansStored(s: State, events: seq<Event>, id: Id)
    requires LateAnswers(s, events, id) > 0
    ensures id in Run(s, events).resolvedFiles
  {
    var init, e := events[..|events| - 1], events[|events| - 1];
    if LateAnswers(s, init, id) > 0 {
      LateMeansStored(s, init, id);
    }
    ResolvedStays(Run(s, init), e, id);
  }

  /**
   * An approval is broadcast as resolved at most once exactly when no call for it reached the store after another had
   * resolved it.
   */
  lemma SingleBroadcastIffNoLateAnswer(pendingFiles: set<Id>, events: seq<Event>, id: Id)
    requires ValidRun(Start(pendingFiles), events)
    ensures Broadcasts(Run(Start(pendingFiles), events).log, id) <= 1 <==>
      LateAnswers(Start(pendingFiles), events, id) == 0
  {
    BroadcastsCounted(pendingFiles, events, id);
    if LateAnswers(Start(pendingFiles), events, id) > 0 {
      LateMeansStored(Start(pendingFiles), events, id);
    }
  }

  /** What is announced, to the waiter and to everyone, is what is stored. */
  ghost predicate AllAgree(s: State, id: Id) {
    forall i :: 0 <= i < |s.log| && s.log[i].id == id ==>
      match s.log[i]
      case Required(_) | WaiterRejected(_) => true
      case Resolved(_, v) => id in s.resolvedFiles && s.resolvedFiles[id] == v
      case WaiterGets(_, a) => id in s.resolvedFiles && (a <==> s.resolvedFiles[id] == Approved)
  }

  /** A late answer with another verdict than the stored one. */
  predicate Contradicts(s: State, e: Event, id: Id) {
    AnswersLate(s, e) && s.calls[e.call].id == id && s.calls[e.call].verdict != s.resolvedFiles[id]
  }

  predicate SomeContradiction(s: State, events: seq<Event>, id: Id) {
    && events != []
    && var init := events[..|events| - 1];
       SomeContradiction(s, init, id) || Contradicts(Run(s, init), events[|events| - 1], id)
  }

  lemma AgreementAfterStore(s: State, c: CallId, id: Id)
    requires StoreSound(s, id) && AnnouncedAreStored(s) && c in s.calls && s.calls[c].AtStore?
    ensures AllAgree(Next(s, StoreAnswers(c)), id) <==> AllAgree(s, id) && !Contradicts(s, StoreAnswers(c), id)
  {
    var t := Next(s, StoreAnswers(c));
    assert forall i :: 0 <= i < |s.log| ==> t.log[i] == s.log[i];
    if s.calls[c].id == id && StoreResult(s, id, s.calls[c].verdict).Some? {
      assert t.log[|t.log| - 1] == Resolved(id, s.calls[c].verdict);
    }
  }

  lemma AgreementOfStep(s: State, e: Event, id: Id)
    requires StoreSound(s, id) && Enabled(s, e) && AnnouncedAreStored(s)
    ensures AllAgree(Next(s, e), id) <==> AllAgree(s, id) && !Contradicts(s, e, id)
  {
    if e.StoreAnswers? {
      AgreementAfterStore(s, e.call, id);
    } else if e.SaveSettles? || e.SaveFails? {
      var t := Next(s, e);
      assert forall i :: 0 <= i < |s.log| ==> t.log[i] == s.log[i];
    }
  }

  /** Store, broadcasts and waiter agree on an approval exactly when no late answer for it carried another verdict. */
  lemma {:induction false} AgreementIffNoContradiction(pendingFiles: set<Id>, events: seq<Event>, id: Id)
    requires ValidRun(Start(pendingFiles), events)
    ensures AllAgree(Run(Start(pendingFiles), events), id) <==> !SomeContradiction(Start(pendingFiles), events, id)
  {
    if events != [] {
      var init, e := events[..|events| - 1], events[|events| - 1];
      AgreementIffNoContradiction(pendingFiles, init, id);
      StartInv(pendingFiles);
      RunKeepsInv(Start(pendingFiles), init);
      AnnouncedIffStored(pendingFiles, init, id);
      assert IdInv(Run(Start(pendingFiles), init), id);
      AgreementOfStep(Run(Start(pendingFiles), init), e, id);
    }
  }

  /** A response and the timeout, both waiting for a save that has just settled. */
  function Race(): State {
    State(map["a" := Session(true, true, true)], {}, map[], {}, {"a"}, map[],
          map[1 := Awaiting("a", Approved), 2 := Awaiting("a", Expired)], [], {"a"})
  }

  lemma SavedOnDisk(events: seq<Event>)
    requires events == [Request("a"), SaveOnDisk("a")]
    ensures ValidRun(Start({}), events)
    ensures Run(Start({}), events) ==
      State(map["a" := Session(false, true, true)], {"a"}, map["a" := true], {}, {"a"}, map[], map[], [], {"a"})
  {
    RunTo(Start({}), events, 1);
    RunTo(Start({}), events, 2);
    assert events[..2] == events;
  }

  lemma RespondedWhileSaving(events: seq<Event>)
    requires events == [Request("a"), SaveOnDisk("a"), Respond(1, "a", true)]
    ensures ValidRun(Start({}), events)
    ensures Run(Start({}), events) ==
      State(map["a" := Session(true, true, true)], {"a"}, map["a" := true], {}, {"a"}, map[],
        map[1 := Awaiting("a", Approved)],
            [], {"a"})
  {
    assert events[..2] == [Request("a"), SaveOnDisk("a")];
    SavedOnDisk(events[..2]);
    RunTo(Start({}), events, 3);
    assert events[..3] == events;
  }

  lemma TimedOutWhileSaving(events: seq<Event>)
    requires events == [Request("a"), SaveOnDisk("a"), Respond(1, "a", true), TimerFires(2, "a")]
    ensures ValidRun(Start({}), events)
    ensures Run(Start({}), events) ==
      State(map["a" := Session(true, true, true)], {}, map["a" := true], {}, {"a"}, map[],
            map[1 := Awaiting("a", Approved), 2 := Awaiting("a", Expired)], [], {"a"})
  {
    assert events[..3] == [Request("a"), SaveOnDisk("a"), Respond(1, "a", true)];
    RespondedWhileSaving(events[..3]);
    RunTo(Start({}), events, 4);
    assert events[..4] == events;
  }

  lemma RaceIsReachable()
    ensures var events := [Request("a"), SaveOnDisk("a"), Respond(1, "a", true), TimerFires(2, "a"), SaveSettles("a")];
      ValidRun(Start({}), events) && Run(Start({}), events) == Race()
  {
    var es := [Request("a"), SaveOnDisk("a"), Respond(1, "a", true), TimerFires(2, "a"), SaveSettles("a")];
    assert es[..4] == [Request("a"), SaveOnDisk("a"), Respond(1, "a", true), TimerFires(2, "a")];
    TimedOutWhileSaving(es[..4]);
    RunTo(Start({}), es, 5);
    assert es[..5] == es;
  }

  lemma BothReachStore(events: seq<Event>)
    requires events == [Continue(1), Continue(2)]
    ensures ValidRun(Race(), events)
    ensures Run(Race(), events) ==
      State(map[], {}, map[], {}, {"a"}, map[],
        map[1 := AtStore("a", Approved, true), 2 := AtStore("a", Expired, false)], [], {"a"})
  {
    RunTo(Race(), events, 1);
    RunTo(Race(), events, 2);
    assert events[..2] == events;
  }

  /**
   * The response takes the waiter, the timeout is stored first, and the waiter is told yes although the store says
   * expired.
   */
  lemma ResponseAndTimeoutDisagree()
    ensures var events := [Continue(1), Continue(2), StoreAnswers(2), StoreAnswers(1)];
      var s := Run(Race(), events);
      && ValidRun(Race(), events)
      && s.resolvedFiles == map["a" := Expired]
      && s.log == [Resolved("a", Expired), WaiterGets("a", true), Resolved("a", Approved)]
  {
    var es := [Continue(1), Continue(2), StoreAnswers(2), StoreAnswers(1)];
    assert es[..2] == [Continue(1), Continue(2)];
    BothReachStore(es[..2]);
    RunTo(Race(), es, 3);
    var s3 := Run(Race(), es[..3]);
    assert s3 == State(map[], {}, map[], {}, {}, map["a" := Expired], map[1 := AtStore("a", Approved, true)],
                       [Resolved("a", Expired)], {"a"}) by {
      assert [] + [Resolved("a", Expired)] == [Resolved("a", Expired)];
    }
    RunTo(Race(), es, 4);
    assert es[..4] == es;
  }

  lemma RunTo(s: State, events: seq<Event>, n: nat)
    requires 0 < n <= |events|
    ensures Run(s, events[..n]) == Next(Run(s, events[..n - 1]), events[n - 1])
    ensures ValidRun(s, events[..n]) <==>
      ValidRun(s, events[..n - 1]) && Enabled(Run(s, events[..n - 1]), events[n - 1])
  {
    assert events[..n][..n - 1] == events[..n - 1];
  }
}
