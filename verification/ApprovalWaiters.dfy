/** What becomes of the waiter of an approval, and exactly when it is lost. */
module ApprovalWaiters {
  import opened Approvals

  /** The waiter is in the hands of a call that is about to hear from the store. */
  ghost predicate InHands(s: State, id: Id) {
    exists c :: c in s.calls && TookWaiter(s.calls[c], id)
  }

  ghost function Held(s: State, id: Id): nat {
    One(HasWaiter(s, id)) + One(InHands(s, id))
  }

  /** The event drops the waiter without a word: a stop, or a restart that tracks its record anew. */
  predicate DropsWaiter(s: State, e: Event, id: Id) {
    HasWaiter(s, id) && (e == Stop || e == Restore(id))
  }

  predicate Stored(s: State, id: Id) {
    id in s.pendingFiles || id in s.resolvedFiles
  }

  /**
   * Once its save is on disk a waiter's approval is stored, so the store has something to tell the call that takes the
   * waiter.
   */
  ghost predicate WaiterStored(s: State, id: Id) {
    && (HasWaiter(s, id) ==> Stored(s, id) || (id in s.saving && !s.saving[id]))
    && (forall c :: c in s.calls && TookWaiter(s.calls[c], id) ==> Stored(s, id))
    && (id in s.sessions && s.sessions[id].waiter ==> s.sessions[id].hasReady)
  }

  lemma TakeKeepsStored(s: State, c: CallId, id: Id, verdict: Verdict, x: Id)
    requires WaiterStored(s, x) && (HasWaiter(s, id) && id == x ==> Stored(s, id))
    ensures WaiterStored(Take(s, c, id, verdict), x)
  {
    var t := Take(s, c, id, verdict);
    assert forall d :: d in t.calls && d != c ==> d in s.calls && t.calls[d] == s.calls[d];
  }

  lemma FinalizeKeepsStored(s: State, c: CallId, id: Id, verdict: Verdict, x: Id)
    requires WaiterStored(s, x) && WaiterStored(s, id) && c !in s.calls
    ensures WaiterStored(Finalize(s, c, id, verdict), x)
  {
    if !(id in s.sessions && s.sessions[id].hasReady) {
      TakeKeepsStored(s, c, id, verdict, x);
    }
  }

  lemma StepKeepsStored(s: State, e: Event, x: Id)
    requires (forall id :: WaiterStored(s, id)) && Inv(s) && Enabled(s, e)
    ensures WaiterStored(Next(s, e), x)
  {
    assert WaiterStored(s, x) && IdInv(s, x);
    match e
    case Respond(c, id, approve) =>
      assert WaiterStored(s, id);
      FinalizeKeepsStored(s, c, id, if approve then Approved else Denied, x);
    case TimerFires(c, id) =>
      assert WaiterStored(s, id);
      FinalizeKeepsStored(s.(timers := s.timers - {id}), c, id, Expired, x);
    case Lapsed(c, id) =>
      assert WaiterStored(s, id);
      FinalizeKeepsStored(s, c, id, Expired, x);
    case Continue(c) =>
      assert WaiterStored(s, s.calls[c].id);
      TakeKeepsStored(s, c, s.calls[c].id, s.calls[c].verdict, x);
    case StoreAnswers(c) =>
      var t := Next(s, e);
      assert t.calls == s.calls - {c} && t.sessions == s.sessions;
    case _ =>
  }

  lemma {:induction false} RunKeepsStored(pendingFiles: set<Id>, events: seq<Event>)
    requires ValidRun(Start(pendingFiles), events)
    ensures forall id :: WaiterStored(Run(Start(pendingFiles), events), id)
  {
    if events != [] {
      var init := events[..|events| - 1];
      RunKeepsStored(pendingFiles, init);
      StartInv(pendingFiles);
      RunKeepsInv(Start(pendingFiles), init);
      forall id ensures WaiterStored(Run(Start(pendingFiles), events), id) {
        StepKeepsStored(Run(Start(pendingFiles), init), events[|events| - 1], id);
      }
    }
  }

  /** In every run the store has something to tell a call that holds a waiter. */
  lemma StoreAnswersWaiter(pendingFiles: set<Id>, events: seq<Event>, c: CallId)
    requires ValidRun(Start(pendingFiles), events)
    requires var s := Run(Start(pendingFiles), events); Enabled(s, StoreAnswers(c)) && s.calls[c].tookWaiter
    ensures var s := Run(Start(pendingFiles), events); Answers(s, StoreAnswers(c))
  {
    RunKeepsStored(pendingFiles, events);
    var s := Run(Start(pendingFiles), events);
    assert WaiterStored(s, s.calls[c].id);
  }

  /** The save fails while the waiter is still in its session: it is rejected. */
  predicate RejectsHeld(s: State, e: Event, id: Id) {
    e == SaveFails(id) && HasWaiter(s, id)
  }

  function Drops(s: State, events: seq<Event>, id: Id): nat {
    if events == [] then 0
    else
      var init := events[..|events| - 1];
      Drops(s, init, id) + One(DropsWaiter(Run(s, init), events[|events| - 1], id))
  }

  function RejectedHeld(s: State, events: seq<Event>, id: Id): nat {
    if events == [] then 0
    else
      var init := events[..|events| - 1];
      RejectedHeld(s, init, id) + One(RejectsHeld(Run(s, init), events[|events| - 1], id))
  }

  function Requests(events: seq<Event>, id: Id): nat {
    if events == [] then 0 else Requests(events[..|events| - 1], id) + One(events[|events| - 1] == Request(id))
  }

  function Rejections(log: seq<Out>, id: Id): nat {
    Count(log, id, Rejection)
  }

  lemma TakeMovesWaiter(s: State, c: CallId, id: Id, verdict: Verdict, x: Id)
    requires IdInv(s, x) && (c in s.calls ==> s.calls[c].Awaiting?)
    ensures var t := Take(s, c, id, verdict); Held(t, x) == Held(s, x) && t.log == s.log
  {
    var t := Take(s, c, id, verdict);
    if InHands(s, x) {
      var d :| d in s.calls && TookWaiter(s.calls[d], x);
      assert d in t.calls && TookWaiter(t.calls[d], x);
    } else if HasWaiter(s, x) && x == id {
      assert c in t.calls && TookWaiter(t.calls[c], x);
    } else {
      assert forall d :: d in t.calls && d != c ==> d in s.calls && t.calls[d] == s.calls[d];
    }
  }

  lemma FinalizeMovesWaiter(s: State, c: CallId, id: Id, verdict: Verdict, x: Id)
    requires IdInv(s, x) && c !in s.calls
    ensures var t := Finalize(s, c, id, verdict); Held(t, x) == Held(s, x) && t.log == s.log
  {
    var t := Finalize(s, c, id, verdict);
    if id in s.sessions && s.sessions[id].hasReady {
      assert HasWaiter(t, x) == HasWaiter(s, x);
      SameHands(s, t, x, c);
    } else {
      TakeMovesWaiter(s, c, id, verdict, x);
    }
  }

  /** Calls that differ in one that has not taken the waiter. */
  lemma SameHands(s: State, t: State, id: Id, c: CallId)
    requires forall d :: d != c ==> (d in s.calls <==> d in t.calls) && (d in s.calls ==> s.calls[d] == t.calls[d])
    requires c in s.calls ==> !TookWaiter(s.calls[c], id)
    requires c in t.calls ==> !TookWaiter(t.calls[c], id)
    ensures InHands(s, id) == InHands(t, id)
  {
    if InHands(s, id) {
      var d :| d in s.calls && TookWaiter(s.calls[d], id);
      assert d in t.calls && TookWaiter(t.calls[d], id);
    }
  }

  lemma AfterStoreMovesWaiter(s: State, c: CallId, x: Id)
    requires IdInv(s, x) && c in s.calls && s.calls[c].AtStore?
    ensures var t := Next(s, StoreAnswers(c));
      Held(t, x) + One(TookWaiter(s.calls[c], x)) == Held(s, x) && HasWaiter(t, x) == HasWaiter(s, x)
  {
    var t := Next(s, StoreAnswers(c));
    assert t.calls == s.calls - {c} && t.sessions == s.sessions;
    if TookWaiter(s.calls[c], x) {
      assert InHands(s, x) && !InHands(t, x);
    } else {
      SameHands(s, t, x, c);
    }
  }

  /** Conservation, one event at a time: a waiter is held, answered, dropped or rejected, and comes from a request. */
  lemma WaiterOfStep(s: State, e: Event, x: Id)
    requires Inv(s) && Enabled(s, e) && WaiterStored(s, x)
    ensures var t := Next(s, e);
      Held(t, x) + WaiterResults(t.log, x) + One(DropsWaiter(s, e, x)) + One(RejectsHeld(s, e, x)) ==
      Held(s, x) + WaiterResults(s.log, x) + One(e == Request(x))
  {
    assert IdInv(s, x);
    match e
    case StoreAnswers(c) =>
      AnswersOfStep(s, e, x);
      AfterStoreMovesWaiter(s, c, x);
    case Continue(c) => TakeMovesWaiter(s, c, s.calls[c].id, s.calls[c].verdict, x);
    case Respond(c, id, approve) => FinalizeMovesWaiter(s, c, id, if approve then Approved else Denied, x);
    case TimerFires(c, id) =>
      var t := s.(timers := s.timers - {id});
      assert InHands(t, x) == InHands(s, x);
      FinalizeMovesWaiter(t, c, id, Expired, x);
    case Lapsed(c, id) => FinalizeMovesWaiter(s, c, id, Expired, x);
    case _ => OtherWaiterStep(s, e, x);
  }

  lemma OtherWaiterStep(s: State, e: Event, x: Id)
    requires IdInv(s, x) && Enabled(s, e)
    requires e.Request? || e.SaveOnDisk? || e.SaveSettles? || e.SaveFails? || e.Stop? || e.List? || e.Restore?
    ensures var t := Next(s, e);
      Held(t, x) + WaiterResults(t.log, x) + One(DropsWaiter(s, e, x)) + One(RejectsHeld(s, e, x)) ==
      Held(s, x) + WaiterResults(s.log, x) + One(e == Request(x))
  {
    AnswersOfStep(s, e, x);
    SameCalls(s, Next(s, e), x);
    SessionWaiter(s, e, x);
  }

  lemma SameCalls(s: State, t: State, id: Id)
    requires s.calls == t.calls
    ensures InHands(s, id) == InHands(t, id)
  {
  }

  lemma SessionWaiter(s: State, e: Event, x: Id)
    requires IdInv(s, x) && Enabled(s, e)
    requires e.Request? || e.SaveOnDisk? || e.SaveSettles? || e.SaveFails? || e.Stop? || e.List? || e.Restore?
    ensures One(HasWaiter(Next(s, e), x)) + One(DropsWaiter(s, e, x)) + One(RejectsHeld(s, e, x)) ==
      One(HasWaiter(s, x)) + One(e == Request(x))
  {
  }

  /**
   * Conservation over runs: every waiter is held, or has had its result, or was dropped, or was rejected, each once in
   * all.
   */
  lemma {:induction false} WaitersAccounted(pendingFiles: set<Id>, events: seq<Event>, id: Id)
    requires ValidRun(Start(pendingFiles), events)
    ensures var s := Run(Start(pendingFiles), events);
      && Held(s, id) + WaiterResults(s.log, id) + Drops(Start(pendingFiles), events, id) +
           RejectedHeld(Start(pendingFiles), events, id) == Requests(events, id)
      && Requests(events, id) <= 1 && (Requests(events, id) == 1 ==> id in s.used)
      && (RejectedHeld(Start(pendingFiles), events, id) > 0 ==> Rejections(s.log, id) > 0)
  {
    if events != [] {
      var init, e := events[..|events| - 1], events[|events| - 1];
      var s := Run(Start(pendingFiles), init);
      WaitersAccounted(pendingFiles, init, id);
      StartInv(pendingFiles);
      RunKeepsInv(Start(pendingFiles), init);
      RunKeepsStored(pendingFiles, init);
      WaiterOfStep(s, e, id);
      RejectionsGrow(s, e, id);
    }
  }

  lemma RejectionsGrow(s: State, e: Event, id: Id)
    ensures Rejections(Next(s, e).log, id) == Rejections(s.log, id) + One(e == SaveFails(id))
  {
    CountOfStep(s, e, id, Rejection);
  }

  /** Nobody will ever tell the waiter anything: it is neither held nor settled, and its save can no longer fail. */
  ghost predicate LostForGood(s: State, id: Id) {
    Held(s, id) == 0 && WaiterResults(s.log, id) == 0 && Rejections(s.log, id) == 0 && id !in s.saving
  }

  /**
   * A requested waiter is lost for good exactly when its save has ended without failing and some event dropped it: a
   * stop, or a restart that tracked its record anew, which found it in its session.
   */
  lemma WaiterLostIffDropped(pendingFiles: set<Id>, events: seq<Event>, id: Id)
    requires ValidRun(Start(pendingFiles), events) && Requests(events, id) > 0
    ensures var s := Run(Start(pendingFiles), events);
      LostForGood(s, id) <==>
        Drops(Start(pendingFiles), events, id) > 0 && Rejections(s.log, id) == 0 && id !in s.saving
  {
    WaitersAccounted(pendingFiles, events, id);
  }

  lemma StepKeepsLost(s: State, e: Event, id: Id)
    requires Inv(s) && Enabled(s, e) && WaiterStored(s, id) && LostForGood(s, id) && id in s.used
    ensures LostForGood(Next(s, e), id)
  {
    WaiterOfStep(s, e, id);
    RejectionsGrow(s, e, id);
  }

  /** And it stays lost, whatever comes. */
  lemma LostStaysLost(pendingFiles: set<Id>, events: seq<Event>, e: Event, id: Id)
    requires ValidRun(Start(pendingFiles), events) && Requests(events, id) > 0
    requires var s := Run(Start(pendingFiles), events); Enabled(s, e) && LostForGood(s, id)
    ensures LostForGood(Run(Start(pendingFiles), events + [e]), id)
  {
    assert (events + [e])[..|events|] == events;
    WaitersAccounted(pendingFiles, events, id);
    StartInv(pendingFiles);
    RunKeepsInv(Start(pendingFiles), events);
    RunKeepsStored(pendingFiles, events);
    StepKeepsLost(Run(Start(pendingFiles), events), e, id);
  }

  // ----- An example -----

  lemma SavedAndSettled(events: seq<Event>)
    requires events == [Request("a"), SaveOnDisk("a"), SaveSettles("a")]
    ensures ValidRun(Start({}), events)
    ensures Run(Start({}), events) ==
      State(map["a" := Session(false, true, true)], {"a"}, map[], {}, {"a"}, map[], map[], [Required("a")], {"a"})
  {
    assert events[..2] == [Request("a"), SaveOnDisk("a")];
    SavedOnDisk(events[..2]);
    RunTo(Start({}), events, 3);
    assert events[..3] == events && [] + [Required("a")] == [Required("a")];
  }

  /**
   * A start that is still listing when a request is saved and tracked then tracks its record again, without its waiter.
   */
  lemma RestartCanLoseWaiter()
    ensures var events := [Request("a"), SaveOnDisk("a"), SaveSettles("a"), List, Restore("a")];
      ValidRun(Start({}), events) && LostForGood(Run(Start({}), events), "a")
  {
    var es := [Request("a"), SaveOnDisk("a"), SaveSettles("a"), List, Restore("a")];
    assert es[..3] == [Request("a"), SaveOnDisk("a"), SaveSettles("a")];
    SavedAndSettled(es[..3]);
    RunTo(Start({}), es, 4);
    RunTo(Start({}), es, 5);
    assert es[..5] == es;
    var s := Run(Start({}), es);
    assert s.log == [Required("a")] && s.calls == map[];
    CountFew(s.log, "a", Answer);
    CountFew(s.log, "a", Rejection);
  }
}
