/** Archiving a goal with its children: recursion under locks, cut by crashes and run again. */
module GoalArchiveTree {
  import opened GoalArchive
  import opened Graphs
  import opened Prelude
  import opened StateFiles

  /** The child links that archiving follows: those of goals with something to archive. */
  function ChildGraph(slots: Slots): Graph {
    map n | n in slots && Located(slots[n]) :: ChildrenOf(slots[n])
  }

  /**
   * s is s0 after some cut runs of archiving: same final state, and the same children unless a cut has hidden them; a
   * goal whose children cannot be read stays.
   */
  ghost predicate Follows(s0: Slot, s: Slot) {
    if ChildrenUnreadable(s0) then s == s0
    else
      && !ChildrenUnreadable(s) && Located(s) == Located(s0) && Archived(s) == Archived(s0)
      && (ChildrenOf(s) == ChildrenOf(s0) || ChildrenOf(s) == [])
  }

  lemma CutFollows(s0: Slot, s: Slot, k: nat)
    requires Follows(s0, s) && !ChildrenUnreadable(s0)
    ensures Follows(s0, Cut(s, k))
    ensures k >= |Plan(s)| ==> Cut(s, k) == Archived(s0)
    ensures s == Archived(s0) ==> Cut(s, k) == s
  {
    CutStates(s, k);
    CutStates(Cut(s, k), 0);
    SameTarget(s, Cut(s, k));
    CutKeepsChildren(s, k);
    if s == Archived(s0) {
      ArchivedStays(s0, k);
    }
  }

  // ----- What has been done below a goal -----

  /** Everything stored that is reachable from g is archived. */
  ghost predicate AllArchivedFrom(init: Slots, slots: Slots, g: GoalId)
    requires slots.Keys == init.Keys
  {
    forall n :: n in init && Reach(ChildGraph(init), g, n) ==> slots[n] == Archived(init[n])
  }

  ghost predicate NoBadWalk(init: Slots, g: GoalId, held: set<GoalId>) {
    forall w :: !BadWalk(ChildGraph(init), g, held, w)
  }

  ghost predicate SomeBadWalk(init: Slots, g: GoalId, held: set<GoalId>) {
    exists w :: BadWalk(ChildGraph(init), g, held, w)
  }

  /** A goal whose children cannot be read is reachable from g. */
  ghost predicate UnreadableFrom(init: Slots, g: GoalId) {
    exists n :: n in init && Reach(ChildGraph(init), g, n) && ChildrenUnreadable(init[n])
  }

  /** The child c of g is archived with all below it, and no walk from c comes back to g or to a goal it has been at. */
  ghost predicate ChildDone(init: Slots, slots: Slots, c: GoalId, g: GoalId)
    requires slots.Keys == init.Keys
  {
    AllArchivedFrom(init, slots, c) && NoBadWalk(init, c, {g}) && !UnreadableFrom(init, c)
  }

  ghost predicate ChildrenDone(init: Slots, slots: Slots, children: seq<GoalId>, g: GoalId)
    requires slots.Keys == init.Keys
  {
    forall c :: c in children ==> ChildDone(init, slots, c, g)
  }

  /** Every slot is on its way, and one whose children are hidden was cut when they were all done. */
  ghost predicate AllFollow(init: Slots, slots: Slots) {
    && slots.Keys == init.Keys
    && forall n :: n in init ==>
         Follows(init[n], slots[n]) &&
         (ChildrenOf(slots[n]) == ChildrenOf(init[n]) || ChildrenDone(init, slots, ChildrenOf(init[n]), n))
  }

  /** Only slots reachable from g, and not held by a caller, have changed; archived ones have stayed. */
  ghost predicate OnlyFrom(init: Slots, before: Slots, after: Slots, g: GoalId, held: set<GoalId>)
    requires before.Keys == init.Keys == after.Keys
  {
    forall n :: n in init && (!Reach(ChildGraph(init), g, n) || n in held || before[n] == Archived(init[n])) ==>
      after[n] == before[n]
  }

  /** The callers that hold a lock while g is visited have come to it along child links. */
  ghost predicate Callers(init: Slots, g: GoalId, held: set<GoalId>) {
    forall h :: h in held ==> Reach(ChildGraph(init), h, g)
  }

  /**
   * ArchivedTree and NotFound are the returned true and false; LockTimeout and ParseError are thrown; Crashed is the
   * death of the process.
   */
  datatype Result = ArchivedTree | NotFound | LockTimeout | ParseError | Crashed

  /** A run from g, under the locks held by its callers, has gone from before to after with result r. */
  ghost predicate Outcome(init: Slots, before: Slots, after: Slots, g: GoalId, held: set<GoalId>, r: Result)
    requires before.Keys == init.Keys
  {
    && AllFollow(init, after)
    && OnlyFrom(init, before, after, g, held)
    && (r == ArchivedTree || r == NotFound ==>
          && AllArchivedFrom(init, after, g) && NoBadWalk(init, g, held) && !UnreadableFrom(init, g)
          && (r == ArchivedTree <==> g in ChildGraph(init)))
    && (r == LockTimeout ==> SomeBadWalk(init, g, held))
    && (r == ParseError ==> UnreadableFrom(init, g))
  }

  // ----- The goal's own steps -----

  lemma ChildStaysDone(init: Slots, mid: Slots, after: Slots, c: GoalId, g: GoalId)
    requires mid.Keys == after.Keys == init.Keys && ChildDone(init, mid, c, g)
    requires forall n :: n in init && mid[n] == Archived(init[n]) ==> after[n] == mid[n]
    ensures ChildDone(init, after, c, g)
  {
  }

  lemma OthersStayFollowing(init: Slots, mid: Slots, after: Slots, g: GoalId)
    requires AllFollow(init, mid) && g in init && after.Keys == init.Keys
    requires forall n :: n in init && n != g ==> after[n] == mid[n]
    requires mid[g] == Archived(init[g]) ==> after[g] == mid[g]
    requires Follows(init[g], after[g])
    requires ChildrenOf(after[g]) == ChildrenOf(init[g]) || ChildrenDone(init, mid, ChildrenOf(init[g]), g)
    ensures AllFollow(init, after)
  {
    forall n, c | n in init && ChildDone(init, mid, c, n) ensures ChildDone(init, after, c, n) {
      ChildStaysDone(init, mid, after, c, n);
    }
  }

  /** Running the goal's own steps keeps every slot on its way, when all its children are done. */
  lemma PerformSettles(init: Slots, slots: Slots, g: GoalId, left: nat)
    requires AllFollow(init, slots) && g in init && !ChildrenUnreadable(init[g])
    requires ChildrenDone(init, slots, ChildrenOf(init[g]), g)
    ensures AllFollow(init, slots[g := Cut(slots[g], left)])
    ensures left >= |Plan(slots[g])| ==> Cut(slots[g], left) == Archived(init[g])
    ensures slots[g] == Archived(init[g]) ==> Cut(slots[g], left) == slots[g]
  {
    CutFollows(init[g], slots[g], left);
    OthersStayFollowing(init, slots, slots[g := Cut(slots[g], left)], g);
  }

  lemma PerformedOnly(init: Slots, before: Slots, mid: Slots, after: Slots, g: GoalId, held: set<GoalId>)
    requires before.Keys == mid.Keys == after.Keys == init.Keys && g in init && g !in held
    requires OnlyFrom(init, before, mid, g, held)
    requires forall n :: n in init && n != g ==> after[n] == mid[n]
    requires mid[g] == Archived(init[g]) ==> after[g] == mid[g]
    ensures OnlyFrom(init, before, after, g, held)
  {
    ReachSelf(ChildGraph(init), g);
  }

  lemma TreeArchived(init: Slots, slots: Slots, g: GoalId, children: seq<GoalId>)
    requires slots.Keys == init.Keys && g in init && children == Kids(ChildGraph(init), g)
    requires slots[g] == Archived(init[g]) && !ChildrenUnreadable(init[g])
    requires ChildrenDone(init, slots, children, g)
    ensures AllArchivedFrom(init, slots, g) && !UnreadableFrom(init, g)
  {
    forall n | n in init && Reach(ChildGraph(init), g, n) && n != g
      ensures slots[n] == Archived(init[n]) && !ChildrenUnreadable(init[n])
    {
      ReachSplit(ChildGraph(init), g, n);
    }
  }

  /**
   * A walk from a child to a caller would go on to g, so without such walks back to g there is none to a caller either.
   */
  lemma ChildrenClear(init: Slots, g: GoalId, children: seq<GoalId>, held: set<GoalId>)
    requires g !in held && children == Kids(ChildGraph(init), g) && Callers(init, g, held)
    requires forall c :: c in children ==> NoBadWalk(init, c, {g})
    ensures NoBadWalk(init, g, held)
  {
    forall w ensures !BadWalk(ChildGraph(init), g, held, w) {
      if BadWalk(ChildGraph(init), g, held, w) && |w| > 1 {
        BadWalkTail(ChildGraph(init), g, held, w);
        BackToCaller(init, g, held, w[1..]);
      }
    }
  }

  lemma BackToCaller(init: Slots, g: GoalId, held: set<GoalId>, w: seq<GoalId>)
    requires w != [] && BadWalk(ChildGraph(init), w[0], held + {g}, w) && Callers(init, g, held)
    ensures SomeBadWalk(init, w[0], {g})
  {
    var graph, last := ChildGraph(init), w[|w| - 1];
    if last in held {
      assert WalkFromTo(graph, w, w[0], last);
      ReachTrans(graph, w[0], last, g);
      var v :| WalkFromTo(graph, v, w[0], g);
      assert BadWalk(graph, w[0], {g}, v);
    } else {
      assert BadWalk(graph, w[0], {g}, w);
    }
  }

  /** Without child links nothing else is reachable. */
  lemma NothingBelow(init: Slots, g: GoalId, held: set<GoalId>)
    requires g !in ChildGraph(init) && g !in held
    ensures NoBadWalk(init, g, held)
    ensures forall n :: Reach(ChildGraph(init), g, n) ==> n == g
  {
    var graph := ChildGraph(init);
    forall w ensures !BadWalk(graph, g, held, w) {
      if BadWalk(graph, g, held, w) && |w| > 1 {
        WalkTail(graph, w);
      }
    }
    forall n | Reach(graph, g, n) ensures n == g {
      if n != g {
        ReachSplit(graph, g, n);
      }
    }
  }

  /** Nothing to archive: only leftovers of a dead run are cleared. */
  lemma AbsentSettles(init: Slots, slots: Slots, g: GoalId, held: set<GoalId>, left: nat)
    requires AllFollow(init, slots) && g in init && g !in held && !Located(slots[g])
    ensures Outcome(init, slots, slots[g := Cut(slots[g], left)], g, held,
                    if left >= |Plan(slots[g])| then NotFound else Crashed)
  {
    assert ChildrenOf(init[g]) == [];
    PerformSettles(init, slots, g, left);
    NothingBelow(init, g, held);
    PerformedOnly(init, slots, slots, slots[g := Cut(slots[g], left)], g, held);
  }

  /** With the children done, the goal's own steps complete the tree. */
  lemma LocatedSettles(init: Slots, before: Slots, mid: Slots, g: GoalId, held: set<GoalId>, left: nat)
    requires before.Keys == init.Keys && g in ChildGraph(init) && g !in held && !ChildrenUnreadable(init[g])
    requires Callers(init, g, held)
    requires AllFollow(init, mid) && OnlyFrom(init, before, mid, g, held)
    requires ChildrenDone(init, mid, ChildrenOf(init[g]), g)
    ensures Outcome(init, before, mid[g := Cut(mid[g], left)], g, held,
                    if left >= |Plan(mid[g])| then ArchivedTree else Crashed)
  {
    var after, children := mid[g := Cut(mid[g], left)], ChildrenOf(init[g]);
    PerformSettles(init, mid, g, left);
    PerformedOnly(init, before, mid, after, g, held);
    if left >= |Plan(mid[g])| {
      forall c | c in children ensures ChildDone(init, after, c, g) {
        ChildStaysDone(init, mid, after, c, g);
      }
      TreeArchived(init, after, g, children);
      ChildrenClear(init, g, children, held);
    }
  }

  // ----- The loop over the children -----

  /** The listed children of g are done, and g itself is as it was. */
  ghost predicate Visiting(init: Slots, before: Slots, now: Slots, g: GoalId, children: seq<GoalId>, held: set<GoalId>)
    requires before.Keys == init.Keys && g in init
  {
    && AllFollow(init, now) && now[g] == before[g]
    && OnlyFrom(init, before, now, g, held)
    && ChildrenDone(init, now, children, g)
  }

  lemma NoneVisited(init: Slots, slots: Slots, g: GoalId, held: set<GoalId>)
    requires AllFollow(init, slots) && g in init
    ensures Visiting(init, slots, slots, g, [], held)
  {
  }

  /** Hidden children were done when they were hidden; otherwise the visit has done them. */
  lemma AllChildrenDone(init: Slots, before: Slots, now: Slots, g: GoalId, held: set<GoalId>)
    requires AllFollow(init, before) && g in init
    requires Visiting(init, before, now, g, ChildrenOf(before[g]), held)
    ensures ChildrenDone(init, now, ChildrenOf(init[g]), g)
  {
  }

  lemma BadWalkOfChild(init: Slots, g: GoalId, c: GoalId, held: set<GoalId>)
    requires c in Kids(ChildGraph(init), g) && SomeBadWalk(init, c, held + {g})
    ensures SomeBadWalk(init, g, held)
  {
    var w :| BadWalk(ChildGraph(init), c, held + {g}, w);
    BadWalkCons(ChildGraph(init), g, held, w);
  }

  lemma ChildChangesOnly(init: Slots, before: Slots, mid: Slots, after: Slots, g: GoalId, c: GoalId, held: set<GoalId>)
    requires before.Keys == mid.Keys == after.Keys == init.Keys
    requires c in Kids(ChildGraph(init), g)
    requires OnlyFrom(init, before, mid, g, held) && OnlyFrom(init, mid, after, c, held + {g})
    ensures OnlyFrom(init, before, after, g, held)
    ensures g in init ==> after[g] == mid[g]
  {
    forall n | n in init && (!Reach(ChildGraph(init), g, n) || n in held || before[n] == Archived(init[n]))
      ensures after[n] == before[n]
    {
      if Reach(ChildGraph(init), c, n) {
        ReachVia(ChildGraph(init), g, c, n);
      }
    }
  }

  lemma FewerHeld(init: Slots, c: GoalId, g: GoalId, held: set<GoalId>)
    requires NoBadWalk(init, c, held + {g})
    ensures NoBadWalk(init, c, {g})
  {
    forall w ensures !BadWalk(ChildGraph(init), c, {g}, w) {
      assert !BadWalk(ChildGraph(init), c, held + {g}, w);
    }
  }

  lemma OneMoreChildDone(init: Slots, mid: Slots, after: Slots, children: seq<GoalId>, i: nat, g: GoalId,
      held: set<GoalId>)
    requires mid.Keys == after.Keys == init.Keys && i < |children|
    requires OnlyFrom(init, mid, after, children[i], held)
    requires ChildrenDone(init, mid, children[..i], g) && ChildDone(init, after, children[i], g)
    ensures ChildrenDone(init, after, children[..i + 1], g)
  {
    forall c | c in children[..i + 1] ensures ChildDone(init, after, c, g) {
      if c in children[..i] {
        ChildStaysDone(init, mid, after, c, g);
      }
    }
  }

  lemma VisitOne(
      init: Slots, before: Slots, mid: Slots, after: Slots, g: GoalId, children: seq<GoalId>, i: nat,
      held: set<GoalId>, r: Result)
    requires before.Keys == init.Keys && g in init && g !in held && i < |children|
    requires children[i] in Kids(ChildGraph(init), g)
    requires Visiting(init, before, mid, g, children[..i], held)
    requires Outcome(init, mid, after, children[i], held + {g}, r)
    ensures r == ArchivedTree || r == NotFound ==> Visiting(init, before, after, g, children[..i + 1], held)
    ensures r == Crashed || r == LockTimeout || r == ParseError ==> Outcome(init, before, after, g, held, r)
  {
    ChildChangesOnly(init, before, mid, after, g, children[i], held);
    if r == LockTimeout {
      BadWalkOfChild(init, g, children[i], held);
    } else if r == ParseError {
      var n :| n in init && Reach(ChildGraph(init), children[i], n) && ChildrenUnreadable(init[n]);
      ReachVia(ChildGraph(init), g, children[i], n);
    } else if r != Crashed {
      FewerHeld(init, children[i], g, held);
      OneMoreChildDone(init, mid, after, children, i, g, held + {g});
    }
  }

  lemma CallersOfChild(init: Slots, g: GoalId, c: GoalId, held: set<GoalId>)
    requires Callers(init, g, held) && c in Kids(ChildGraph(init), g)
    ensures Callers(init, c, held + {g})
  {
    ReachSelf(ChildGraph(init), g);
    forall h | h in held + {g} ensures Reach(ChildGraph(init), h, c) {
      ReachThen(ChildGraph(init), h, g, c);
    }
  }

  // ----- A budget that is enough -----

  const MAX_STEPS: nat := 15

  lemma PlanIsShort(s: Slot)
    ensures |Plan(s)| <= MAX_STEPS
  {
  }

  /** No goal has more children than this. */
  ghost function Fanout(slots: Slots): (f: nat)
    ensures forall n :: n in slots ==> |ChildrenOf(slots[n])| <= f
    decreases |slots|
  {
    if slots == map[] then 0 else
    var n :| n in slots;
    var rest := Fanout(slots - {n});
    assert forall m :: m in slots && m != n ==> m in slots - {n} && (slots - {n})[m] == slots[m];
    if |ChildrenOf(slots[n])| > rest then |ChildrenOf(slots[n])| else rest
  }

  function Times(n: nat, e: nat): nat {
    if n == 0 then 0 else Times(n - 1, e) + e
  }

  lemma {:induction false} TimesGrows(n: nat, m: nat, e: nat)
    requires n <= m
    ensures Times(n, e) <= Times(m, e)
    decreases m
  {
    if n < m {
      TimesGrows(n, m - 1, e);
    }
  }

  /** Steps that are enough for a run from a goal when so many goals are not held by its callers. */
  function Enough(fanout: nat, free: nat): nat {
    if free == 0 then 0 else Times(fanout, Enough(fanout, free - 1)) + MAX_STEPS
  }

  ghost function EnoughFor(init: Slots): nat {
    Enough(Fanout(init), |init|)
  }

  /**
   * A visit to a goal with at most so many children, and its own steps, fit into es[d] when those of a child fit into
   * es[d - 1].
   */
  predicate Rung(fanout: nat, es: seq<nat>, d: nat) {
    0 < d < |es| ==> Times(fanout, es[d - 1]) + MAX_STEPS <= es[d]
  }

  predicate Narrow(s: Slot, fanout: nat) {
    |ChildrenOf(s)| <= fanout
  }

  /** No more than this many of the goals can still be locked one after the other. */
  ghost predicate Room(init: Slots, held: set<GoalId>, free: nat)
    decreases free
  {
    forall g :: g in init && g !in held ==> free > 0 && Room(init, held + {g}, free - 1)
  }

  lemma {:induction false} RoomForAll(init: Slots, held: set<GoalId>, free: nat)
    requires |init.Keys - held| <= free
    ensures Room(init, held, free)
    decreases free
  {
    forall g | g in init && g !in held ensures free > 0 && Room(init, held + {g}, free - 1) {
      assert init.Keys - held == (init.Keys - (held + {g})) + {g};
      RoomForAll(init, held + {g}, free - 1);
    }
  }

  ghost predicate Ladder(init: Slots, fanout: nat, es: seq<nat>) {
    && (forall n {:trigger Narrow(init[n], fanout)} :: n in init ==> Narrow(init[n], fanout))
    && (forall d: nat {:trigger Rung(fanout, es, d)} :: Rung(fanout, es, d))
  }

  /** A goal's visit and its own steps fit when no child list is longer than the fanout. */
  lemma EnoughOfGoal(init: Slots, slots: Slots, g: GoalId, fanout: nat, es: seq<nat>, free: nat)
    requires Ladder(init, fanout, es) && 0 < free < |es| && g in init && AllFollow(init, slots)
    ensures Times(|ChildrenOf(slots[g])|, es[free - 1]) + MAX_STEPS <= es[free]
  {
    assert Follows(init[g], slots[g]) && Narrow(init[g], fanout) && Rung(fanout, es, free);
    TimesGrows(|ChildrenOf(slots[g])|, fanout, es[free - 1]);
  }

  function Budgets(fanout: nat, n: nat): (es: seq<nat>)
    ensures |es| == n && forall d :: 0 <= d < n ==> es[d] == Enough(fanout, d)
  {
    seq(n, d requires 0 <= d => Enough(fanout, d))
  }

  lemma BudgetsRise(fanout: nat, es: seq<nat>, d: nat)
    requires es == Budgets(fanout, |es|)
    ensures Rung(fanout, es, d)
  {
  }

  lemma LadderAtFirst(init: Slots, fanout: nat, es: seq<nat>)
    requires fanout == Fanout(init) && es == Budgets(fanout, |init| + 1)
    ensures Ladder(init, fanout, es) && Room(init, {}, |init|)
  {
    assert init.Keys - {} == init.Keys;
    RoomForAll(init, {}, |init|);
    forall d: nat ensures Rung(fanout, es, d) {
      BudgetsRise(fanout, es, d);
    }
  }

  /** The visit has not used up more than the budget if that was there. */
  ghost predicate Spent(before: nat, after: nat, budget: nat, r: Result) {
    before >= budget ==> r != Crashed && after >= before - budget
  }

  lemma SpentNothing(left: nat, budget: nat, r: Result)
    requires r != Crashed
    ensures Spent(left, left, budget, r)
  {
  }

  lemma SpentLess(l0: nat, l1: nat, part: nat, rest: nat, budget: nat, r: Result)
    requires Spent(l0, l1, part, r) && part + rest <= budget
    ensures Spent(l0, l1, budget, r)
  {
  }

  lemma SpentBoth(l0: nat, l1: nat, l2: nat, part: nat, rest: nat, budget: nat, first: Result, r: Result)
    requires Spent(l0, l1, part, first) && Spent(l1, l2, rest, r) && part + rest <= budget
    ensures Spent(l0, l2, budget, r)
  {
  }

  /** After i of n visits the budgets of the others are still there. */
  ghost predicate Spared(l0: nat, left: nat, n: nat, i: nat, e: nat) {
    i <= n && (l0 >= Times(n, e) ==> left >= l0 - Times(n, e) + Times(n - i, e))
  }

  lemma SparedAtFirst(left: nat, n: nat, e: nat)
    ensures Spared(left, left, n, 0, e)
  {
  }

  lemma VisitSpends(l0: nat, l1: nat, l2: nat, n: nat, i: nat, e: nat, r: Result)
    requires Spared(l0, l1, n, i, e) && i < n && Spent(l1, l2, e, r)
    ensures Spared(l0, l2, n, i + 1, e)
    ensures Spent(l0, l2, Times(n, e), r)
  {
    assert Times(n - i, e) == Times(n - (i + 1), e) + e;
  }

  lemma SparedAtLast(l0: nat, left: nat, n: nat, e: nat, r: Result)
    requires Spared(l0, left, n, n, e) && r != Crashed
    ensures Spent(l0, left, Times(n, e), r)
  {
  }

  lemma TreeSettled(init: Slots, before: Slots, after: Slots, g: GoalId)
    requires before.Keys == after.Keys == init.Keys && AllArchivedFrom(init, after, g)
    requires OnlyFrom(init, init, before, g, {}) && OnlyFrom(init, before, after, g, {})
    ensures after == map n | n in init :: if Reach(ChildGraph(init), g, n) then Archived(init[n]) else init[n]
  {
  }

  // ----- The same, said of the documents on disk -----

  /** n lists c as a child in the document by which its children are visited. */
  ghost function ChildLinks(slots: Slots): (GoalId, GoalId) -> bool {
    (n, c) => n in slots && exists goal :: VisitsBy(slots[n], GoalObject(goal)) && c in goal.children
  }

  lemma VisitedChildren(s: Slot, c: GoalId)
    ensures (Located(s) && c in ChildrenOf(s)) <==> exists goal :: VisitsBy(s, GoalObject(goal)) && c in goal.children
  {
    forall goal | VisitsBy(s, GoalObject(goal)) ensures ChildrenOf(s) == goal.children && Located(s) {
      ChildrenAsDocumented(s, goal);
    }
    ChildrenAsDocumented(s, Goal("", [], false, 0, 0));
  }

  lemma GraphHasChildLinks(slots: Slots)
    ensures HasLinks(ChildGraph(slots), ChildLinks(slots))
  {
    forall n, c ensures c in Kids(ChildGraph(slots), n) <==> ChildLinks(slots)(n, c) {
      if n in slots {
        VisitedChildren(slots[n], c);
      }
    }
  }

  /** Every goal that is linked from g is archived, file by file, and nothing else has changed. */
  ghost predicate TreeArchivedFrom(init: Slots, slots: Slots, g: GoalId) {
    && slots.Keys == init.Keys
    && forall n :: n in init ==>
         if Linked(ChildLinks(init), g, n) then ArchivedFrom(init[n], slots[n]) else slots[n] == init[n]
  }

  lemma ArchivedAsLinked(init: Slots, slots: Slots, g: GoalId)
    requires slots ==
      map n | n in init :: if Reach(ChildGraph(init), g, n) then Archived(init[n]) else init[n]
    ensures TreeArchivedFrom(init, slots, g)
  {
    GraphHasChildLinks(init);
    forall n | n in init
      ensures if Linked(ChildLinks(init), g, n) then ArchivedFrom(init[n], slots[n]) else slots[n] == init[n]
    {
      LinkedIffReach(ChildGraph(init), ChildLinks(init), g, n);
      ArchivedFileByFile(init[n]);
    }
  }

  /** The goal has a live directory, a complete archive, or a document in any archive. */
  ghost predicate IsFound(slots: Slots, g: GoalId) {
    g in slots && (slots[g].live.goal.Some? || Marked(slots[g]) || exists doc :: ArchiveHolds(slots[g], doc))
  }

  lemma FoundIfLocated(slots: Slots, g: GoalId)
    ensures IsFound(slots, g) <==> g in ChildGraph(slots)
  {
    if g in slots {
      ChildrenAsDocumented(slots[g], Goal(g, [], false, 0, 0));
    }
  }

  /** The links from g lead to a cycle, or to a live goal whose document parses and is no goal. */
  ghost predicate CannotArchive(init: Slots, g: GoalId) {
    || (exists w :: Chain(ChildLinks(init), w) && w[0] == g && w[|w| - 1] in w[..|w| - 1])
    || (exists n :: n in init && Linked(ChildLinks(init), g, n) && init[n].live.goal.Some? && !Marked(init[n]) &&
          exists doc :: LoadsBy(init[n], doc) && !doc.GoalObject?)
  }

  lemma CannotArchiveIff(init: Slots, g: GoalId)
    ensures CannotArchive(init, g) <==> CycleReachable(ChildGraph(init), g) || UnreadableFrom(init, g)
  {
    var graph, links := ChildGraph(init), ChildLinks(init);
    GraphHasChildLinks(init);
    forall w ensures Walk(graph, w) <==> Chain(links, w) {
      WalkIffChain(graph, links, w);
    }
    forall w ensures BadWalk(graph, g, {}, w) <==> Chain(links, w) && w[0] == g && w[|w| - 1] in w[..|w| - 1] {
    }
    forall n | n in init
      ensures Linked(links, g, n) <==> Reach(graph, g, n)
      ensures ChildrenUnreadable(init[n]) <==>
        init[n].live.goal.Some? && !Marked(init[n]) && exists doc :: LoadsBy(init[n], doc) && !doc.GoalObject?
    {
      LinkedIffReach(graph, links, g, n);
      ChildrenAsDocumented(init[n], Goal("", [], false, 0, 0));
    }
  }

  // ----- The code -----

  class GoalArchiver {
    var slots: Slots
    var locks: set<GoalId>
    var left: nat

    constructor (slots: Slots)
      ensures this.slots == slots && locks == {} && left == 0
    {
      this.slots, locks, left := slots, {}, 0;
    }

    method Perform(g: GoalId) returns (alive: bool)
      requires g in slots
      modifies this`slots, this`left
      ensures slots == old(slots)[g := Cut(old(slots)[g], old(left))]
      ensures alive <==> old(left) >= |Plan(old(slots)[g])|
      ensures !alive ==> left == 0
      ensures Spent(old(left), left, MAX_STEPS, if alive then ArchivedTree else Crashed)
    {
      PlanIsShort(slots[g]);
      ghost var s := slots[g];
      var plan := Plan(slots[g]);
      ghost var l0 := left;
      alive := true;
      var i := 0;
      while i < |plan|
        invariant 0 <= i <= |plan| && i + left == l0 && s == old(slots)[g] && plan == Plan(s)
        invariant slots == old(slots)[g := Exec(s, plan[..i])]
      {
        if left == 0 {
          return false;
        }
        ExecStep(s, plan, i);
        slots := slots[g := Apply(slots[g], plan[i])];
        left := left - 1;
        i := i + 1;
      }
      assert plan[..i] == plan;
    }

    /** Takes the goal's lock; a lock that this very run holds is never freed, so the attempt times out. */
    method ArchiveGoalState(g: GoalId, ghost init: Slots, ghost fanout: nat, ghost es: seq<nat>, ghost free: nat)
      returns (r: Result)
      requires AllFollow(init, slots) && Callers(init, g, locks) && Room(init, locks, free) &&
        Ladder(init, fanout, es) && free < |es|
      modifies this
      ensures Outcome(init, old(slots), slots, g, old(locks), r)
      ensures r != Crashed ==> locks == old(locks)
      ensures r == Crashed ==> left == 0
      ensures Spent(old(left), left, es[free], r)
      decreases free, 1
    {
      if g in locks {
        assert BadWalk(ChildGraph(init), g, locks, [g]);
        return LockTimeout;
      }
      if g !in slots {
        NothingBelow(init, g, locks);
        return NotFound;
      }
      ghost var held := locks;
      locks := locks + {g};
      r := ArchiveLocked(g, init, held, fanout, es, free);
      if r != Crashed {
        locks := locks - {g};
        assert locks == held;
      }
    }

    method ArchiveLocked(
        g: GoalId, ghost init: Slots, ghost held: set<GoalId>, ghost fanout: nat, ghost es: seq<nat>, ghost free: nat)
      returns (r: Result)
      requires AllFollow(init, slots) && Callers(init, g, held)
      requires 0 < free < |es| && Room(init, locks, free - 1) && Ladder(init, fanout, es)
      requires g in init && g !in held && locks == held + {g}
      modifies this
      ensures Outcome(init, old(slots), slots, g, held, r)
      ensures r != Crashed ==> locks == old(locks)
      ensures r == Crashed ==> left == 0
      ensures Spent(old(left), left, es[free], r)
      decreases free, 0
    {
      ghost var before, l0, visits := slots, left, Times(|ChildrenOf(slots[g])|, es[free - 1]);
      EnoughOfGoal(init, slots, g, fanout, es, free);
      if !Located(slots[g]) {
        AbsentSettles(init, slots, g, held, left);
        var alive := Perform(g);
        r := if alive then NotFound else Crashed;
        SpentLess(l0, left, MAX_STEPS, visits, es[free], r);
        return;
      }
      if ChildrenUnreadable(slots[g]) {
        ReachSelf(ChildGraph(init), g);
        SpentNothing(l0, es[free], ParseError);
        return ParseError;
      }
      r := VisitChildren(g, ChildrenOf(slots[g]), init, held, fanout, es, free - 1);
      ghost var l1, visited := left, r;
      if r != ArchivedTree {
        SpentLess(l0, l1, visits, MAX_STEPS, es[free], r);
        return;
      }
      AllChildrenDone(init, before, slots, g, held);
      LocatedSettles(init, before, slots, g, held, left);
      var alive := Perform(g);
      r := if alive then ArchivedTree else Crashed;
      SpentBoth(l0, l1, left, visits, MAX_STEPS, es[free], visited, r);
    }

    /** ArchivedTree when every child has been visited to its end. */
    method VisitChildren(
        g: GoalId, children: seq<GoalId>, ghost init: Slots, ghost held: set<GoalId>,
        ghost fanout: nat, ghost es: seq<nat>, ghost free: nat)
      returns (r: Result)
      requires AllFollow(init, slots) && Callers(init, g, held) && Room(init, locks, free) &&
        Ladder(init, fanout, es) && free < |es|
      requires g in init && g !in held && locks == held + {g}
      requires forall c :: c in children ==> c in Kids(ChildGraph(init), g)
      modifies this
      ensures r != NotFound
      ensures r == ArchivedTree ==> Visiting(init, old(slots), slots, g, children, held)
      ensures r != ArchivedTree ==> Outcome(init, old(slots), slots, g, held, r)
      ensures r != Crashed ==> locks == old(locks)
      ensures r == Crashed ==> left == 0
      ensures Spent(old(left), left, Times(|children|, es[free]), r)
      decreases free, 2
    {
      ghost var before, l0, e := slots, left, es[free];
      SparedAtFirst(l0, |children|, e);
      NoneVisited(init, slots, g, held);
      assert children[..0] == [];
      for i := 0 to |children|
        invariant locks == held + {g}
        invariant Visiting(init, before, slots, g, children[..i], held)
        invariant Spared(l0, left, |children|, i, e)
      {
        ghost var mid, l1 := slots, left;
        CallersOfChild(init, g, children[i], held);
        r := ArchiveGoalState(children[i], init, fanout, es, free);
        VisitOne(init, before, mid, slots, g, children, i, held, r);
        VisitSpends(l0, l1, left, |children|, i, e, r);
        if r == Crashed || r == LockTimeout || r == ParseError {
          return;
        }
      }
      assert children[..|children|] == children;
      r := ArchivedTree;
      SparedAtLast(l0, left, |children|, e, r);
    }

    /** Archiving throws exactly when a cycle of child links, or a goal whose children cannot be read, is reachable. */
    method ArchiveGoal(g: GoalId, ghost init: Slots) returns (r: Result)
      requires AllFollow(init, slots) && locks == {}
      modifies this
      ensures AllFollow(init, slots)
      ensures OnlyFrom(init, old(slots), slots, g, {})
      ensures r != Crashed ==>
        (r == LockTimeout || r == ParseError <==> CycleReachable(ChildGraph(init), g) || UnreadableFrom(init, g))
      ensures r == LockTimeout ==> CycleReachable(ChildGraph(init), g)
      ensures r == ParseError ==> UnreadableFrom(init, g)
      ensures r == ArchivedTree || r == NotFound ==> AllArchivedFrom(init, slots, g)
      ensures r == ArchivedTree ==> g in ChildGraph(init)
      ensures r == NotFound ==> g !in ChildGraph(init)
      ensures r != Crashed ==> locks == {}
      ensures r == Crashed ==> left == 0
      ensures old(left) >= EnoughFor(init) ==> r != Crashed
    {
      ghost var fanout := Fanout(init);
      ghost var es := Budgets(fanout, |init| + 1);
      LadderAtFirst(init, fanout, es);
      r := ArchiveGoalState(g, init, fanout, es, |init|);
    }

    /**
     * Archiving started again after each crash: if the last run completes, what is reachable is archived as by one
     * uninterrupted run and everything else is as it was, whatever the crash points were. It completes when it is left
     * enough steps.
     */
    method ArchiveThroughCrashes(g: GoalId, cuts: seq<nat>, enough: nat) returns (r: Result)
      modifies this
      ensures r == ArchivedTree || r == NotFound ==>
        slots == map n | n in old(slots) ::
          if Reach(ChildGraph(old(slots)), g, n) then Archived(old(slots)[n]) else old(slots)[n]
      ensures r == LockTimeout ==> CycleReachable(ChildGraph(old(slots)), g)
      ensures r == ParseError ==> UnreadableFrom(old(slots), g)
      ensures r == ArchivedTree || r == NotFound ==>
        !CycleReachable(ChildGraph(old(slots)), g) && !UnreadableFrom(old(slots), g)
      ensures enough >= EnoughFor(old(slots)) ==> r != Crashed
      ensures r == ArchivedTree || r == NotFound ==>
        TreeArchivedFrom(old(slots), slots, g) && !CannotArchive(old(slots), g)
      ensures r == LockTimeout || r == ParseError ==> CannotArchive(old(slots), g)
      ensures r == ArchivedTree ==> IsFound(old(slots), g)
      ensures r == NotFound ==> !IsFound(old(slots), g)
    {
      ghost var init := slots;
      for i := 0 to |cuts|
        invariant AllFollow(init, slots)
        invariant OnlyFrom(init, init, slots, g, {})
      {
        locks, left := {}, cuts[i];
        var once := ArchiveGoal(g, init);
      }
      locks, left := {}, enough;
      ghost var before := slots;
      r := ArchiveGoal(g, init);
      CannotArchiveIff(init, g);
      FoundIfLocated(init, g);
      if r == ArchivedTree || r == NotFound {
        TreeSettled(init, before, slots, g);
        ArchivedAsLinked(init, slots, g);
      }
    }
  }

  /** Two goals that name each other as children: archiving either throws, although both are stored and active. */
  lemma MutualChildrenCannotBeArchived(slots: Slots)
    requires "a" in slots && "b" in slots && Located(slots["a"]) && Located(slots["b"])
    requires ChildrenOf(slots["a"]) == ["b"] && ChildrenOf(slots["b"]) == ["a"]
    ensures CycleReachable(ChildGraph(slots), "a") && CycleReachable(ChildGraph(slots), "b")
  {
    var graph := ChildGraph(slots);
    assert ["a", "b", "a"][..2] == ["a", "b"] && ["b", "a", "b"][..2] == ["b", "a"];
    assert BadWalk(graph, "a", {}, ["a", "b", "a"]);
    assert BadWalk(graph, "b", {}, ["b", "a", "b"]);
  }
}
