/** Deleting a goal and everything reachable from it, on a child graph that may be cyclic. */
module GoalDelete {
  import opened GoalArchive
  import opened Graphs
  import opened Prelude
  import opened StateFiles

  predicate Stored(s: Slot) {
    s.live.goal.Some? || s.archive.Some?
  }

  /** Removes the directory in which the goal is found: the live one if it is there, else the archived one. */
  function RemoveLocation(s: Slot): Slot {
    if s.live.goal.Some? then s.(live := s.live.(goal := None)) else s.(archive := None)
  }

  function DeleteChildren(s: Slot): seq<GoalId> {
    var loaded :=
      if s.live.goal.Some? then LoadGoal(s)
      else if Readable(ArchiveJson(s)) then Parse(ArchiveJson(s).value)
      else Missing;
    if loaded.Found? then loaded.goal.children else []
  }

  /** Reading the children of a live goal throws when loadGoal finds a document that is not a goal. */
  predicate ReadThrows(s: Slot) {
    s.live.goal.Some? && LoadGoal(s) == Unparsable
  }

  function ChildGraph(slots: Slots): Graph {
    map n | n in slots && Stored(slots[n]) :: DeleteChildren(slots[n])
  }

  /** A goal still loads after the removal exactly when it was stored live with a readable archived copy beside it. */
  lemma LoadsAfterRemoval(s: Slot)
    requires Stored(s)
    ensures LoadGoal(RemoveLocation(s)) != Missing <==> s.live.goal.Some? && Readable(ArchiveJson(s))
  {
  }

  ghost predicate UntouchedOutside(init: Slots, slots: Slots, visited: set<GoalId>) {
    slots.Keys == init.Keys && forall n :: n in init && n !in visited ==> slots[n] == init[n]
  }

  function Removed(s: Slot): Slot {
    if Stored(s) then RemoveLocation(s) else s
  }

  /** The slots of the newly visited goals have lost their location, all others are as before. */
  ghost predicate RemovedExactly(init: Slots, before: Slots, after: Slots, newly: set<GoalId>) {
    && before.Keys == after.Keys == init.Keys
    && forall n :: n in init ==> after[n] == if n in newly then Removed(init[n]) else before[n]
  }

  /** Some of the newly visited goals have lost their location, none of them one that throws; all else is as before. */
  ghost predicate RemovedSome(init: Slots, before: Slots, after: Slots, newly: set<GoalId>) {
    && before.Keys == after.Keys == init.Keys
    && forall n :: n in init ==>
         after[n] == before[n] || (n in newly && !ReadThrows(init[n]) && after[n] == Removed(init[n]))
  }

  /** The newly visited goals are reachable from g, and each of their children has been visited. */
  ghost predicate VisitedFrom(graph: Graph, g: GoalId, before: set<GoalId>, after: set<GoalId>) {
    && before <= after && g in after
    && (forall n :: n in after - before ==> Reach(graph, g, n))
    && (forall n, c :: n in after - before && c in Kids(graph, n) ==> c in after)
  }

  ghost predicate SomeThrows(init: Slots, goals: set<GoalId>) {
    exists n :: n in goals && n in init && ReadThrows(init[n])
  }

  /** What a call on g has visited and removed, and what it answers; Threw passes on the failure of a read. */
  ghost predicate Outcome(
      init: Slots, g: GoalId, seen: set<GoalId>, visited: set<GoalId>, before: Slots, after: Slots, r: Result)
  {
    && UntouchedOutside(init, after, visited)
    && seen <= visited && g in visited
    && (forall n :: n in visited - seen ==> Reach(ChildGraph(init), g, n))
    && (r == Threw <==> SomeThrows(init, visited - seen))
    && (r == Threw ==> RemovedSome(init, before, after, visited - seen))
    && (r != Threw ==>
          && VisitedFrom(ChildGraph(init), g, seen, visited)
          && RemovedExactly(init, before, after, visited - seen)
          && (r == Deleted <==> g !in seen && g in ChildGraph(init)))
  }

  datatype Result = Deleted | NotDeleted | Threw

  /** The loop over the children of g: g and the first of its children are visited, and none of these throws. */
  ghost predicate Visiting(
      init: Slots, g: GoalId, children: seq<GoalId>, seen: set<GoalId>, visited: set<GoalId>, before: Slots, now: Slots)
  {
    && UntouchedOutside(init, now, visited)
    && seen + {g} <= visited
    && (forall n :: n in visited - seen ==> Reach(ChildGraph(init), g, n))
    && (forall n, c :: n in visited - seen - {g} && c in Kids(ChildGraph(init), n) ==> c in visited)
    && (forall c :: c in children ==> c in visited)
    && !SomeThrows(init, visited - seen)
    && RemovedExactly(init, before, now, visited - seen - {g})
  }

  lemma VisitOne(
      init: Slots, g: GoalId, children: seq<GoalId>, i: nat, seen: set<GoalId>, v1: set<GoalId>, v2: set<GoalId>,
      before: Slots, mid: Slots, after: Slots, r: Result)
    requires i < |children| && children == Kids(ChildGraph(init), g) && g !in seen
    requires Visiting(init, g, children[..i], seen, v1, before, mid)
    requires Outcome(init, children[i], v1, v2, mid, after, r)
    ensures r != Threw ==> Visiting(init, g, children[..i + 1], seen, v2, before, after)
    ensures r == Threw ==> Outcome(init, g, seen, v2, before, after, r)
  {
    ReachedByChild(init, g, children[i], seen, v1, v2);
    if r == Threw {
      var n :| n in v2 - v1 && n in init && ReadThrows(init[n]);
      assert n in v2 - seen;
    } else {
      assert !SomeThrows(init, v2 - seen);
    }
  }

  lemma ReachedByChild(init: Slots, g: GoalId, c: GoalId, seen: set<GoalId>, v1: set<GoalId>, v2: set<GoalId>)
    requires c in Kids(ChildGraph(init), g)
    requires forall n :: n in v1 - seen ==> Reach(ChildGraph(init), g, n)
    requires forall n :: n in v2 - v1 ==> Reach(ChildGraph(init), c, n)
    ensures forall n :: n in v2 - seen ==> Reach(ChildGraph(init), g, n)
  {
    forall n | n in v2 - seen ensures Reach(ChildGraph(init), g, n) {
      if n !in v1 {
        ReachVia(ChildGraph(init), g, c, n);
      }
    }
  }

  /** With all children visited, removing the directory of g completes the call. */
  lemma RemoveCompletes(init: Slots, g: GoalId, seen: set<GoalId>, visited: set<GoalId>, before: Slots, mid: Slots)
    requires g in init && Stored(init[g]) && g !in seen && before.Keys == init.Keys && before[g] == init[g]
    requires Visiting(init, g, Kids(ChildGraph(init), g), seen, visited, before, mid)
    ensures Outcome(init, g, seen, visited, before, mid[g := RemoveLocation(mid[g])], Deleted)
  {
  }

  /** The store without the stored goals reachable from g. */
  ghost function WithoutTree(slots: Slots, g: GoalId): Slots {
    map n | n in slots ::
      if Stored(slots[n]) && Reach(ChildGraph(slots), g, n) then RemoveLocation(slots[n]) else slots[n]
  }

  lemma AllVisited(init: Slots, g: GoalId, visited: set<GoalId>)
    requires VisitedFrom(ChildGraph(init), g, {}, visited)
    ensures forall n :: n in visited <==> Reach(ChildGraph(init), g, n)
  {
    forall n | Reach(ChildGraph(init), g, n) ensures n in visited {
      ClosedHoldsReach(ChildGraph(init), visited, g, n);
    }
  }

  // ----- The same, said of the documents on disk -----

  /** The document that gives the children when the goal is deleted. */
  ghost predicate ReadBy(s: Slot, doc: Doc) {
    if s.live.goal.Some? then LoadsBy(s, doc) else ArchiveHolds(s, doc)
  }

  /** n lists c as a child in the document by which n is read. */
  ghost function ChildLinks(slots: Slots): (GoalId, GoalId) -> bool {
    (n, c) => n in slots && exists goal :: ReadBy(slots[n], GoalObject(goal)) && c in goal.children
  }

  lemma ReadChildren(s: Slot, c: GoalId)
    ensures (Stored(s) && c in DeleteChildren(s)) <==>
      exists goal :: ReadBy(s, GoalObject(goal)) && c in goal.children
    ensures ReadThrows(s) <==> s.live.goal.Some? && exists doc :: LoadsBy(s, doc) && !doc.GoalObject?
  {
    var goal := Goal("", [], false, 0, 0);
    LoadedIffDocument(s, goal);
    if s.live.goal.Some? {
      forall goal | ReadBy(s, GoalObject(goal)) ensures LoadGoal(s) == Found(goal) {
        LoadedIffDocument(s, goal);
      }
      if LoadGoal(s).Found? {
        LoadedIffDocument(s, LoadGoal(s).goal);
        assert ReadBy(s, GoalObject(LoadGoal(s).goal));
      }
    } else if Readable(ArchiveJson(s)) {
      assert ArchiveHolds(s, ArchiveJson(s).value);
      if ArchiveJson(s).value.GoalObject? {
        assert ReadBy(s, GoalObject(ArchiveJson(s).value.goal));
      }
    }
  }

  lemma GraphHasChildLinks(slots: Slots)
    ensures HasLinks(ChildGraph(slots), ChildLinks(slots))
  {
    forall n, c ensures c in Kids(ChildGraph(slots), n) <==> ChildLinks(slots)(n, c) {
      if n in slots {
        ReadChildren(slots[n], c);
      }
    }
  }

  /** The goal has lost its live directory or, if it had none, its archive. */
  ghost predicate LostLocation(s: Slot, t: Slot) {
    && t.staging == s.staging
    && t.live.tasks == s.live.tasks && t.live.strategies == s.live.strategies
    && t.live.stalls == s.live.stalls && t.live.reports == s.live.reports
    && t.live.goal.None?
    && t.archive == if s.live.goal.Some? then s.archive else None
  }

  /** Every stored goal that is linked from g has lost its location, and nothing else has changed. */
  ghost predicate TreeLost(init: Slots, slots: Slots, g: GoalId) {
    && slots.Keys == init.Keys
    && forall n :: n in init ==>
         if Linked(ChildLinks(init), g, n) && (init[n].live.goal.Some? || init[n].archive.Some?)
         then LostLocation(init[n], slots[n])
         else slots[n] == init[n]
  }

  lemma WithoutTreeIsLost(init: Slots, g: GoalId)
    ensures TreeLost(init, WithoutTree(init, g), g)
  {
    GraphHasChildLinks(init);
    forall n | n in init ensures Linked(ChildLinks(init), g, n) <==> Reach(ChildGraph(init), g, n) {
      LinkedIffReach(ChildGraph(init), ChildLinks(init), g, n);
    }
  }

  /** A goal that cannot be read is linked from g. */
  ghost predicate UnreadableLinked(init: Slots, g: GoalId) {
    exists n :: n in init && Linked(ChildLinks(init), g, n) && init[n].live.goal.Some? &&
      exists doc :: LoadsBy(init[n], doc) && !doc.GoalObject?
  }

  lemma ThrowsIffUnreadable(init: Slots, g: GoalId)
    ensures UnreadableLinked(init, g) <==>
      exists n :: n in init && Reach(ChildGraph(init), g, n) && ReadThrows(init[n])
  {
    GraphHasChildLinks(init);
    forall n | n in init
      ensures Linked(ChildLinks(init), g, n) <==> Reach(ChildGraph(init), g, n)
      ensures ReadThrows(init[n]) <==>
        init[n].live.goal.Some? && exists doc :: LoadsBy(init[n], doc) && !doc.GoalObject?
    {
      LinkedIffReach(ChildGraph(init), ChildLinks(init), g, n);
      ReadChildren(init[n], "");
    }
  }

  /** Once a goal's location is lost, so is that of every stored child that the goal lists; and the root's is. */
  lemma ChildrenLostToo(init: Slots, slots: Slots, g: GoalId, n: GoalId, goal: Goal, c: GoalId)
    requires TreeLost(init, slots, g)
    ensures g in init && (init[g].live.goal.Some? || init[g].archive.Some?) ==> LostLocation(init[g], slots[g])
    ensures n in init && slots[n] != init[n] && ReadBy(init[n], GoalObject(goal)) && c in goal.children ==>
      (c in init && (init[c].live.goal.Some? || init[c].archive.Some?) ==> LostLocation(init[c], slots[c]))
  {
    assert Chain(ChildLinks(init), [g]);
    assert Linked(ChildLinks(init), g, g);
    if n in init && slots[n] != init[n] && ReadBy(init[n], GoalObject(goal)) && c in goal.children {
      assert ChildLinks(init)(n, c);
      LinkedOn(ChildLinks(init), g, n, c);
    }
  }

  class GoalRemover {
    var slots: Slots
    var visited: set<GoalId>

    constructor (slots: Slots)
      ensures this.slots == slots && visited == {}
    {
      this.slots, visited := slots, {};
    }

    /** Marks the goal, reads its children, deletes them first, then removes the goal's directory. */
    method DeleteGoal(g: GoalId, ghost init: Slots) returns (r: Result)
      requires UntouchedOutside(init, slots, visited)
      modifies this
      ensures Outcome(init, g, old(visited), visited, old(slots), slots, r)
      decreases init.Keys - visited
    {
      ghost var seen, before := visited, slots;
      ReachSelf(ChildGraph(init), g);
      if g in visited {
        assert visited - seen == {};
        return NotDeleted;
      }
      visited := visited + {g};
      assert visited - seen == {g};
      if g !in slots || !Stored(slots[g]) {
        return NotDeleted;
      }
      if ReadThrows(slots[g]) {
        return Threw;
      }
      var children := DeleteChildren(slots[g]);
      assert children == Kids(ChildGraph(init), g);
      for i := 0 to |children|
        invariant Visiting(init, g, children[..i], seen, visited, before, slots)
      {
        ghost var s1, v1 := slots, visited;
        r := DeleteGoal(children[i], init);
        VisitOne(init, g, children, i, seen, v1, visited, before, s1, slots, r);
        if r == Threw {
          return;
        }
      }
      assert children[..|children|] == children;
      RemoveCompletes(init, g, seen, visited, before, slots);
      slots := slots[g := RemoveLocation(slots[g])];
      r := Deleted;
    }

    /**
     * Removes exactly the stored goals reachable from g through stored goals, each from the place where it is found. It
     * throws exactly when reading one of them does; then it has removed some of the others, and nothing that is not
     * reachable.
     */
    method DeleteGoalFromRoot(g: GoalId) returns (r: Result)
      requires visited == {}
      modifies this
      ensures r == Threw <==>
        exists n :: n in old(slots) && Reach(ChildGraph(old(slots)), g, n) && ReadThrows(old(slots)[n])
      ensures r != Threw ==> slots == WithoutTree(old(slots), g)
      ensures slots.Keys == old(slots).Keys
      ensures r == Threw ==> (forall n :: n in slots && slots[n] != old(slots)[n] ==>
        && Reach(ChildGraph(old(slots)), g, n) && !ReadThrows(old(slots)[n])
        && slots[n] == RemoveLocation(old(slots)[n]))
      ensures r != Threw ==> (r == Deleted <==> g in old(slots) && Stored(old(slots)[g]))
      ensures r != Threw ==> TreeLost(old(slots), slots, g)
      ensures r == Threw <==> UnreadableLinked(old(slots), g)
    {
      WithoutTreeIsLost(slots, g);
      ThrowsIffUnreadable(slots, g);
      ghost var init := slots;
      r := DeleteGoal(g, init);
      if r != Threw {
        AllVisited(init, g, visited);
      } else {
        ghost var n :| n in visited && n in init && ReadThrows(init[n]);
        assert Reach(ChildGraph(init), g, n);
      }
    }
  }
}
