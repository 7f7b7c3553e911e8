/** Collecting a goal's subtree breadth first, with a queue that may hold duplicates. */
module GoalBfs {
  import opened StateFiles
  import opened GoalArchive
  import opened Graphs

  function Load(slots: Slots, id: GoalId): Loaded {
    if id in slots then LoadGoal(slots[id]) else Missing
  }

  /** The goals that load, with their children. */
  function LoadGraph(slots: Slots): Graph {
    map n | n in slots && LoadGoal(slots[n]).Found? :: LoadGoal(slots[n]).goal.children
  }

  ghost predicate IsDistance(g: Graph, a: Node, b: Node, d: nat) {
    && (exists w :: WalkFromTo(g, w, a, b) && |w| == d + 1)
    && (forall w :: WalkFromTo(g, w, a, b) ==> |w| >= d + 1)
  }

  ghost predicate InDistanceOrder(g: Graph, a: Node, ids: seq<Node>) {
    forall i, j, d, e :: 0 <= i <= j < |ids| && IsDistance(g, a, ids[i], d) && IsDistance(g, a, ids[j], e) ==> d <= e
  }

  // ----- The search and its invariant -----

  /**
   * The queue, the level at which each entry was queued, the visited goals with their distances, and the level reached.
   */
  datatype Search = Search(queue: seq<Node>, level: seq<nat>, index: nat, dist: map<Node, nat>, cur: nat)

  function Start(root: Node): Search {
    Search([root], [0], 0, map[], 0)
  }

  function UnvisitedFirst(children: seq<Node>, n: nat, visited: set<Node>): (r: seq<Node>)
    requires n <= |children|
    ensures forall c :: c in r <==> c in children[..n] && c !in visited
  {
    if n == 0 then []
    else
      assert children[..n] == children[..n - 1] + [children[n - 1]];
      UnvisitedFirst(children, n - 1, visited) + if children[n - 1] in visited then [] else [children[n - 1]]
  }

  function Unvisited(children: seq<Node>, visited: set<Node>): (r: seq<Node>)
    ensures forall c :: c in r <==> c in children && c !in visited
  {
    assert children[..|children|] == children;
    UnvisitedFirst(children, |children|, visited)
  }

  function Skip(s: Search): Search {
    s.(index := s.index + 1)
  }

  /** Visiting the head: its distance is its level, and its unvisited children are queued one level on. */
  function Visit(g: Graph, s: Search): Search
    requires s.index < |s.queue| == |s.level|
  {
    var x, l := s.queue[s.index], s.level[s.index];
    var more := Unvisited(Kids(g, x), s.dist.Keys + {x});
    Search(s.queue + more, s.level + seq(|more|, _ => l + 1), s.index + 1, s.dist[x := l], l)
  }

  ghost predicate LevelsInOrder(s: Search) {
    && |s.level| == |s.queue| && s.index <= |s.queue|
    && forall i, j :: s.index <= i <= j < |s.queue| ==> s.cur <= s.level[i] <= s.level[j] <= s.cur + 1
  }

  ghost predicate WalkOfLength(g: Graph, a: Node, b: Node, l: nat) {
    exists w :: WalkFromTo(g, w, a, b) && |w| == l + 1
  }

  ghost predicate LevelsAreWalks(g: Graph, root: Node, s: Search)
    requires |s.level| == |s.queue|
  {
    forall j :: s.index <= j < |s.queue| ==> WalkOfLength(g, root, s.queue[j], s.level[j])
  }

  ghost predicate DistancesRight(g: Graph, root: Node, s: Search) {
    forall u :: u in s.dist ==> IsDistance(g, root, u, s.dist[u]) && s.dist[u] <= s.cur
  }

  /** c has been visited, or is still to come, at level d at most. */
  ghost predicate Settled(s: Search, c: Node, d: nat)
    requires |s.level| == |s.queue|
  {
    (c in s.dist && s.dist[c] <= d) || exists j :: s.index <= j < |s.queue| && s.queue[j] == c && s.level[j] <= d
  }

  ghost predicate AllSettled(g: Graph, root: Node, s: Search)
    requires |s.level| == |s.queue|
  {
    Settled(s, root, 0) && forall u, c :: u in s.dist && c in Kids(g, u) ==> Settled(s, c, s.dist[u] + 1)
  }

  ghost predicate BfsInv(g: Graph, root: Node, s: Search) {
    LevelsInOrder(s) && LevelsAreWalks(g, root, s) && DistancesRight(g, root, s) && AllSettled(g, root, s)
  }

  lemma StartInv(g: Graph, root: Node)
    ensures BfsInv(g, root, Start(root))
  {
    assert WalkFromTo(g, [root], root, Start(root).queue[0]);
    assert Start(root).queue[0] == root;
  }

  lemma WalkPrefix(g: Graph, w: seq<Node>, i: nat)
    requires Walk(g, w) && 0 < i <= |w|
    ensures WalkFromTo(g, w[..i], w[0], w[i - 1])
  {
  }

  /** No walk to a goal not yet visited is shorter than the level at the head of the queue. */
  lemma HeadIsClosest(g: Graph, root: Node, s: Search, w: seq<Node>, i: nat)
    requires BfsInv(g, root, s) && s.index < |s.queue|
    requires Walk(g, w) && w[0] == root && i < |w| && w[i] !in s.dist
    ensures s.level[s.index] <= i
  {
    if i > 0 {
      if w[i - 1] in s.dist {
        var u := w[i - 1];
        WalkPrefix(g, w, i);
        assert |w[..i]| >= s.dist[u] + 1;
        assert w[i - 1 + 1] in Kids(g, u);
        assert Settled(s, w[i], s.dist[u] + 1);
      } else {
        HeadIsClosest(g, root, s, w, i - 1);
      }
    } else {
      assert Settled(s, root, 0);
    }
  }

  lemma HeadDistance(g: Graph, root: Node, s: Search)
    requires BfsInv(g, root, s) && s.index < |s.queue| && s.queue[s.index] !in s.dist
    ensures IsDistance(g, root, s.queue[s.index], s.level[s.index])
    ensures Reach(g, root, s.queue[s.index])
  {
    forall w | WalkFromTo(g, w, root, s.queue[s.index]) ensures |w| >= s.level[s.index] + 1 {
      HeadIsClosest(g, root, s, w, |w| - 1);
    }
  }

  /** A queue entry that has been visited meanwhile is skipped. */
  lemma SkipKeepsSettled(s: Search, c: Node, d: nat)
    requires |s.level| == |s.queue| && s.index < |s.queue| && Settled(s, c, d)
    requires s.queue[s.index] in s.dist && s.dist[s.queue[s.index]] <= s.level[s.index]
    ensures Settled(Skip(s), c, d)
  {
  }

  lemma SkipKeepsInv(g: Graph, root: Node, s: Search)
    requires BfsInv(g, root, s) && s.index < |s.queue| && s.queue[s.index] in s.dist
    ensures BfsInv(g, root, Skip(s))
  {
    assert s.dist[s.queue[s.index]] <= s.cur <= s.level[s.index];
    forall c, d: nat | Settled(s, c, d) ensures Settled(Skip(s), c, d) {
      SkipKeepsSettled(s, c, d);
    }
  }

  lemma VisitKeepsLevels(g: Graph, root: Node, s: Search)
    requires BfsInv(g, root, s) && s.index < |s.queue|
    ensures LevelsInOrder(Visit(g, s))
  {
  }

  lemma WalkOneFurther(g: Graph, a: Node, b: Node, c: Node, l: nat)
    requires WalkOfLength(g, a, b, l) && c in Kids(g, b)
    ensures WalkOfLength(g, a, c, l + 1)
  {
    var w :| WalkFromTo(g, w, a, b) && |w| == l + 1;
    WalkSnoc(g, w, c);
    assert WalkFromTo(g, w + [c], a, c);
  }

  lemma VisitWalkAt(g: Graph, root: Node, s: Search, j: nat)
    requires LevelsInOrder(s) && LevelsAreWalks(g, root, s) && s.index < |s.queue|
    requires s.index < j < |Visit(g, s).queue|
    ensures WalkOfLength(g, root, Visit(g, s).queue[j], Visit(g, s).level[j])
  {
    var t := Visit(g, s);
    if j < |s.queue| {
      assert t.queue[j] == s.queue[j] && t.level[j] == s.level[j];
    } else {
      assert t.queue[j] in Unvisited(Kids(g, s.queue[s.index]), s.dist.Keys + {s.queue[s.index]});
      WalkOneFurther(g, root, s.queue[s.index], t.queue[j], s.level[s.index]);
    }
  }

  lemma VisitKeepsWalks(g: Graph, root: Node, s: Search)
    requires LevelsInOrder(s) && LevelsAreWalks(g, root, s) && s.index < |s.queue|
    ensures LevelsAreWalks(g, root, Visit(g, s))
  {
    forall j | Visit(g, s).index <= j < |Visit(g, s).queue|
      ensures WalkOfLength(g, root, Visit(g, s).queue[j], Visit(g, s).level[j])
    {
      VisitWalkAt(g, root, s, j);
    }
  }

  lemma StaysSettled(g: Graph, s: Search, c: Node, d: nat)
    requires LevelsInOrder(s) && s.index < |s.queue| && s.queue[s.index] !in s.dist
    requires Settled(s, c, d)
    ensures Settled(Visit(g, s), c, d)
  {
    var t := Visit(g, s);
    if !(c in s.dist && s.dist[c] <= d) {
      var j :| s.index <= j < |s.queue| && s.queue[j] == c && s.level[j] <= d;
      assert t.queue[j] == c && t.level[j] == s.level[j];
    }
  }

  lemma ChildSettled(g: Graph, s: Search, c: Node)
    requires LevelsInOrder(s) && s.index < |s.queue|
    requires forall u :: u in s.dist ==> s.dist[u] <= s.cur
    requires c in Kids(g, s.queue[s.index])
    ensures Settled(Visit(g, s), c, s.level[s.index] + 1)
  {
    var x, l, t := s.queue[s.index], s.level[s.index], Visit(g, s);
    var more := Unvisited(Kids(g, x), s.dist.Keys + {x});
    if c !in t.dist {
      var k :| 0 <= k < |more| && more[k] == c;
      assert t.queue[|s.queue| + k] == c && t.level[|s.queue| + k] == l + 1;
    }
  }

  lemma VisitKeepsSettled(g: Graph, root: Node, s: Search)
    requires BfsInv(g, root, s) && s.index < |s.queue| && s.queue[s.index] !in s.dist
    ensures AllSettled(g, root, Visit(g, s))
  {
    var x, t := s.queue[s.index], Visit(g, s);
    StaysSettled(g, s, root, 0);
    forall u, c | u in t.dist && c in Kids(g, u) ensures Settled(t, c, t.dist[u] + 1) {
      if u == x {
        ChildSettled(g, s, c);
      } else {
        assert Settled(s, c, s.dist[u] + 1);
        StaysSettled(g, s, c, s.dist[u] + 1);
      }
    }
  }

  lemma VisitKeepsInv(g: Graph, root: Node, s: Search)
    requires BfsInv(g, root, s) && s.index < |s.queue| && s.queue[s.index] !in s.dist
    ensures BfsInv(g, root, Visit(g, s))
  {
    VisitKeepsLevels(g, root, s);
    VisitKeepsWalks(g, root, s);
    HeadDistance(g, root, s);
    VisitKeepsSettled(g, root, s);
  }

  /** With the queue used up, exactly what is reachable has been visited. */
  lemma VisitedAll(g: Graph, root: Node, s: Search)
    requires BfsInv(g, root, s) && s.index == |s.queue|
    ensures forall n :: n in s.dist <==> Reach(g, root, n)
  {
    forall n ensures n in s.dist <==> Reach(g, root, n) {
      if Reach(g, root, n) {
        forall u, c | u in s.dist && c in Kids(g, u) ensures c in s.dist {
          assert Settled(s, c, s.dist[u] + 1);
        }
        ClosedHoldsReach(g, s.dist.Keys, root, n);
      }
    }
  }

  // ----- The collected goals -----

  ghost predicate Loads(slots: Slots, ids: seq<Node>, goals: seq<Goal>) {
    |ids| == |goals| && forall i :: 0 <= i < |ids| ==> Load(slots, ids[i]) == Found(goals[i])
  }

  ghost predicate Distinct(ids: seq<Node>) {
    forall i, j :: 0 <= i < j < |ids| ==> ids[i] != ids[j]
  }

  ghost predicate VisitedInOrder(ids: seq<Node>, s: Search) {
    && (forall i :: 0 <= i < |ids| ==> ids[i] in s.dist)
    && (forall i, j :: 0 <= i <= j < |ids| ==> s.dist[ids[i]] <= s.dist[ids[j]])
  }

  ghost predicate LoadableListed(slots: Slots, ids: seq<Node>, s: Search) {
    forall n :: n in s.dist ==> Load(slots, n) != Unparsable && (n in LoadGraph(slots) ==> n in ids)
  }

  /** The visited goals that load, without repetition, in the order of their distance, the root first. */
  ghost predicate Order(slots: Slots, root: Node, ids: seq<Node>, goals: seq<Goal>, s: Search) {
    && Loads(slots, ids, goals)
    && Distinct(ids)
    && VisitedInOrder(ids, s)
    && LoadableListed(slots, ids, s)
    && (s.dist != map[] ==> ids != [] && ids[0] == root)
  }

  lemma VisitedInOrderSnoc(g: Graph, root: Node, ids: seq<Node>, s: Search)
    requires LevelsInOrder(s) && DistancesRight(g, root, s) && s.index < |s.queue| && s.queue[s.index] !in s.dist
    requires VisitedInOrder(ids, s)
    ensures VisitedInOrder(ids, Visit(g, s)) && VisitedInOrder(ids + [s.queue[s.index]], Visit(g, s))
  {
    assert forall i :: 0 <= i < |ids| ==> s.dist[ids[i]] <= s.cur <= s.level[s.index];
  }

  lemma OrderVisit(slots: Slots, root: Node, ids: seq<Node>, goals: seq<Goal>, s: Search)
    requires BfsInv(LoadGraph(slots), root, s) && s.index < |s.queue| && s.queue[s.index] !in s.dist
    requires Order(slots, root, ids, goals, s)
    requires s.dist == map[] ==> s.queue[s.index] == root && Load(slots, root).Found?
    requires Load(slots, s.queue[s.index]) != Unparsable
    ensures var x := s.queue[s.index]; var loaded := Load(slots, x);
      if loaded.Found? then Order(slots, root, ids + [x], goals + [loaded.goal], Visit(LoadGraph(slots), s))
      else Order(slots, root, ids, goals, Visit(LoadGraph(slots), s))
  {
    var x := s.queue[s.index];
    assert x !in ids;
    VisitedInOrderSnoc(LoadGraph(slots), root, ids, s);
  }

  datatype Subtree = Collected(goals: seq<Goal>) | NoRoot | ParseError

  ghost predicate UnparsableReachable(slots: Slots, root: Node) {
    exists n :: Reach(LoadGraph(slots), root, n) && Load(slots, n) == Unparsable
  }

  /** The reachable goals that load, each once, the root first, in nondecreasing distance from it. */
  ghost predicate IsSubtree(slots: Slots, root: Node, ids: seq<Node>, goals: seq<Goal>) {
    && |ids| > 0 && ids[0] == root
    && Loads(slots, ids, goals)
    && Distinct(ids)
    && (forall n :: n in ids <==> n in LoadGraph(slots) && Reach(LoadGraph(slots), root, n))
    && InDistanceOrder(LoadGraph(slots), root, ids)
  }

  function Universe(g: Graph, root: Node): set<Node> {
    {root} + set n, c | n in g && c in g[n] :: c
  }

  ghost predicate Mirrors(s: Search, queue: seq<Node>, index: nat, visited: set<Node>) {
    queue == s.queue && index == s.index <= |queue| && visited == s.dist.Keys
  }

  ghost predicate LoopInv(slots: Slots, root: Node, s: Search, ids: seq<Node>, goals: seq<Goal>) {
    && BfsInv(LoadGraph(slots), root, s)
    && Order(slots, root, ids, goals, s)
    && (s.dist == map[] ==> s == Start(root) && Load(slots, root).Found?)
    && s.dist.Keys <= Universe(LoadGraph(slots), root)
    && forall q :: q in s.queue ==> q in Universe(LoadGraph(slots), root)
  }

  /** The loop invariant: some search mirrors the local variables. */
  ghost predicate Searching(slots: Slots, root: Node, queue: seq<Node>, index: nat, visited: set<Node>, ids: seq<Node>,
      goals: seq<Goal>) {
    exists s :: Mirrors(s, queue, index, visited) && LoopInv(slots, root, s, ids, goals)
  }

  lemma Begin(slots: Slots, root: Node)
    requires Load(slots, root).Found?
    ensures Searching(slots, root, [root], 0, {}, [], [])
  {
    StartInv(LoadGraph(slots), root);
    assert Mirrors(Start(root), [root], 0, {});
    assert LoopInv(slots, root, Start(root), [], []);
  }

  lemma VisitUniverse(g: Graph, root: Node, s: Search)
    requires s.index < |s.queue| == |s.level|
    requires forall q :: q in s.queue ==> q in Universe(g, root)
    ensures forall q :: q in Visit(g, s).queue ==> q in Universe(g, root)
  {
    var x := s.queue[s.index];
    forall q | q in Visit(g, s).queue ensures q in Universe(g, root) {
      if q !in s.queue {
        assert q in Unvisited(Kids(g, x), s.dist.Keys + {x});
      }
    }
  }

  lemma VisitLoop(slots: Slots, root: Node, s: Search, ids: seq<Node>, goals: seq<Goal>)
    requires LoopInv(slots, root, s, ids, goals) && s.index < |s.queue| && s.queue[s.index] !in s.dist
    ensures var x := s.queue[s.index]; var t := Visit(LoadGraph(slots), s);
      match Load(slots, x)
      case Found(goal) => LoopInv(slots, root, t, ids + [x], goals + [goal])
      case Missing => LoopInv(slots, root, t, ids, goals)
      case Unparsable => true
  {
    if Load(slots, s.queue[s.index]) != Unparsable {
      VisitKeepsInv(LoadGraph(slots), root, s);
      OrderVisit(slots, root, ids, goals, s);
      VisitUniverse(LoadGraph(slots), root, s);
    }
  }

  lemma VisitMirrors(slots: Slots, s: Search, queue: seq<Node>, index: nat, visited: set<Node>)
    requires Mirrors(s, queue, index, visited) && index < |queue| == |s.level|
    ensures var x := queue[index]; var t := Visit(LoadGraph(slots), s);
      match Load(slots, x)
      case Found(goal) => Mirrors(t, queue + Unvisited(goal.children, visited + {x}), index + 1, visited + {x})
      case Missing => Mirrors(t, queue, index + 1, visited + {x})
      case Unparsable => true
  {
    assert Unvisited([], visited + {queue[index]}) == [];
    assert queue + [] == queue;
  }

  lemma VisitStep(slots: Slots, root: Node, queue: seq<Node>, index: nat, visited: set<Node>, ids: seq<Node>,
      goals: seq<Goal>)
    requires Searching(slots, root, queue, index, visited, ids, goals) && index < |queue| && queue[index] !in visited
    ensures queue[index] in Universe(LoadGraph(slots), root)
    ensures Reach(LoadGraph(slots), root, queue[index])
    ensures var x := queue[index];
      match Load(slots, x)
      case Found(goal) =>
        Searching(slots, root, queue + Unvisited(goal.children, visited + {x}), index + 1, visited + {x}, ids + [x],
          goals + [goal])
      case Missing => Searching(slots, root, queue, index + 1, visited + {x}, ids, goals)
      case Unparsable => true
  {
    var s :| Mirrors(s, queue, index, visited) && LoopInv(slots, root, s, ids, goals);
    HeadDistance(LoadGraph(slots), root, s);
    VisitLoop(slots, root, s, ids, goals);
    VisitMirrors(slots, s, queue, index, visited);
  }

  lemma SkipStep(slots: Slots, root: Node, queue: seq<Node>, index: nat, visited: set<Node>, ids: seq<Node>,
      goals: seq<Goal>)
    requires Searching(slots, root, queue, index, visited, ids, goals) && index < |queue| && queue[index] in visited
    ensures Searching(slots, root, queue, index + 1, visited, ids, goals)
  {
    var s :| Mirrors(s, queue, index, visited) && LoopInv(slots, root, s, ids, goals);
    SkipKeepsInv(LoadGraph(slots), root, s);
    assert Mirrors(Skip(s), queue, index + 1, visited) && LoopInv(slots, root, Skip(s), ids, goals);
  }

  lemma ListedExactly(slots: Slots, root: Node, ids: seq<Node>, goals: seq<Goal>, s: Search)
    requires Loads(slots, ids, goals) && VisitedInOrder(ids, s) && LoadableListed(slots, ids, s)
    requires forall n :: n in s.dist <==> Reach(LoadGraph(slots), root, n)
    ensures forall n :: n in ids <==> n in LoadGraph(slots) && Reach(LoadGraph(slots), root, n)
    ensures !UnparsableReachable(slots, root)
  {
    forall n ensures n in ids <==> n in LoadGraph(slots) && Reach(LoadGraph(slots), root, n) {
      if n in ids {
        var i :| 0 <= i < |ids| && ids[i] == n;
        assert Load(slots, ids[i]).Found?;
      }
    }
  }

  lemma Finish(slots: Slots, root: Node, queue: seq<Node>, visited: set<Node>, ids: seq<Node>, goals: seq<Goal>)
    requires Searching(slots, root, queue, |queue|, visited, ids, goals)
    ensures IsSubtree(slots, root, ids, goals)
    ensures !UnparsableReachable(slots, root)
  {
    var s :| Mirrors(s, queue, |queue|, visited) && LoopInv(slots, root, s, ids, goals);
    VisitedAll(LoadGraph(slots), root, s);
    ListedExactly(slots, root, ids, goals, s);
    OrderedByDistance(LoadGraph(slots), root, ids, s);
    assert root in s.dist by { ReachSelf(LoadGraph(slots), root); }
  }

  // ----- The same, said of the documents on disk -----

  /** n loads as a goal that lists c. */
  ghost function ChildLinks(slots: Slots): (GoalId, GoalId) -> bool {
    (n, c) => n in slots && exists goal :: LoadsBy(slots[n], GoalObject(goal)) && c in goal.children
  }

  lemma GraphHasChildLinks(slots: Slots)
    ensures HasLinks(LoadGraph(slots), ChildLinks(slots))
  {
    forall n, c ensures c in Kids(LoadGraph(slots), n) <==> ChildLinks(slots)(n, c) {
      if n in slots {
        forall goal ensures LoadGoal(slots[n]) == Found(goal) <==> LoadsBy(slots[n], GoalObject(goal)) {
          LoadedIffDocument(slots[n], goal);
        }
        assert LoadGoal(slots[n]).Found? ==> LoadsBy(slots[n], GoalObject(LoadGoal(slots[n]).goal));
      }
    }
  }

  /**
   * The ids are exactly those linked from the root under which a goal loads, and the goals are what loads under them;
   * a goal that is listed is not farther from the root than the ones after it, counted in links.
   */
  ghost predicate CollectedFrom(slots: Slots, root: GoalId, ids: seq<GoalId>, goals: seq<Goal>) {
    && |ids| == |goals| && ids != [] && ids[0] == root
    && (forall i :: 0 <= i < |ids| ==> ids[i] in slots && LoadsBy(slots[ids[i]], GoalObject(goals[i])))
    && (forall i, j :: 0 <= i < j < |ids| ==> ids[i] != ids[j])
    && (forall n, goal :: n in slots && Linked(ChildLinks(slots), root, n) && LoadsBy(slots[n], GoalObject(goal)) ==>
          n in ids)
    && (forall n :: n in ids ==> Linked(ChildLinks(slots), root, n))
    && forall i, j :: 0 <= i < j < |ids| ==> NotFarther(slots, root, ids[i], ids[j])
  }

  ghost predicate ChainTo(slots: Slots, a: GoalId, b: GoalId, w: seq<GoalId>) {
    Chain(ChildLinks(slots), w) && w[0] == a && w[|w| - 1] == b
  }

  /** Whatever chain leads to n, one that is not longer leads to m. */
  ghost predicate NotFarther(slots: Slots, root: GoalId, m: GoalId, n: GoalId) {
    forall w :: ChainTo(slots, root, n, w) ==> exists v :: ChainTo(slots, root, m, v) && |v| <= |w|
  }

  /** A shortest walk along a walk. */
  lemma {:induction false} ShortestExists(g: Graph, a: Node, b: Node, w: seq<Node>) returns (d: nat)
    requires WalkFromTo(g, w, a, b)
    ensures IsDistance(g, a, b, d) && d + 1 <= |w|
    decreases |w|
  {
    if v :| WalkFromTo(g, v, a, b) && |v| < |w| {
      d := ShortestExists(g, a, b, v);
    } else {
      d := |w| - 1;
    }
  }

  lemma NearerFirst(slots: Slots, root: GoalId, ids: seq<GoalId>, i: nat, j: nat, w: seq<GoalId>)
    requires i < j < |ids| && InDistanceOrder(LoadGraph(slots), root, ids)
    requires Reach(LoadGraph(slots), root, ids[i]) && ChainTo(slots, root, ids[j], w)
    ensures exists v :: ChainTo(slots, root, ids[i], v) && |v| <= |w|
  {
    var graph, links := LoadGraph(slots), ChildLinks(slots);
    GraphHasChildLinks(slots);
    WalkIffChain(graph, links, w);
    var u :| WalkFromTo(graph, u, root, ids[i]);
    var e := ShortestExists(graph, root, ids[j], w);
    var d := ShortestExists(graph, root, ids[i], u);
    assert d <= e;
    var v :| WalkFromTo(graph, v, root, ids[i]) && |v| == d + 1;
    WalkIffChain(graph, links, v);
    assert ChainTo(slots, root, ids[i], v);
  }

  lemma ListedLinked(slots: Slots, root: GoalId, ids: seq<GoalId>, goals: seq<Goal>, n: GoalId, goal: Goal)
    requires IsSubtree(slots, root, ids, goals)
    ensures n in ids ==> Linked(ChildLinks(slots), root, n)
    ensures n in slots && Linked(ChildLinks(slots), root, n) && LoadsBy(slots[n], GoalObject(goal)) ==> n in ids
  {
    GraphHasChildLinks(slots);
    LinkedIffReach(LoadGraph(slots), ChildLinks(slots), root, n);
    if n in slots {
      LoadedIffDocument(slots[n], goal);
    }
  }

  lemma ListedLoads(slots: Slots, ids: seq<GoalId>, goals: seq<Goal>, i: nat)
    requires Loads(slots, ids, goals) && i < |ids|
    ensures |goals| == |ids| && ids[i] in slots && LoadsBy(slots[ids[i]], GoalObject(goals[i]))
  {
    assert Load(slots, ids[i]).Found?;
    LoadedIffDocument(slots[ids[i]], goals[i]);
  }

  lemma SubtreeIsCollected(slots: Slots, root: GoalId, ids: seq<GoalId>, goals: seq<Goal>)
    requires IsSubtree(slots, root, ids, goals)
    ensures CollectedFrom(slots, root, ids, goals)
  {
    forall i | 0 <= i < |ids| ensures ids[i] in slots && LoadsBy(slots[ids[i]], GoalObject(goals[i])) {
      ListedLoads(slots, ids, goals, i);
    }
    forall n, goal
      ensures n in ids ==> Linked(ChildLinks(slots), root, n)
      ensures n in slots && Linked(ChildLinks(slots), root, n) && LoadsBy(slots[n], GoalObject(goal)) ==> n in ids
    {
      ListedLinked(slots, root, ids, goals, n, goal);
    }
    forall i, j | 0 <= i < j < |ids| ensures NotFarther(slots, root, ids[i], ids[j]) {
      assert ids[i] in ids;
      forall w | ChainTo(slots, root, ids[j], w) ensures exists v :: ChainTo(slots, root, ids[i], v) && |v| <= |w| {
        NearerFirst(slots, root, ids, i, j, w);
      }
    }
  }

  /** A goal linked from the root has a document that parses and is no goal. */
  ghost predicate UnparsableLinked(slots: Slots, root: GoalId) {
    exists n :: n in slots && Linked(ChildLinks(slots), root, n) &&
      exists doc :: LoadsBy(slots[n], doc) && !doc.GoalObject?
  }

  lemma UnparsableIffLinked(slots: Slots, root: GoalId)
    ensures UnparsableReachable(slots, root) <==> UnparsableLinked(slots, root)
    ensures Load(slots, root) == Missing <==> root !in slots || forall doc :: !LoadsBy(slots[root], doc)
  {
    GraphHasChildLinks(slots);
    forall n ensures Linked(ChildLinks(slots), root, n) <==> Reach(LoadGraph(slots), root, n) {
      LinkedIffReach(LoadGraph(slots), ChildLinks(slots), root, n);
    }
    forall n | n in slots
      ensures LoadGoal(slots[n]) == Unparsable <==> exists doc :: LoadsBy(slots[n], doc) && !doc.GoalObject?
      ensures LoadGoal(slots[n]) == Missing <==> forall doc :: !LoadsBy(slots[n], doc)
    {
      LoadedIffDocument(slots[n], Goal("", [], false, 0, 0));
    }
  }

  /** ids are those of the collected goals; the search throws when it meets a document that does not parse. */
  method BfsCollect(slots: Slots, rootId: GoalId) returns (r: Subtree, ids: seq<GoalId>)
    ensures r == NoRoot <==> Load(slots, rootId) == Missing
    ensures r == ParseError <==> UnparsableReachable(slots, rootId)
    ensures r.Collected? ==> IsSubtree(slots, rootId, ids, r.goals)
    ensures r == NoRoot <==> rootId !in slots || forall doc :: !LoadsBy(slots[rootId], doc)
    ensures r == ParseError <==> UnparsableLinked(slots, rootId)
    ensures r.Collected? ==> CollectedFrom(slots, rootId, ids, r.goals)
  {
    UnparsableIffLinked(slots, rootId);
    ids := [];
    var root := Load(slots, rootId);
    if !root.Found? {
      RootOnly(LoadGraph(slots), rootId);
      ReachSelf(LoadGraph(slots), rootId);
      return if root == Missing then NoRoot else ParseError, ids;
    }
    var goals: seq<Goal> := [];
    var queue: seq<GoalId> := [rootId];
    var visited: set<GoalId> := {};
    var index := 0;
    Begin(slots, rootId);
    while index < |queue|
      invariant index <= |queue| && Searching(slots, rootId, queue, index, visited, ids, goals)
      decreases Universe(LoadGraph(slots), rootId) - visited, |queue| - index
    {
      var currentId := queue[index];
      if currentId in visited {
        SkipStep(slots, rootId, queue, index, visited, ids, goals);
        index := index + 1;
        continue;
      }
      VisitStep(slots, rootId, queue, index, visited, ids, goals);
      var loaded := Load(slots, currentId);
      if loaded == Unparsable {
        return ParseError, ids;
      }
      visited := visited + {currentId};
      if loaded.Found? {
        goals, ids := goals + [loaded.goal], ids + [currentId];
        queue := Enqueue(queue, loaded.goal.children, visited);
      }
      index := index + 1;
    }
    Finish(slots, rootId, queue, visited, ids, goals);
    SubtreeIsCollected(slots, rootId, ids, goals);
    r := Collected(goals);
  }

  method Enqueue(queue: seq<GoalId>, children: seq<GoalId>, visited: set<GoalId>) returns (r: seq<GoalId>)
    ensures r == queue + Unvisited(children, visited)
  {
    r := queue;
    for i := 0 to |children|
      invariant r == queue + UnvisitedFirst(children, i, visited)
    {
      if children[i] !in visited {
        r := r + [children[i]];
      }
    }
  }

  lemma RootOnly(g: Graph, root: Node)
    requires root !in g
    ensures forall n :: Reach(g, root, n) ==> n == root
  {
    forall n | Reach(g, root, n) ensures n == root {
      if n != root {
        ReachSplit(g, root, n);
      }
    }
  }

  lemma OrderedByDistance(g: Graph, root: Node, ids: seq<Node>, s: Search)
    requires DistancesRight(g, root, s) && VisitedInOrder(ids, s)
    ensures InDistanceOrder(g, root, ids)
  {
    forall u, d: nat | u in s.dist && IsDistance(g, root, u, d) ensures d == s.dist[u] {
      var w :| WalkFromTo(g, w, root, u) && |w| == d + 1;
      var v :| WalkFromTo(g, v, root, u) && |v| == s.dist[u] + 1;
    }
  }
}
