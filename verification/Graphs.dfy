/** Walks and reachability in the graph of child links. */
module Graphs {
  type Node = string
  type Graph = map<Node, seq<Node>>

  function Kids(g: Graph, n: Node): seq<Node> {
    if n in g then g[n] else []
  }

  ghost predicate Walk(g: Graph, w: seq<Node>) {
    w != [] && forall i :: 0 <= i < |w| - 1 ==> w[i + 1] in Kids(g, w[i])
  }

  ghost predicate WalkFromTo(g: Graph, w: seq<Node>, a: Node, b: Node) {
    Walk(g, w) && w[0] == a && w[|w| - 1] == b
  }

  ghost predicate Reach(g: Graph, a: Node, b: Node) {
    exists w :: WalkFromTo(g, w, a, b)
  }

  lemma WalkCons(g: Graph, a: Node, w: seq<Node>)
    requires Walk(g, w) && w[0] in Kids(g, a)
    ensures Walk(g, [a] + w)
  {
    var v := [a] + w;
    forall i | 0 <= i < |v| - 1 ensures v[i + 1] in Kids(g, v[i]) {
      assert i > 0 ==> v[i] == w[i - 1] && v[i + 1] == w[i];
    }
  }

  lemma WalkSnoc(g: Graph, w: seq<Node>, b: Node)
    requires Walk(g, w) && b in Kids(g, w[|w| - 1])
    ensures Walk(g, w + [b])
  {
  }

  lemma WalkTail(g: Graph, w: seq<Node>)
    requires Walk(g, w) && |w| > 1
    ensures Walk(g, w[1..]) && w[1] in Kids(g, w[0])
  {
    forall i | 0 <= i < |w[1..]| - 1 ensures w[1..][i + 1] in Kids(g, w[1..][i]) {
      assert w[i + 2] in Kids(g, w[i + 1]);
    }
  }

  lemma ReachSelf(g: Graph, a: Node)
    ensures Reach(g, a, a)
  {
    assert WalkFromTo(g, [a], a, a);
  }

  lemma ReachVia(g: Graph, a: Node, c: Node, b: Node)
    requires c in Kids(g, a) && Reach(g, c, b)
    ensures Reach(g, a, b)
  {
    var w :| WalkFromTo(g, w, c, b);
    WalkCons(g, a, w);
    assert WalkFromTo(g, [a] + w, a, b);
  }

  lemma ReachThen(g: Graph, a: Node, b: Node, c: Node)
    requires Reach(g, a, b) && c in Kids(g, b)
    ensures Reach(g, a, c)
  {
    var w :| WalkFromTo(g, w, a, b);
    WalkSnoc(g, w, c);
    assert WalkFromTo(g, w + [c], a, c);
  }

  lemma ReachTrans(g: Graph, a: Node, b: Node, c: Node)
    requires Reach(g, a, b) && Reach(g, b, c)
    ensures Reach(g, a, c)
  {
    var w :| WalkFromTo(g, w, a, b);
    WalkOn(g, w, c);
  }

  lemma WalkOn(g: Graph, w: seq<Node>, c: Node)
    requires Walk(g, w) && Reach(g, w[|w| - 1], c)
    ensures Reach(g, w[0], c)
  {
    if |w| > 1 {
      var n := |w| - 1;
      assert Walk(g, w[..n]);
      assert w[n - 1 + 1] in Kids(g, w[n - 1]);
      ReachVia(g, w[n - 1], w[n], c);
      WalkOn(g, w[..n], c);
    }
  }

  /** Whatever is reachable is the start or reachable from one of its children. */
  lemma ReachSplit(g: Graph, a: Node, b: Node)
    requires Reach(g, a, b) && a != b
    ensures exists c :: c in Kids(g, a) && Reach(g, c, b)
  {
    var w :| WalkFromTo(g, w, a, b);
    WalkTail(g, w);
    assert WalkFromTo(g, w[1..], w[1], b);
  }

  ghost predicate Closed(g: Graph, s: set<Node>) {
    forall a, c :: a in s && c in Kids(g, a) ==> c in s
  }

  lemma ClosedHoldsWalk(g: Graph, s: set<Node>, w: seq<Node>, i: nat)
    requires Closed(g, s) && Walk(g, w) && w[0] in s && i < |w|
    ensures w[i] in s
  {
    if i > 0 {
      ClosedHoldsWalk(g, s, w, i - 1);
      assert w[i - 1 + 1] in Kids(g, w[i - 1]);
    }
  }

  /** A closed set holds everything reachable from its members. */
  lemma ClosedHoldsReach(g: Graph, s: set<Node>, a: Node, b: Node)
    requires Closed(g, s) && a in s && Reach(g, a, b)
    ensures b in s
  {
    var w :| WalkFromTo(g, w, a, b);
    ClosedHoldsWalk(g, s, w, |w| - 1);
  }

  /** A walk from a that ends in a node it has been at, or in one of the nodes of held. */
  ghost predicate BadWalk(g: Graph, a: Node, held: set<Node>, w: seq<Node>) {
    Walk(g, w) && w[0] == a && (w[|w| - 1] in held || w[|w| - 1] in w[..|w| - 1])
  }

  ghost predicate CycleReachable(g: Graph, a: Node) {
    exists w :: BadWalk(g, a, {}, w)
  }

  lemma BadWalkCons(g: Graph, a: Node, held: set<Node>, w: seq<Node>)
    requires w != [] && w[0] in Kids(g, a) && BadWalk(g, w[0], held + {a}, w)
    ensures BadWalk(g, a, held, [a] + w)
  {
    WalkCons(g, a, w);
    var v := [a] + w;
    assert v[..|v| - 1] == [a] + w[..|w| - 1];
  }

  lemma BadWalkTail(g: Graph, a: Node, held: set<Node>, w: seq<Node>)
    requires BadWalk(g, a, held, w) && |w| > 1
    ensures w[1] in Kids(g, a) && BadWalk(g, w[1], held + {a}, w[1..])
  {
    WalkTail(g, w);
    assert w[..|w| - 1] == [a] + w[1..][..|w[1..]| - 1];
  }

  // ----- Links that are given as a relation -----

  ghost predicate Chain(links: (Node, Node) -> bool, w: seq<Node>) {
    w != [] && forall i :: 0 <= i < |w| - 1 ==> links(w[i], w[i + 1])
  }

  /** b comes after a along the links. */
  ghost predicate Linked(links: (Node, Node) -> bool, a: Node, b: Node) {
    exists w :: Chain(links, w) && w[0] == a && w[|w| - 1] == b
  }

  /** The graph has exactly these links. */
  ghost predicate HasLinks(g: Graph, links: (Node, Node) -> bool) {
    forall n, c :: c in Kids(g, n) <==> links(n, c)
  }

  lemma WalkIffChain(g: Graph, links: (Node, Node) -> bool, w: seq<Node>)
    requires HasLinks(g, links)
    ensures Walk(g, w) <==> Chain(links, w)
  {
    forall i | 0 <= i < |w| - 1 ensures w[i + 1] in Kids(g, w[i]) <==> links(w[i], w[i + 1]) {
    }
  }

  lemma LinkedIffReach(g: Graph, links: (Node, Node) -> bool, a: Node, b: Node)
    requires HasLinks(g, links)
    ensures Linked(links, a, b) <==> Reach(g, a, b)
  {
    if w :| Chain(links, w) && w[0] == a && w[|w| - 1] == b {
      WalkIffChain(g, links, w);
      assert WalkFromTo(g, w, a, b);
    }
    if w :| WalkFromTo(g, w, a, b) {
      WalkIffChain(g, links, w);
      assert Chain(links, w);
    }
  }

  /** What is linked is closed under links. */
  lemma LinkedOn(links: (Node, Node) -> bool, a: Node, b: Node, c: Node)
    requires Linked(links, a, b) && links(b, c)
    ensures Linked(links, a, c)
  {
    var w :| Chain(links, w) && w[0] == a && w[|w| - 1] == b;
    assert Chain(links, w + [c]) && (w + [c])[|w|] == c;
  }
}
