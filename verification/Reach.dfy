/** Reachability over content-addressed objects. */
module Reach {
  /** An object id as its bytes. */
  type Node = string

  /** Each object held, with the ids it names. */
  type Graph = map<Node, seq<Node>>

  /** One edge. */
  predicate Edge(h: Graph, x: Node, y: Node) { x in h && y in h[x] }

  /** A chain of edges. */
  predicate Chain(h: Graph, p: seq<Node>) {
    |p| > 0 && forall i :: 0 <= i < |p| - 1 ==> Edge(h, p[i], p[i + 1])
  }

  ghost predicate ChainTo(h: Graph, a: Node, x: Node, p: seq<Node>) {
    Chain(h, p) && p[0] == a && p[|p| - 1] == x
  }

  /** `x` is `a` or lies on from it. */
  ghost predicate Reaches(h: Graph, a: Node, x: Node) { exists p :: ChainTo(h, a, x, p) }

  /** `x` lies on from `a` through at least one edge. */
  ghost predicate ReachesOn(h: Graph, a: Node, x: Node) { exists p :: ChainTo(h, a, x, p) && |p| > 1 }

  /** What content addressing guarantees: no object leads back to itself. */
  ghost predicate Acyclic(h: Graph) { forall x :: !ReachesOn(h, x, x) }

  lemma ReachesSelf(h: Graph, a: Node)
    ensures Reaches(h, a, a)
  {
    assert ChainTo(h, a, a, [a]);
  }

  lemma JoinChains(h: Graph, a: Node, b: Node, c: Node, p: seq<Node>, q: seq<Node>)
    requires ChainTo(h, a, b, p) && ChainTo(h, b, c, q)
    ensures ChainTo(h, a, c, p + q[1..])
  {
    var r := p + q[1..];
    forall i | 0 <= i < |r| - 1 ensures Edge(h, r[i], r[i + 1]) {
      if i >= |p| - 1 {
        assert r[i] == q[i - (|p| - 1)] && r[i + 1] == q[i - (|p| - 1) + 1];
      }
    }
  }

  lemma ReachesTransitive(h: Graph, a: Node, b: Node, c: Node)
    requires Reaches(h, a, b) && Reaches(h, b, c)
    ensures Reaches(h, a, c)
    ensures ReachesOn(h, a, b) || ReachesOn(h, b, c) ==> ReachesOn(h, a, c)
  {
    var p :| ChainTo(h, a, b, p) && (ReachesOn(h, a, b) ==> |p| > 1);
    var q :| ChainTo(h, b, c, q) && (ReachesOn(h, b, c) ==> |q| > 1);
    JoinChains(h, a, b, c, p, q);
  }

  lemma OnOrSelf(h: Graph, a: Node, x: Node)
    ensures Reaches(h, a, x) <==> a == x || ReachesOn(h, a, x)
  {
    ReachesSelf(h, a);
    if Reaches(h, a, x) {
      var p :| ChainTo(h, a, x, p);
      assert |p| > 1 || a == x;
    }
  }

  lemma OneEdge(h: Graph, a: Node, b: Node)
    requires Edge(h, a, b)
    ensures ReachesOn(h, a, b) && Reaches(h, a, b)
  {
    assert ChainTo(h, a, b, [a, b]);
  }

  /** A set closed under edges holds everything reached from its members. */
  lemma {:induction false} ClosedHoldsChain(h: Graph, s: set<Node>, p: seq<Node>)
    requires Chain(h, p) && p[0] in s
    requires forall x, y :: x in s && Edge(h, x, y) ==> y in s
    ensures p[|p| - 1] in s
  {
    if |p| > 1 {
      assert Edge(h, p[0], p[0 + 1]);
      forall i | 0 <= i < |p[1..]| - 1 ensures Edge(h, p[1..][i], p[1..][i + 1]) {
        assert Edge(h, p[i + 1], p[i + 1 + 1]);
      }
      ClosedHoldsChain(h, s, p[1..]);
    }
  }

  lemma ClosedHoldsReached(h: Graph, s: set<Node>, a: Node, x: Node)
    requires a in s && Reaches(h, a, x)
    requires forall y, z :: y in s && Edge(h, y, z) ==> z in s
    ensures x in s
  {
    var p :| ChainTo(h, a, x, p);
    ClosedHoldsChain(h, s, p);
  }

  /** What lies on from a node lies on from one of its successors, or is one. */
  lemma FirstEdge(h: Graph, a: Node, x: Node) returns (b: Node)
    requires ReachesOn(h, a, x)
    ensures Edge(h, a, b) && Reaches(h, b, x)
  {
    var p :| ChainTo(h, a, x, p) && |p| > 1;
    b := p[1];
    assert Edge(h, p[0], p[0 + 1]);
    forall i | 0 <= i < |p[1..]| - 1 ensures Edge(h, p[1..][i], p[1..][i + 1]) {
      assert Edge(h, p[i + 1], p[i + 1 + 1]);
    }
    assert ChainTo(h, b, x, p[1..]);
  }
}
