/** Directed graphs given as adjacency lists over 0..|g|, and reachability by paths. */
module Graphs {

  type Graph = seq<seq<nat>>

  ghost predicate InRange(g: Graph) {
    forall v, d :: 0 <= v < |g| && d in g[v] ==> d < |g|
  }

  ghost predicate IsPath(g: Graph, p: seq<nat>) {
    && |p| > 0
    && (forall i :: 0 <= i < |p| ==> p[i] < |g|)
    && (forall i :: 0 <= i < |p| - 1 ==> p[i + 1] in g[p[i]])
  }

  ghost predicate PathFromTo(g: Graph, p: seq<nat>, a: nat, b: nat) {
    IsPath(g, p) && p[0] == a && p[|p| - 1] == b
  }

  ghost predicate Reach(g: Graph, a: nat, b: nat) {
    exists p :: PathFromTo(g, p, a, b)
  }

  ghost predicate Mutual(g: Graph, a: nat, b: nat) {
    Reach(g, a, b) && Reach(g, b, a)
  }

  ghost predicate Closed(g: Graph, s: set<nat>) {
    forall v, d :: v in s && v < |g| && d in g[v] ==> d in s
  }

  lemma ReachSelf(g: Graph, a: nat)
    requires a < |g|
    ensures Reach(g, a, a)
  {
    assert PathFromTo(g, [a], a, a);
  }

  lemma ReachEdge(g: Graph, a: nat, b: nat)
    requires InRange(g) && a < |g| && b in g[a]
    ensures Reach(g, a, b)
  {
    assert PathFromTo(g, [a, b], a, b);
  }

  lemma ReachTransitive(g: Graph, a: nat, b: nat, c: nat)
    requires Reach(g, a, b) && Reach(g, b, c)
    ensures Reach(g, a, c)
  {
    var p :| PathFromTo(g, p, a, b);
    var q :| PathFromTo(g, q, b, c);
    var r := p + q[1..];
    forall i | 0 <= i < |r| - 1
      ensures r[i + 1] in g[r[i]]
    {
      if i >= |p| - 1 {
        assert r[i] == q[i - (|p| - 1)] && r[i + 1] == q[i + 1 - (|p| - 1)];
      }
    }
    assert PathFromTo(g, r, a, c);
  }

  /** A set that no edge leaves contains everything reachable from its members. */
  lemma ClosedContainsReachable(g: Graph, s: set<nat>, a: nat, b: nat)
    requires Closed(g, s) && a in s && Reach(g, a, b)
    ensures b in s
  {
    var p :| PathFromTo(g, p, a, b);
    var i := 0;
    while i < |p| - 1
      invariant 0 <= i < |p| && p[i] in s
    {
      i := i + 1;
    }
  }
}
