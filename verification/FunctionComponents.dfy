/** The strongly connected components of the root functions' dependency graph. */
module FunctionComponents {
  import opened Graphs
  import opened Wrappers

  /** Discovery numbers: `None` until a vertex is visited. */
  type Index = seq<Option<nat>>

  ghost predicate Visited(index: Index, v: nat) {
    v < |index| && index[v].Some?
  }

  ghost function Num(index: Index, v: nat): nat
    requires Visited(index, v)
  {
    index[v].value
  }

  // ---- what is promised of the components ----

  ghost predicate StrictlySorted(s: seq<nat>) {
    forall i, j :: 0 <= i < j < |s| ==> s[i] < s[j]
  }

  /** A component is a whole mutual-reachability class, listed once in ascending order. */
  ghost predicate IsComponent(g: Graph, c: seq<nat>) {
    && |c| > 0
    && StrictlySorted(c)
    && (forall a :: a in c ==> a < |g|)
    && (forall a: nat, b: nat :: a in c && b < |g| ==> (b in c <==> Mutual(g, a, b)))
  }

  /** v belongs to one of the first n components. */
  ghost predicate CoveredBy(components: seq<seq<nat>>, n: nat, v: nat) {
    exists k :: 0 <= k < n && k < |components| && v in components[k]
  }

  ghost predicate Covered(components: seq<seq<nat>>, v: nat) {
    CoveredBy(components, |components|, v)
  }

  ghost predicate EdgesPointBack(g: Graph, components: seq<seq<nat>>) {
    forall k, v: nat, d: nat :: 0 <= k < |components| && v in components[k] && v < |g| && d in g[v] ==>
      CoveredBy(components, k + 1, d)
  }

  ghost predicate Disjoint(components: seq<seq<nat>>) {
    forall j, k, v: nat :: 0 <= j < k < |components| && v in components[j] ==> v !in components[k]
  }

  ghost predicate ComponentsOk(g: Graph, components: seq<seq<nat>>) {
    && (forall k :: 0 <= k < |components| ==> IsComponent(g, components[k]))
    && Disjoint(components)
    && EdgesPointBack(g, components)
  }

  /** The finished result: a dependency-first partition into components. */
  ghost predicate IsSchedule(g: Graph, components: seq<seq<nat>>) {
    && ComponentsOk(g, components)
    && (forall v: nat :: v < |g| ==> Covered(components, v))
  }

  // ---- the invariant of the search ----

  ghost predicate NumbersBelow(index: Index, next: nat) {
    forall v: nat :: Visited(index, v) ==> Num(index, v) < next
  }

  ghost predicate StackVisited(index: Index, stack: seq<nat>) {
    forall i :: 0 <= i < |stack| ==> Visited(index, stack[i])
  }

  ghost predicate StackAscends(index: Index, stack: seq<nat>)
    requires StackVisited(index, stack)
  {
    forall i, j :: 0 <= i < j < |stack| ==> Num(index, stack[i]) < Num(index, stack[j])
  }

  ghost predicate Flags(stack: seq<nat>, onStack: seq<bool>) {
    forall v: nat :: v < |onStack| ==> (onStack[v] <==> v in stack)
  }

  /** Every visited vertex is on the stack or already emitted, never both. */
  ghost predicate Placed(index: Index, stack: seq<nat>, components: seq<seq<nat>>) {
    && (forall v: nat :: Visited(index, v) ==> v in stack || Covered(components, v))
    && (forall v: nat :: Covered(components, v) ==> Visited(index, v) && v !in stack)
  }

  /** gray: the vertices whose visit is under way. They reach everything above them on the stack. */
  ghost predicate GrayReachesUp(g: Graph, index: Index, stack: seq<nat>, gray: set<nat>) {
    && (forall x :: x in gray ==> x in stack)
    && forall x: nat, y: nat ::
         x in gray && y in stack && Visited(index, x) && Visited(index, y) && Num(index, x) <= Num(index, y) ==>
           Reach(g, x, y)
  }

  ghost predicate ReachesGray(g: Graph, index: Index, gray: set<nat>, y: nat) {
    exists x: nat :: x in gray && Visited(index, x) && Visited(index, y) && Num(index, x) <= Num(index, y) && Reach(g, y, x)
  }

  ghost predicate StackReachesGray(g: Graph, index: Index, stack: seq<nat>, gray: set<nat>) {
    forall y :: y in stack ==> ReachesGray(g, index, gray, y)
  }

  /** A finished vertex has only visited dependencies. */
  ghost predicate BlackDone(g: Graph, index: Index, gray: set<nat>) {
    forall v: nat, d: nat :: Visited(index, v) && v < |g| && v !in gray && d in g[v] ==> Visited(index, d)
  }

  ghost predicate Inv(g: Graph, index: Index, next: nat, stack: seq<nat>, onStack: seq<bool>, components: seq<seq<nat>>, gray: set<nat>) {
    && InRange(g)
    && |index| == |onStack| == |g|
    && NumbersBelow(index, next)
    && StackVisited(index, stack) && StackAscends(index, stack) && Flags(stack, onStack)
    && Placed(index, stack, components)
    && GrayReachesUp(g, index, stack, gray)
    && StackReachesGray(g, index, stack, gray)
    && BlackDone(g, index, gray)
    && ComponentsOk(g, components)
  }

  // ---- discovering a vertex ----

  lemma DiscoverStack(index: Index, next: nat, stack: seq<nat>, v: nat)
    requires NumbersBelow(index, next) && StackVisited(index, stack) && StackAscends(index, stack)
    requires v < |index| && !Visited(index, v)
    ensures var index' := index[v := Some(next)];
            && StackVisited(index', stack + [v]) && StackAscends(index', stack + [v]) && NumbersBelow(index', next + 1)
  {
    var index' := index[v := Some(next)];
    assert forall w: nat :: Visited(index', w) && w != v ==> Visited(index, w) && Num(index', w) == Num(index, w);
  }

  lemma DiscoverFlags(stack: seq<nat>, onStack: seq<bool>, v: nat)
    requires Flags(stack, onStack) && v < |onStack|
    ensures Flags(stack + [v], onStack[v := true])
  {
    assert forall w: nat :: w in stack + [v] <==> w in stack || w == v;
  }

  lemma DiscoverBlack(g: Graph, index: Index, gray: set<nat>, v: nat, n: nat)
    requires BlackDone(g, index, gray) && v < |index| && !Visited(index, v)
    ensures BlackDone(g, index[v := Some(n)], gray + {v})
  {
    var index' := index[v := Some(n)];
    assert forall w: nat :: Visited(index', w) && w != v ==> Visited(index, w);
    assert forall w: nat :: Visited(index, w) ==> Visited(index', w);
  }

  lemma DiscoverPlaced(index: Index, stack: seq<nat>, components: seq<seq<nat>>, v: nat, n: nat)
    requires Placed(index, stack, components)
    requires v < |index| && !Visited(index, v)
    ensures Placed(index[v := Some(n)], stack + [v], components)
  {
    var index' := index[v := Some(n)];
    assert forall w: nat :: Visited(index', w) <==> Visited(index, w) || w == v;
  }

  lemma DiscoverGrayReachesUp(g: Graph, index: Index, next: nat, stack: seq<nat>, gray: set<nat>, v: nat)
    requires GrayReachesUp(g, index, stack, gray) && StackVisited(index, stack) && NumbersBelow(index, next)
    requires v < |index| == |g| && !Visited(index, v)
    requires forall x :: x in gray ==> Reach(g, x, v)
    ensures GrayReachesUp(g, index[v := Some(next)], stack + [v], gray + {v})
  {
    ReachSelf(g, v);
  }

  lemma DiscoverReachesGray(g: Graph, index: Index, stack: seq<nat>, gray: set<nat>, v: nat, n: nat)
    requires StackReachesGray(g, index, stack, gray)
    requires v < |index| == |g| && !Visited(index, v)
    ensures StackReachesGray(g, index[v := Some(n)], stack + [v], gray + {v})
  {
    var index' := index[v := Some(n)];
    ReachSelf(g, v);
    forall y | y in stack + [v]
      ensures ReachesGray(g, index', gray + {v}, y)
    {
      if y == v {
        assert v in gray + {v};
      } else {
        var x: nat :| x in gray && Visited(index, x) && Visited(index, y) && Num(index, x) <= Num(index, y) && Reach(g, y, x);
        assert x in gray + {v};
      }
    }
  }

  lemma DiscoverKeepsInv(g: Graph, index: Index, next: nat, stack: seq<nat>, onStack: seq<bool>, components: seq<seq<nat>>, gray: set<nat>, v: nat)
    requires Inv(g, index, next, stack, onStack, components, gray)
    requires v < |g| && !Visited(index, v)
    requires forall x :: x in gray ==> Reach(g, x, v)
    ensures Inv(g, index[v := Some(next)], next + 1, stack + [v], onStack[v := true], components, gray + {v})
  {
    hide NumbersBelow, StackVisited, StackAscends, Flags, Placed, GrayReachesUp, StackReachesGray, BlackDone, ComponentsOk, InRange;
    DiscoverStack(index, next, stack, v);
    DiscoverFlags(stack, onStack, v);
    DiscoverBlack(g, index, gray, v, next);
    DiscoverPlaced(index, stack, components, v, next);
    DiscoverGrayReachesUp(g, index, next, stack, gray, v);
    DiscoverReachesGray(g, index, stack, gray, v, next);
  }

  // ---- what a visit promises ----

  /** A snapshot of everything the search object stores. */
  datatype Search = Search(index: Index, low: seq<nat>, next: nat, stack: seq<nat>, onStack: seq<bool>, components: seq<seq<nat>>)

  ghost predicate SearchInv(g: Graph, s: Search, gray: set<nat>) {
    && Inv(g, s.index, s.next, s.stack, s.onStack, s.components, gray)
    && |s.low| == |g|
  }

  /** What a visit keeps of the state it started from. */
  ghost predicate Extends(s: Search, t: Search) {
    && |s.index| == |s.low| == |t.index| == |t.low|
    && s.stack <= t.stack && s.components <= t.components && s.next <= t.next
    && (forall v: nat :: Visited(s.index, v) ==> t.index[v] == s.index[v] && t.low[v] == s.low[v])
    && (forall v: nat :: Visited(t.index, v) && !Visited(s.index, v) ==> s.next <= Num(t.index, v))
  }

  /** The lowlink of v is the number of some stack vertex that v reaches. */
  ghost predicate LowWitness(g: Graph, index: Index, low: nat, stack: seq<nat>, v: nat) {
    exists w: nat :: w in stack && Visited(index, w) && Num(index, w) == low && Reach(g, v, w)
  }

  /** Edges from stack positions `from` and up into `below` lead to numbers of at least `low`. */
  ghost predicate LowBounds(g: Graph, index: Index, low: nat, stack: seq<nat>, below: seq<nat>, from: nat) {
    forall i, d: nat :: from <= i < |stack| && stack[i] < |g| && d in g[stack[i]] && d in below && Visited(index, d) ==>
      low <= Num(index, d)
  }

  /** A visit to v took the search from s to t. */
  ghost predicate VisitDone(g: Graph, s: Search, t: Search, v: nat) {
    && Extends(s, t)
    && Visited(t.index, v)
    && t.low[v] <= Num(t.index, v)
    && (if v in t.stack then LowWitness(g, t.index, t.low[v], t.stack, v)
        else t.stack == s.stack && t.low[v] == Num(t.index, v) && s.next <= t.low[v])
    && LowBounds(g, t.index, t.low[v], t.stack, s.stack, |s.stack|)
  }

  /** A visit to v that began in s is in t and still following dependencies. */
  ghost predicate Visiting(g: Graph, s: Search, t: Search, v: nat) {
    && Extends(s, t)
    && s.stack + [v] <= t.stack
    && !Visited(s.index, v) && Visited(t.index, v) && Num(t.index, v) == s.next
    && t.low[v] <= s.next
    && LowWitness(g, t.index, t.low[v], t.stack, v)
    && LowBounds(g, t.index, t.low[v], t.stack, s.stack, |s.stack| + 1)
  }

  /** The first n dependencies of v have been followed. */
  ghost predicate Followed(g: Graph, index: Index, low: nat, below: seq<nat>, v: nat, n: nat) {
    v < |g| && forall j :: 0 <= j < n && j < |g[v]| ==>
      Visited(index, g[v][j]) && (g[v][j] in below ==> low <= Num(index, g[v][j]))
  }

  lemma ExtendsTransitive(s: Search, t: Search, u: Search)
    requires Extends(s, t) && Extends(t, u)
    ensures Extends(s, u)
  {
  }

  lemma LowWitnessKept(g: Graph, s: Search, t: Search, low: nat, v: nat)
    requires Extends(s, t) && LowWitness(g, s.index, low, s.stack, v)
    ensures LowWitness(g, t.index, low, t.stack, v)
  {
    hide Reach;
    var w: nat :| w in s.stack && Visited(s.index, w) && Num(s.index, w) == low && Reach(g, v, w);
    assert w in t.stack && Visited(t.index, w);
  }

  lemma LowWitnessThrough(g: Graph, index: Index, low: nat, stack: seq<nat>, v: nat, d: nat)
    requires InRange(g) && v < |g| && d in g[v] && LowWitness(g, index, low, stack, d)
    ensures LowWitness(g, index, low, stack, v)
  {
    hide Reach;
    var w: nat :| w in stack && Visited(index, w) && Num(index, w) == low && Reach(g, d, w);
    ReachEdge(g, v, d);
    ReachTransitive(g, v, d, w);
  }

  lemma LowBoundsJoined(g: Graph, s: Search, t: Search, u: Search, low: nat, v: nat, d: nat)
    requires Extends(s, t) && Extends(t, u) && s.stack + [v] <= t.stack && v < |t.low| && d < |u.low|
    requires LowBounds(g, t.index, t.low[v], t.stack, s.stack, |s.stack| + 1)
    requires LowBounds(g, u.index, u.low[d], u.stack, t.stack, |t.stack|)
    requires StackVisited(s.index, s.stack)
    requires low <= t.low[v] && low <= u.low[d]
    ensures LowBounds(g, u.index, low, u.stack, s.stack, |s.stack| + 1)
  {
    forall i, e: nat | |s.stack| + 1 <= i < |u.stack| && u.stack[i] < |g| && e in g[u.stack[i]] && e in s.stack && Visited(u.index, e)
      ensures low <= Num(u.index, e)
    {
      assert Visited(s.index, e);
      assert Visited(t.index, e) && t.index[e] == u.index[e];
      if i < |t.stack| {
        assert t.stack[i] == u.stack[i];
      } else {
        assert e in t.stack;
      }
    }
  }

  function Min(a: nat, b: nat): nat {
    if b < a then b else a
  }

  /** Returning from the visit of an unvisited dependency. */
  lemma FollowUnvisited(g: Graph, s: Search, t: Search, u: Search, v: nat, d: nat, low: seq<nat>)
    requires InRange(g) && v < |g| && d in g[v] && |t.low| == |g| && d < |g|
    requires StackVisited(s.index, s.stack)
    requires NumbersBelow(t.index, t.next) && !Visited(t.index, d)
    requires Visiting(g, s, t, v) && VisitDone(g, t, u, d)
    requires low == u.low[v := Min(u.low[v], u.low[d])]
    ensures Visiting(g, s, u.(low := low), v) && low[v] <= t.low[v]
  {
    hide Reach, InRange, LowWitness, LowBounds, StackVisited, NumbersBelow;
    ExtendsTransitive(s, t, u);
    assert low[v] <= t.low[v] && low[v] <= u.low[d];
    LowBoundsJoined(g, s, t, u, low[v], v, d);
    if d in u.stack {
      LowWitnessThrough(g, u.index, u.low[d], u.stack, v, d);
      LowWitnessKept(g, t, u, t.low[v], v);
    } else {
      assert Num(t.index, v) < t.next by { NumberBelow(t.index, t.next, v); }
      LowWitnessKept(g, t, u, t.low[v], v);
    }
  }

  lemma NumberBelow(index: Index, next: nat, v: nat)
    requires NumbersBelow(index, next) && Visited(index, v)
    ensures Num(index, v) < next
  {
  }

  /** Meeting a dependency that is on the stack. */
  lemma FollowOnStack(g: Graph, s: Search, t: Search, v: nat, d: nat, low: seq<nat>)
    requires InRange(g) && v < |g| && d in g[v] && |t.low| == |g|
    requires Visiting(g, s, t, v) && d in t.stack && Visited(t.index, d)
    requires low == t.low[v := Min(t.low[v], Num(t.index, d))]
    ensures Visiting(g, s, t.(low := low), v)
  {
    hide Reach, InRange;
    if Num(t.index, d) < t.low[v] {
      ReachEdge(g, v, d);
    }
  }

  // ---- leaving a visit without emitting ----

  lemma LeaveReachesGray(g: Graph, index: Index, stack: seq<nat>, gray: set<nat>, f: nat, low: nat)
    requires StackReachesGray(g, index, stack, gray + {f})
    requires Visited(index, f) && low < Num(index, f)
    requires LowWitness(g, index, low, stack, f)
    ensures StackReachesGray(g, index, stack, gray)
  {
    var w: nat :| w in stack && Visited(index, w) && Num(index, w) == low && Reach(g, f, w);
    assert ReachesGray(g, index, gray + {f}, w);
    var z: nat :| z in gray + {f} && Visited(index, z) && Num(index, z) <= Num(index, w) && Reach(g, w, z);
    assert z in gray;
    ReachTransitive(g, f, w, z);
    forall y | y in stack
      ensures ReachesGray(g, index, gray, y)
    {
      assert ReachesGray(g, index, gray + {f}, y);
      var x: nat :| x in gray + {f} && Visited(index, x) && Visited(index, y) && Num(index, x) <= Num(index, y) && Reach(g, y, x);
      if x == f {
        ReachTransitive(g, y, f, z);
      }
    }
  }

  lemma LeaveBlack(g: Graph, index: Index, gray: set<nat>, f: nat)
    requires BlackDone(g, index, gray + {f}) && f < |g|
    requires forall d :: d in g[f] ==> Visited(index, d)
    ensures BlackDone(g, index, gray)
  {
  }

  lemma LeaveKeepsInv(g: Graph, index: Index, next: nat, stack: seq<nat>, onStack: seq<bool>, components: seq<seq<nat>>, gray: set<nat>, f: nat, low: nat)
    requires Inv(g, index, next, stack, onStack, components, gray + {f})
    requires f < |g| && forall d :: d in g[f] ==> Visited(index, d)
    requires Visited(index, f) && low < Num(index, f)
    requires LowWitness(g, index, low, stack, f)
    ensures Inv(g, index, next, stack, onStack, components, gray)
  {
    hide NumbersBelow, StackVisited, StackAscends, Flags, Placed, StackReachesGray, BlackDone, ComponentsOk, InRange, LowWitness;
    LeaveReachesGray(g, index, stack, gray, f, low);
    LeaveBlack(g, index, gray, f);
  }

  // ---- emitting a component ----

  /** Position p splits the stack into smaller and larger numbers. */
  lemma StackSplit(index: Index, stack: seq<nat>, p: nat)
    requires p < |stack| && StackVisited(index, stack) && StackAscends(index, stack)
    ensures forall v :: v in stack <==> v in stack[..p] || v in stack[p..]
    ensures forall v :: v in stack[..p] ==> Visited(index, v) && Num(index, v) < Num(index, stack[p])
    ensures forall v :: v in stack[p..] ==> Visited(index, v) && Num(index, stack[p]) <= Num(index, v)
    ensures stack[p] in stack[p..]
  {
    assert stack == stack[..p] + stack[p..];
    assert stack[p..][0] == stack[p];
  }

  lemma GrayReaches(g: Graph, index: Index, stack: seq<nat>, gray: set<nat>, x: nat, y: nat)
    requires GrayReachesUp(g, index, stack, gray)
    requires x in gray && y in stack && Visited(index, x) && Visited(index, y) && Num(index, x) <= Num(index, y)
    ensures Reach(g, x, y)
  {
  }

  /** Some gray vertex that a stack vertex reaches. */
  lemma GrayAbove(g: Graph, index: Index, stack: seq<nat>, gray: set<nat>, y: nat) returns (x: nat)
    requires StackReachesGray(g, index, stack, gray) && y in stack
    ensures x in gray && Visited(index, x) && Visited(index, y) && Num(index, x) <= Num(index, y) && Reach(g, y, x)
  {
    hide Reach;
    assert ReachesGray(g, index, gray, y);
    x :| x in gray && Visited(index, x) && Visited(index, y) && Num(index, x) <= Num(index, y) && Reach(g, y, x);
  }

  lemma PoppedIsMutual(g: Graph, index: Index, stack: seq<nat>, gray: set<nat>, p: nat, y: nat)
    requires p < |stack| && StackVisited(index, stack) && StackAscends(index, stack)
    requires GrayReachesUp(g, index, stack, gray + {stack[p]}) && StackReachesGray(g, index, stack, gray + {stack[p]})
    requires forall x :: x in gray ==> x in stack[..p]
    requires y in stack[p..]
    ensures Mutual(g, stack[p], y)
  {
    hide Reach, StackVisited, StackAscends, GrayReachesUp, StackReachesGray;
    StackSplit(index, stack, p);
    var f := stack[p];
    GrayReaches(g, index, stack, gray + {f}, f, y);
    var x := GrayAbove(g, index, stack, gray + {f}, y);
    if x != f {
      assert x in stack[..p];
      GrayReaches(g, index, stack, gray + {f}, x, f);
      ReachTransitive(g, y, x, f);
    }
  }

  lemma PoppedEdges(g: Graph, index: Index, stack: seq<nat>, components: seq<seq<nat>>, gray: set<nat>, p: nat, v: nat, d: nat)
    requires p < |stack| && StackVisited(index, stack) && StackAscends(index, stack) && |index| == |g|
    requires BlackDone(g, index, gray + {stack[p]}) && Placed(index, stack, components)
    requires forall x :: x in gray ==> x in stack[..p]
    requires forall d :: d in g[stack[p]] ==> Visited(index, d)
    requires LowBounds(g, index, Num(index, stack[p]), stack, stack[..p], p)
    requires v in stack[p..] && v < |g| && d in g[v]
    ensures d in stack[p..] || Covered(components, d)
  {
    hide Covered, CoveredBy;
    StackSplit(index, stack, p);
    hide StackAscends;
    var i :| p <= i < |stack| && stack[i] == v;
  }

  /** Whatever an emitted or popped vertex reaches is itself emitted or popped. */
  lemma PoppedReach(g: Graph, index: Index, stack: seq<nat>, components: seq<seq<nat>>, gray: set<nat>, p: nat, a: nat, b: nat)
    requires InRange(g) && p < |stack| && StackVisited(index, stack) && StackAscends(index, stack) && |index| == |g|
    requires BlackDone(g, index, gray + {stack[p]}) && Placed(index, stack, components) && EdgesPointBack(g, components)
    requires forall x :: x in gray ==> x in stack[..p]
    requires forall d :: d in g[stack[p]] ==> Visited(index, d)
    requires LowBounds(g, index, Num(index, stack[p]), stack, stack[..p], p)
    requires a in stack[p..] && Reach(g, a, b)
    ensures b in stack[p..] || Covered(components, b)
  {
    hide Reach, LowBounds, BlackDone, StackAscends, Placed, InRange;
    var s := set v: nat | v < |g| && (v in stack[p..] || Covered(components, v));
    assert Visited(index, a);
    forall v: nat, d: nat | v in s && v < |g| && d in g[v]
      ensures d in s
    {
      assert d < |g| by { EdgeInRange(g, v, d); }
      if v in stack[p..] {
        PoppedEdges(g, index, stack, components, gray, p, v, d);
      } else {
        var k :| 0 <= k < |components| && v in components[k];
        assert CoveredBy(components, k + 1, d);
      }
    }
    ClosedContainsReachable(g, s, a, b);
  }

  lemma EdgeInRange(g: Graph, v: nat, d: nat)
    requires InRange(g) && v < |g| && d in g[v]
    ensures d < |g|
  {
  }

  lemma PoppedIsComponent(g: Graph, index: Index, stack: seq<nat>, components: seq<seq<nat>>, gray: set<nat>, p: nat, c: seq<nat>)
    requires InRange(g) && p < |stack| && StackVisited(index, stack) && StackAscends(index, stack) && |index| == |g|
    requires GrayReachesUp(g, index, stack, gray + {stack[p]}) && StackReachesGray(g, index, stack, gray + {stack[p]})
    requires BlackDone(g, index, gray + {stack[p]}) && Placed(index, stack, components) && ComponentsOk(g, components)
    requires forall x :: x in gray ==> x in stack[..p]
    requires forall d :: d in g[stack[p]] ==> Visited(index, d)
    requires LowBounds(g, index, Num(index, stack[p]), stack, stack[..p], p)
    requires StrictlySorted(c) && forall v :: v in c <==> v in stack[p..]
    ensures IsComponent(g, c)
  {
    hide Reach, GrayReachesUp, StackReachesGray, LowBounds, BlackDone, StackAscends, InRange, StrictlySorted, EdgesPointBack, Disjoint;
    var f := stack[p];
    assert f in stack[p..];
    forall a: nat, b: nat | a in c && b < |g|
      ensures b in c <==> Mutual(g, a, b)
    {
      PoppedIsMutual(g, index, stack, gray, p, a);
      if b in c {
        PoppedIsMutual(g, index, stack, gray, p, b);
        ReachTransitive(g, a, f, b);
        ReachTransitive(g, b, f, a);
      } else if Mutual(g, a, b) {
        PoppedReach(g, index, stack, components, gray, p, a, b);
        var k :| 0 <= k < |components| && b in components[k];
        assert IsComponent(g, components[k]);
        assert a in components[k] by {
          assert Mutual(g, b, a);
          assert Visited(index, a);
        }
        StackSplit(index, stack, p);
        assert false;
      }
    }
  }

  lemma EmitComponents(g: Graph, index: Index, stack: seq<nat>, components: seq<seq<nat>>, gray: set<nat>, p: nat, c: seq<nat>)
    requires p < |stack| && StackVisited(index, stack) && StackAscends(index, stack) && |index| == |g|
    requires BlackDone(g, index, gray + {stack[p]}) && Placed(index, stack, components) && ComponentsOk(g, components)
    requires forall x :: x in gray ==> x in stack[..p]
    requires forall d :: d in g[stack[p]] ==> Visited(index, d)
    requires LowBounds(g, index, Num(index, stack[p]), stack, stack[..p], p)
    requires IsComponent(g, c) && forall v :: v in c <==> v in stack[p..]
    ensures ComponentsOk(g, components + [c])
  {
    hide LowBounds, BlackDone, StackAscends, IsComponent;
    var after := components + [c];
    forall k, v: nat, d: nat | 0 <= k < |after| && v in after[k] && v < |g| && d in g[v]
      ensures CoveredBy(after, k + 1, d)
    {
      if k < |components| {
        assert CoveredBy(components, k + 1, d);
        var j :| 0 <= j < k + 1 && j < |components| && d in components[j];
        assert d in after[j];
      } else {
        PoppedEdges(g, index, stack, components, gray, p, v, d);
        if d in stack[p..] {
          assert d in after[k];
        } else {
          var j :| 0 <= j < |components| && d in components[j];
          assert d in after[j];
        }
      }
    }
    forall j, k, v: nat | 0 <= j < k < |after| && v in after[j]
      ensures v !in after[k]
    {
      if k == |components| {
        assert Covered(components, v);
      }
    }
  }

  lemma EmitPlaced(index: Index, stack: seq<nat>, components: seq<seq<nat>>, p: nat, c: seq<nat>)
    requires p < |stack| && StackVisited(index, stack) && StackAscends(index, stack)
    requires Placed(index, stack, components)
    requires forall v :: v in c <==> v in stack[p..]
    ensures Placed(index, stack[..p], components + [c])
  {
    var after := components + [c];
    assert stack == stack[..p] + stack[p..];
    assert forall v: nat :: Covered(after, v) <==> Covered(components, v) || v in c by {
      assert after[|components|] == c;
      assert forall k :: 0 <= k < |components| ==> after[k] == components[k];
    }
  }

  lemma EmitGrayReachesUp(g: Graph, index: Index, stack: seq<nat>, gray: set<nat>, f: nat, p: nat)
    requires p <= |stack|
    requires GrayReachesUp(g, index, stack, gray + {f})
    requires forall x :: x in gray ==> x in stack[..p]
    ensures GrayReachesUp(g, index, stack[..p], gray)
  {
    hide Reach;
  }

  lemma EmitStackReachesGray(g: Graph, index: Index, stack: seq<nat>, gray: set<nat>, p: nat)
    requires p < |stack| && StackVisited(index, stack) && StackAscends(index, stack)
    requires StackReachesGray(g, index, stack, gray + {stack[p]})
    ensures StackReachesGray(g, index, stack[..p], gray)
  {
    hide Reach, StackVisited, StackAscends;
    StackSplit(index, stack, p);
    forall y | y in stack[..p]
      ensures ReachesGray(g, index, gray, y)
    {
      var x := GrayAbove(g, index, stack, gray + {stack[p]}, y);
      assert x in gray;
    }
  }

  lemma EmitKeepsInv(g: Graph, index: Index, next: nat, stack: seq<nat>, onStack: seq<bool>, components: seq<seq<nat>>, gray: set<nat>, p: nat, c: seq<nat>, onStack': seq<bool>)
    requires Inv(g, index, next, stack, onStack, components, gray + {if p < |stack| then stack[p] else 0})
    requires p < |stack| && stack[p] < |g|
    requires forall x :: x in gray ==> x in stack[..p]
    requires forall d :: d in g[stack[p]] ==> Visited(index, d)
    requires LowBounds(g, index, Num(index, stack[p]), stack, stack[..p], p)
    requires StrictlySorted(c) && forall v :: v in c <==> v in stack[p..]
    requires |onStack'| == |g| && Flags(stack[..p], onStack')
    ensures Inv(g, index, next, stack[..p], onStack', components + [c], gray)
  {
    hide NumbersBelow, StackAscends, Flags, Placed, GrayReachesUp, StackReachesGray, BlackDone, ComponentsOk, InRange, LowBounds,
      StrictlySorted;
    PoppedIsComponent(g, index, stack, components, gray, p, c);
    EmitComponents(g, index, stack, components, gray, p, c);
    EmitPlaced(index, stack, components, p, c);
    EmitGrayReachesUp(g, index, stack, gray, stack[p], p);
    EmitStackReachesGray(g, index, stack, gray, p);
    LeaveBlack(g, index, gray, stack[p]);
    assert StackAscends(index, stack[..p]) by { PrefixAscends(index, stack, p); }
  }

  lemma PrefixAscends(index: Index, stack: seq<nat>, p: nat)
    requires p <= |stack| && StackVisited(index, stack) && StackAscends(index, stack)
    ensures StackVisited(index, stack[..p]) && StackAscends(index, stack[..p])
  {
  }

  lemma FollowedKept(g: Graph, s: Search, t: Search, below: seq<nat>, low: nat, low': nat, v: nat, n: nat)
    requires Extends(s, t) && low' <= low && Followed(g, s.index, low, below, v, n)
    ensures Followed(g, t.index, low', below, v, n)
  {
  }

  /** A vertex that the whole search has visited is emitted, since no visit is under way. */
  lemma NothingPending(g: Graph, s: Search)
    requires SearchInv(g, s, {})
    ensures s.stack == []
    ensures forall v: nat :: Visited(s.index, v) ==> Covered(s.components, v)
  {
    hide Covered, ComponentsOk;
    if s.stack != [] {
      assert s.stack[0] in s.stack;
      var x := GrayAbove(g, s.index, s.stack, {}, s.stack[0]);
      assert false;
    }
  }

  // ---- sorting a finished component ----

  function Insert(x: nat, s: seq<nat>): (r: seq<nat>)
    requires StrictlySorted(s) && x !in s
    ensures StrictlySorted(r) && forall y :: y in r <==> y == x || y in s
  {
    if s == [] then [x]
    else if x < s[0] then [x] + s
    else
      var rest := Insert(x, s[1..]);
      assert forall y :: y in s <==> y == s[0] || y in s[1..];
      assert forall y :: y in s[1..] ==> s[0] < y;
      assert forall i :: 0 <= i < |rest| ==> rest[i] in rest;
      [s[0]] + rest
  }

  ghost predicate Distinct(s: seq<nat>) {
    forall i, j :: 0 <= i < j < |s| ==> s[i] != s[j]
  }

  function Sort(s: seq<nat>): (r: seq<nat>)
    requires Distinct(s)
    ensures StrictlySorted(r) && forall y :: y in r <==> y in s
  {
    if s == [] then []
    else
      assert s[0] !in s[1..];
      assert forall y :: y in s <==> y == s[0] || y in s[1..];
      Insert(s[0], Sort(s[1..]))
  }

  // ---- the steps of a visit, on snapshots ----

  function Discover(s: Search, v: nat): Search
    requires v < |s.index| == |s.low| == |s.onStack|
  {
    Search(s.index[v := Some(s.next)], s.low[v := s.next], s.next + 1, s.stack + [v], s.onStack[v := true], s.components)
  }

  lemma DiscoverStep(g: Graph, s: Search, v: nat, gray: set<nat>)
    requires SearchInv(g, s, gray) && v < |g| && !Visited(s.index, v)
    requires forall x :: x in gray ==> Reach(g, x, v)
    ensures SearchInv(g, Discover(s, v), gray + {v})
    ensures Visiting(g, s, Discover(s, v), v)
    ensures Followed(g, Discover(s, v).index, Discover(s, v).low[v], s.stack, v, 0)
  {
    hide NumbersBelow, StackVisited, StackAscends, Flags, Placed, GrayReachesUp, StackReachesGray, BlackDone, ComponentsOk, InRange, Reach;
    DiscoverKeepsInv(g, s.index, s.next, s.stack, s.onStack, s.components, gray, v);
    var t := Discover(s, v);
    ReachSelf(g, v);
    assert t.stack[|s.stack|] == v;
  }

  /** Every vertex under way reaches each dependency about to be visited. */
  lemma GrayReachesDependency(g: Graph, s: Search, t: Search, gray: set<nat>, v: nat, d: nat)
    requires SearchInv(g, s, gray) && SearchInv(g, t, gray + {v}) && Visiting(g, s, t, v)
    requires v < |g| && d in g[v]
    ensures forall x :: x in gray + {v} ==> Reach(g, x, d)
  {
    hide NumbersBelow, StackVisited, StackAscends, Flags, Placed, StackReachesGray, BlackDone, ComponentsOk, InRange, Reach, LowBounds,
      LowWitness;
    assert t.stack[|s.stack|] == v && t.stack[..|s.stack|] == s.stack;
    StackSplit(t.index, t.stack, |s.stack|);
    forall x | x in gray + {v}
      ensures Reach(g, x, d)
    {
      GrayReaches(g, t.index, t.stack, gray + {v}, x, v);
      ReachEdge(g, v, d);
      ReachTransitive(g, x, v, d);
    }
  }

  lemma AllFollowed(g: Graph, index: Index, low: nat, below: seq<nat>, v: nat)
    requires v < |g| && Followed(g, index, low, below, v, |g[v]|)
    ensures forall d :: d in g[v] ==> Visited(index, d) && (d in below ==> low <= Num(index, d))
  {
  }

  lemma LeaveStep(g: Graph, s: Search, t: Search, v: nat, gray: set<nat>)
    requires SearchInv(g, t, gray + {v}) && Visiting(g, s, t, v) && v < |g|
    requires Followed(g, t.index, t.low[v], s.stack, v, |g[v]|)
    requires t.low[v] != s.next
    ensures SearchInv(g, t, gray) && VisitDone(g, s, t, v)
  {
    hide NumbersBelow, StackVisited, StackAscends, Flags, Placed, GrayReachesUp, StackReachesGray, BlackDone, ComponentsOk, InRange, LowWitness,
      Followed;
    AllFollowed(g, t.index, t.low[v], s.stack, v);
    LeaveKeepsInv(g, t.index, t.next, t.stack, t.onStack, t.components, gray, v, t.low[v]);
    assert t.stack[|s.stack|] == v;
    BoundsFromFollowed(g, t.index, t.low[v], t.stack, s.stack, |s.stack|);
  }

  lemma EmitStep(g: Graph, s: Search, t: Search, v: nat, gray: set<nat>, component: seq<nat>, onStack: seq<bool>)
    requires SearchInv(g, s, gray) && SearchInv(g, t, gray + {v}) && Visiting(g, s, t, v) && v < |g| && v !in gray
    requires Followed(g, t.index, t.low[v], s.stack, v, |g[v]|)
    requires t.low[v] == s.next
    requires StrictlySorted(component) && forall x :: x in component <==> x in t.stack[|s.stack|..]
    requires |onStack| == |g| && Flags(s.stack, onStack)
    ensures var u := Search(t.index, t.low, t.next, s.stack, onStack, t.components + [component]);
            SearchInv(g, u, gray) && VisitDone(g, s, u, v)
  {
    hide NumbersBelow, StackVisited, StackAscends, Flags, Placed, StackReachesGray, BlackDone, ComponentsOk, InRange, Reach, LowWitness,
      Followed;
    var p := |s.stack|;
    assert t.stack[p] == v && t.stack[..p] == s.stack;
    AllFollowed(g, t.index, t.low[v], s.stack, v);
    StackSplit(t.index, t.stack, p);
    BoundsFromFollowed(g, t.index, s.next, t.stack, s.stack, p);
    EmitKeepsInv(g, t.index, t.next, t.stack, t.onStack, t.components, gray, p, component, onStack);
    var u := Search(t.index, t.low, t.next, s.stack, onStack, t.components + [component]);
    UnvisitedOffStack(s.index, s.stack, v);
  }

  lemma UnvisitedOffStack(index: Index, stack: seq<nat>, v: nat)
    requires StackVisited(index, stack) && !Visited(index, v)
    ensures v !in stack
  {
  }

  lemma BoundsFromFollowed(g: Graph, index: Index, low: nat, stack: seq<nat>, below: seq<nat>, p: nat)
    requires p < |stack| && stack[p] < |g| && LowBounds(g, index, low, stack, below, p + 1)
    requires forall d :: d in g[stack[p]] ==> Visited(index, d) && (d in below ==> low <= Num(index, d))
    ensures LowBounds(g, index, low, stack, below, p)
  {
  }

  lemma GrayIsVisited(g: Graph, s: Search, gray: set<nat>, v: nat)
    requires SearchInv(g, s, gray) && !Visited(s.index, v)
    ensures v !in gray
  {
  }

  lemma DependencyInRange(g: Graph, s: Search, gray: set<nat>, v: nat, d: nat)
    requires SearchInv(g, s, gray) && v < |g| && d in g[v]
    ensures d < |g|
  {
  }

  lemma LowIsFree(g: Graph, s: Search, gray: set<nat>, low: seq<nat>)
    requires SearchInv(g, s, gray) && |low| == |s.low|
    ensures SearchInv(g, s.(low := low), gray)
    ensures InRange(g) && NumbersBelow(s.index, s.next) && |s.low| == |g|
  {
  }

  lemma FollowUnvisitedStep(g: Graph, s: Search, t: Search, u: Search, v: nat, n: nat, low: seq<nat>)
    requires InRange(g) && NumbersBelow(t.index, t.next)
    requires |t.low| == |u.low| == |g| && v < |g| && n < |g[v]| && g[v][n] < |g|
    requires !Visited(t.index, g[v][n]) && StackVisited(s.index, s.stack)
    requires Visiting(g, s, t, v) && VisitDone(g, t, u, g[v][n])
    requires Followed(g, t.index, t.low[v], s.stack, v, n)
    requires low == u.low[v := Min(u.low[v], u.low[g[v][n]])]
    ensures Visiting(g, s, u.(low := low), v)
    ensures Followed(g, u.index, low[v], s.stack, v, n + 1)
  {
    hide NumbersBelow, InRange, StackVisited, Followed, Extends, Visiting, VisitDone, Min;
    VisitFacts(g, s, t, u, v, g[v][n]);
    FollowUnvisited(g, s, t, u, v, g[v][n], low);
    FollowedKept(g, t, u, s.stack, t.low[v], low[v], v, n);
    UnvisitedBefore(s, t, g[v][n]);
    UnvisitedOffStack(s.index, s.stack, g[v][n]);
    FollowedOneMore(g, u.index, low[v], s.stack, v, n);
  }

  lemma FollowedOneMore(g: Graph, index: Index, low: nat, below: seq<nat>, v: nat, n: nat)
    requires Followed(g, index, low, below, v, n) && n < |g[v]|
    requires Visited(index, g[v][n]) && (g[v][n] in below ==> low <= Num(index, g[v][n]))
    ensures Followed(g, index, low, below, v, n + 1)
  {
  }

  lemma VisitFacts(g: Graph, s: Search, t: Search, u: Search, v: nat, d: nat)
    requires Visiting(g, s, t, v) && VisitDone(g, t, u, d)
    ensures Extends(s, t) && Extends(t, u) && Visited(u.index, d)
  {
    hide Extends, LowWitness, LowBounds;
  }

  lemma DistinctAppend(s: seq<nat>, x: nat)
    requires Distinct(s) && x !in s
    ensures Distinct(s + [x])
  {
  }

  lemma UnvisitedBefore(s: Search, t: Search, d: nat)
    requires Extends(s, t) && !Visited(t.index, d)
    ensures !Visited(s.index, d)
  {
  }

  ghost function UnvisitedIn(index: Index): set<nat> {
    set v: nat | v < |index| && index[v].None?
  }

  lemma FewerUnvisited(s: Search, t: Search, v: nat)
    requires Extends(s, t) && v < |s.index| && !Visited(s.index, v) && Visited(t.index, v)
    ensures UnvisitedIn(t.index) < UnvisitedIn(s.index)
  {
    assert v in UnvisitedIn(s.index);
    forall w | w in UnvisitedIn(t.index)
      ensures w in UnvisitedIn(s.index)
    {
      assert Visited(s.index, w) ==> Visited(t.index, w);
    }
  }

  lemma UnvisitedShrinks(s: Search, t: Search)
    requires Extends(s, t)
    ensures UnvisitedIn(t.index) <= UnvisitedIn(s.index)
  {
    forall w | w in UnvisitedIn(t.index)
      ensures w in UnvisitedIn(s.index)
    {
      assert Visited(s.index, w) ==> Visited(t.index, w);
    }
  }

  lemma StackInRange(index: Index, stack: seq<nat>)
    requires StackVisited(index, stack)
    ensures forall v :: v in stack ==> v < |index|
  {
  }

  lemma StackDistinct(index: Index, stack: seq<nat>)
    requires StackVisited(index, stack) && StackAscends(index, stack)
    ensures Distinct(stack)
  {
  }

  lemma FollowOnStackStep(g: Graph, s: Search, t: Search, v: nat, n: nat, low: seq<nat>, gray: set<nat>)
    requires SearchInv(g, t, gray) && v < |g| && n < |g[v]| && g[v][n] < |g|
    requires Visited(t.index, g[v][n]) && t.onStack[g[v][n]]
    requires Visiting(g, s, t, v) && Followed(g, t.index, t.low[v], s.stack, v, n)
    requires low == t.low[v := Min(t.low[v], Num(t.index, g[v][n]))]
    ensures SearchInv(g, t.(low := low), gray) && Visiting(g, s, t.(low := low), v)
    ensures Followed(g, t.index, low[v], s.stack, v, n + 1)
  {
    hide NumbersBelow, StackAscends, Placed, GrayReachesUp, StackReachesGray, BlackDone, ComponentsOk, InRange, LowWitness, LowBounds,
      StackVisited;
    FollowOnStack(g, s, t, v, g[v][n], low);
  }

  lemma FollowEmittedStep(g: Graph, s: Search, t: Search, v: nat, n: nat, gray: set<nat>)
    requires SearchInv(g, t, gray) && v < |g| && n < |g[v]| && g[v][n] < |g|
    requires Visited(t.index, g[v][n]) && !t.onStack[g[v][n]]
    requires Visiting(g, s, t, v) && Followed(g, t.index, t.low[v], s.stack, v, n)
    ensures Followed(g, t.index, t.low[v], s.stack, v, n + 1)
  {
    hide NumbersBelow, StackAscends, Placed, GrayReachesUp, StackReachesGray, BlackDone, ComponentsOk, InRange, LowWitness, LowBounds,
      StackVisited;
    assert g[v][n] !in t.stack;
  }

  // ---- the search itself ----

  class FunctionComponents {
    const graph: seq<seq<nat>>
    var nextIndex: nat
    const indices: array<Option<nat>>
    const lowlinks: array<nat>
    var stack: seq<nat>
    const onStack: array<bool>
    var components: seq<seq<nat>>

    ghost predicate Valid()
      reads this
    {
      indices.Length == |graph| && lowlinks.Length == |graph| && onStack.Length == |graph|
    }

    ghost function State(): Search
      reads this, indices, lowlinks, onStack
    {
      Search(indices[..], lowlinks[..], nextIndex, stack, onStack[..], components)
    }

    constructor (graph: seq<seq<nat>>)
      requires InRange(graph)
      ensures Valid() && this.graph == graph
      ensures fresh(indices) && fresh(lowlinks) && fresh(onStack)
      ensures components == [] && SearchInv(graph, State(), {})
      ensures forall v: nat :: !Visited(State().index, v)
    {
      this.graph := graph;
      nextIndex := 0;
      indices := new Option<nat>[|graph|](_ => None);
      lowlinks := new nat[|graph|](_ => 0);
      stack := [];
      onStack := new bool[|graph|](_ => false);
      components := [];
    }

    method Visit(vertex: nat, ghost gray: set<nat>)
      requires Valid() && SearchInv(graph, State(), gray)
      requires vertex < |graph| && !Visited(State().index, vertex)
      requires forall x :: x in gray ==> Reach(graph, x, vertex)
      modifies this, indices, lowlinks, onStack
      ensures Valid() && SearchInv(graph, State(), gray)
      ensures VisitDone(graph, old(State()), State(), vertex)
      decreases UnvisitedIn(State().index)
    {
      hide NumbersBelow, StackVisited, StackAscends, Placed, GrayReachesUp, StackReachesGray, BlackDone, ComponentsOk, Extends, Reach, LowWitness, LowBounds, Followed, Flags, InRange, StrictlySorted, Distinct, UnvisitedIn;
      ghost var before := State();
      assert vertex !in gray by { GrayIsVisited(graph, before, gray, vertex); }
      var index := nextIndex;
      nextIndex := nextIndex + 1;
      indices[vertex] := Some(index);
      lowlinks[vertex] := index;
      stack := stack + [vertex];
      onStack[vertex] := true;
      assert State() == Discover(before, vertex);
      DiscoverStep(graph, before, vertex, gray);
      FewerUnvisited(before, State(), vertex);

      for dependencyIndex := 0 to |graph[vertex]|
        invariant Valid() && SearchInv(graph, State(), gray + {vertex})
        invariant Visiting(graph, before, State(), vertex)
        invariant Followed(graph, State().index, State().low[vertex], before.stack, vertex, dependencyIndex)
        invariant UnvisitedIn(State().index) < UnvisitedIn(before.index)
      {
        var dependency := graph[vertex][dependencyIndex];
        ghost var here := State();
        assert dependency < |graph| by { DependencyInRange(graph, here, gray + {vertex}, vertex, dependency); }
        if indices[dependency].None? {
          GrayReachesDependency(graph, before, here, gray, vertex, dependency);
          Visit(dependency, gray + {vertex});
          ghost var there := State();
          lowlinks[vertex] := Min(lowlinks[vertex], lowlinks[dependency]);
          assert State() == there.(low := there.low[vertex := Min(there.low[vertex], there.low[dependency])]);
          UnvisitedShrinks(here, there);
          LowIsFree(graph, here, gray + {vertex}, here.low);
          LowIsFree(graph, there, gray + {vertex}, State().low);
          FollowUnvisitedStep(graph, before, here, there, vertex, dependencyIndex, State().low);
        } else if onStack[dependency] {
          lowlinks[vertex] := Min(lowlinks[vertex], indices[dependency].value);
          assert State() == here.(low := here.low[vertex := Min(here.low[vertex], here.index[dependency].value)]);
          FollowOnStackStep(graph, before, here, vertex, dependencyIndex, State().low, gray + {vertex});
        } else {
          FollowEmittedStep(graph, before, here, vertex, dependencyIndex, gray + {vertex});
        }
      }

      if lowlinks[vertex] != index {
        LeaveStep(graph, before, State(), vertex, gray);
        return;
      }
      ghost var finished := State();
      StackDistinct(finished.index, finished.stack);
      StackInRange(finished.index, finished.stack);
      var component := PopThrough(vertex, |before.stack|);
      component := Sort(component);
      components := components + [component];
      assert finished.stack[..|before.stack|] == before.stack;
      EmitStep(graph, before, finished, vertex, gray, component, onStack[..]);
      assert State() == Search(finished.index, finished.low, finished.next, before.stack, onStack[..], finished.components + [component]);
    }

    /** Pop the stack down to and including the vertex, which sits at position p. */
    method PopThrough(vertex: nat, ghost p: nat) returns (component: seq<nat>)
      requires Valid() && p < |stack| && stack[p] == vertex && Distinct(stack)
      requires Flags(stack, onStack[..]) && forall v :: v in stack ==> v < |graph|
      modifies this`stack, onStack
      ensures stack == old(stack[..p]) && Flags(stack, onStack[..])
      ensures Distinct(component)
      ensures forall v :: v in component <==> v in old(stack[p..])
    {
      component := [];
      while true
        invariant p < |stack| <= |old(stack)| && stack == old(stack)[..|stack|]
        invariant Flags(stack, onStack[..])
        invariant Distinct(component)
        invariant forall v :: v in component <==> v in old(stack)[|stack|..]
        decreases |stack|
      {
        var member := stack[|stack| - 1];
        assert old(stack)[|stack| - 1..] == [member] + old(stack)[|stack|..];
        assert member in old(stack);
        assert forall j :: |stack| <= j < |old(stack)| ==> old(stack)[j] != member;
        DistinctAppend(component, member);
        stack := stack[..|stack| - 1];
        onStack[member] := false;
        component := component + [member];
        if member == vertex {
          break;
        }
      }
    }

    /** Search every vertex; the result is the dependency-first schedule. */
    method Run() returns (result: seq<seq<nat>>)
      requires Valid() && SearchInv(graph, State(), {})
      modifies this, indices, lowlinks, onStack
      ensures IsSchedule(graph, result)
    {
      for vertex := 0 to |graph|
        invariant Valid() && SearchInv(graph, State(), {})
        invariant forall v: nat :: v < vertex ==> Visited(State().index, v)
      {
        if indices[vertex].None? {
          ghost var before := State();
          Visit(vertex, {});
          assert forall v: nat :: Visited(before.index, v) ==> Visited(State().index, v);
        }
      }
      NothingPending(graph, State());
      result := components;
    }
  }

  /** Build the search for a dependency graph and run it. */
  method Components(graph: seq<seq<nat>>) returns (components: seq<seq<nat>>)
    requires InRange(graph)
    ensures IsSchedule(graph, components)
  {
    var search := new FunctionComponents(graph);
    components := search.Run();
  }
}
