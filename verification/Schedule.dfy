/** Emitting the root functions group by group, and what Lua's scoping makes of it. */
module Schedule {
  import opened Graphs
  import opened Wrappers
  import FC = FunctionComponents

  // ---- what is emitted ----

  /** One statement of the root chunk: `local a, b`, `local function f`, or `function f`. */
  datatype Event = Declare(names: seq<nat>) | DefineLocal(name: nat) | Assign(name: nat)

  function Definitions(group: seq<nat>, predeclared: bool): seq<Event> {
    if group == [] then []
    else [if predeclared then Assign(group[0]) else DefineLocal(group[0])] + Definitions(group[1..], predeclared)
  }

  function GroupEvents(group: seq<nat>): seq<Event> {
    (if |group| > 1 then [Declare(group)] else []) + Definitions(group, |group| > 1)
  }

  function Events(groups: seq<seq<nat>>): seq<Event> {
    if groups == [] then []
    else Events(groups[..|groups| - 1]) + GroupEvents(groups[|groups| - 1])
  }

  /** The emission loop of the root chunk. */
  method EmitRootFunctions(groups: seq<seq<nat>>) returns (events: seq<Event>)
    ensures events == Events(groups)
  {
    events := [];
    for k := 0 to |groups|
      invariant events == Events(groups[..k])
    {
      var group := groups[k];
      var mutuallyRecursive := |group| > 1;
      ghost var before := events;
      if mutuallyRecursive {
        events := events + [Declare(group)];
      }
      ghost var header := events;
      for i := 0 to |group|
        invariant events + Definitions(group[i..], mutuallyRecursive) == header + Definitions(group, mutuallyRecursive)
      {
        events := events + [if mutuallyRecursive then Assign(group[i]) else DefineLocal(group[i])];
        assert group[i..][1..] == group[i + 1..];
      }
      assert Definitions(group[|group|..], mutuallyRecursive) == [];
      assert events == events + Definitions(group[|group|..], mutuallyRecursive);
      assert events == before + GroupEvents(group);
      assert groups[..k + 1][..k] == groups[..k];
    }
    assert groups[..|groups|] == groups;
  }

  // ---- Lua's lexical scoping ----

  /** A closure remembers the scope in force where its function expression stood. */
  datatype Slot = Unset | Closure(name: nat, scope: map<nat, nat>)

  /** Names in scope, each bound to a slot; slots are never reused. */
  datatype Chunk = Chunk(scope: map<nat, nat>, slots: seq<Slot>)

  function DeclareAll(c: Chunk, names: seq<nat>): Chunk
    decreases |names|
  {
    if names == [] then c
    else DeclareAll(Chunk(c.scope[names[0] := |c.slots|], c.slots + [Unset]), names[1..])
  }

  /** Run one statement; assigning to a name that is not in scope creates a global, which is an error here. */
  function Step(c: Chunk, e: Event): (r: Option<Chunk>) {
    match e
    case Declare(names) => Some(DeclareAll(c, names))
    case DefineLocal(f) =>
      var scope := c.scope[f := |c.slots|];
      Some(Chunk(scope, c.slots + [Closure(f, scope)]))
    case Assign(f) =>
      if f in c.scope && c.scope[f] < |c.slots| then Some(c.(slots := c.slots[c.scope[f] := Closure(f, c.scope)])) else None
  }

  function Run(c: Chunk, events: seq<Event>): Option<Chunk>
    decreases |events|
  {
    if events == [] then Some(c)
    else match Step(c, events[0])
      case None => None
      case Some(next) => Run(next, events[1..])
  }

  lemma {:induction false} RunAppend(c: Chunk, a: seq<Event>, b: seq<Event>)
    ensures Run(c, a + b) == match Run(c, a) case None => None case Some(d) => Run(d, b)
    decreases |a|
  {
    if a == [] {
      assert a + b == b;
    } else {
      assert (a + b)[1..] == a[1..] + b;
      match Step(c, a[0]) {
        case None =>
        case Some(next) => RunAppend(next, a[1..], b);
      }
    }
  }

  // ---- every reference resolves ----

  /** f's slot holds f, and f captured, for each dependency, the very slot that name denotes. */
  ghost predicate Resolved(g: Graph, c: Chunk, f: nat) {
    && f in c.scope && c.scope[f] < |c.slots|
    && var slot := c.slots[c.scope[f]];
       && slot.Closure? && slot.name == f
       && (f < |g| ==> forall d :: d in g[f] ==> d in slot.scope && d in c.scope && slot.scope[d] == c.scope[d])
  }

  ghost predicate Separate(c: Chunk) {
    && (forall f :: f in c.scope ==> c.scope[f] < |c.slots|)
    && (forall f, h :: f in c.scope && h in c.scope && f != h ==> c.scope[f] != c.scope[h])
  }

  ghost predicate GroupsDone(g: Graph, groups: seq<seq<nat>>, k: nat, c: Chunk) {
    && Separate(c)
    && (forall f: nat :: f in c.scope <==> FC.CoveredBy(groups, k, f))
    && (forall f: nat :: f in c.scope ==> Resolved(g, c, f))
  }

  lemma {:induction false} DeclareAllAt(c: Chunk, names: seq<nat>)
    requires Separate(c) && FC.StrictlySorted(names) && forall x :: x in names ==> x !in c.scope
    ensures var d := DeclareAll(c, names);
            && Separate(d)
            && (forall x: nat :: x in d.scope <==> x in c.scope || x in names)
            && (forall x: nat :: x in c.scope ==> d.scope[x] == c.scope[x])
            && c.slots <= d.slots
    decreases |names|
  {
    if names != [] {
      assert forall x :: x in names <==> x == names[0] || x in names[1..];
      DeclareAllAt(Chunk(c.scope[names[0] := |c.slots|], c.slots + [Unset]), names[1..]);
    }
  }

  /** Assigning a forward-declared group: each assignment fills its own slot and no other. */
  lemma {:induction false} AssignAll(g: Graph, c: Chunk, group: seq<nat>, done: set<nat>)
    requires Separate(c)
    requires forall f :: f in group ==> f in c.scope && (f < |g| ==> forall d :: d in g[f] ==> d in c.scope)
    requires forall f :: f in done ==> Resolved(g, c, f)
    ensures var r := Run(c, Definitions(group, true));
            && r.Some? && r.value.scope == c.scope && |r.value.slots| == |c.slots|
            && (forall f :: f in done || f in group ==> Resolved(g, r.value, f))
    decreases |group|
  {
    if group != [] {
      var f := group[0];
      var next := c.(slots := c.slots[c.scope[f] := Closure(f, c.scope)]);
      assert Step(c, Definitions(group, true)[0]) == Some(next);
      assert Definitions(group, true)[1..] == Definitions(group[1..], true);
      forall h | h in done + {f}
        ensures Resolved(g, next, h)
      {
      }
      AssignAll(g, next, group[1..], done + {f});
    }
  }

  /** What the schedule says about the next group. */
  ghost predicate ReadyGroup(g: Graph, group: seq<nat>, c: Chunk) {
    && FC.StrictlySorted(group)
    && (forall f :: f in group ==> f < |g| && f !in c.scope && forall d :: d in g[f] ==> d in c.scope || d in group)
  }

  ghost predicate AllResolved(g: Graph, c: Chunk) {
    Separate(c) && forall f: nat :: f in c.scope ==> Resolved(g, c, f)
  }

  lemma NextGroupReady(g: Graph, groups: seq<seq<nat>>, k: nat, c: Chunk)
    requires FC.ComponentsOk(g, groups) && k < |groups| && GroupsDone(g, groups, k, c)
    ensures ReadyGroup(g, groups[k], c)
    ensures forall f: nat :: FC.CoveredBy(groups, k + 1, f) <==> f in c.scope || f in groups[k]
  {
    hide Separate, Resolved, Mutual, FC.StrictlySorted;
    var group := groups[k];
    assert FC.IsComponent(g, group);
    assert forall f: nat :: FC.CoveredBy(groups, k + 1, f) <==> FC.CoveredBy(groups, k, f) || f in group;
    forall f | f in group
      ensures f !in c.scope && forall d :: d in g[f] ==> FC.CoveredBy(groups, k + 1, d)
    {
    }
  }

  lemma RecursiveGroup(g: Graph, group: seq<nat>, c: Chunk)
    requires |group| > 1 && ReadyGroup(g, group, c) && AllResolved(g, c)
    ensures var r := Run(c, GroupEvents(group));
            r.Some? && AllResolved(g, r.value) && forall f: nat :: f in r.value.scope <==> f in c.scope || f in group
  {
    var d := DeclareAll(c, group);
    DeclareAllAt(c, group);
    assert GroupEvents(group)[0] == Declare(group) && GroupEvents(group)[1..] == Definitions(group, true);
    forall f | f in c.scope
      ensures Resolved(g, d, f)
    {
      assert Resolved(g, c, f);
    }
    AssignAll(g, d, group, c.scope.Keys);
  }

  lemma PlainGroup(g: Graph, f: nat, c: Chunk)
    requires ReadyGroup(g, [f], c) && AllResolved(g, c)
    ensures var r := Run(c, GroupEvents([f]));
            r.Some? && AllResolved(g, r.value) && forall h: nat :: h in r.value.scope <==> h in c.scope || h == f
  {
    assert f in [f];
    assert GroupEvents([f]) == [DefineLocal(f)] by {
      assert Definitions([f][1..], false) == [];
    }
    var scope := c.scope[f := |c.slots|];
    var d := Chunk(scope, c.slots + [Closure(f, scope)]);
    assert Run(c, [DefineLocal(f)]) == Some(d) by {
      assert Step(c, DefineLocal(f)) == Some(d);
      assert [DefineLocal(f)][1..] == [];
    }
    forall h: nat | h in d.scope
      ensures Resolved(g, d, h)
    {
      if h != f {
        assert Resolved(g, c, h);
      }
    }
  }

  lemma GroupResolves(g: Graph, groups: seq<seq<nat>>, k: nat, c: Chunk)
    requires FC.ComponentsOk(g, groups) && k < |groups| && GroupsDone(g, groups, k, c)
    ensures var r := Run(c, GroupEvents(groups[k])); r.Some? && GroupsDone(g, groups, k + 1, r.value)
  {
    hide FC.EdgesPointBack, FC.Disjoint, FC.CoveredBy, Separate, Resolved, Run, GroupEvents;
    NextGroupReady(g, groups, k, c);
    if |groups[k]| > 1 {
      RecursiveGroup(g, groups[k], c);
    } else {
      assert FC.IsComponent(g, groups[k]);
      assert groups[k] == [groups[k][0]];
      PlainGroup(g, groups[k][0], c);
    }
  }

  lemma {:induction false} ScheduleResolves(g: Graph, groups: seq<seq<nat>>, k: nat)
    requires InRange(g) && FC.ComponentsOk(g, groups) && k <= |groups|
    ensures var r := Run(Chunk(map[], []), Events(groups[..k])); r.Some? && GroupsDone(g, groups, k, r.value)
  {
    if k > 0 {
      ScheduleResolves(g, groups, k - 1);
      assert groups[..k][..k - 1] == groups[..k - 1];
      var before := Run(Chunk(map[], []), Events(groups[..k - 1])).value;
      RunAppend(Chunk(map[], []), Events(groups[..k - 1]), GroupEvents(groups[k - 1]));
      GroupResolves(g, groups, k - 1, before);
    }
  }

  /**
   * Running the emitted chunk never touches a global, and afterwards every function is stored under
   * its own name and every name its body mentions denotes, in the scope it captured, that function.
   */
  lemma EveryReferenceResolves(g: Graph, groups: seq<seq<nat>>, f: nat)
    requires InRange(g) && FC.IsSchedule(g, groups) && f < |g|
    ensures var r := Run(Chunk(map[], []), Events(groups));
            && r.Some? && Resolved(g, r.value, f)
            && (forall d :: d in g[f] ==> Resolved(g, r.value, d))
  {
    ScheduleResolves(g, groups, |groups|);
    assert groups[..|groups|] == groups;
    assert FC.Covered(groups, f);
    forall d | d in g[f]
      ensures FC.Covered(groups, d)
    {
    }
  }

  // ---- forward declarations are emitted only where nothing else would do ----

  lemma FirstStepAway(g: Graph, a: nat, b: nat) returns (c: nat)
    requires Reach(g, a, b) && a != b
    ensures a < |g| && c in g[a] && c != a && Reach(g, c, b)
  {
    var p :| PathFromTo(g, p, a, b);
    var i := 0;
    while p[i + 1] == a
      invariant 0 <= i < |p| - 1 && p[i] == a
      decreases |p| - i
    {
      i := i + 1;
    }
    c := p[i + 1];
    assert PathFromTo(g, p[i + 1..], c, b);
  }

  /** In any order of the members of a larger group, some member needs one that comes later. */
  lemma ForwardDeclarationNeeded(g: Graph, groups: seq<seq<nat>>, k: nat, rank: nat -> nat)
    requires InRange(g) && FC.IsSchedule(g, groups) && k < |groups| && |groups[k]| > 1
    requires forall a, b :: a in groups[k] && b in groups[k] && a != b ==> rank(a) != rank(b)
    ensures exists a, c :: a in groups[k] && a < |g| && c in g[a] && c in groups[k] && rank(a) < rank(c)
  {
    var group := groups[k];
    assert FC.IsComponent(g, group);
    var first := group[0];
    for i := 0 to |group|
      invariant first in group && forall j :: 0 <= j < i ==> rank(first) <= rank(group[j])
    {
      if rank(group[i]) < rank(first) {
        first := group[i];
      }
    }
    var other := if group[0] == first then group[1] else group[0];
    assert other in group && Mutual(g, first, other);
    var c := FirstStepAway(g, first, other);
    ReachEdge(g, first, c);
    ReachTransitive(g, c, other, first);
    assert Mutual(g, first, c);
  }
}
