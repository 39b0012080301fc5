/** The search for an import cycle among independently emitted modules. */
module ModuleCycles {
  import opened Wrappers

  type ModuleId = nat

  /** Dependencies of each emitted module; a dependency need not be a key itself. */
  type Imports = map<ModuleId, seq<ModuleId>>

  function Dependencies(graph: Imports, m: ModuleId): seq<ModuleId> {
    if m in graph then graph[m] else []
  }

  /** A walk along import edges that ends where it began. */
  ghost predicate ClosedWalk(graph: Imports, c: seq<ModuleId>) {
    && |c| >= 2 && c[0] == c[|c| - 1]
    && forall i :: 0 <= i < |c| - 1 ==> c[i + 1] in Dependencies(graph, c[i])
  }

  ghost predicate Distinct(s: seq<ModuleId>) {
    forall i, j :: 0 <= i < j < |s| ==> s[i] != s[j]
  }

  /** A closed walk that repeats nothing but its end point. */
  ghost predicate SimpleCycle(graph: Imports, c: seq<ModuleId>) {
    ClosedWalk(graph, c) && Distinct(c[..|c| - 1])
  }

  ghost function Universe(graph: Imports): set<ModuleId> {
    graph.Keys + set m, d | m in graph && d in graph[m] :: d
  }

  // ---- the invariant of the three-colour search ----

  const ACTIVE := 1
  const DONE := 2

  ghost predicate StackOk(graph: Imports, states: map<ModuleId, nat>, stack: seq<ModuleId>) {
    && Distinct(stack)
    && (forall m: ModuleId :: m in stack <==> m in states && states[m] == ACTIVE)
    && (forall i :: 0 <= i < |stack| - 1 ==> stack[i + 1] in Dependencies(graph, stack[i]))
  }

  /** done lists the finished modules, each after everything it depends on. */
  ghost predicate DoneOk(graph: Imports, states: map<ModuleId, nat>, done: seq<ModuleId>) {
    && Distinct(done)
    && (forall m: ModuleId :: m in done <==> m in states && states[m] == DONE)
    && (forall i, d :: 0 <= i < |done| && d in Dependencies(graph, done[i]) ==> d in done[..i])
  }

  ghost predicate Inv(graph: Imports, states: map<ModuleId, nat>, stack: seq<ModuleId>, done: seq<ModuleId>) {
    && states.Keys <= Universe(graph)
    && (forall m :: m in states ==> states[m] == ACTIVE || states[m] == DONE)
    && StackOk(graph, states, stack)
    && DoneOk(graph, states, done)
  }

  /** Discovering a module that the top of the stack imports, or any module when the stack is empty. */
  lemma BeginKeepsInv(graph: Imports, states: map<ModuleId, nat>, stack: seq<ModuleId>, done: seq<ModuleId>, m: ModuleId)
    requires Inv(graph, states, stack, done) && m in Universe(graph) && m !in states
    requires stack != [] ==> m in Dependencies(graph, stack[|stack| - 1])
    ensures Inv(graph, states[m := ACTIVE], stack + [m], done)
  {
    assert forall x: ModuleId :: x in stack + [m] <==> x in stack || x == m;
  }

  lemma FinishKeepsInv(graph: Imports, states: map<ModuleId, nat>, stack: seq<ModuleId>, done: seq<ModuleId>, m: ModuleId)
    requires Inv(graph, states, stack + [m], done)
    requires forall d :: d in Dependencies(graph, m) ==> d in done
    ensures Inv(graph, states[m := DONE], stack, done + [m])
  {
    assert (stack + [m])[|stack|] == m;
    assert forall x: ModuleId :: x in stack + [m] <==> x in stack || x == m;
    assert m !in stack by {
      assert forall i :: 0 <= i < |stack| ==> (stack + [m])[i] != (stack + [m])[|stack|];
      assert forall i :: 0 <= i < |stack| ==> (stack + [m])[i] == stack[i];
    }
    assert forall i :: 0 <= i < |stack| ==> (stack + [m])[i] == stack[i];
    assert DoneOk(graph, states[m := DONE], done + [m]) by {
      var after := done + [m];
      assert forall x: ModuleId :: x in after <==> x in done || x == m;
      forall i, d | 0 <= i < |after| && d in Dependencies(graph, after[i])
        ensures d in after[..i]
      {
        assert i < |done| ==> after[..i] == done[..i];
        assert i == |done| ==> after[..i] == done;
      }
    }
  }

  lemma ClosesCycle(graph: Imports, stack: seq<ModuleId>, start: nat, d: ModuleId)
    requires Distinct(stack) && start < |stack| && stack[start] == d
    requires forall i :: 0 <= i < |stack| - 1 ==> stack[i + 1] in Dependencies(graph, stack[i])
    requires d in Dependencies(graph, stack[|stack| - 1])
    ensures SimpleCycle(graph, stack[start..] + [d])
  {
    var c := stack[start..] + [d];
    assert c[..|c| - 1] == stack[start..];
    forall i | 0 <= i < |c| - 1
      ensures c[i + 1] in Dependencies(graph, c[i])
    {
      assert c[i] == stack[start + i];
    }
  }

  lemma FoundCycle(graph: Imports, states: map<ModuleId, nat>, stack: seq<ModuleId>, done: seq<ModuleId>, start: nat, d: ModuleId)
    requires Inv(graph, states, stack, done) && start < |stack| && stack[start] == d
    requires d in Dependencies(graph, stack[|stack| - 1])
    ensures SimpleCycle(graph, stack[start..] + [d])
  {
    hide SimpleCycle, DoneOk, Distinct;
    ClosesCycle(graph, stack, start, d);
  }

  lemma StateTells(graph: Imports, states: map<ModuleId, nat>, stack: seq<ModuleId>, done: seq<ModuleId>, m: ModuleId)
    requires Inv(graph, states, stack, done) && m in states
    ensures if states[m] == ACTIVE then m in stack else m in done
  {
    hide Distinct, Universe;
  }

  lemma DependencyKnown(graph: Imports, m: ModuleId, d: ModuleId)
    requires d in Dependencies(graph, m)
    ensures d in Universe(graph)
  {
    assert m in graph && d in graph[m];
  }

  lemma StatesKnown(graph: Imports, states: map<ModuleId, nat>, stack: seq<ModuleId>, done: seq<ModuleId>)
    requires Inv(graph, states, stack, done)
    ensures states.Keys <= Universe(graph)
  {
    hide StackOk, DoneOk, Universe;
  }

  /** Finished modules lie on no closed walk: each step goes strictly earlier in finishing order. */
  lemma DoneIsAcyclic(graph: Imports, states: map<ModuleId, nat>, done: seq<ModuleId>, c: seq<ModuleId>)
    requires DoneOk(graph, states, done) && ClosedWalk(graph, c)
    ensures c[0] !in done
  {
    if c[0] !in done {
      return;
    }
    var start :| 0 <= start < |done| && done[start] == c[0];
    var at := start;
    var k := 0;
    while k < |c| - 1
      invariant 0 <= k < |c| && 0 <= at < |done| && done[at] == c[k]
      invariant at <= start - k
    {
      assert c[k + 1] in Dependencies(graph, done[at]);
      assert c[k + 1] in done[..at];
      var next :| 0 <= next < at && done[next] == c[k + 1];
      at := next;
      k := k + 1;
    }
  }

  /** The index of the first occurrence. */
  method Position(s: seq<ModuleId>, m: ModuleId) returns (index: nat)
    requires m in s
    ensures index < |s| && s[index] == m && m !in s[..index]
  {
    index := 0;
    while s[index] != m
      invariant index < |s| && m !in s[..index]
      decreases |s| - index
    {
      index := index + 1;
    }
  }

  /** The next key of an ordered map. */
  method LeastKey(keys: set<ModuleId>) returns (least: ModuleId)
    requires keys != {}
    ensures least in keys && forall k :: k in keys ==> least <= k
  {
    least :| least in keys;
    var rest := keys - {least};
    while rest != {}
      invariant rest <= keys && least in keys && forall k :: k in keys ==> least <= k || k in rest
    {
      var other :| other in rest;
      if other < least {
        least := other;
      }
      rest := rest - {other};
    }
  }

  class CycleSearch {
    const graph: Imports
    var states: map<ModuleId, nat>
    var stack: seq<ModuleId>
    ghost var done: seq<ModuleId>

    constructor (graph: Imports)
      ensures this.graph == graph && states == map[] && stack == [] && done == []
    {
      this.graph := graph;
      states, stack, done := map[], [], [];
    }

    method Visit(module_: ModuleId) returns (cycle: Option<seq<ModuleId>>)
      requires Inv(graph, states, stack, done)
      requires module_ in Universe(graph) && module_ !in states
      requires stack != [] ==> module_ in Dependencies(graph, stack[|stack| - 1])
      modifies this
      ensures cycle.Some? ==> SimpleCycle(graph, cycle.value)
      ensures cycle.None? ==> Inv(graph, states, stack, done) && stack == old(stack) && old(done) <= done && module_ in done
      ensures cycle.None? ==> old(states.Keys) <= states.Keys
      decreases Universe(graph) - states.Keys
    {
      hide Inv, Universe, SimpleCycle;
      BeginKeepsInv(graph, states, stack, done, module_);
      states := states[module_ := ACTIVE];
      stack := stack + [module_];
      StatesKnown(graph, states, stack, done);
      var dependencies := Dependencies(graph, module_);
      for i := 0 to |dependencies|
        invariant Inv(graph, states, stack, done)
        invariant stack == old(stack) + [module_] && old(done) <= done
        invariant old(states.Keys) + {module_} <= states.Keys
        invariant forall j :: 0 <= j < i ==> dependencies[j] in done
      {
        var dependency := dependencies[i];
        DependencyKnown(graph, module_, dependency);
        if dependency in states {
          StateTells(graph, states, stack, done, dependency);
        }
        if dependency !in states {
          cycle := Visit(dependency);
          if cycle.Some? {
            return;
          }
        } else if states[dependency] == ACTIVE {
          var start := Position(stack, dependency);
          cycle := Some(stack[start..] + [dependency]);
          FoundCycle(graph, states, stack, done, start, dependency);
          return;
        }
      }
      FinishKeepsInv(graph, states, old(stack), done, module_);
      stack := stack[..|stack| - 1];
      states := states[module_ := DONE];
      done := done + [module_];
      cycle := None;
    }
  
    method Run() returns (cycle: Option<seq<ModuleId>>)
      requires states == map[] && stack == [] && done == []
      modifies this
      ensures cycle.Some? ==> SimpleCycle(graph, cycle.value)
      ensures cycle.None? <==> forall c :: !ClosedWalk(graph, c)
    {
      var remaining := graph.Keys;
      while remaining != {}
        invariant Inv(graph, states, stack, done) && stack == []
        invariant remaining <= graph.Keys
        invariant forall m :: m in graph.Keys && m !in remaining ==> m in done
      {
        var key := LeastKey(remaining);
        if key !in states {
          cycle := Visit(key);
          if cycle.Some? {
            return;
          }
        }
        remaining := remaining - {key};
      }
      cycle := None;
      forall c
        ensures !ClosedWalk(graph, c)
      {
        if ClosedWalk(graph, c) {
          assert c[0 + 1] in Dependencies(graph, c[0]);
          DoneIsAcyclic(graph, states, done, c);
          assert false;
        }
      }
    }
  }

  /** A returned list is a real import cycle; no list is returned exactly when there is none. */
  method FindModuleDependencyCycle(graph: Imports) returns (cycle: Option<seq<ModuleId>>)
    ensures cycle.Some? ==> SimpleCycle(graph, cycle.value)
    ensures cycle.None? <==> forall c :: !ClosedWalk(graph, c)
  {
    var search := new CycleSearch(graph);
    cycle := search.Run();
  }
}
