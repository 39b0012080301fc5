/** Which root functions a body mentions, the graph built from that, and what the emitted chunk makes of every mention. */
module FunctionDependencies {
  import opened Wrappers
  import opened Graphs
  import opened Occurrences
  import FC = FunctionComponents
  import S = Schedule

  // ---- the collectors ----

  /** Collecting adds the numbers of the functions among the items that occur, and nothing else. */
  ghost predicate Adds(before: set<nat>, after: set<nat>, functions: map<DefId, nat>, occurs: DefId -> bool) {
    forall f :: f in after <==> f in before || exists d :: d in functions && functions[d] == f && occurs(d)
  }

  /** The expression's own item, then what is inside. */
  lemma OwnThenInside(e: Expr, before: set<nat>, own: set<nat>, after: set<nat>, functions: map<DefId, nat>)
    requires hide *; own == before + if e.target.Some? && e.target.value in functions then {functions[e.target.value]} else {}
    requires Adds(own, after, functions, d => InKind(d, e.kind))
    ensures Adds(before, after, functions, d => InExpr(d, e))
  {
    hide InKind;
    if e.target.Some? && e.target.value in functions {
      assert InExpr(e.target.value, e);
    }
    forall f | f in before || exists d :: d in functions && functions[d] == f && InExpr(d, e) ensures f in after {
      if f !in before {
        var d :| d in functions && functions[d] == f && InExpr(d, e);
        assert d in functions && functions[d] == f && (e.target == Some(d) || InKind(d, e.kind));
      }
    }
  }

  class Collector {
    const functions: map<DefId, nat>
    var dependencies: set<nat>

    constructor (functions: map<DefId, nat>)
      ensures this.functions == functions && dependencies == {}
    {
      this.functions := functions;
      dependencies := {};
    }

    method CollectBlock(b: Block)
      modifies this
      ensures Adds(old(dependencies), dependencies, functions, d => OccursInBlock(d, b))
      ensures Adds(old(dependencies), dependencies, functions, d => InBlock(d, b))
      decreases b
    {
      hide InStmt, InExpr, OccursInBlock;
      for i := 0 to |b.stmts|
        invariant Adds(old(dependencies), dependencies, functions, d => exists k :: 0 <= k < i && InStmt(d, b.stmts[k]))
      {
        CollectStmt(b.stmts[i]);
      }
      CollectOption(b.tail);
      forall d ensures InBlock(d, b) <==> OccursInBlock(d, b) {
        BlockOccurrences(d, b);
      }
    }

    method CollectStmt(s: Stmt)
      modifies this
      ensures Adds(old(dependencies), dependencies, functions, d => InStmt(d, s))
      decreases s
    {
      hide InExpr, InBlock, InPattern, InOption;
      match s {
        case Lua(_) =>
        case Let(init) => CollectExpr(init);
        case ExprStmt(e) => CollectExpr(e);
        case Return(result) => CollectOption(result);
        case Break(result) => CollectOption(result);
        case Continue =>
        case While(cond, body) =>
          CollectExpr(cond);
          CollectBlock(body);
        case LoopStmt(body) => CollectBlock(body);
        case For(iter, body) =>
          CollectExpr(iter);
          CollectBlock(body);
        case WhileLet(pat, subject, body) =>
          CollectPattern(pat);
          CollectExpr(subject);
          CollectBlock(body);
      }
    }

    method CollectOption(e: Option<Expr>)
      modifies this
      ensures Adds(old(dependencies), dependencies, functions, d => InOption(d, e))
      decreases e
    {
      if e.Some? {
        CollectExpr(e.value);
      }
    }

    method CollectExprs(es: seq<Expr>)
      modifies this
      ensures Adds(old(dependencies), dependencies, functions, d => exists k :: 0 <= k < |es| && InExpr(d, es[k]))
      decreases es
    {
      hide InExpr;
      for i := 0 to |es|
        invariant Adds(old(dependencies), dependencies, functions, d => exists k :: 0 <= k < i && InExpr(d, es[k]))
      {
        CollectExpr(es[i]);
      }
    }

    method CollectExpr(e: Expr)
      modifies this
      ensures Adds(old(dependencies), dependencies, functions, d => InExpr(d, e))
      decreases e
    {
      hide InKind;
      if e.target.Some? && e.target.value in functions {
        dependencies := dependencies + {functions[e.target.value]};
      }
      ghost var before, own := old(dependencies), dependencies;
      CollectKind(e.kind);
      OwnThenInside(e, before, own, dependencies, functions);
    }

    method CollectKind(k: Kind)
      modifies this
      ensures Adds(old(dependencies), dependencies, functions, d => InKind(d, k))
      decreases k, 1
    {
      if k.If? || k.IfLet? || k.BlockExpr? || k.Loop? || k.Closure? {
        CollectBodies(k);
      } else if k.Call? || k.MethodCall? || k.StructLit? || k.MapLit? || k.Match? || k.VecLit? {
        CollectLists(k);
      } else {
        CollectOperands(k);
      }
    }

    method CollectOperands(k: Kind)
      requires k.Atom? || k.Unary? || k.Try? || k.Binary? || k.Field? || k.Range? || k.Index? || k.Assign?
      modifies this
      ensures Adds(old(dependencies), dependencies, functions, d => InKind(d, k))
      decreases k, 0
    {
      hide InExpr;
      match k {
        case Atom =>
        case Unary(operand) => CollectExpr(operand);
        case Try(operand) => CollectExpr(operand);
        case Binary(lhs, rhs) =>
          CollectExpr(lhs);
          CollectExpr(rhs);
        case Field(base) => CollectExpr(base);
        case Range(start, end) =>
          CollectExpr(start);
          CollectExpr(end);
        case Index(base, index) =>
          CollectExpr(base);
          CollectExpr(index);
        case Assign(place, value) =>
          CollectExpr(place);
          CollectExpr(value);
      }
    }

    method CollectLists(k: Kind)
      requires k.Call? || k.MethodCall? || k.StructLit? || k.MapLit? || k.Match? || k.VecLit?
      modifies this
      ensures Adds(old(dependencies), dependencies, functions, d => InKind(d, k))
      decreases k, 0
    {
      hide InExpr, InArm, InEntry;
      match k {
        case Call(callee, args) =>
          CollectExpr(callee);
          CollectExprs(args);
        case MethodCall(receiver, args) =>
          CollectExpr(receiver);
          CollectExprs(args);
        case StructLit(values) => CollectExprs(values);
        case MapLit(entries) => CollectEntries(entries);
        case Match(scrut, arms) =>
          CollectExpr(scrut);
          CollectArms(arms);
        case VecLit(elements) => CollectExprs(elements);
      }
    }

    method CollectBodies(k: Kind)
      requires k.If? || k.IfLet? || k.BlockExpr? || k.Loop? || k.Closure?
      modifies this
      ensures Adds(old(dependencies), dependencies, functions, d => InKind(d, k))
      decreases k, 0
    {
      hide InExpr, InBlock, InPattern, InElse;
      match k {
        case Closure(body) =>
          match body {
            case ExprBody(e) => CollectExpr(e);
            case BlockBody(b) => CollectBlock(b);
          }
        case If(cond, thn, els) =>
          CollectExpr(cond);
          CollectBlock(thn);
          CollectElse(els);
        case IfLet(pat, subject, thn, els) =>
          CollectPattern(pat);
          CollectExpr(subject);
          CollectBlock(thn);
          CollectElse(els);
        case BlockExpr(b) => CollectBlock(b);
        case Loop(b) => CollectBlock(b);
      }
    }

    method CollectEntries(entries: seq<Entry>)
      modifies this
      ensures Adds(old(dependencies), dependencies, functions, d => exists i :: 0 <= i < |entries| && InEntry(d, entries[i]))
      decreases entries
    {
      hide InEntry;
      for i := 0 to |entries|
        invariant Adds(old(dependencies), dependencies, functions, d => exists k :: 0 <= k < i && InEntry(d, entries[k]))
      {
        CollectEntry(entries[i]);
      }
    }

    method CollectEntry(e: Entry)
      modifies this
      ensures Adds(old(dependencies), dependencies, functions, d => InEntry(d, e))
      decreases e
    {
      CollectExpr(e.key);
      CollectExpr(e.value);
    }

    method CollectArms(arms: seq<Arm>)
      modifies this
      ensures Adds(old(dependencies), dependencies, functions, d => exists i :: 0 <= i < |arms| && InArm(d, arms[i]))
      decreases arms
    {
      hide InArm;
      for i := 0 to |arms|
        invariant Adds(old(dependencies), dependencies, functions, d => exists k :: 0 <= k < i && InArm(d, arms[k]))
      {
        CollectArm(arms[i]);
      }
    }

    method CollectArm(arm: Arm)
      modifies this
      ensures Adds(old(dependencies), dependencies, functions, d => InArm(d, arm))
      decreases arm
    {
      hide InExpr, InPattern, InOption;
      CollectPatterns(arm.pats);
      CollectOption(arm.guard);
      CollectExpr(arm.body);
    }

    method CollectElse(els: Option<Else>)
      modifies this
      ensures Adds(old(dependencies), dependencies, functions, d => InElse(d, els))
      decreases els
    {
      match els {
        case None =>
        case Some(ElseBlock(b)) => CollectBlock(b);
        case Some(ElseIf(e)) => CollectExpr(e);
      }
    }

    method CollectPatterns(ps: seq<Pattern>)
      modifies this
      ensures Adds(old(dependencies), dependencies, functions, d => exists k :: 0 <= k < |ps| && InPattern(d, ps[k]))
      decreases ps
    {
      hide InPattern;
      for i := 0 to |ps|
        invariant Adds(old(dependencies), dependencies, functions, d => exists k :: 0 <= k < i && InPattern(d, ps[k]))
      {
        CollectPattern(ps[i]);
      }
    }

    method CollectPattern(p: Pattern)
      modifies this
      ensures Adds(old(dependencies), dependencies, functions, d => InPattern(d, p))
      decreases p
    {
      hide InExpr;
      match p {
        case LiteralPat(e) => CollectExpr(e);
        case RangePat(lo, hi) =>
          CollectExpr(lo);
          CollectExpr(hi);
        case TupleVariant(elems) => CollectPatterns(elems);
        case StructVariant(fields) => CollectPatterns(fields);
        case _ =>
      }
    }
  }

  // ---- the graph ----

  /** Which functions, by number, occur in a body. */
  ghost predicate IsGraphOf(g: Graph, definitions: seq<DefId>, bodies: seq<Block>)
    requires hide *; |definitions| == |bodies|
  {
    hide *;
    && |g| == |bodies|
    && forall i, j: nat :: 0 <= i < |g| ==> (j in g[i] <==> Mentions(definitions, bodies[i], j))
  }

  /** The body mentions function number j. */
  ghost predicate Mentions(definitions: seq<DefId>, body: Block, j: nat) {
    hide *;
    j < |definitions| && OccursInBlock(definitions[j], body)
  }

  ghost predicate AllDifferent(definitions: seq<DefId>) {
    forall i, j :: 0 <= i < j < |definitions| ==> definitions[i] != definitions[j]
  }

  /** The number of every definition. */
  ghost predicate Numbers(functions: map<DefId, nat>, definitions: seq<DefId>, n: nat)
    requires n <= |definitions|
  {
    && (forall i :: 0 <= i < n ==> definitions[i] in functions && functions[definitions[i]] == i)
    && (forall d :: d in functions ==> functions[d] < n && definitions[functions[d]] == d)
  }

  method NumberFunctions(definitions: seq<DefId>) returns (functions: map<DefId, nat>)
    requires AllDifferent(definitions)
    ensures Numbers(functions, definitions, |definitions|)
  {
    functions := map[];
    for i := 0 to |definitions|
      invariant Numbers(functions, definitions, i)
    {
      functions := functions[definitions[i] := i];
    }
  }

  /** The elements of a set in ascending order. */
  method Ascending(s: set<nat>) returns (r: seq<nat>)
    ensures FC.StrictlySorted(r) && forall x :: x in r <==> x in s
  {
    var rest := s;
    var list: seq<nat> := [];
    while rest != {}
      invariant FC.Distinct(list) && rest <= s
      invariant forall x :: x in list <==> x in s && x !in rest
      decreases |rest|
    {
      var x :| x in rest;
      list := list + [x];
      rest := rest - {x};
    }
    r := FC.Sort(list);
  }

  method DependencyGraph(definitions: seq<DefId>, bodies: seq<Block>) returns (g: seq<seq<nat>>)
    requires AllDifferent(definitions) && |definitions| == |bodies|
    ensures IsGraphOf(g, definitions, bodies) && InRange(g)
    ensures forall i :: 0 <= i < |g| ==> FC.StrictlySorted(g[i])
  {
    hide InBlock, OccursInBlock;
    var functions := NumberFunctions(definitions);
    g := [];
    for i := 0 to |bodies|
      invariant |g| == i && forall k :: 0 <= k < i ==> FC.StrictlySorted(g[k])
      invariant forall k, j: nat :: 0 <= k < i ==> (j in g[k] <==> Mentions(definitions, bodies[k], j))
    {
      var collector := new Collector(functions);
      collector.CollectBlock(bodies[i]);
      var dependencies := Ascending(collector.dependencies);
      FoundExactly(functions, definitions, bodies[i], collector.dependencies);
      g := g + [dependencies];
    }
    GraphInRange(g, definitions, bodies);
  }

  lemma GraphInRange(g: Graph, definitions: seq<DefId>, bodies: seq<Block>)
    requires hide *; |definitions| == |bodies| && IsGraphOf(g, definitions, bodies)
    ensures InRange(g)
  {
    hide InBlock, OccursInBlock;
    forall v, d | 0 <= v < |g| && d in g[v] ensures d < |g| {
      assert Mentions(definitions, bodies[v], d);
    }
  }

  lemma FoundExactly(functions: map<DefId, nat>, definitions: seq<DefId>, body: Block, found: set<nat>)
    requires hide *; Numbers(functions, definitions, |definitions|) && Adds({}, found, functions, d => OccursInBlock(d, body))
    ensures forall j: nat :: j in found <==> Mentions(definitions, body, j)
  {
    hide InBlock, OccursInBlock;
    forall j: nat | Mentions(definitions, body, j) ensures j in found {
      assert definitions[j] in functions && functions[definitions[j]] == j;
    }
  }

  // ---- from bodies to the emitted chunk ----

  /** In the scope that function i captured, the name of function j denotes the slot that ends up holding function j. */
  ghost predicate Sees(c: S.Chunk, i: nat, j: nat) {
    && i in c.scope && c.scope[i] < |c.slots| && c.slots[c.scope[i]].Closure? && c.slots[c.scope[i]].name == i
    && j in c.slots[c.scope[i]].scope && j in c.scope && c.slots[c.scope[i]].scope[j] == c.scope[j]
    && c.scope[j] < |c.slots| && c.slots[c.scope[j]].Closure? && c.slots[c.scope[j]].name == j
  }

  /**
   * The whole path from bodies to the emitted functions: collect, find components, emit. Running the chunk
   * touches no global, every function is stored under its own name, and wherever a body mentions a function,
   * the name denotes that function.
   */
  method EmitRoot(definitions: seq<DefId>, bodies: seq<Block>) returns (events: seq<S.Event>)
    requires AllDifferent(definitions) && |definitions| == |bodies|
    ensures var r := S.Run(S.Chunk(map[], []), events);
            && r.Some?
            && (forall i: nat :: i < |bodies| ==> i in r.value.scope && r.value.scope[i] < |r.value.slots|
                                                  && r.value.slots[r.value.scope[i]].Closure? && r.value.slots[r.value.scope[i]].name == i)
            && forall i: nat, j: nat :: i < |bodies| && Mentions(definitions, bodies[i], j) ==> Sees(r.value, i, j)
  {
    hide InBlock, OccursInBlock, S.Run, S.Events;
    var g := DependencyGraph(definitions, bodies);
    var groups := FC.Components(g);
    events := S.EmitRootFunctions(groups);
    var c := S.Chunk(map[], []);
    if |bodies| == 0 {
      NoFunctions(g, groups);
    }
    forall i: nat | i < |bodies|
      ensures S.Run(c, events).Some? && S.Resolved(g, S.Run(c, events).value, i) && forall d :: d in g[i] ==> S.Resolved(g, S.Run(c, events).value, d)
    {
      S.EveryReferenceResolves(g, groups, i);
    }
    if |bodies| > 0 {
      S.EveryReferenceResolves(g, groups, 0);
    }
    var r := S.Run(c, events);
    forall i: nat | i < |bodies|
      ensures i in r.value.scope && r.value.scope[i] < |r.value.slots| && r.value.slots[r.value.scope[i]].Closure? && r.value.slots[r.value.scope[i]].name == i
    {
      assert S.Resolved(g, r.value, i);
    }
    forall i: nat, j: nat | i < |bodies| && Mentions(definitions, bodies[i], j) ensures Sees(r.value, i, j) {
      assert j in g[i];
      assert S.Resolved(g, r.value, i) && S.Resolved(g, r.value, j);
    }
  }

  lemma NoFunctions(g: Graph, groups: seq<seq<nat>>)
    requires g == [] && InRange(g) && FC.IsSchedule(g, groups)
    ensures S.Run(S.Chunk(map[], []), S.Events(groups)).Some?
  {
    S.ScheduleResolves(g, groups, |groups|);
    assert groups[..|groups|] == groups;
  }
}
