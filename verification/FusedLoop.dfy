/** Lowering an iterator chain to one Lua loop. */
module FusedLoop {
  import opened Wrappers
  import opened LuaIr
  import opened Lowering
  import opened LoweringScope
  import opened LoweringMarks
  import opened LoweringState
  import opened LoweringValues
  import opened LoweringPatterns
  import opened LoweringSteps
  import opened LoweringControl
  import opened LoweringBlocks
  import opened LoweringMatch
  import opened LoweringProof
  import opened LuaFrame
  import opened RuaFrame
  import I = IterChains
  import R = RuaLang
  import L = LuaRun
  import P = PatternTests
  import E = Encoding

  /** A closure with one parameter, whose body is inlined where it is called. */
  datatype Closure = Closure(param: string, body: R.Expr)

  datatype Adapter =
    | Map(k: Closure)
    | Filter(k: Closure)
    | FilterMap(k: Closure)
    | Enumerate
    | Skip(limit: R.Expr)
    | Take(limit: R.Expr)
    | Rev

  datatype Consumer =
    | Collect
    | Fold(init: R.Expr, acc: string, param: string, body: R.Expr)
    | Count
    | Any(k: Closure)
    | All(k: Closure)
    | Find(k: Closure)
    | Next

  /** The Lua variables that keep a stage's counter and limit. */
  datatype Cell = Cell(counter: string, limit: string)

  // ---- the loop body ----

  function Call(k: Closure, input: string, c: Ctx): Ctx {
    c.(sub := c.sub[k.param := input])
  }

  function Plus1(x: Expr): Expr {
    Binary(x, Add, Integer(1))
  }

  function Bump(counter: string): L.Stmt {
    L.Assign(Name(counter), Plus1(Name(counter)))
  }

  /** What the consumer does with the item. */
  ghost function SinkCode(cons: Consumer, item: string, res: string, c: Ctx, n: nat): (r: Gen)
    ensures r.next >= n
  {
    hide *;
    match cons
    case Collect =>
      Gen([L.Assign(Index(Name(res), Plus1(Field(Name(res), "n"))), Name(item)),
           L.Assign(Field(Name(res), "n"), Plus1(Field(Name(res), "n")))], n)
    case Fold(_, acc, param, body) =>
      var g := Inline(body, c.(sub := c.sub[acc := res][param := item]), n);
      Gen(g.code + [L.Assign(Name(res), g.e)], g.next)
    case Count => Gen([Bump(res)], n)
    case Any(k) =>
      var g := Inline(k.body, Call(k, item, c), n);
      Gen(g.code + [When(g.e, [L.Assign(Name(res), Bool(true))] + [L.Break])], g.next)
    case All(k) =>
      var g := Inline(k.body, Call(k, item, c), n);
      Gen(g.code + [When(Unary(Not, g.e), [L.Assign(Name(res), Bool(false))] + [L.Break])], g.next)
    case Find(k) =>
      var g := Inline(k.body, Call(k, item, c), n);
      Gen(g.code + [When(g.e, [L.Assign(Name(res), Name(item))] + [L.Break])], g.next)
    case Next => Gen([L.Assign(Name(res), Name(item))] + [L.Break], n)
  }

  function PairExpr(counter: string, item: string): Expr {
    Table([Value(Name(counter)), Value(Name(item)), Named("n", Integer(2))])
  }

  function TakeTest(cell: Cell): L.Stmt {
    When(Binary(Name(cell.counter), Ge, Name(cell.limit)), [L.Break])
  }

  /** The stages in order; everything after a filter is inside its guard. */
  ghost function BodyCode(ads: seq<Adapter>, cells: seq<Cell>, cons: Consumer, item: string, res: string, c: Ctx, n: nat): (r: Gen)
    requires |cells| == |ads|
    ensures r.next >= n
    decreases |ads|
  {
    hide *;
    if ads == [] then SinkCode(cons, item, res, c, n)
    else match ads[0]
      case Map(k) =>
        var g := Inline(k.body, Call(k, item, c), n);
        var rest := BodyCode(ads[1..], cells[1..], cons, item, res, c, g.next);
        Gen(g.code + ([L.Assign(Name(item), g.e)] + rest.code), rest.next)
      case Filter(k) =>
        var g := Inline(k.body, Call(k, item, c), n);
        var rest := BodyCode(ads[1..], cells[1..], cons, item, res, c, g.next);
        Gen(g.code + [When(g.e, rest.code)], rest.next)
      case FilterMap(k) =>
        var g := Inline(k.body, Call(k, item, c), n);
        var rest := BodyCode(ads[1..], cells[1..], cons, item, res, c, g.next);
        Gen(g.code + [When(Binary(g.e, Ne, Nil), [L.Assign(Name(item), g.e)] + rest.code)], rest.next)
      case Enumerate =>
        var rest := BodyCode(ads[1..], cells[1..], cons, item, res, c, n);
        Gen([L.Assign(Name(item), PairExpr(cells[0].counter, item))] + ([Bump(cells[0].counter)] + rest.code), rest.next)
      case Skip(_) =>
        var rest := BodyCode(ads[1..], cells[1..], cons, item, res, c, n);
        Gen([L.If([L.Branch(Binary(Name(cells[0].counter), Lt, Name(cells[0].limit)), [Bump(cells[0].counter)])], rest.code)], rest.next)
      case Take(_) =>
        var rest := BodyCode(ads[1..], cells[1..], cons, item, res, c, n);
        Gen([TakeTest(cells[0])] + ([Bump(cells[0].counter)] + rest.code), rest.next)
      case Rev => BodyCode(ads[1..], cells[1..], cons, item, res, c, n)
  }

  /** After the body, every `take` that is satisfied ends the loop. */
  function PostCode(ads: seq<Adapter>, cells: seq<Cell>): Code
    requires |cells| == |ads|
  {
    if ads == [] then []
    else (if ads[0].Take? then [TakeTest(cells[0])] else []) + PostCode(ads[1..], cells[1..])
  }

  // ---- what the closures mean ----

  /** Calling a closure: its value, where it has one and leaves the variables alone. */
  function FnOf(k: Closure, env: R.Env, w: World, fuel: nat): I.Fn {
    hide *;
    v =>
      var r := R.Eval(k.body, env + [R.Slot(k.param, v)], w.rf, fuel);
      if r.Done? && r.env == env + [R.Slot(k.param, v)] then Some(r.v) else None
  }

  function FoldOf(cons: Consumer, env: R.Env, w: World, fuel: nat): (R.Val, R.Val) -> Option<R.Val>
    requires cons.Fold?
  {
    hide *;
    (x, v) =>
      var inner := env + [R.Slot(cons.acc, x)] + [R.Slot(cons.param, v)];
      var r := R.Eval(cons.body, inner, w.rf, fuel);
      if r.Done? && r.env == inner then Some(r.v) else None
  }

  function StageOf(ad: Adapter, limit: int, env: R.Env, w: World, fuel: nat): I.Stage {
    match ad
    case Map(k) => I.Map(FnOf(k, env, w, fuel))
    case Filter(k) => I.Filter(FnOf(k, env, w, fuel))
    case FilterMap(k) => I.FilterMap(FnOf(k, env, w, fuel))
    case Enumerate => I.Enumerate
    case Skip(_) => I.Skip(limit)
    case Take(_) => I.Take(limit)
    case Rev => I.Rev
  }

  function StagesOf(ads: seq<Adapter>, limits: seq<int>, env: R.Env, w: World, fuel: nat): (r: seq<I.Stage>)
    requires |limits| == |ads|
    ensures |r| == |ads|
  {
    hide *;
    if ads == [] then [] else [StageOf(ads[0], limits[0], env, w, fuel)] + StagesOf(ads[1..], limits[1..], env, w, fuel)
  }

  function SinkOf(cons: Consumer, init: R.Val, env: R.Env, w: World, fuel: nat): I.Sink {
    hide *;
    match cons
    case Collect => I.Collect
    case Fold(_, _, _, _) => I.Fold(init, FoldOf(cons, env, w, fuel))
    case Count => I.Count
    case Any(k) => I.Any(FnOf(k, env, w, fuel))
    case All(k) => I.All(FnOf(k, env, w, fuel))
    case Find(k) => I.Find(FnOf(k, env, w, fuel))
    case Next => I.Next
  }

  // ---- which chains are in the fragment ----

  /** A parameter is a new variable, and the body is one that can be lowered; it assigns nothing. */
  ghost predicate ClosureFits(k: Closure, q: Scope) {
    && k.param !in q.live && k.param !in q.mutable
    && Fits(k.body, q.(live := q.live + {k.param}, may := {}), false)
  }

  ghost predicate AdapterFits(ad: Adapter, q: Scope) {
    match ad
    case Map(k) => ClosureFits(k, q)
    case Filter(k) => ClosureFits(k, q)
    case FilterMap(k) => ClosureFits(k, q)
    case _ => true
  }

  ghost predicate ConsumerFits(cons: Consumer, q: Scope) {
    match cons
    case Fold(_, acc, param, body) =>
      && acc != param && acc !in q.live && acc !in q.mutable && param !in q.live && param !in q.mutable
      && Fits(body, q.(live := q.live + {acc} + {param}, may := {}), false)
    case Any(k) => ClosureFits(k, q)
    case All(k) => ClosureFits(k, q)
    case Find(k) => ClosureFits(k, q)
    case _ => true
  }

  // ---- the variables of the loop ----

  /** The name stands for no source variable that is still mentioned, and code generated from here on leaves it alone. */
  ghost predicate Free(a: State, z: string) {
    && (forall x :: R.Get(a.env, x).Some? && x in a.c.mentioned ==> a.c.Res(x) != z)
    && Fixed(a.c, a.q, a.n, z)
  }

  ghost predicate Cellular(a: State, z: string, v: L.Value) {
    Free(a, z) && L.Lookup(a.s, z) == Some(v)
  }

  function Used(ad: Adapter, cell: Cell): set<string> {
    if ad.Enumerate? then {cell.counter} else if ad.Skip? || ad.Take? then {cell.counter, cell.limit} else {}
  }

  function CellNames(ads: seq<Adapter>, cells: seq<Cell>): set<string>
    requires |cells| == |ads|
  {
    if ads == [] then {} else Used(ads[0], cells[0]) + CellNames(ads[1..], cells[1..])
  }

  /** No two cells share a variable. */
  ghost predicate CellsApart(ads: seq<Adapter>, cells: seq<Cell>)
    requires |cells| == |ads|
  {
    ads == [] ||
    (&& ((ads[0].Skip? || ads[0].Take?) ==> cells[0].counter != cells[0].limit)
     && Used(ads[0], cells[0]) !! CellNames(ads[1..], cells[1..])
     && CellsApart(ads[1..], cells[1..]))
  }

  ghost predicate CellHolds(s: L.Store, ad: Adapter, cell: Cell, limit: int, count: int) {
    && (ad.Enumerate? || ad.Skip? || ad.Take? ==> L.Lookup(s, cell.counter) == Some(L.IntV(count)))
    && (ad.Skip? || ad.Take? ==> L.Lookup(s, cell.limit) == Some(L.IntV(limit)))
  }

  ghost predicate CellsHold(s: L.Store, ads: seq<Adapter>, cells: seq<Cell>, limits: seq<int>, counts: seq<int>)
    requires |cells| == |ads| && |limits| == |ads| && |counts| == |ads|
  {
    ads == [] ||
    (CellHolds(s, ads[0], cells[0], limits[0], counts[0]) && CellsHold(s, ads[1..], cells[1..], limits[1..], counts[1..]))
  }

  lemma {:induction false} CellsKept(s: L.Store, t: L.Store, ads: seq<Adapter>, cells: seq<Cell>, limits: seq<int>, counts: seq<int>)
    requires |cells| == |ads| && |limits| == |ads| && |counts| == |ads|
    requires CellsHold(s, ads, cells, limits, counts)
    requires forall z :: z in CellNames(ads, cells) ==> L.Lookup(t, z) == L.Lookup(s, z)
    ensures CellsHold(t, ads, cells, limits, counts)
  {
    hide L.Lookup;
    if ads != [] {
      CellsKept(s, t, ads[1..], cells[1..], limits[1..], counts[1..]);
    }
  }

  /** Everything the body of the loop works on. */
  datatype Vars = Vars(ads: seq<Adapter>, cells: seq<Cell>, limits: seq<int>, item: string, res: string)
  {
    ghost predicate Valid() {
      && |cells| == |ads| && |limits| == |ads|
      && CellsApart(ads, cells) && item !in CellNames(ads, cells) && res !in CellNames(ads, cells) && item != res
    }

    function Names(): set<string>
      requires |cells| == |ads|
    {
      CellNames(ads, cells) + {item, res}
    }

    function Rest(): Vars
      requires |cells| == |ads| && |limits| == |ads| && ads != []
    {
      Vars(ads[1..], cells[1..], limits[1..], item, res)
    }

    ghost predicate At(a: State, counts: seq<int>, v: R.Val, acc: R.Val) {
      && Valid() && |counts| == |ads|
      && Ready(a) && (forall z :: z in Names() ==> Free(a, z))
      && CellsHold(a.s, ads, cells, limits, counts)
      && L.Lookup(a.s, item) == Some(E.Enc(v)) && E.Expressible(v)
      && L.Lookup(a.s, res) == Some(E.Enc(acc)) && E.Expressible(acc)
    }
  }

  /** From one state to a later one of the same place, changing only the given variables of the loop. */
  ghost predicate Moved(a: State, b: State, names: set<string>) {
    && b.c == a.c && b.q == a.q && b.n >= a.n && b.env == a.env && Extends(a.s, b.s)
    && Ready(b)
    && forall z :: Fixed(a.c, a.q, a.n, z) && z !in names ==> L.Lookup(b.s, z) == L.Lookup(a.s, z)
  }

  lemma MovedThen(a: State, b: State, d: State, x: set<string>, y: set<string>, names: set<string>)
    requires Ready(a) && Moved(a, b, x) && Moved(b, d, y) && x <= names && y <= names
    ensures Moved(a, d, names)
  {
    hide Ready, Fixed, L.Lookup;
    forall z | Fixed(a.c, a.q, a.n, z) && z !in names ensures L.Lookup(d.s, z) == L.Lookup(a.s, z) {
      FixedMonotone(a.c, a.q, a.n, b.q, b.n, z);
    }
  }

  /** The same, with the numbering of temporaries wound back. */
  lemma MovedBack(a: State, b: State, names: set<string>)
    requires Ready(a) && Moved(a, b, names)
    ensures Moved(a, a.(s := b.s), names)
  {
    hide Ready, Fixed, L.Lookup, NamesApart, Agree;
    ReadyIsLive(b);
    assert SameNames(a.env, a.env);
    ReadyNext(a, a.n, a.env, b.s);
  }

  lemma FreeLater(a: State, b: State, z: string)
    requires Free(a, z) && b.c == a.c && b.q == a.q && b.env == a.env && b.n >= a.n
    ensures Free(b, z)
  {
    FixedMonotone(a.c, a.q, a.n, b.q, b.n, z);
  }

  /** Storing into a variable of the loop. */
  lemma StoreCell(a: State, z: string, v: L.Value)
    requires Ready(a) && Free(a, z) && L.Bound(a.s, z)
    ensures var b := a.(s := L.Update(a.s, z, v));
            Moved(a, b, {z}) && L.Lookup(b.s, z) == Some(v) && forall y :: y != z ==> L.Lookup(b.s, y) == L.Lookup(a.s, y)
  {
    hide Ready, L.Lookup, Fixed, E.Enc, E.Expressible, L.Update;
    ReadyIsLive(a);
    var s1 := L.Update(a.s, z, v);
    AgreeUpdate(a.c, a.env, a.s, z, v, None);
    forall x | R.Get(a.env, x).Some? && x in a.c.mentioned ensures Holds(a.c, a.env, s1, x) {
      assert a.c.Res(x) != z;
    }
    assert SameNames(a.env, a.env) && Extends(a.s, s1);
    ReadyNext(a, a.n, a.env, s1);
    forall y | y != z ensures L.Lookup(s1, y) == L.Lookup(a.s, y) {
      LookupUpdate(a.s, z, v, y);
    }
  }

  /** One assignment to a variable of the loop. */
  lemma AssignCell(a: State, z: string, e: Expr, v: L.Value, w: World, fuel: nat)
    requires hide *; Ready(a) && Free(a, z) && L.Lookup(a.s, z).Some? && L.Eval(e, a.s, w.lf) == Some(v)
    ensures var o := L.Run([L.Assign(Name(z), e)], a.s, w.lf, fuel);
            && o.Normal? && Moved(a, a.(s := o.store), {z}) && |o.store| == |a.s|
            && L.Lookup(o.store, z) == Some(v) && forall y :: y != z ==> L.Lookup(o.store, y) == L.Lookup(a.s, y)
  {
    hide Ready, Free, L.Run, L.Eval, Moved;
    StoreCell(a, z, v);
    AssignRun(z, e, a.s, w.lf, fuel);
  }

  // ---- calling a closure ----

  /** A pure body, inlined where its parameters stand for variables of the loop. */
  lemma InlineHere(body: R.Expr, a: State, a2: State, x: R.Val, w: World, fuel: nat)
    requires hide *; Ready(a) && Ready(a2) && Compiled(w) && Fits(body, a2.q, false)
    requires a2.n == a.n && a2.s == a.s && a2.c.loc == a.c.loc && a2.c.tmp == a.c.tmp && a2.q.may == {} && a.q.live <= a2.q.live
    requires Opens(a.env, a2.env, a.q.live) && SameBelow(a.c, a2.c, a.q.live)
    requires |a.env| <= |a2.env| && a2.env[..|a.env|] == a.env
    requires R.Eval(body, a2.env, w.rf, fuel) == R.Done(x, a2.env)
    ensures var g := Inline(body, a2.c, a.n);
            var o := L.Run(g.code, a.s, w.lf, fuel);
            && o.Normal? && Moved(a, a.(n := g.next, s := o.store), {})
            && L.Eval(g.e, o.store, w.lf) == Some(E.Enc(x)) && E.Expressible(x)
            && DeclaresNew(g.code, a.c, a.q, a.n)
  {
    hide Ready, Compiled, Fits, L.Run, L.Eval, L.Lookup, R.Eval, Inline, E.Enc, E.Expressible, Fixed, Agree, DeclaresNew, SubClear,
      NamesApart, Opens, SameBelow, Bounded;
    var g := Inline(body, a2.c, a.n);
    var o := L.Run(g.code, a.s, w.lf, fuel);
    InlineCorrect(body, a2, w, fuel);
    ReadyIsLive(a2);
    InlineDeclares(body, a2.c, a.n, a2.q);
    DeclaresOutside(g.code, a.c, a.q, a2.c, a2.q, a.n);
    RunExtends(g.code, a.s, w.lf, fuel);
    assert SameNames(a2.env, a2.env);
    AgreeOut(a.env, a2.env, a.c, a2.c, a.q.live, a2.env, o.store, None);
    assert SameNames(a.env, a.env);
    ReadyNext(a, g.next, a.env, o.store);
    forall z | Fixed(a.c, a.q, a.n, z) ensures L.Lookup(o.store, z) == L.Lookup(a.s, z) {
      OldSameNaming(a.c, a2.c, a.q, a.n, z);
      FixedMonotone(a2.c, a.q, a.n, a2.q, a.n, z);
      InlineMarks(body, a2.c, a.n, a2.q, z, Written);
      KeepsFixed(g.code, a2.c, a2.q, a.n, g.next, a.s, w.lf, fuel, z);
    }
  }

  lemma KeepsFixed(code: Code, c: Ctx, q: Scope, n: nat, m: nat, s: L.Store, f: L.Functions, fuel: nat, z: string)
    requires hide *; NamesApart(c) && Fixed(c, q, n, z) && Bounded(code, c, q, n, m, Discard, z, Written)
    ensures var o := L.Run(code, s, f, fuel); o.Normal? ==> L.Lookup(o.store, z) == L.Lookup(s, z)
  {
    hide NamesApart, L.Run, L.Lookup, Fixed, Marks, Own;
    FixedNotOwn(c, q, n, m, z, Written);
    RunKeeps(code, s, f, fuel, z);
  }

  /** A state in which nothing may be assigned and a new variable stands for a variable of the loop. */
  lemma Bind1(a: State, x: string, z: string, v: R.Val)
    requires Ready(a) && a.q.may == {} && x !in a.q.live && x !in a.q.mutable
    requires Cellular(a, z, E.Enc(v)) && E.Expressible(v)
    ensures var b := State(a.c.(sub := a.c.sub[x := z]), a.q.(live := a.q.live + {x}), a.n, a.env + [R.Slot(x, v)], a.s);
            Ready(b) && Opens(a.env, b.env, a.q.live) && SameBelow(a.c, b.c, a.q.live)
  {
    hide Ready, L.Lookup, E.Enc, E.Expressible, Fixed, Opens, SameBelow;
    LetAlias(a, x, z, v);
    assert LetScopeOf(x, a.q) == a.q.(live := a.q.live + {x});
  }

  function Still(q: Scope): Scope {
    q.(may := {})
  }

  lemma ReadyStill(a: State)
    requires Ready(a)
    ensures Ready(a.(q := Still(a.q)))
  {
    hide Ready;
    ReadyWithout(a, a.q.may);
    assert a.q.Without(a.q.may) == Still(a.q);
  }

  lemma CellularStill(a: State, z: string, v: L.Value)
    requires Cellular(a, z, v)
    ensures Cellular(a.(q := Still(a.q)), z, v)
  {
    FixedMonotone(a.c, a.q, a.n, Still(a.q), a.n, z);
  }

  lemma ClosureRun(k: Closure, a: State, input: string, v: R.Val, w: World, fuel: nat)
    requires hide *; Ready(a) && Compiled(w) && ClosureFits(k, a.q) && Cellular(a, input, E.Enc(v)) && E.Expressible(v)
    requires FnOf(k, a.env, w, fuel)(v).Some?
    ensures var g := Inline(k.body, Call(k, input, a.c), a.n);
            var o := L.Run(g.code, a.s, w.lf, fuel);
            var x := FnOf(k, a.env, w, fuel)(v).value;
            && o.Normal? && Moved(a, a.(n := g.next, s := o.store), {})
            && L.Eval(g.e, o.store, w.lf) == Some(E.Enc(x)) && E.Expressible(x)
            && DeclaresNew(g.code, a.c, a.q, a.n)
  {
    hide Ready, Compiled, Fits, L.Run, L.Eval, R.Eval, Inline, E.Enc, E.Expressible, Cellular, DeclaresNew, Opens, SameBelow, Moved;
    ReadyStill(a);
    CellularStill(a, input, E.Enc(v));
    Bind1(a.(q := Still(a.q)), k.param, input, v);
    var b := State(Call(k, input, a.c), Still(a.q).(live := a.q.live + {k.param}), a.n, a.env + [R.Slot(k.param, v)], a.s);
    InlineHere(k.body, a, b, FnOf(k, a.env, w, fuel)(v).value, w, fuel);
  }

  lemma FoldRun(cons: Consumer, a: State, res: string, x: R.Val, item: string, v: R.Val, w: World, fuel: nat)
    requires hide *; cons.Fold? && Ready(a) && Compiled(w) && ConsumerFits(cons, a.q) && item != res
    requires Cellular(a, res, E.Enc(x)) && E.Expressible(x) && Cellular(a, item, E.Enc(v)) && E.Expressible(v)
    requires FoldOf(cons, a.env, w, fuel)(x, v).Some?
    ensures var g := Inline(cons.body, a.c.(sub := a.c.sub[cons.acc := res][cons.param := item]), a.n);
            var o := L.Run(g.code, a.s, w.lf, fuel);
            var y := FoldOf(cons, a.env, w, fuel)(x, v).value;
            && o.Normal? && Moved(a, a.(n := g.next, s := o.store), {})
            && L.Eval(g.e, o.store, w.lf) == Some(E.Enc(y)) && E.Expressible(y)
            && DeclaresNew(g.code, a.c, a.q, a.n)
  {
    hide Ready, Compiled, Fits, L.Run, L.Eval, R.Eval, Inline, E.Enc, E.Expressible, DeclaresNew, Opens, SameBelow, Moved, Cellular;
    ReadyStill(a);
    CellularStill(a, res, E.Enc(x));
    CellularStill(a, item, E.Enc(v));
    var a0 := a.(q := Still(a.q));
    Bind1(a0, cons.acc, res, x);
    var a1 := State(a.c.(sub := a.c.sub[cons.acc := res]), a0.q.(live := a.q.live + {cons.acc}), a.n, a.env + [R.Slot(cons.acc, x)], a.s);
    CellularBelow(a0, a1, cons.acc, res, x, item, E.Enc(v));
    Bind1(a1, cons.param, item, v);
    var a2 := State(a1.c.(sub := a1.c.sub[cons.param := item]), a1.q.(live := a1.q.live + {cons.param}), a.n, a1.env + [R.Slot(cons.param, v)], a.s);
    OpensTwice(a, a1, a2);
    InlineHere(cons.body, a, a2, FoldOf(cons, a.env, w, fuel)(x, v).value, w, fuel);
  }

  /** Another variable of the loop stays free when a parameter is bound to a different one. */
  lemma CellularBelow(a: State, b: State, x: string, z: string, u: R.Val, item: string, v: L.Value)
    requires Ready(a) && Cellular(a, item, v) && item != z && x !in a.q.live
    requires b == State(a.c.(sub := a.c.sub[x := z]), a.q.(live := a.q.live + {x}), a.n, a.env + [R.Slot(x, u)], a.s)
    ensures Cellular(b, item, v)
  {
    hide Ready, L.Lookup;
    OldSameNaming(a.c, b.c, a.q, a.n, item);
    FixedMonotone(b.c, a.q, a.n, b.q, a.n, item);
    forall y | R.Get(b.env, y).Some? && y in b.c.mentioned ensures b.c.Res(y) != item {
      GetAppend(a.env, R.Slot(x, u), y);
    }
  }

  lemma OpensTwice(a: State, a1: State, a2: State)
    requires Opens(a.env, a1.env, a.q.live) && Opens(a1.env, a2.env, a1.q.live) && a.q.live <= a1.q.live
    requires SameBelow(a.c, a1.c, a.q.live) && SameBelow(a1.c, a2.c, a1.q.live)
    ensures Opens(a.env, a2.env, a.q.live) && SameBelow(a.c, a2.c, a.q.live)
  {
  }

  // ---- one round ----

  /** The body has run: it broke or not, and the variables of the loop hold what they should. */
  ghost predicate Ends(a: State, vars: Vars, o: L.Outcome, counts: seq<int>, acc: R.Val, broke: bool) {
    hide Moved, CellsApart, CellNames, L.Lookup, E.Enc, E.Expressible;
    && Finished(o) && (broke <==> o.Broke?)
    && vars.Valid()
    && Moved(a, a.(s := o.store), vars.Names())
    && L.Lookup(o.store, vars.res) == Some(E.Enc(acc)) && E.Expressible(acc)
    && (!broke ==> |counts| == |vars.ads| && CellsHold(o.store, vars.ads, vars.cells, vars.limits, counts))
  }

  /** What a round of the list program says about it. */
  ghost predicate BodyEnds(a: State, vars: Vars, o: L.Outcome, p: I.Pushed, sink: I.Sink, acc: R.Val) {
    hide *;
    match p
    case Undefined => true
    case Stopped => Ends(a, vars, o, [], acc, true)
    case Dropped(next) => Ends(a, vars, o, next, acc, false)
    case Passed(x, next) =>
      var t := I.Sinks(sink, acc, x);
      t.Some? ==> Ends(a, vars, o, next, t.value.acc, t.value.stop)
  }

  /** Code that keeps the variables of the loop, then the rest. */
  lemma EndsAfter(a: State, b: State, vars: Vars, code: Code, rest: Code, x: set<string>, inner: Vars, counts: seq<int>, all: seq<int>, acc: R.Val, broke: bool, w: World, fuel: nat)
    requires hide BodyCode, BodyEnds, StagesOf, SinkOf, RestCorrect, Goal, CellsApart, CellNames, CellsHold, CellHolds, Moved, Ready, Free,
               L.Run, L.Lookup, E.Enc, E.Expressible;
             vars.Valid() && Ready(a) && Moved(a, b, x) && x <= vars.Names() && L.Run(code, a.s, w.lf, fuel) == L.Normal(b.s)
    requires inner.Valid() && inner.Names() <= vars.Names() && inner.res == vars.res
    requires Ends(b, inner, L.Run(rest, b.s, w.lf, fuel), counts, acc, broke)
    requires !broke ==>
               var o := L.Run(rest, b.s, w.lf, fuel);
               Finished(o) ==> |all| == |vars.ads| && CellsHold(o.store, vars.ads, vars.cells, vars.limits, all)
    ensures Ends(a, vars, L.Run(code + rest, a.s, w.lf, fuel), all, acc, broke)
  {
    hide Ready, L.Run, L.Lookup, Moved, CellsHold, E.Enc, E.Expressible;
    RunAppend(code, rest, a.s, w.lf, fuel);
    var o := L.Run(rest, b.s, w.lf, fuel);
    MovedThen(a, b, b.(s := o.store), x, inner.Names(), vars.Names());
    MovedBack(a, b.(s := o.store), vars.Names());
  }

  /** A guard around the rest of the body. */
  lemma EndsInside(a: State, vars: Vars, code: Code, counts: seq<int>, acc: R.Val, broke: bool, w: World, fuel: nat)
    requires hide L.Lookup, L.Run, E.Enc, E.Expressible, SomeMarks, Ready;
             vars.Valid() && Ready(a) && (forall z :: z in vars.Names() ==> Free(a, z)) && DeclaresNew(code, a.c, a.q, a.n)
    requires Ends(a, vars, L.Run(code, a.s, w.lf, fuel), counts, acc, broke)
    ensures Ends(a, vars, L.Leave(L.Run(code, a.s, w.lf, fuel), |a.s|), counts, acc, broke)
  {
    hide Ready, L.Run, L.Lookup, Fixed, Old, DeclaresNew, E.Enc, E.Expressible, Agree;
    var o := L.Run(code, a.s, w.lf, fuel);
    var s1 := o.store[..|a.s|];
    forall z | Fixed(a.c, a.q, a.n, z) ensures L.Lookup(s1, z) == L.Lookup(o.store, z) {
      FixedIsOld(a.c, a.q, a.n, z);
      LeaveLookup(code, a.c, a.q, a.n, a.s, w.lf, fuel, z);
    }
    ReadyIsLive(a.(s := o.store));
    assert SameNames(a.env, a.env);
    LeaveAgree(a, code, w.lf, fuel, a.env, None);
    assert Extends(a.s, s1);
    ReadyNext(a, a.n, a.env, s1);
    if !broke {
      CellsKept(o.store, s1, vars.ads, vars.cells, vars.limits, counts);
    }
  }

  lemma BreakAfter(a: State, b: State, vars: Vars, code: Code, x: set<string>, acc: R.Val, w: World, fuel: nat)
    requires hide BodyCode, BodyEnds, StagesOf, SinkOf, RestCorrect, Goal, CellsApart, CellNames, CellsHold, CellHolds, Moved, Ready, Free,
               L.Run, L.Lookup, E.Enc, E.Expressible;
             Ready(a) && Moved(a, b, x) && vars.Valid() && x <= vars.Names() && L.Run(code, a.s, w.lf, fuel) == L.Normal(b.s)
    requires L.Lookup(b.s, vars.res) == Some(E.Enc(acc)) && E.Expressible(acc)
    ensures Ends(a, vars, L.Run(code + [L.Break], a.s, w.lf, fuel), [], acc, true)
  {
    hide Ready, L.Run, L.Lookup, E.Enc, E.Expressible, Fixed;
    RunAppend(code, [L.Break], a.s, w.lf, fuel);
    BreakRun(b.s, w.lf, fuel);
    MovedThen(a, b, b, x, {}, vars.Names());
    MovedBack(a, b, vars.Names());
  }

  // ---- the consumer ----

  /** The integers the consumer keeps stay in range for k more items. */
  ghost predicate Small(sink: I.Sink, acc: R.Val, k: nat) {
    && (sink.Count? ==> acc.IntVal? && 0 <= acc.n && acc.n + k <= I.MAX_INT)
    && (sink.Collect? ==> acc.VecVal? && |acc.elems| + k <= I.MAX_INT)
  }

  lemma WrapSmall(n: int)
    requires 0 <= n <= I.MAX_INT
    ensures L.Wrap(n) == n
  {
  }

  lemma PlusEval(e: Expr, n: int, s: L.Store, f: L.Functions)
    requires L.Eval(e, s, f) == Some(L.IntV(n)) && 0 <= n < I.MAX_INT
    ensures L.Eval(Plus1(e), s, f) == Some(L.IntV(n + 1))
  {
    WrapSmall(n + 1);
    assert L.Eval(Integer(1), s, f) == Some(L.IntV(1));
  }

  lemma {:induction false} SinkCorrect(cons: Consumer, init: R.Val, vars: Vars, a: State, v: R.Val, acc: R.Val, w: World, fuel: nat)
    requires hide *; vars.ads == [] && vars.At(a, [], v, acc) && Compiled(w) && ConsumerFits(cons, a.q)
    requires var sink := SinkOf(cons, init, a.env, w, fuel); Small(sink, acc, 1) && I.Sinks(sink, acc, v).Some?
    ensures var t := I.Sinks(SinkOf(cons, init, a.env, w, fuel), acc, v).value;
            Ends(a, vars, L.Run(SinkCode(cons, vars.item, vars.res, a.c, a.n).code, a.s, w.lf, fuel), [], t.acc, t.stop)
  {
    hide Ready, Compiled, ClosureFits, ConsumerFits, L.Run, L.Lookup, Free, Inline, FnOf, FoldOf, E.Enc, E.Expressible, Ends;
    match cons {
      case Collect => CollectCorrect(vars, a, v, acc, w, fuel);
      case Fold(_, _, _, _) => FoldCorrect(cons, vars, a, v, acc, w, fuel);
      case Count => CountCorrect(vars, a, v, acc, w, fuel);
      case Any(k) =>
        ConsumerFitsClosure(cons, a.q);
        FoundValues(v);
        SearchCorrect(k, Bool(true), R.BoolVal(true), true, vars, a, v, acc, w, fuel);
      case All(k) =>
        ConsumerFitsClosure(cons, a.q);
        FoundValues(v);
        SearchCorrect(k, Bool(false), R.BoolVal(false), false, vars, a, v, acc, w, fuel);
      case Find(k) =>
        ConsumerFitsClosure(cons, a.q);
        FoundValues(v);
        if FnOf(k, a.env, w, fuel)(v) == Some(R.BoolVal(true)) {
          SearchCorrect(k, Name(vars.item), R.SomeVal(v), true, vars, a, v, acc, w, fuel);
        } else {
          SearchCorrect(k, Name(vars.item), v, true, vars, a, v, acc, w, fuel);
        }
      case Next => NextCorrect(vars, a, v, acc, w, fuel);
    }
  }

  lemma FoundValues(v: R.Val)
    ensures forall b :: E.Expressible(R.BoolVal(b))
    ensures E.Expressible(v) && !R.NilLike(v) ==> E.Expressible(R.SomeVal(v))
    ensures E.Enc(R.SomeVal(v)) == E.Enc(v)
  {
  }

  lemma ConsumerFitsClosure(cons: Consumer, q: Scope)
    requires hide *; ConsumerFits(cons, q) && (cons.Any? || cons.All? || cons.Find?)
    ensures ClosureFits(cons.k, q)
  {
    hide ClosureFits, Fits;
  }

  lemma CountCorrect(vars: Vars, a: State, v: R.Val, acc: R.Val, w: World, fuel: nat)
    requires hide *; vars.ads == [] && vars.At(a, [], v, acc) && acc.IntVal? && 0 <= acc.n < I.MAX_INT
    ensures Ends(a, vars, L.Run([Bump(vars.res)], a.s, w.lf, fuel), [], R.IntVal(acc.n + 1), false)
  {
    hide Ready, L.Run, L.Lookup, Free, L.Eval;
    NameEval(vars.res, a.s, w.lf);
    PlusEval(Name(vars.res), acc.n, a.s, w.lf);
    AssignCell(a, vars.res, Plus1(Name(vars.res)), L.IntV(acc.n + 1), w, fuel);
    WiderMove(a, a.(s := L.Run([Bump(vars.res)], a.s, w.lf, fuel).store), {vars.res}, vars.Names());
  }

  lemma WiderMove(a: State, b: State, x: set<string>, y: set<string>)
    requires Moved(a, b, x) && x <= y
    ensures Moved(a, b, y)
  {
    hide Ready, Fixed, L.Lookup;
  }

  lemma NextCorrect(vars: Vars, a: State, v: R.Val, acc: R.Val, w: World, fuel: nat)
    requires vars.ads == [] && vars.At(a, [], v, acc) && !R.NilLike(v)
    ensures Ends(a, vars, L.Run([L.Assign(Name(vars.res), Name(vars.item))] + [L.Break], a.s, w.lf, fuel), [], R.SomeVal(v), true)
  {
    hide Ready, L.Run, L.Lookup, Free, L.Eval, Moved;
    NameEval(vars.item, a.s, w.lf);
    AssignCell(a, vars.res, Name(vars.item), E.Enc(v), w, fuel);
    BreakAfter(a, a.(s := L.Run([L.Assign(Name(vars.res), Name(vars.item))], a.s, w.lf, fuel).store), vars,
               [L.Assign(Name(vars.res), Name(vars.item))], {vars.res}, R.SomeVal(v), w, fuel);
  }

  lemma FoldCorrect(cons: Consumer, vars: Vars, a: State, v: R.Val, acc: R.Val, w: World, fuel: nat)
    requires hide *; cons.Fold? && vars.ads == [] && vars.At(a, [], v, acc) && Compiled(w) && ConsumerFits(cons, a.q)
    requires FoldOf(cons, a.env, w, fuel)(acc, v).Some?
    ensures Ends(a, vars, L.Run(SinkCode(cons, vars.item, vars.res, a.c, a.n).code, a.s, w.lf, fuel), [], FoldOf(cons, a.env, w, fuel)(acc, v).value, false)
  {
    hide Ready, Compiled, ConsumerFits, L.Run, L.Lookup, Free, L.Eval, Inline, FoldOf, E.Enc, E.Expressible, Moved;
    var next := FoldOf(cons, a.env, w, fuel)(acc, v).value;
    var g := Inline(cons.body, a.c.(sub := a.c.sub[cons.acc := vars.res][cons.param := vars.item]), a.n);
    FoldRun(cons, a, vars.res, acc, vars.item, v, w, fuel);
    var b := a.(n := g.next, s := L.Run(g.code, a.s, w.lf, fuel).store);
    FreeMoved(a, b, vars.res);
    AssignCell(b, vars.res, g.e, E.Enc(next), w, fuel);
    var d := b.(s := L.Run([L.Assign(Name(vars.res), g.e)], b.s, w.lf, fuel).store);
    MovedThen(a, b, d, {}, {vars.res}, vars.Names());
    MovedBack(a, d, vars.Names());
    RunAppend(g.code, [L.Assign(Name(vars.res), g.e)], a.s, w.lf, fuel);
  }

  /** Code of a closure leaves the variables of the loop as they were. */
  lemma FreeMoved(a: State, b: State, z: string)
    requires Free(a, z) && Moved(a, b, {})
    ensures Free(b, z) && L.Lookup(b.s, z) == L.Lookup(a.s, z) && Ready(b)
  {
    hide Ready, L.Lookup;
    FreeLater(a, b, z);
  }

  /** `any`, `all` and `find`: store a value and break when the closure answers `wanted`. */
  lemma SearchCorrect(k: Closure, e: Expr, found: R.Val, wanted: bool, vars: Vars, a: State, v: R.Val, acc: R.Val, w: World, fuel: nat)
    requires hide *; vars.ads == [] && vars.At(a, [], v, acc) && Compiled(w) && ClosureFits(k, a.q)
    requires var b := FnOf(k, a.env, w, fuel)(v); b.Some? && b.value.BoolVal?
    requires E.Expressible(found) && ((e == Name(vars.item) && E.Enc(found) == E.Enc(v)) || (found.BoolVal? && e == Bool(found.b)))
    ensures var g := Inline(k.body, Call(k, vars.item, a.c), a.n);
            var cond := if wanted then g.e else Unary(Not, g.e);
            var code := g.code + [When(cond, [L.Assign(Name(vars.res), e)] + [L.Break])];
            var hit := FnOf(k, a.env, w, fuel)(v).value.b == wanted;
            Ends(a, vars, L.Run(code, a.s, w.lf, fuel), [], if hit then found else acc, hit)
  {
    hide Ready, Compiled, ClosureFits, L.Run, L.Lookup, Free, L.Eval, Inline, FnOf, E.Expressible, Moved, E.EncAll;
    var g := Inline(k.body, Call(k, vars.item, a.c), a.n);
    var cond := if wanted then g.e else Unary(Not, g.e);
    var then_ := [L.Assign(Name(vars.res), e)];
    var answer := FnOf(k, a.env, w, fuel)(v).value;
    ClosureRun(k, a, vars.item, v, w, fuel);
    var b := a.(n := g.next, s := L.Run(g.code, a.s, w.lf, fuel).store);
    FreeMoved(a, b, vars.res);
    FreeMoved(a, b, vars.item);
    NotEval(g.e, b.s, w.lf);
    RunAppend(g.code, [When(cond, then_ + [L.Break])], a.s, w.lf, fuel);
    WhenRun(cond, then_ + [L.Break], b.s, w.lf, fuel);
    if answer.b == wanted {
      NameEval(vars.item, b.s, w.lf);
      ConstantEvals(b.s, w.lf);
      AssignCell(b, vars.res, e, E.Enc(found), w, fuel);
      var d := b.(s := L.Run(then_, b.s, w.lf, fuel).store);
      RunAppend(then_, [L.Break], b.s, w.lf, fuel);
      BreakRun(d.s, w.lf, fuel);
      assert d.s[..|b.s|] == d.s;
      MovedThen(a, b, d, {}, {vars.res}, vars.Names());
      MovedBack(a, d, vars.Names());
    } else {
      WiderMove(a, b, {}, vars.Names());
      MovedBack(a, b, vars.Names());
    }
  }

  lemma CollectCorrect(vars: Vars, a: State, v: R.Val, acc: R.Val, w: World, fuel: nat)
    requires hide *; vars.ads == [] && vars.At(a, [], v, acc) && acc.VecVal? && |acc.elems| < I.MAX_INT
    ensures Ends(a, vars, L.Run(SinkCode(Collect, vars.item, vars.res, a.c, a.n).code, a.s, w.lf, fuel), [], R.VecVal(acc.elems + [v]), false)
  {
    hide Ready, L.Run, L.Lookup, Free, L.Eval, L.Update, Moved, Inline, E.Expressible;
    var res := vars.res;
    var k := |acc.elems|;
    var t0 := E.Enc(acc);
    var t1 := L.TableV(E.EncAll(acc.elems) + [E.Enc(v)], map["n" := L.IntV(k)]);
    var t2 := L.TableV(E.EncAll(acc.elems) + [E.Enc(v)], map["n" := L.IntV(k + 1)]);
    var st1 := L.Assign(Index(Name(res), Plus1(Field(Name(res), "n"))), Name(vars.item));
    var st2 := L.Assign(Field(Name(res), "n"), Plus1(Field(Name(res), "n")));
    assert [st1, st2] == [st1] + [st2];
    RunAppend([st1], [st2], a.s, w.lf, fuel);
    LengthEval(res, t0, k, a.s, w.lf);
    NameEval(vars.item, a.s, w.lf);
    StoreElement(res, t0, k, E.Enc(v), Name(vars.item), a.s, w, fuel);
    var s1 := L.Update(a.s, res, t1);
    var b := a.(s := s1);
    StoreCell(a, res, t1);
    LengthEval(res, t1, k, s1, w.lf);
    StoreLength(res, t1, k, s1, w, fuel);
    FreeLater(a, b, res);
    MovedReady(a, b, {res});
    StoreCell(b, res, t2);
    MovedThen(a, b, b.(s := L.Update(s1, res, t2)), {res}, {res}, vars.Names());
    EncSnoc(acc.elems, v);
    assert t1.(named := t1.named["n" := L.IntV(k + 1)]) == t2;
    assert SinkCode(Collect, vars.item, res, a.c, a.n).code == [st1, st2];
    assert L.Run([st1] + [st2], a.s, w.lf, fuel) == L.Normal(L.Update(s1, res, t2));
  }

  lemma MovedReady(a: State, b: State, x: set<string>)
    requires Moved(a, b, x)
    ensures Ready(b)
  {
    hide L.Lookup, Ready;
  }

  lemma EncSnoc(elems: seq<R.Val>, v: R.Val)
    requires E.Expressible(R.VecVal(elems)) && E.Expressible(v)
    ensures E.Enc(R.VecVal(elems + [v])) == L.TableV(E.EncAll(elems) + [E.Enc(v)], map["n" := L.IntV(|elems| + 1)])
    ensures E.Expressible(R.VecVal(elems + [v]))
  {
    assert E.EncAll(elems + [v]) == E.EncAll(elems) + [E.Enc(v)];
  }

  lemma LengthEval(res: string, t: L.Value, k: nat, s: L.Store, f: L.Functions)
    requires hide *; L.Lookup(s, res) == Some(t) && t.TableV? && "n" in t.named && t.named["n"] == L.IntV(k) && k < I.MAX_INT
    ensures L.Eval(Field(Name(res), "n"), s, f) == Some(L.IntV(k))
    ensures L.Eval(Plus1(Field(Name(res), "n")), s, f) == Some(L.IntV(k + 1))
  {
    hide L.Lookup;
    NameEval(res, s, f);
    assert L.Eval(Field(Name(res), "n"), s, f) == Some(L.IntV(k));
    PlusEval(Field(Name(res), "n"), k, s, f);
  }

  lemma StoreElement(res: string, t: L.Value, k: nat, v: L.Value, e: Expr, s: L.Store, w: World, fuel: nat)
    requires hide *; L.Lookup(s, res) == Some(t) && t.TableV? && |t.items| == k
    requires L.Eval(Plus1(Field(Name(res), "n")), s, w.lf) == Some(L.IntV(k + 1)) && L.Eval(e, s, w.lf) == Some(v)
    ensures L.Run([L.Assign(Index(Name(res), Plus1(Field(Name(res), "n"))), e)], s, w.lf, fuel)
         == L.Normal(L.Update(s, res, t.(items := t.items + [v])))
  {
    hide L.Eval, L.Lookup, L.Update;
    RunOne(L.Assign(Index(Name(res), Plus1(Field(Name(res), "n"))), e), s, w.lf, fuel);
  }

  lemma StoreLength(res: string, t: L.Value, k: nat, s: L.Store, w: World, fuel: nat)
    requires hide *; L.Lookup(s, res) == Some(t) && t.TableV? && L.Eval(Plus1(Field(Name(res), "n")), s, w.lf) == Some(L.IntV(k + 1))
    ensures L.Run([L.Assign(Field(Name(res), "n"), Plus1(Field(Name(res), "n")))], s, w.lf, fuel)
         == L.Normal(L.Update(s, res, t.(named := t.named["n" := L.IntV(k + 1)])))
  {
    hide L.Eval, L.Lookup, L.Update;
    RunOne(L.Assign(Field(Name(res), "n"), Plus1(Field(Name(res), "n"))), s, w.lf, fuel);
  }

  // ---- the stages ----

  lemma AssignNothing(z: string, e: Expr, c: Ctx, q: Scope, n: nat)
    ensures DeclaresNew([L.Assign(Name(z), e)], c, q, n) && DeclaresNew([], c, q, n) && DeclaresNew([L.Break], c, q, n)
  {
    hide Old, SomeMarks, Marks;
    forall x | Old(c, q, n, x)
      ensures !SomeMarks([L.Assign(Name(z), e)], x, Declared) && !SomeMarks([], x, Declared) && !SomeMarks([L.Break], x, Declared)
    {
      AssignMarks(z, e, x, Declared);
      MarksBreaking([L.Assign(Name(z), e)], x);
      PlainMarks(L.Break, x, Declared);
      MarksBreaking([L.Break], x);
      MarksBreaking([], x);
    }
  }

  lemma IfNothing(cond: Expr, body: Code, els: Code, c: Ctx, q: Scope, n: nat)
    ensures DeclaresNew([L.If([L.Branch(cond, body)], els)], c, q, n)
  {
    hide Old, SomeMarks, Marks;
    forall x | Old(c, q, n, x) ensures !SomeMarks([L.If([L.Branch(cond, body)], els)], x, Declared) {
      IfMarks(cond, body, els, x, Declared);
      MarksBreaking([L.If([L.Branch(cond, body)], els)], x);
    }
  }

  lemma ClosureDeclares(k: Closure, input: string, c: Ctx, q: Scope, n: nat)
    requires ClosureFits(k, q) && SubClear(c, q) && NamesApart(c)
    ensures DeclaresNew(Inline(k.body, Call(k, input, c), n).code, c, q, n)
  {
    hide Fits, Inline, DeclaresNew, Old;
    var c1, q1 := Call(k, input, c), q.(live := q.live + {k.param}, may := {});
    InlineDeclares(k.body, c1, n, q1);
    DeclaresOutside(Inline(k.body, c1, n).code, c, q, c1, q1, n);
  }

  lemma AssignPlace(target: Expr, e: Expr, c: Ctx, q: Scope, n: nat)
    ensures DeclaresNew([L.Assign(target, e)], c, q, n)
  {
    hide Old, Marks;
    forall x | Old(c, q, n, x) ensures !SomeMarks([L.Assign(target, e)], x, Declared) {
      MarksOne(L.Assign(target, e), x, Declared);
    }
  }

  lemma SinkDeclares(cons: Consumer, item: string, res: string, c: Ctx, q: Scope, n: nat)
    requires ConsumerFits(cons, q) && SubClear(c, q) && NamesApart(c)
    ensures DeclaresNew(SinkCode(cons, item, res, c, n).code, c, q, n)
  {
    hide Fits, Inline, DeclaresNew, Old, ClosureFits;
    AssignNothing(res, Name(item), c, q, n);
    match cons {
      case Collect =>
        var x, y := Index(Name(res), Plus1(Field(Name(res), "n"))), Field(Name(res), "n");
        AssignPlace(x, Name(item), c, q, n);
        AssignPlace(y, Plus1(y), c, q, n);
        DeclaresConcat([L.Assign(x, Name(item))], [L.Assign(y, Plus1(y))], c, q, n);
        assert [L.Assign(x, Name(item))] + [L.Assign(y, Plus1(y))] == SinkCode(cons, item, res, c, n).code;
      case Fold(_, acc, param, body) =>
        var c1, q1 := c.(sub := c.sub[acc := res][param := item]), q.(live := q.live + {acc} + {param}, may := {});
        var g := Inline(body, c1, n);
        InlineDeclares(body, c1, n, q1);
        DeclaresOutside(g.code, c, q, c1, q1, n);
        AssignNothing(res, g.e, c, q, n);
        DeclaresConcat(g.code, [L.Assign(Name(res), g.e)], c, q, n);
      case Count => AssignNothing(res, Plus1(Name(res)), c, q, n);
      case Any(k) =>
        var g := Inline(k.body, Call(k, item, c), n);
        ClosureDeclares(k, item, c, q, n);
        WhenDeclares(g.e, [L.Assign(Name(res), Bool(true))] + [L.Break], c, q, n);
        DeclaresConcat(g.code, [When(g.e, [L.Assign(Name(res), Bool(true))] + [L.Break])], c, q, n);
      case All(k) =>
        var g := Inline(k.body, Call(k, item, c), n);
        ClosureDeclares(k, item, c, q, n);
        WhenDeclares(Unary(Not, g.e), [L.Assign(Name(res), Bool(false))] + [L.Break], c, q, n);
        DeclaresConcat(g.code, [When(Unary(Not, g.e), [L.Assign(Name(res), Bool(false))] + [L.Break])], c, q, n);
      case Find(k) =>
        var g := Inline(k.body, Call(k, item, c), n);
        ClosureDeclares(k, item, c, q, n);
        WhenDeclares(g.e, [L.Assign(Name(res), Name(item))] + [L.Break], c, q, n);
        DeclaresConcat(g.code, [When(g.e, [L.Assign(Name(res), Name(item))] + [L.Break])], c, q, n);
      case Next => DeclaresConcat([L.Assign(Name(res), Name(item))], [L.Break], c, q, n);
    }
  }

  ghost predicate AllFit(ads: seq<Adapter>, q: Scope) {
    hide *;
    ads == [] || (AdapterFits(ads[0], q) && AllFit(ads[1..], q))
  }

  lemma {:induction false} BodyDeclares(ads: seq<Adapter>, cells: seq<Cell>, cons: Consumer, item: string, res: string, c: Ctx, q: Scope, n: nat, n0: nat)
    requires hide *; |cells| == |ads| && AllFit(ads, q) && ConsumerFits(cons, q) && SubClear(c, q) && NamesApart(c) && n0 <= n
    ensures DeclaresNew(BodyCode(ads, cells, cons, item, res, c, n).code, c, q, n0)
    decreases |ads|
  {
    hide Inline, DeclaresNew, ClosureFits, ConsumerFits, SubClear, NamesApart, SinkCode;
    if ads == [] {
      SinkDeclares(cons, item, res, c, q, n);
      DeclaresEarlier(SinkCode(cons, item, res, c, n).code, c, q, n0, n);
    } else {
      match ads[0] {
        case Map(k) =>
          var g := Inline(k.body, Call(k, item, c), n);
          var rest := BodyCode(ads[1..], cells[1..], cons, item, res, c, g.next);
          ClosureDeclares(k, item, c, q, n);
          DeclaresEarlier(g.code, c, q, n0, n);
          BodyDeclares(ads[1..], cells[1..], cons, item, res, c, q, g.next, n0);
          AssignNothing(item, g.e, c, q, n0);
          DeclaresConcat([L.Assign(Name(item), g.e)], rest.code, c, q, n0);
          DeclaresConcat(g.code, [L.Assign(Name(item), g.e)] + rest.code, c, q, n0);
        case Filter(k) =>
          var g := Inline(k.body, Call(k, item, c), n);
          var rest := BodyCode(ads[1..], cells[1..], cons, item, res, c, g.next);
          ClosureDeclares(k, item, c, q, n);
          DeclaresEarlier(g.code, c, q, n0, n);
          WhenDeclares(g.e, rest.code, c, q, n0);
          DeclaresConcat(g.code, [When(g.e, rest.code)], c, q, n0);
        case FilterMap(k) =>
          var g := Inline(k.body, Call(k, item, c), n);
          var rest := BodyCode(ads[1..], cells[1..], cons, item, res, c, g.next);
          var guarded := [L.Assign(Name(item), g.e)] + rest.code;
          ClosureDeclares(k, item, c, q, n);
          DeclaresEarlier(g.code, c, q, n0, n);
          WhenDeclares(Binary(g.e, Ne, Nil), guarded, c, q, n0);
          DeclaresConcat(g.code, [When(Binary(g.e, Ne, Nil), guarded)], c, q, n0);
        case Enumerate =>
          var rest := BodyCode(ads[1..], cells[1..], cons, item, res, c, n);
          BodyDeclares(ads[1..], cells[1..], cons, item, res, c, q, n, n0);
          AssignNothing(item, PairExpr(cells[0].counter, item), c, q, n0);
          AssignNothing(cells[0].counter, Plus1(Name(cells[0].counter)), c, q, n0);
          DeclaresConcat([Bump(cells[0].counter)], rest.code, c, q, n0);
          DeclaresConcat([L.Assign(Name(item), PairExpr(cells[0].counter, item))], [Bump(cells[0].counter)] + rest.code, c, q, n0);
        case Skip(_) =>
          var rest := BodyCode(ads[1..], cells[1..], cons, item, res, c, n);
          IfNothing(Binary(Name(cells[0].counter), Lt, Name(cells[0].limit)), [Bump(cells[0].counter)], rest.code, c, q, n0);
        case Take(_) =>
          var rest := BodyCode(ads[1..], cells[1..], cons, item, res, c, n);
          BodyDeclares(ads[1..], cells[1..], cons, item, res, c, q, n, n0);
          WhenDeclares(Binary(Name(cells[0].counter), Ge, Name(cells[0].limit)), [L.Break], c, q, n0);
          AssignNothing(cells[0].counter, Plus1(Name(cells[0].counter)), c, q, n0);
          DeclaresConcat([Bump(cells[0].counter)], rest.code, c, q, n0);
          DeclaresConcat([TakeTest(cells[0])], [Bump(cells[0].counter)] + rest.code, c, q, n0);
        case Rev => BodyDeclares(ads[1..], cells[1..], cons, item, res, c, q, n, n0);
      }
    }
  }

  /** The other stages start from a state in which the first has done its part. */
  lemma RestAt(a: State, vars: Vars, b: State, counts: seq<int>, v: R.Val, u: R.Val, acc: R.Val, x: set<string>)
    requires hide BodyCode, BodyEnds, StagesOf, SinkOf, RestCorrect, Goal, CellsApart, CellNames, CellsHold, CellHolds, Moved, Ready, Free,
               L.Run, L.Lookup, E.Enc, E.Expressible;
             vars.At(a, counts, v, acc) && vars.ads != [] && Moved(a, b, x) && x <= {vars.item} + Used(vars.ads[0], vars.cells[0])
    requires L.Lookup(b.s, vars.item) == Some(E.Enc(u)) && E.Expressible(u)
    ensures vars.Rest().At(b, counts[1..], u, acc)
    ensures forall z :: z in vars.Names() ==> Free(b, z)
    ensures forall z :: z in vars.Names() && z !in x ==> L.Lookup(b.s, z) == L.Lookup(a.s, z)
  {
    hide Ready, L.Lookup, Fixed, E.Enc, E.Expressible;
    forall z | z in vars.Names() ensures Free(b, z) && (z !in x ==> L.Lookup(b.s, z) == L.Lookup(a.s, z)) {
      FreeLater(a, b, z);
    }
    var rest := vars.Rest();
    CellsKept(a.s, b.s, rest.ads, rest.cells, rest.limits, counts[1..]);
  }

  /** From the other stages back to all of them. */
  lemma Prepended(a: State, b: State, vars: Vars, code: Code, rest: Code, x: set<string>, n: int, p: I.Pushed, sink: I.Sink, acc: R.Val, w: World, fuel: nat)
    requires hide BodyCode, BodyEnds, StagesOf, SinkOf, RestCorrect, Goal, CellsApart, CellNames, CellsHold, CellHolds, Moved, Ready, Free,
               L.Run, L.Lookup, E.Enc, E.Expressible;
             vars.Valid() && vars.ads != [] && Ready(a) && Moved(a, b, x) && x <= vars.Names()
    requires L.Run(code, a.s, w.lf, fuel) == L.Normal(b.s)
    requires BodyEnds(b, vars.Rest(), L.Run(rest, b.s, w.lf, fuel), p, sink, acc)
    requires CellHolds(b.s, vars.ads[0], vars.cells[0], vars.limits[0], n)
    requires forall z :: z in vars.Names() ==> Free(b, z)
    ensures BodyEnds(a, vars, L.Run(code + rest, a.s, w.lf, fuel), I.Prepend(n, p), sink, acc)
  {
    hide Ready, L.Run, L.Lookup, Moved, E.Enc, E.Expressible, Ends, Free;
    var o := L.Run(rest, b.s, w.lf, fuel);
    var inner := vars.Rest();
    match p {
      case Undefined =>
      case Stopped => EndsAfter(a, b, vars, code, rest, x, inner, [], [], acc, true, w, fuel);
      case Dropped(next) =>
        HeadKept(b, vars, o, n, next, acc, false);
        EndsAfter(a, b, vars, code, rest, x, inner, next, [n] + next, acc, false, w, fuel);
      case Passed(u, next) =>
        var t := I.Sinks(sink, acc, u);
        if t.Some? {
          HeadKept(b, vars, o, n, next, t.value.acc, t.value.stop);
          EndsAfter(a, b, vars, code, rest, x, inner, next, [n] + next, t.value.acc, t.value.stop, w, fuel);
        }
    }
  }

  lemma HeadKept(b: State, vars: Vars, o: L.Outcome, n: int, next: seq<int>, acc: R.Val, broke: bool)
    requires hide BodyCode, BodyEnds, StagesOf, SinkOf, RestCorrect, Goal, CellsApart, CellNames, CellsHold, CellHolds, Moved, Ready, Free,
               L.Run, L.Lookup, E.Enc, E.Expressible;
             vars.Valid() && vars.ads != [] && Ends(b, vars.Rest(), o, next, acc, broke)
    requires CellHolds(b.s, vars.ads[0], vars.cells[0], vars.limits[0], n)
    requires forall z :: z in vars.Names() ==> Free(b, z)
    ensures !broke ==> |[n] + next| == |vars.ads| && CellsHold(o.store, vars.ads, vars.cells, vars.limits, [n] + next)
  {
    hide Ready, L.Lookup, Fixed, E.Enc, E.Expressible;
    if !broke {
      assert ([n] + next)[0] == n && ([n] + next)[1..] == next;
      forall z | z in Used(vars.ads[0], vars.cells[0]) ensures L.Lookup(o.store, z) == L.Lookup(b.s, z) {
        assert Free(b, z) && z !in vars.Rest().Names();
      }
    }
  }

  /** The whole claim inside a guard, and after the closure of the guard. */
  lemma Guarded(a: State, b: State, vars: Vars, code: Code, cond: Expr, inner: Code, p: I.Pushed, sink: I.Sink, acc: R.Val, w: World, fuel: nat)
    requires hide L.Eval, L.Lookup, L.Run, E.Enc, E.Expressible, SomeMarks, Ready;
             vars.Valid() && Ready(a) && Ready(b) && Moved(a, b, {}) && L.Run(code, a.s, w.lf, fuel) == L.Normal(b.s)
    requires forall z :: z in vars.Names() ==> Free(b, z)
    requires DeclaresNew(inner, b.c, b.q, b.n) && P.Passes(cond, b.s, w.lf)
    requires BodyEnds(b, vars, L.Run(inner, b.s, w.lf, fuel), p, sink, acc)
    ensures BodyEnds(a, vars, L.Run(code + [When(cond, inner)], a.s, w.lf, fuel), p, sink, acc)
  {
    hide Ready, L.Run, L.Eval, L.Lookup, Moved, E.Enc, E.Expressible, Ends, Free, DeclaresNew;
    WhenRun(cond, inner, b.s, w.lf, fuel);
    match p {
      case Undefined =>
      case Stopped => GuardedEnds(a, b, vars, code, cond, inner, [], acc, true, w, fuel);
      case Dropped(next) => GuardedEnds(a, b, vars, code, cond, inner, next, acc, false, w, fuel);
      case Passed(u, next) =>
        var t := I.Sinks(sink, acc, u);
        if t.Some? {
          GuardedEnds(a, b, vars, code, cond, inner, next, t.value.acc, t.value.stop, w, fuel);
        }
    }
  }

  lemma GuardedEnds(a: State, b: State, vars: Vars, code: Code, cond: Expr, inner: Code, counts: seq<int>, acc: R.Val, broke: bool, w: World, fuel: nat)
    requires hide BodyCode, BodyEnds, StagesOf, SinkOf, RestCorrect, Goal, CellsApart, CellNames, CellsHold, CellHolds, Moved, Ready, Free,
               L.Run, L.Lookup, E.Enc, E.Expressible;
             vars.Valid() && Ready(a) && Ready(b) && Moved(a, b, {}) && L.Run(code, a.s, w.lf, fuel) == L.Normal(b.s)
    requires forall z :: z in vars.Names() ==> Free(b, z)
    requires DeclaresNew(inner, b.c, b.q, b.n)
    requires L.Run([When(cond, inner)], b.s, w.lf, fuel) == L.Leave(L.Run(inner, b.s, w.lf, fuel), |b.s|)
    requires Ends(b, vars, L.Run(inner, b.s, w.lf, fuel), counts, acc, broke)
    ensures Ends(a, vars, L.Run(code + [When(cond, inner)], a.s, w.lf, fuel), counts, acc, broke)
  {
    hide Ready, L.Run, L.Lookup, Moved, E.Enc, E.Expressible, Free, DeclaresNew;
    EndsInside(b, vars, inner, counts, acc, broke, w, fuel);
    EndsAfter(a, b, vars, code, [When(cond, inner)], {}, vars, counts, counts, acc, broke, w, fuel);
  }

  /** The item goes no further. */
  lemma DroppedHere(a: State, b: State, vars: Vars, o: L.Outcome, x: set<string>, counts: seq<int>, acc: R.Val)
    requires hide BodyCode, BodyEnds, StagesOf, SinkOf, RestCorrect, Goal, CellsApart, CellNames, CellsHold, CellHolds, Moved, Ready, Free,
               L.Run, L.Lookup, E.Enc, E.Expressible;
             vars.Valid() && Ready(a) && Moved(a, b, x) && x <= vars.Names() && o == L.Normal(b.s)
    requires L.Lookup(b.s, vars.res) == Some(E.Enc(acc)) && E.Expressible(acc)
    requires |counts| == |vars.ads| && CellsHold(b.s, vars.ads, vars.cells, vars.limits, counts)
    ensures Ends(a, vars, o, counts, acc, false)
  {
    hide Ready, L.Lookup, E.Enc, E.Expressible;
    WiderMove(a, b, x, vars.Names());
    MovedBack(a, b, vars.Names());
  }

  ghost predicate InRange(counts: seq<int>, k: nat) {
    forall i :: 0 <= i < |counts| ==> 0 <= counts[i] && counts[i] + k <= I.MAX_INT
  }

  lemma NoStagesCorrect(cons: Consumer, init: R.Val, vars: Vars, a: State, counts: seq<int>, v: R.Val, acc: R.Val, w: World, fuel: nat)
    requires hide Inline, Fits, R.Eval, L.Lookup, L.Run, E.Enc, E.Expressible, Compiled, Ready;
             vars.ads == [] && vars.At(a, counts, v, acc) && Compiled(w) && ConsumerFits(cons, a.q)
    requires Small(SinkOf(cons, init, a.env, w, fuel), acc, 1)
    ensures var stages := StagesOf(vars.ads, vars.limits, a.env, w, fuel);
            var code := BodyCode(vars.ads, vars.cells, cons, vars.item, vars.res, a.c, a.n).code;
            BodyEnds(a, vars, L.Run(code, a.s, w.lf, fuel), I.Push(stages, counts, v), SinkOf(cons, init, a.env, w, fuel), acc)
  {
    hide Ready, Compiled, ConsumerFits, L.Run, L.Lookup, Free, SinkCode, E.Enc, E.Expressible, Ends, SinkOf, I.Sinks, Small, Inline, R.Eval;
    assert counts == [];
    assert I.Push([], [], v) == I.Passed(v, []);
    if I.Sinks(SinkOf(cons, init, a.env, w, fuel), acc, v).Some? {
      SinkCorrect(cons, init, vars, a, v, acc, w, fuel);
    }
  }

  /** The loop body does to an item what the stages do to it. */
  lemma {:induction false} BodyCorrect(cons: Consumer, init: R.Val, vars: Vars, a: State, counts: seq<int>, v: R.Val, acc: R.Val, w: World, fuel: nat)
    requires hide Inline, Fits, R.Eval, L.Lookup, L.Run, E.Enc, E.Expressible, Compiled, Ready;
             vars.At(a, counts, v, acc) && Compiled(w) && AllFit(vars.ads, a.q) && ConsumerFits(cons, a.q)
    requires InRange(counts, 1) && Small(SinkOf(cons, init, a.env, w, fuel), acc, 1)
    ensures var stages := StagesOf(vars.ads, vars.limits, a.env, w, fuel);
            var code := BodyCode(vars.ads, vars.cells, cons, vars.item, vars.res, a.c, a.n).code;
            BodyEnds(a, vars, L.Run(code, a.s, w.lf, fuel), I.Push(stages, counts, v), SinkOf(cons, init, a.env, w, fuel), acc)
    decreases |vars.ads|, 1
  {
    hide Ready, Compiled, ConsumerFits, L.Run, L.Lookup, Free, BodyCode, E.Enc, E.Expressible, BodyEnds, CellsHold, CellsApart, CellNames, I.Push,
      StagesOf, SinkOf, AllFit;
    if vars.ads == [] {
      NoStagesCorrect(cons, init, vars, a, counts, v, acc, w, fuel);
    } else {
      StageCorrect(cons, init, vars, a, counts, v, acc, w, fuel);
    }
  }

  lemma {:induction false} StageCorrect(cons: Consumer, init: R.Val, vars: Vars, a: State, counts: seq<int>, v: R.Val, acc: R.Val, w: World, fuel: nat)
    requires hide Inline, Fits, R.Eval, L.Lookup, L.Run, E.Enc, E.Expressible, Compiled, Ready;
             vars.At(a, counts, v, acc) && Compiled(w) && AllFit(vars.ads, a.q) && ConsumerFits(cons, a.q) && vars.ads != []
    requires InRange(counts, 1) && Small(SinkOf(cons, init, a.env, w, fuel), acc, 1)
    ensures Goal(cons, init, vars, a, counts, v, acc, w, fuel)
    decreases |vars.ads|, 0
  {
    hide Ready, Compiled, ConsumerFits, L.Lookup, Free, E.Enc, E.Expressible, CellsHold, CellsApart, CellNames, Goal, AllFit, SinkOf,
      Small, InRange;
    match vars.ads[0] {
      case Map(_) => MapCorrect(cons, init, vars, a, counts, v, acc, w, fuel);
      case Filter(_) => FilterCorrect(cons, init, vars, a, counts, v, acc, w, fuel);
      case FilterMap(_) => FilterMapCorrect(cons, init, vars, a, counts, v, acc, w, fuel);
      case Enumerate => EnumerateCorrect(cons, init, vars, a, counts, v, acc, w, fuel);
      case Skip(_) => SkipCorrect(cons, init, vars, a, counts, v, acc, w, fuel);
      case Take(_) => TakeCorrect(cons, init, vars, a, counts, v, acc, w, fuel);
      case Rev => RevCorrect(cons, init, vars, a, counts, v, acc, w, fuel);
    }
  }

  /** The hypothesis for the other stages. */
  ghost predicate RestCorrect(cons: Consumer, init: R.Val, vars: Vars, b: State, counts: seq<int>, u: R.Val, acc: R.Val, w: World, fuel: nat)
    requires vars.Valid() && vars.ads != [] && |counts| == |vars.ads|
  {
    hide BodyEnds, L.Run, BodyCode, I.Push, StagesOf, SinkOf, CellsApart, CellNames;
    var rest := vars.Rest();
    BodyEnds(b, rest, L.Run(BodyCode(rest.ads, rest.cells, cons, rest.item, rest.res, b.c, b.n).code, b.s, w.lf, fuel),
             I.Push(StagesOf(rest.ads, rest.limits, b.env, w, fuel), counts[1..], u), SinkOf(cons, init, b.env, w, fuel), acc)
  }

  lemma {:induction false} RestHolds(cons: Consumer, init: R.Val, vars: Vars, a: State, b: State, counts: seq<int>, v: R.Val, u: R.Val, acc: R.Val, x: set<string>, w: World, fuel: nat)
    requires hide Inline, Fits, R.Eval, L.Lookup, L.Run, E.Enc, E.Expressible, Compiled, Ready;
             vars.At(a, counts, v, acc) && Compiled(w) && AllFit(vars.ads, a.q) && ConsumerFits(cons, a.q) && vars.ads != []
    requires InRange(counts, 1) && Small(SinkOf(cons, init, a.env, w, fuel), acc, 1)
    requires Moved(a, b, x) && x <= {vars.item} + Used(vars.ads[0], vars.cells[0])
    requires L.Lookup(b.s, vars.item) == Some(E.Enc(u)) && E.Expressible(u)
    ensures RestCorrect(cons, init, vars, b, counts, u, acc, w, fuel)
    ensures forall z :: z in vars.Names() ==> Free(b, z)
    ensures forall z :: z in vars.Names() && z !in x ==> L.Lookup(b.s, z) == L.Lookup(a.s, z)
    decreases |vars.ads|, 0, 0
  {
    hide Ready, Compiled, ConsumerFits, L.Run, L.Lookup, Free, BodyCode, E.Enc, E.Expressible, BodyEnds, I.Push, AdapterFits, R.Eval;
    RestAt(a, vars, b, counts, v, u, acc, x);
    assert b.q == a.q && b.env == a.env;
    BodyCorrect(cons, init, vars.Rest(), b, counts[1..], u, acc, w, fuel);
  }

  lemma HeadOfAt(vars: Vars, a: State, counts: seq<int>, v: R.Val, acc: R.Val)
    requires hide L.Lookup, E.Enc, E.Expressible, Ready; vars.At(a, counts, v, acc) && vars.ads != []
    ensures CellHolds(a.s, vars.ads[0], vars.cells[0], vars.limits[0], counts[0])
    ensures Ready(a) && vars.Valid() && |counts| == |vars.ads| && (forall z :: z in vars.Names() ==> Free(a, z))
    ensures Cellular(a, vars.item, E.Enc(v)) && E.Expressible(v) && L.Lookup(a.s, vars.res) == Some(E.Enc(acc)) && E.Expressible(acc)
    ensures CellsHold(a.s, vars.ads, vars.cells, vars.limits, counts)
  {
    hide Ready, L.Lookup, Fixed, E.Enc, E.Expressible;
  }

  // the stages, one by one

  lemma StagesSplit(vars: Vars, env: R.Env, w: World, fuel: nat)
    requires hide R.Eval; vars.Valid() && vars.ads != []
    ensures var stages := StagesOf(vars.ads, vars.limits, env, w, fuel);
            && stages[0] == StageOf(vars.ads[0], vars.limits[0], env, w, fuel)
            && stages[1..] == StagesOf(vars.ads[1..], vars.limits[1..], env, w, fuel)
  {
    hide StageOf;
  }

  ghost predicate Goal(cons: Consumer, init: R.Val, vars: Vars, a: State, counts: seq<int>, v: R.Val, acc: R.Val, w: World, fuel: nat)
    requires vars.Valid() && |counts| == |vars.ads|
  {
    hide BodyEnds, L.Run, BodyCode, I.Push, StagesOf, SinkOf, CellsApart, CellNames;
    var stages := StagesOf(vars.ads, vars.limits, a.env, w, fuel);
    var code := BodyCode(vars.ads, vars.cells, cons, vars.item, vars.res, a.c, a.n).code;
    BodyEnds(a, vars, L.Run(code, a.s, w.lf, fuel), I.Push(stages, counts, v), SinkOf(cons, init, a.env, w, fuel), acc)
  }

  /** The code and the meaning of the first stage, given that the item goes on as u with counter n. */
  lemma GoalPrepended(cons: Consumer, init: R.Val, vars: Vars, a: State, b: State, code: Code, x: set<string>, n: int, counts: seq<int>, v: R.Val, u: R.Val, acc: R.Val, w: World, fuel: nat)
    requires hide BodyCode, BodyEnds, StagesOf, SinkOf, RestCorrect, Goal, CellsApart, CellNames, CellsHold, CellHolds, Moved, Ready, Free,
               L.Run, L.Lookup, E.Enc, E.Expressible;
             vars.Valid() && vars.ads != [] && |counts| == |vars.ads| && Ready(a) && Moved(a, b, x) && x <= vars.Names()
    requires L.Run(code, a.s, w.lf, fuel) == L.Normal(b.s)
    requires RestCorrect(cons, init, vars, b, counts, u, acc, w, fuel)
    requires CellHolds(b.s, vars.ads[0], vars.cells[0], vars.limits[0], n)
    requires forall z :: z in vars.Names() ==> Free(b, z)
    requires var stages := StagesOf(vars.ads, vars.limits, a.env, w, fuel);
             I.Push(stages, counts, v) == I.Prepend(n, I.Push(stages[1..], counts[1..], u))
    requires var rest := BodyCode(vars.ads[1..], vars.cells[1..], cons, vars.item, vars.res, a.c, b.n).code;
             BodyCode(vars.ads, vars.cells, cons, vars.item, vars.res, a.c, a.n).code == code + rest
    ensures Goal(cons, init, vars, a, counts, v, acc, w, fuel)
  {
    hide Ready, L.Run, L.Lookup, Free, BodyCode, E.Enc, E.Expressible, BodyEnds, I.Push, StagesOf, SinkOf, CellsHold, CellsApart,
      CellNames, Moved, CellHolds, I.Prepend;
    StagesSplit(vars, a.env, w, fuel);
    MovedSame(a, b, x);
    var rest := BodyCode(vars.ads[1..], vars.cells[1..], cons, vars.item, vars.res, a.c, b.n).code;
    Prepended(a, b, vars, code, rest, x, n, I.Push(StagesOf(vars.ads[1..], vars.limits[1..], a.env, w, fuel), counts[1..], u),
              SinkOf(cons, init, a.env, w, fuel), acc, w, fuel);
  }

  lemma MovedSame(a: State, b: State, x: set<string>)
    requires Moved(a, b, x)
    ensures b.c == a.c && b.q == a.q && b.env == a.env && a.n <= b.n && Ready(b)
  {
    hide L.Lookup, Ready;
  }

  lemma NothingClaimed(a: State, vars: Vars, o: L.Outcome, sink: I.Sink, acc: R.Val)
    ensures BodyEnds(a, vars, o, I.Undefined, sink, acc)
  {
    hide L.Lookup, E.Enc, E.Expressible, Ready;
  }

  lemma HeadFits(ads: seq<Adapter>, q: Scope)
    requires hide *; AllFit(ads, q) && ads != []
    ensures ads[0].Map? || ads[0].Filter? || ads[0].FilterMap? ==> ClosureFits(ads[0].k, q)
    ensures AllFit(ads[1..], q)
  {
    hide ClosureFits;
  }

  // map

  lemma MapParts(cons: Consumer, vars: Vars, c: Ctx, n: nat, counts: seq<int>, v: R.Val, env: R.Env, w: World, fuel: nat)
    requires hide Inline, R.Eval; vars.Valid() && vars.ads != [] && vars.ads[0].Map? && |counts| == |vars.ads|
    ensures var k := vars.ads[0].k;
            var g := Inline(k.body, Call(k, vars.item, c), n);
            var rest := BodyCode(vars.ads[1..], vars.cells[1..], cons, vars.item, vars.res, c, g.next).code;
            BodyCode(vars.ads, vars.cells, cons, vars.item, vars.res, c, n).code == g.code + [L.Assign(Name(vars.item), g.e)] + rest
    ensures var stages := StagesOf(vars.ads, vars.limits, env, w, fuel);
            var u := FnOf(vars.ads[0].k, env, w, fuel)(v);
            I.Push(stages, counts, v) == if u.None? then I.Undefined else I.Prepend(counts[0], I.Push(stages[1..], counts[1..], u.value))
  {
    hide Inline, FnOf, SinkCode, CellsApart, CellNames;
    StagesSplit(vars, env, w, fuel);
    var k := vars.ads[0].k;
    var g := Inline(k.body, Call(k, vars.item, c), n);
    var rest := BodyCode(vars.ads[1..], vars.cells[1..], cons, vars.item, vars.res, c, g.next).code;
    assert g.code + [L.Assign(Name(vars.item), g.e)] + rest == g.code + ([L.Assign(Name(vars.item), g.e)] + rest);
  }

  lemma {:induction false} MapCorrect(cons: Consumer, init: R.Val, vars: Vars, a: State, counts: seq<int>, v: R.Val, acc: R.Val, w: World, fuel: nat)
    requires hide Inline, Fits, R.Eval, L.Lookup, L.Run, E.Enc, E.Expressible, Compiled, Ready;
             vars.At(a, counts, v, acc) && Compiled(w) && AllFit(vars.ads, a.q) && ConsumerFits(cons, a.q)
    requires InRange(counts, 1) && Small(SinkOf(cons, init, a.env, w, fuel), acc, 1)
    requires vars.ads != [] && vars.ads[0].Map?
    ensures Goal(cons, init, vars, a, counts, v, acc, w, fuel)
    decreases |vars.ads|, 0, 1
  {
    hide Ready, Compiled, ConsumerFits, L.Run, L.Eval, L.Lookup, Free, Inline, BodyCode, E.Enc, E.Expressible, BodyEnds, ClosureFits, CellsHold,
      CellsApart, CellNames, FnOf, Moved, DeclaresNew, I.Push, StagesOf, SinkOf, AllFit, RestCorrect, InRange, Small;
    var k := vars.ads[0].k;
    var f := FnOf(k, a.env, w, fuel);
    HeadOfAt(vars, a, counts, v, acc);
    HeadFits(vars.ads, a.q);
    MapParts(cons, vars, a.c, a.n, counts, v, a.env, w, fuel);
    if f(v).Some? {
      var u := f(v).value;
      var g := Inline(k.body, Call(k, vars.item, a.c), a.n);
      ClosureRun(k, a, vars.item, v, w, fuel);
      var b1 := a.(n := g.next, s := L.Run(g.code, a.s, w.lf, fuel).store);
      FreeMoved(a, b1, vars.item);
      AssignCell(b1, vars.item, g.e, E.Enc(u), w, fuel);
      var set_ := [L.Assign(Name(vars.item), g.e)];
      var b2 := b1.(s := L.Run(set_, b1.s, w.lf, fuel).store);
      MovedThen(a, b1, b2, {}, {vars.item}, {vars.item});
      RunAppend(g.code, set_, a.s, w.lf, fuel);
      RestHolds(cons, init, vars, a, b2, counts, v, u, acc, {vars.item}, w, fuel);
      GoalPrepended(cons, init, vars, a, b2, g.code + set_, {vars.item}, counts[0], counts, v, u, acc, w, fuel);
    } else {
      NothingClaimed(a, vars, L.Run(BodyCode(vars.ads, vars.cells, cons, vars.item, vars.res, a.c, a.n).code, a.s, w.lf, fuel), SinkOf(cons, init, a.env, w, fuel), acc);
    }
  }

  // enumerate

  lemma PairEval(counter: string, item: string, n: int, v: R.Val, s: L.Store, f: L.Functions)
    requires L.Lookup(s, counter) == Some(L.IntV(n)) && L.Lookup(s, item) == Some(E.Enc(v)) && E.Expressible(v)
    ensures L.Eval(PairExpr(counter, item), s, f) == Some(E.Enc(R.VecVal([R.IntVal(n), v])))
    ensures E.Expressible(R.VecVal([R.IntVal(n), v]))
  {
    hide L.Lookup, L.EvalFields, E.EncAll;
    NameEval(counter, s, f);
    NameEval(item, s, f);
    var f1, f2, f3 := Value(Name(counter)), Value(Name(item)), Named("n", Integer(2));
    var t0, t1, t2 := L.TableV([], map[]), L.TableV([L.IntV(n)], map[]), L.TableV([L.IntV(n), E.Enc(v)], map[]);
    assert t0.items + [L.IntV(n)] == t1.items && t1.items + [E.Enc(v)] == t2.items;
    FieldsThen([], f1, s, f, t0);
    assert L.EvalFields([f1], s, f) == Some(t1) by { assert [] + [f1] == [f1]; }
    FieldsThen([f1], f2, s, f, t1);
    FieldsThen([f1] + [f2], f3, s, f, t2);
    assert [f1] + [f2] + [f3] == [f1, f2, f3];
    PairEncodes(n, v);
  }

  lemma FieldsThen(fields: seq<TableField>, x: TableField, s: L.Store, f: L.Functions, t: L.Value)
    requires t.TableV? && (fields == [] ==> t == L.TableV([], map[])) && (fields != [] ==> L.EvalFields(fields, s, f) == Some(t))
    ensures L.EvalFields(fields + [x], s, f) == L.AddField(t, x, s, f)
  {
    hide L.AddField;
    assert (fields + [x])[..|fields|] == fields;
  }

  lemma PairEncodes(n: int, v: R.Val)
    ensures E.EncAll([R.IntVal(n), v]) == [L.IntV(n), E.Enc(v)]
  {
  }

  lemma EnumerateParts(cons: Consumer, vars: Vars, c: Ctx, n: nat, counts: seq<int>, v: R.Val, env: R.Env, w: World, fuel: nat)
    requires hide BodyCode, BodyEnds, StagesOf, SinkOf, RestCorrect, Goal, CellsApart, CellNames, CellsHold, CellHolds, Moved, Ready, Free,
               L.Run, L.Lookup, E.Enc, E.Expressible;
             vars.Valid() && vars.ads != [] && vars.ads[0].Enumerate? && |counts| == |vars.ads|
    ensures var counter := vars.cells[0].counter;
            var rest := BodyCode(vars.ads[1..], vars.cells[1..], cons, vars.item, vars.res, c, n).code;
            BodyCode(vars.ads, vars.cells, cons, vars.item, vars.res, c, n).code
            == [L.Assign(Name(vars.item), PairExpr(counter, vars.item))] + [Bump(counter)] + rest
    ensures var stages := StagesOf(vars.ads, vars.limits, env, w, fuel);
            I.Push(stages, counts, v) == I.Prepend(counts[0] + 1, I.Push(stages[1..], counts[1..], R.VecVal([R.IntVal(counts[0]), v])))
  {
    hide SinkCode, CellsApart, CellNames, Inline, R.Eval;
    StagesSplit(vars, env, w, fuel);
    var rest := BodyCode(vars.ads[1..], vars.cells[1..], cons, vars.item, vars.res, c, n).code;
    var x, y := [L.Assign(Name(vars.item), PairExpr(vars.cells[0].counter, vars.item))], [Bump(vars.cells[0].counter)];
    assert x + y + rest == x + (y + rest);
  }

  lemma UsedNames(vars: Vars)
    requires vars.Valid() && vars.ads != []
    ensures Used(vars.ads[0], vars.cells[0]) <= vars.Names() && vars.item !in Used(vars.ads[0], vars.cells[0]) && vars.res !in Used(vars.ads[0], vars.cells[0])
    ensures vars.ads[0].Skip? || vars.ads[0].Take? ==> vars.cells[0].counter != vars.cells[0].limit
  {
  }

  lemma BumpRun(a: State, counter: string, n: int, w: World, fuel: nat)
    requires hide *; Ready(a) && Free(a, counter) && L.Lookup(a.s, counter) == Some(L.IntV(n)) && 0 <= n < I.MAX_INT
    ensures var o := L.Run([Bump(counter)], a.s, w.lf, fuel);
            && o.Normal? && Moved(a, a.(s := o.store), {counter}) && |o.store| == |a.s|
            && L.Lookup(o.store, counter) == Some(L.IntV(n + 1)) && forall y :: y != counter ==> L.Lookup(o.store, y) == L.Lookup(a.s, y)
  {
    hide Ready, Free, L.Run, L.Eval, Moved, L.Lookup;
    NameEval(counter, a.s, w.lf);
    PlusEval(Name(counter), n, a.s, w.lf);
    AssignCell(a, counter, Plus1(Name(counter)), L.IntV(n + 1), w, fuel);
  }

  lemma {:induction false} EnumerateCorrect(cons: Consumer, init: R.Val, vars: Vars, a: State, counts: seq<int>, v: R.Val, acc: R.Val, w: World, fuel: nat)
    requires hide Inline, Fits, R.Eval, L.Lookup, L.Run, E.Enc, E.Expressible, Compiled, Ready;
             vars.At(a, counts, v, acc) && Compiled(w) && AllFit(vars.ads, a.q) && ConsumerFits(cons, a.q)
    requires InRange(counts, 1) && Small(SinkOf(cons, init, a.env, w, fuel), acc, 1)
    requires vars.ads != [] && vars.ads[0].Enumerate?
    ensures Goal(cons, init, vars, a, counts, v, acc, w, fuel)
    decreases |vars.ads|, 0, 1
  {
    hide Ready, Compiled, ConsumerFits, L.Run, L.Eval, L.Lookup, Free, BodyCode, E.Enc, E.Expressible, BodyEnds, CellsHold, CellsApart, CellNames,
      Moved, I.Push, StagesOf, SinkOf, AllFit, RestCorrect, Small;
    var counter := vars.cells[0].counter;
    var n := counts[0];
    var u := R.VecVal([R.IntVal(n), v]);
    HeadOfAt(vars, a, counts, v, acc);
    UsedNames(vars);
    EnumerateParts(cons, vars, a.c, a.n, counts, v, a.env, w, fuel);
    PairEval(counter, vars.item, n, v, a.s, w.lf);
    var set_ := [L.Assign(Name(vars.item), PairExpr(counter, vars.item))];
    AssignCell(a, vars.item, PairExpr(counter, vars.item), E.Enc(u), w, fuel);
    var b1 := a.(s := L.Run(set_, a.s, w.lf, fuel).store);
    MovedSame(a, b1, {vars.item});
    FreeLater(a, b1, counter);
    BumpRun(b1, counter, n, w, fuel);
    var b2 := b1.(s := L.Run([Bump(counter)], b1.s, w.lf, fuel).store);
    MovedThen(a, b1, b2, {vars.item}, {counter}, {vars.item, counter});
    RunAppend(set_, [Bump(counter)], a.s, w.lf, fuel);
    RestHolds(cons, init, vars, a, b2, counts, v, u, acc, {vars.item, counter}, w, fuel);
    GoalPrepended(cons, init, vars, a, b2, set_ + [Bump(counter)], {vars.item, counter}, n + 1, counts, v, u, acc, w, fuel);
  }

  // take

  lemma CompareEval(op: BinaryOp, x: string, y: string, m: int, n: int, s: L.Store, f: L.Functions)
    requires L.Lookup(s, x) == Some(L.IntV(m)) && L.Lookup(s, y) == Some(L.IntV(n)) && (op == Ge || op == Lt)
    ensures L.Eval(Binary(Name(x), op, Name(y)), s, f) == Some(L.BoolV(if op == Ge then m >= n else m < n))
  {
    hide L.Lookup;
    NameEval(x, s, f);
    NameEval(y, s, f);
  }

  lemma TakeTestRun(cell: Cell, m: int, n: int, s: L.Store, w: World, fuel: nat)
    requires L.Lookup(s, cell.counter) == Some(L.IntV(m)) && L.Lookup(s, cell.limit) == Some(L.IntV(n))
    ensures L.Run([TakeTest(cell)], s, w.lf, fuel) == if m >= n then L.Broke(s) else L.Normal(s)
  {
    hide L.Lookup, L.Run, L.Eval;
    var cond := Binary(Name(cell.counter), Ge, Name(cell.limit));
    CompareEval(Ge, cell.counter, cell.limit, m, n, s, w.lf);
    WhenRun(cond, [L.Break], s, w.lf, fuel);
    BreakRun(s, w.lf, fuel);
    assert s[..|s|] == s;
  }

  lemma TakeParts(cons: Consumer, vars: Vars, c: Ctx, n: nat, counts: seq<int>, v: R.Val, env: R.Env, w: World, fuel: nat)
    requires hide BodyCode, BodyEnds, StagesOf, SinkOf, RestCorrect, Goal, CellsApart, CellNames, CellsHold, CellHolds, Moved, Ready, Free,
               L.Run, L.Lookup, E.Enc, E.Expressible;
             vars.Valid() && vars.ads != [] && vars.ads[0].Take? && |counts| == |vars.ads|
    ensures var cell := vars.cells[0];
            var rest := BodyCode(vars.ads[1..], vars.cells[1..], cons, vars.item, vars.res, c, n).code;
            BodyCode(vars.ads, vars.cells, cons, vars.item, vars.res, c, n).code == [TakeTest(cell)] + [Bump(cell.counter)] + rest
            && [TakeTest(cell)] + [Bump(cell.counter)] + rest == [TakeTest(cell)] + ([Bump(cell.counter)] + rest)
    ensures var stages := StagesOf(vars.ads, vars.limits, env, w, fuel);
            I.Push(stages, counts, v) ==
            if counts[0] >= vars.limits[0] then I.Stopped else I.Prepend(counts[0] + 1, I.Push(stages[1..], counts[1..], v))
  {
    hide SinkCode, CellsApart, CellNames, Inline, R.Eval;
    StagesSplit(vars, env, w, fuel);
    var rest := BodyCode(vars.ads[1..], vars.cells[1..], cons, vars.item, vars.res, c, n).code;
    var x, y := [TakeTest(vars.cells[0])], [Bump(vars.cells[0].counter)];
    assert x + y + rest == x + (y + rest);
  }

  /** Breaking where we are. */
  lemma StoppedHere(a: State, vars: Vars, acc: R.Val)
    requires vars.Valid() && Ready(a) && L.Lookup(a.s, vars.res) == Some(E.Enc(acc)) && E.Expressible(acc)
    ensures Ends(a, vars, L.Broke(a.s), [], acc, true)
  {
    hide Ready, L.Lookup, E.Enc, E.Expressible;
  }

  lemma {:induction false} TakeCorrect(cons: Consumer, init: R.Val, vars: Vars, a: State, counts: seq<int>, v: R.Val, acc: R.Val, w: World, fuel: nat)
    requires hide Inline, Fits, R.Eval, L.Lookup, L.Run, E.Enc, E.Expressible, Compiled, Ready;
             vars.At(a, counts, v, acc) && Compiled(w) && AllFit(vars.ads, a.q) && ConsumerFits(cons, a.q)
    requires InRange(counts, 1) && Small(SinkOf(cons, init, a.env, w, fuel), acc, 1)
    requires vars.ads != [] && vars.ads[0].Take?
    ensures Goal(cons, init, vars, a, counts, v, acc, w, fuel)
    decreases |vars.ads|, 0, 1
  {
    hide Ready, Compiled, ConsumerFits, L.Run, L.Lookup, Free, BodyCode, E.Enc, E.Expressible, CellsHold, CellsApart, CellNames, Moved, I.Push,
      StagesOf, SinkOf, AllFit, RestCorrect, Small, Ends;
    var cell := vars.cells[0];
    var n := counts[0];
    HeadOfAt(vars, a, counts, v, acc);
    UsedNames(vars);
    TakeParts(cons, vars, a.c, a.n, counts, v, a.env, w, fuel);
    TakeTestRun(cell, n, vars.limits[0], a.s, w, fuel);
    var rest := BodyCode(vars.ads[1..], vars.cells[1..], cons, vars.item, vars.res, a.c, a.n).code;
    if n >= vars.limits[0] {
      RunAppend([TakeTest(cell)], [Bump(cell.counter)] + rest, a.s, w.lf, fuel);
      StoppedHere(a, vars, acc);
    } else {
      BumpRun(a, cell.counter, n, w, fuel);
      var b := a.(s := L.Run([Bump(cell.counter)], a.s, w.lf, fuel).store);
      RunAppend([TakeTest(cell)], [Bump(cell.counter)], a.s, w.lf, fuel);
      RestHolds(cons, init, vars, a, b, counts, v, v, acc, {cell.counter}, w, fuel);
      GoalPrepended(cons, init, vars, a, b, [TakeTest(cell)] + [Bump(cell.counter)], {cell.counter}, n + 1, counts, v, v, acc, w, fuel);
    }
  }

  // rev

  lemma RevParts(cons: Consumer, vars: Vars, c: Ctx, n: nat, counts: seq<int>, v: R.Val, env: R.Env, w: World, fuel: nat)
    requires hide BodyCode, BodyEnds, StagesOf, SinkOf, RestCorrect, Goal, CellsApart, CellNames, CellsHold, CellHolds, Moved, Ready, Free,
               L.Run, L.Lookup, E.Enc, E.Expressible;
             vars.Valid() && vars.ads != [] && vars.ads[0].Rev? && |counts| == |vars.ads|
    ensures var rest := BodyCode(vars.ads[1..], vars.cells[1..], cons, vars.item, vars.res, c, n).code;
            BodyCode(vars.ads, vars.cells, cons, vars.item, vars.res, c, n).code == [] + rest
    ensures var stages := StagesOf(vars.ads, vars.limits, env, w, fuel);
            I.Push(stages, counts, v) == I.Prepend(counts[0], I.Push(stages[1..], counts[1..], v))
  {
    hide SinkCode, CellsApart, CellNames, Inline, R.Eval;
    StagesSplit(vars, env, w, fuel);
  }

  lemma {:induction false} RevCorrect(cons: Consumer, init: R.Val, vars: Vars, a: State, counts: seq<int>, v: R.Val, acc: R.Val, w: World, fuel: nat)
    requires hide Inline, Fits, R.Eval, L.Lookup, L.Run, E.Enc, E.Expressible, Compiled, Ready;
             vars.At(a, counts, v, acc) && Compiled(w) && AllFit(vars.ads, a.q) && ConsumerFits(cons, a.q)
    requires InRange(counts, 1) && Small(SinkOf(cons, init, a.env, w, fuel), acc, 1)
    requires vars.ads != [] && vars.ads[0].Rev?
    ensures Goal(cons, init, vars, a, counts, v, acc, w, fuel)
    decreases |vars.ads|, 0, 1
  {
    hide Ready, Compiled, ConsumerFits, L.Run, L.Lookup, Free, BodyCode, E.Enc, E.Expressible, BodyEnds, CellsHold, CellsApart, CellNames,
      Fixed, I.Push, StagesOf, SinkOf, AllFit, RestCorrect, Small;
    HeadOfAt(vars, a, counts, v, acc);
    RevParts(cons, vars, a.c, a.n, counts, v, a.env, w, fuel);
    RunNothing(a.s, w.lf, fuel);
    assert Moved(a, a, {});
    RestHolds(cons, init, vars, a, a, counts, v, v, acc, {}, w, fuel);
    GoalPrepended(cons, init, vars, a, a, [], {}, counts[0], counts, v, v, acc, w, fuel);
  }

  // filter

  lemma FilterParts(cons: Consumer, vars: Vars, c: Ctx, n: nat, counts: seq<int>, v: R.Val, env: R.Env, w: World, fuel: nat)
    requires hide Inline, R.Eval; vars.Valid() && vars.ads != [] && vars.ads[0].Filter? && |counts| == |vars.ads|
    ensures var k := vars.ads[0].k;
            var g := Inline(k.body, Call(k, vars.item, c), n);
            var rest := BodyCode(vars.ads[1..], vars.cells[1..], cons, vars.item, vars.res, c, g.next).code;
            BodyCode(vars.ads, vars.cells, cons, vars.item, vars.res, c, n).code == g.code + [When(g.e, rest)] && [] + rest == rest
    ensures var stages := StagesOf(vars.ads, vars.limits, env, w, fuel);
            var u := FnOf(vars.ads[0].k, env, w, fuel)(v);
            I.Push(stages, counts, v) ==
            if u.None? || !u.value.BoolVal? then I.Undefined
            else if u.value.b then I.Prepend(counts[0], I.Push(stages[1..], counts[1..], v))
            else I.Dropped(counts)
  {
    hide Inline, FnOf, SinkCode, CellsApart, CellNames;
    StagesSplit(vars, env, w, fuel);
  }

  /** What the closures leave of the state of the loop. */
  lemma CellsMoved(vars: Vars, a: State, b: State, counts: seq<int>, v: R.Val, acc: R.Val)
    requires hide BodyCode, BodyEnds, StagesOf, SinkOf, RestCorrect, Goal, CellsApart, CellNames, CellsHold, CellHolds, Moved, Ready, Free,
               L.Run, L.Lookup, E.Enc, E.Expressible;
             vars.At(a, counts, v, acc) && Moved(a, b, {})
    ensures CellsHold(b.s, vars.ads, vars.cells, vars.limits, counts) && L.Lookup(b.s, vars.res) == Some(E.Enc(acc))
    ensures forall z :: z in vars.Names() ==> Free(b, z)
  {
    hide Ready, L.Lookup, E.Enc, E.Expressible, Fixed;
    forall z | z in vars.Names() ensures Free(b, z) && L.Lookup(b.s, z) == L.Lookup(a.s, z) {
      FreeLater(a, b, z);
    }
    CellsKept(a.s, b.s, vars.ads, vars.cells, vars.limits, counts);
  }

  /** The rest of the stages, as a claim about all of them at the place b. */
  lemma RestAsWhole(cons: Consumer, init: R.Val, vars: Vars, b0: State, b: State, code: Code, x: set<string>, counts: seq<int>, u: R.Val, acc: R.Val, w: World, fuel: nat)
    requires hide BodyCode, BodyEnds, StagesOf, SinkOf, RestCorrect, Goal, CellsApart, CellNames, CellsHold, CellHolds, Moved, Ready, Free,
               L.Run, L.Lookup, E.Enc, E.Expressible;
             vars.Valid() && vars.ads != [] && |counts| == |vars.ads| && Ready(b0) && Moved(b0, b, x) && x <= vars.Names() && b.n == b0.n
    requires L.Run(code, b0.s, w.lf, fuel) == L.Normal(b.s)
    requires RestCorrect(cons, init, vars, b, counts, u, acc, w, fuel)
    requires CellHolds(b.s, vars.ads[0], vars.cells[0], vars.limits[0], counts[0])
    requires forall z :: z in vars.Names() ==> Free(b, z)
    ensures var rest := BodyCode(vars.ads[1..], vars.cells[1..], cons, vars.item, vars.res, b0.c, b0.n).code;
            BodyEnds(b0, vars, L.Run(code + rest, b0.s, w.lf, fuel),
                     I.Prepend(counts[0], I.Push(StagesOf(vars.ads[1..], vars.limits[1..], b0.env, w, fuel), counts[1..], u)),
                     SinkOf(cons, init, b0.env, w, fuel), acc)
  {
    hide Ready, L.Run, L.Lookup, Free, BodyCode, E.Enc, E.Expressible, BodyEnds, I.Push, StagesOf, SinkOf, CellsHold, CellsApart,
      CellNames, Moved, CellHolds, I.Prepend;
    MovedSame(b0, b, x);
    var rest := BodyCode(vars.ads[1..], vars.cells[1..], cons, vars.item, vars.res, b0.c, b0.n).code;
    Prepended(b0, b, vars, code, rest, x, counts[0], I.Push(StagesOf(vars.ads[1..], vars.limits[1..], b0.env, w, fuel), counts[1..], u),
              SinkOf(cons, init, b0.env, w, fuel), acc, w, fuel);
  }

  lemma HeadMoved(vars: Vars, b: State, counts: seq<int>)
    requires vars.Valid() && vars.ads != [] && |counts| == |vars.ads| && CellsHold(b.s, vars.ads, vars.cells, vars.limits, counts)
    ensures CellHolds(b.s, vars.ads[0], vars.cells[0], vars.limits[0], counts[0])
  {
    hide L.Lookup;
  }

  lemma RestDeclares(cons: Consumer, vars: Vars, b: State, n: nat)
    requires hide Inline, Fits, SomeMarks, Ready;
             Ready(b) && vars.Valid() && vars.ads != [] && AllFit(vars.ads, b.q) && ConsumerFits(cons, b.q) && n <= b.n
    ensures DeclaresNew(BodyCode(vars.ads[1..], vars.cells[1..], cons, vars.item, vars.res, b.c, b.n).code, b.c, b.q, n)
  {
    hide Ready, ConsumerFits, BodyCode, DeclaresNew, NamesApart, SubClear, CellsApart, AdapterFits;
    ReadyIsLive(b);
    BodyDeclares(vars.ads[1..], vars.cells[1..], cons, vars.item, vars.res, b.c, b.q, b.n, n);
  }

  lemma TruthPasses(e: Expr, b: bool, s: L.Store, f: L.Functions)
    requires L.Eval(e, s, f) == Some(L.BoolV(b))
    ensures b ==> P.Passes(e, s, f)
  {
    hide L.Eval;
  }

  lemma BoolEnc(v: R.Val)
    requires v.BoolVal?
    ensures E.Enc(v) == L.BoolV(v.b)
  {
  }

  lemma GoalIs(cons: Consumer, init: R.Val, vars: Vars, a: State, counts: seq<int>, v: R.Val, acc: R.Val, code: Code, p: I.Pushed, w: World, fuel: nat)
    requires hide BodyCode, BodyEnds, StagesOf, SinkOf, RestCorrect, Goal, CellsApart, CellNames, CellsHold, CellHolds, Moved, Ready, Free,
               L.Run, L.Lookup, E.Enc, E.Expressible;
             vars.Valid() && |counts| == |vars.ads|
    requires BodyCode(vars.ads, vars.cells, cons, vars.item, vars.res, a.c, a.n).code == code
    requires I.Push(StagesOf(vars.ads, vars.limits, a.env, w, fuel), counts, v) == p
    requires BodyEnds(a, vars, L.Run(code, a.s, w.lf, fuel), p, SinkOf(cons, init, a.env, w, fuel), acc)
    ensures Goal(cons, init, vars, a, counts, v, acc, w, fuel)
  {
    hide BodyCode, I.Push, StagesOf, SinkOf, BodyEnds, L.Run, CellsApart, CellNames;
  }

  lemma DroppedEnds(a: State, b: State, vars: Vars, o: L.Outcome, x: set<string>, counts: seq<int>, sink: I.Sink, acc: R.Val)
    requires hide BodyCode, BodyEnds, StagesOf, SinkOf, RestCorrect, Goal, CellsApart, CellNames, CellsHold, CellHolds, Moved, Ready, Free,
               L.Run, L.Lookup, E.Enc, E.Expressible;
             vars.Valid() && Ready(a) && Moved(a, b, x) && x <= vars.Names() && o == L.Normal(b.s)
    requires L.Lookup(b.s, vars.res) == Some(E.Enc(acc)) && E.Expressible(acc)
    requires |counts| == |vars.ads| && CellsHold(b.s, vars.ads, vars.cells, vars.limits, counts)
    ensures BodyEnds(a, vars, o, I.Dropped(counts), sink, acc)
  {
    hide Ready, L.Lookup, E.Enc, E.Expressible, Moved, CellsHold, Ends;
    DroppedHere(a, b, vars, o, x, counts, acc);
  }

  /** The guard holds: the rest of the stages run inside it. */
  lemma GuardHoldsHere(cons: Consumer, init: R.Val, vars: Vars, a: State, b: State, b2: State, code: Code, cond: Expr, set_: Code, x: set<string>,
                       counts: seq<int>, u: R.Val, acc: R.Val, w: World, fuel: nat)
    requires hide Inline, Fits, R.Eval, L.Eval, L.Lookup, L.Run, E.Enc, E.Expressible, SomeMarks, Ready;
             vars.Valid() && vars.ads != [] && |counts| == |vars.ads| && Ready(a) && Ready(b)
    requires Moved(a, b, {}) && L.Run(code, a.s, w.lf, fuel) == L.Normal(b.s)
    requires Moved(b, b2, x) && x <= vars.Names() && b2.n == b.n && L.Run(set_, b.s, w.lf, fuel) == L.Normal(b2.s)
    requires RestCorrect(cons, init, vars, b2, counts, u, acc, w, fuel) && CellHolds(b2.s, vars.ads[0], vars.cells[0], vars.limits[0], counts[0])
    requires (forall z :: z in vars.Names() ==> Free(b, z)) && forall z :: z in vars.Names() ==> Free(b2, z)
    requires DeclaresNew(set_, b.c, b.q, b.n) && P.Passes(cond, b.s, w.lf) && AllFit(vars.ads, b.q) && ConsumerFits(cons, b.q)
    ensures var rest := BodyCode(vars.ads[1..], vars.cells[1..], cons, vars.item, vars.res, b.c, b.n).code;
            BodyEnds(a, vars, L.Run(code + [When(cond, set_ + rest)], a.s, w.lf, fuel),
                     I.Prepend(counts[0], I.Push(StagesOf(vars.ads[1..], vars.limits[1..], a.env, w, fuel), counts[1..], u)),
                     SinkOf(cons, init, a.env, w, fuel), acc)
  {
    hide Ready, ConsumerFits, L.Run, L.Eval, L.Lookup, Free, BodyCode, E.Enc, E.Expressible, BodyEnds, CellsHold, CellsApart, CellNames,
      Moved, DeclaresNew, I.Push, I.Prepend, StagesOf, SinkOf, AllFit, RestCorrect, CellHolds, P.Passes;
    var rest := BodyCode(vars.ads[1..], vars.cells[1..], cons, vars.item, vars.res, b.c, b.n).code;
    MovedSame(a, b, {});
    RestAsWhole(cons, init, vars, b, b2, set_, x, counts, u, acc, w, fuel);
    RestDeclares(cons, vars, b, b.n);
    DeclaresConcat(set_, rest, b.c, b.q, b.n);
    Guarded(a, b, vars, code, cond, set_ + rest, I.Prepend(counts[0], I.Push(StagesOf(vars.ads[1..], vars.limits[1..], a.env, w, fuel), counts[1..], u)),
            SinkOf(cons, init, a.env, w, fuel), acc, w, fuel);
  }

  lemma {:induction false} FilterCorrect(cons: Consumer, init: R.Val, vars: Vars, a: State, counts: seq<int>, v: R.Val, acc: R.Val, w: World, fuel: nat)
    requires hide Inline, Fits, R.Eval, L.Lookup, L.Run, E.Enc, E.Expressible, Compiled, Ready;
             vars.At(a, counts, v, acc) && Compiled(w) && AllFit(vars.ads, a.q) && ConsumerFits(cons, a.q)
    requires InRange(counts, 1) && Small(SinkOf(cons, init, a.env, w, fuel), acc, 1)
    requires vars.ads != [] && vars.ads[0].Filter?
    ensures Goal(cons, init, vars, a, counts, v, acc, w, fuel)
    decreases |vars.ads|, 0, 1
  {
    hide Ready, Compiled, ConsumerFits, L.Run, L.Eval, L.Lookup, Free, Inline, BodyCode, E.Enc, E.Expressible, BodyEnds, ClosureFits, CellsHold,
      CellsApart, CellNames, FnOf, Moved, DeclaresNew, I.Push, I.Prepend, StagesOf, SinkOf, AllFit, RestCorrect, InRange, Small, CellHolds, P.Passes,
      Goal;
    var k := vars.ads[0].k;
    var f := FnOf(k, a.env, w, fuel);
    HeadOfAt(vars, a, counts, v, acc);
    HeadFits(vars.ads, a.q);
    StagesSplit(vars, a.env, w, fuel);
    FilterParts(cons, vars, a.c, a.n, counts, v, a.env, w, fuel);
    var g := Inline(k.body, Call(k, vars.item, a.c), a.n);
    var rest := BodyCode(vars.ads[1..], vars.cells[1..], cons, vars.item, vars.res, a.c, g.next).code;
    var code := g.code + [When(g.e, rest)];
    if f(v).Some? && f(v).value.BoolVal? {
      ClosureRun(k, a, vars.item, v, w, fuel);
      var b := a.(n := g.next, s := L.Run(g.code, a.s, w.lf, fuel).store);
      MovedSame(a, b, {});
      FreeMoved(a, b, vars.item);
      CellsMoved(vars, a, b, counts, v, acc);
      BoolEnc(f(v).value);
      if f(v).value.b {
        RestHolds(cons, init, vars, a, b, counts, v, v, acc, {}, w, fuel);
        HeadMoved(vars, b, counts);
        RunNothing(b.s, w.lf, fuel);
        StaysPut(b);
        AssignNothing("", Nil, b.c, b.q, b.n);
        TruthPasses(g.e, true, b.s, w.lf);
        GuardHoldsHere(cons, init, vars, a, b, b, g.code, g.e, [], {}, counts, v, acc, w, fuel);
        GoalIs(cons, init, vars, a, counts, v, acc, code, I.Prepend(counts[0], I.Push(StagesOf(vars.ads[1..], vars.limits[1..], a.env, w, fuel), counts[1..], v)), w, fuel);
      } else {
        RunAppend(g.code, [When(g.e, rest)], a.s, w.lf, fuel);
        WhenRun(g.e, rest, b.s, w.lf, fuel);
        DroppedEnds(a, b, vars, L.Run(code, a.s, w.lf, fuel), {}, counts, SinkOf(cons, init, a.env, w, fuel), acc);
        GoalIs(cons, init, vars, a, counts, v, acc, code, I.Dropped(counts), w, fuel);
      }
    } else {
      NothingClaimed(a, vars, L.Run(code, a.s, w.lf, fuel), SinkOf(cons, init, a.env, w, fuel), acc);
      GoalIs(cons, init, vars, a, counts, v, acc, code, I.Undefined, w, fuel);
    }
  }

  lemma StaysPut(a: State)
    requires Ready(a)
    ensures Moved(a, a, {})
  {
    hide Ready, Fixed;
  }

  // filter_map

  lemma FilterMapParts(cons: Consumer, vars: Vars, c: Ctx, n: nat, counts: seq<int>, v: R.Val, env: R.Env, w: World, fuel: nat)
    requires hide Inline, R.Eval; vars.Valid() && vars.ads != [] && vars.ads[0].FilterMap? && |counts| == |vars.ads|
    ensures var k := vars.ads[0].k;
            var g := Inline(k.body, Call(k, vars.item, c), n);
            var rest := BodyCode(vars.ads[1..], vars.cells[1..], cons, vars.item, vars.res, c, g.next).code;
            BodyCode(vars.ads, vars.cells, cons, vars.item, vars.res, c, n).code
            == g.code + [When(Binary(g.e, Ne, Nil), [L.Assign(Name(vars.item), g.e)] + rest)]
    ensures var stages := StagesOf(vars.ads, vars.limits, env, w, fuel);
            var u := FnOf(vars.ads[0].k, env, w, fuel)(v);
            I.Push(stages, counts, v) ==
            if u.Some? && u.value.SomeVal? then I.Prepend(counts[0], I.Push(stages[1..], counts[1..], u.value.payload))
            else if u.Some? && u.value.NoneVal? then I.Dropped(counts)
            else I.Undefined
  {
    hide Inline, FnOf, SinkCode, CellsApart, CellNames;
    StagesSplit(vars, env, w, fuel);
  }

  lemma NotNilEval(e: Expr, v: R.Val, s: L.Store, f: L.Functions)
    requires hide *; L.Eval(e, s, f) == Some(E.Enc(v)) && E.Expressible(v) && (v.SomeVal? || v.NoneVal?)
    ensures L.Eval(Binary(e, Ne, Nil), s, f) == Some(L.BoolV(v.SomeVal?))
    ensures v.SomeVal? ==> E.Enc(v.payload) == E.Enc(v) && E.Expressible(v.payload)
  {
    hide L.Eval, E.Enc, E.Expressible;
    P.NilTests(v, e, s, f);
    if v.SomeVal? { SomePayload(v); }
  }

  lemma {:induction false} FilterMapCorrect(cons: Consumer, init: R.Val, vars: Vars, a: State, counts: seq<int>, v: R.Val, acc: R.Val, w: World, fuel: nat)
    requires hide Inline, Fits, R.Eval, L.Lookup, L.Run, E.Enc, E.Expressible, Compiled, Ready;
             vars.At(a, counts, v, acc) && Compiled(w) && AllFit(vars.ads, a.q) && ConsumerFits(cons, a.q)
    requires InRange(counts, 1) && Small(SinkOf(cons, init, a.env, w, fuel), acc, 1)
    requires vars.ads != [] && vars.ads[0].FilterMap?
    ensures Goal(cons, init, vars, a, counts, v, acc, w, fuel)
    decreases |vars.ads|, 0, 1
  {
    hide Ready, Compiled, ConsumerFits, L.Run, L.Eval, L.Lookup, Free, Inline, BodyCode, E.Enc, E.Expressible, BodyEnds, ClosureFits, CellsHold,
      CellsApart, CellNames, FnOf, Moved, DeclaresNew, I.Push, I.Prepend, StagesOf, SinkOf, AllFit, RestCorrect, InRange, Small, CellHolds, P.Passes,
      Goal, Used;
    var k := vars.ads[0].k;
    var f := FnOf(k, a.env, w, fuel);
    HeadOfAt(vars, a, counts, v, acc);
    HeadFits(vars.ads, a.q);
    StagesSplit(vars, a.env, w, fuel);
    FilterMapParts(cons, vars, a.c, a.n, counts, v, a.env, w, fuel);
    var g := Inline(k.body, Call(k, vars.item, a.c), a.n);
    var set_ := [L.Assign(Name(vars.item), g.e)];
    var rest := BodyCode(vars.ads[1..], vars.cells[1..], cons, vars.item, vars.res, a.c, g.next).code;
    var cond := Binary(g.e, Ne, Nil);
    var code := g.code + [When(cond, set_ + rest)];
    if f(v).Some? && (f(v).value.SomeVal? || f(v).value.NoneVal?) {
      var x := f(v).value;
      ClosureRun(k, a, vars.item, v, w, fuel);
      var b := a.(n := g.next, s := L.Run(g.code, a.s, w.lf, fuel).store);
      MovedSame(a, b, {});
      FreeMoved(a, b, vars.item);
      CellsMoved(vars, a, b, counts, v, acc);
      NotNilEval(g.e, x, b.s, w.lf);
      if x.SomeVal? {
        AssignCell(b, vars.item, g.e, E.Enc(x.payload), w, fuel);
        var b2 := b.(s := L.Run(set_, b.s, w.lf, fuel).store);
        MovedThen(a, b, b2, {}, {vars.item}, {vars.item});
        RestHolds(cons, init, vars, a, b2, counts, v, x.payload, acc, {vars.item}, w, fuel);
        UsedNames(vars);
        HeadMoved(vars, b, counts);
        HeadSame(vars, b, b2, counts[0]);
        AssignNothing(vars.item, g.e, b.c, b.q, b.n);
        TruthPasses(cond, true, b.s, w.lf);
        GuardHoldsHere(cons, init, vars, a, b, b2, g.code, cond, set_, {vars.item}, counts, x.payload, acc, w, fuel);
        GoalIs(cons, init, vars, a, counts, v, acc, code, I.Prepend(counts[0], I.Push(StagesOf(vars.ads[1..], vars.limits[1..], a.env, w, fuel), counts[1..], x.payload)), w, fuel);
      } else {
        RunAppend(g.code, [When(cond, set_ + rest)], a.s, w.lf, fuel);
        WhenRun(cond, set_ + rest, b.s, w.lf, fuel);
        DroppedEnds(a, b, vars, L.Run(code, a.s, w.lf, fuel), {}, counts, SinkOf(cons, init, a.env, w, fuel), acc);
        GoalIs(cons, init, vars, a, counts, v, acc, code, I.Dropped(counts), w, fuel);
      }
    } else {
      NothingClaimed(a, vars, L.Run(code, a.s, w.lf, fuel), SinkOf(cons, init, a.env, w, fuel), acc);
      GoalIs(cons, init, vars, a, counts, v, acc, code, I.Undefined, w, fuel);
    }
  }

  lemma HeadSame(vars: Vars, b: State, b2: State, n: int)
    requires vars.Valid() && vars.ads != [] && CellHolds(b.s, vars.ads[0], vars.cells[0], vars.limits[0], n)
    requires forall y :: y != vars.item ==> L.Lookup(b2.s, y) == L.Lookup(b.s, y)
    requires vars.item !in Used(vars.ads[0], vars.cells[0])
    ensures CellHolds(b2.s, vars.ads[0], vars.cells[0], vars.limits[0], n)
  {
    hide L.Lookup;
  }

  // skip

  lemma SkipParts(cons: Consumer, vars: Vars, c: Ctx, n: nat, counts: seq<int>, v: R.Val, env: R.Env, w: World, fuel: nat)
    requires hide BodyCode, BodyEnds, StagesOf, SinkOf, RestCorrect, Goal, CellsApart, CellNames, CellsHold, CellHolds, Moved, Ready, Free,
               L.Run, L.Lookup, E.Enc, E.Expressible;
             vars.Valid() && vars.ads != [] && vars.ads[0].Skip? && |counts| == |vars.ads|
    ensures var cell := vars.cells[0];
            var rest := BodyCode(vars.ads[1..], vars.cells[1..], cons, vars.item, vars.res, c, n).code;
            BodyCode(vars.ads, vars.cells, cons, vars.item, vars.res, c, n).code
            == [L.If([L.Branch(Binary(Name(cell.counter), Lt, Name(cell.limit)), [Bump(cell.counter)])], rest)] && [] + rest == rest
    ensures var stages := StagesOf(vars.ads, vars.limits, env, w, fuel);
            I.Push(stages, counts, v) ==
            if counts[0] < vars.limits[0] then I.Dropped([counts[0] + 1] + counts[1..])
            else I.Prepend(counts[0], I.Push(stages[1..], counts[1..], v))
  {
    hide SinkCode, CellsApart, CellNames, Inline, R.Eval;
    StagesSplit(vars, env, w, fuel);
  }

  lemma BodyInside(b: State, vars: Vars, inner: Code, p: I.Pushed, sink: I.Sink, acc: R.Val, w: World, fuel: nat)
    requires hide L.Lookup, L.Run, E.Enc, E.Expressible, SomeMarks, Ready;
             vars.Valid() && Ready(b) && (forall z :: z in vars.Names() ==> Free(b, z)) && DeclaresNew(inner, b.c, b.q, b.n)
    requires BodyEnds(b, vars, L.Run(inner, b.s, w.lf, fuel), p, sink, acc)
    ensures BodyEnds(b, vars, L.Leave(L.Run(inner, b.s, w.lf, fuel), |b.s|), p, sink, acc)
  {
    hide Ready, L.Run, L.Lookup, E.Enc, E.Expressible, Ends, Free, DeclaresNew;
    match p {
      case Undefined =>
      case Stopped => EndsInside(b, vars, inner, [], acc, true, w, fuel);
      case Dropped(next) => EndsInside(b, vars, inner, next, acc, false, w, fuel);
      case Passed(u, next) =>
        var t := I.Sinks(sink, acc, u);
        if t.Some? {
          EndsInside(b, vars, inner, next, t.value.acc, t.value.stop, w, fuel);
        }
    }
  }

  lemma SkippedCells(vars: Vars, a: State, b: State, counts: seq<int>, v: R.Val, acc: R.Val)
    requires hide BodyCode, BodyEnds, StagesOf, SinkOf, RestCorrect, Goal, CellsApart, CellNames, CellsHold, CellHolds, Moved, Ready, Free,
               L.Run, L.Lookup, E.Enc, E.Expressible;
             vars.At(a, counts, v, acc) && vars.ads != [] && vars.ads[0].Skip?
    requires L.Lookup(b.s, vars.cells[0].counter) == Some(L.IntV(counts[0] + 1))
    requires forall y :: y != vars.cells[0].counter ==> L.Lookup(b.s, y) == L.Lookup(a.s, y)
    ensures CellsHold(b.s, vars.ads, vars.cells, vars.limits, [counts[0] + 1] + counts[1..])
    ensures L.Lookup(b.s, vars.res) == Some(E.Enc(acc))
  {
    hide L.Lookup, Ready, Free, E.Enc, E.Expressible;
    var next := [counts[0] + 1] + counts[1..];
    assert next[0] == counts[0] + 1 && next[1..] == counts[1..];
    UsedNames(vars);
    CellsKept(a.s, b.s, vars.ads[1..], vars.cells[1..], vars.limits[1..], counts[1..]);
  }

  lemma {:induction false} SkipCorrect(cons: Consumer, init: R.Val, vars: Vars, a: State, counts: seq<int>, v: R.Val, acc: R.Val, w: World, fuel: nat)
    requires hide Inline, Fits, R.Eval, L.Lookup, L.Run, E.Enc, E.Expressible, Compiled, Ready;
             vars.At(a, counts, v, acc) && Compiled(w) && AllFit(vars.ads, a.q) && ConsumerFits(cons, a.q)
    requires InRange(counts, 1) && Small(SinkOf(cons, init, a.env, w, fuel), acc, 1)
    requires vars.ads != [] && vars.ads[0].Skip?
    ensures Goal(cons, init, vars, a, counts, v, acc, w, fuel)
    decreases |vars.ads|, 0, 1
  {
    hide Ready, Compiled, ConsumerFits, L.Run, L.Eval, L.Lookup, Free, BodyCode, E.Enc, E.Expressible, BodyEnds, CellsHold, CellsApart, CellNames,
      Moved, DeclaresNew, I.Push, I.Prepend, StagesOf, SinkOf, AllFit, RestCorrect, Small, Goal;
    var cell := vars.cells[0];
    var n := counts[0];
    HeadOfAt(vars, a, counts, v, acc);
    UsedNames(vars);
    StagesSplit(vars, a.env, w, fuel);
    SkipParts(cons, vars, a.c, a.n, counts, v, a.env, w, fuel);
    var rest := BodyCode(vars.ads[1..], vars.cells[1..], cons, vars.item, vars.res, a.c, a.n).code;
    var cond := Binary(Name(cell.counter), Lt, Name(cell.limit));
    var code := [L.If([L.Branch(cond, [Bump(cell.counter)])], rest)];
    CompareEval(Lt, cell.counter, cell.limit, n, vars.limits[0], a.s, w.lf);
    IfRun(cond, [Bump(cell.counter)], rest, a.s, w.lf, fuel);
    if n < vars.limits[0] {
      BumpRun(a, cell.counter, n, w, fuel);
      var b := a.(s := L.Run([Bump(cell.counter)], a.s, w.lf, fuel).store);
      assert b.s[..|a.s|] == b.s;
      SkippedCells(vars, a, b, counts, v, acc);
      DroppedEnds(a, b, vars, L.Run(code, a.s, w.lf, fuel), {cell.counter}, [n + 1] + counts[1..], SinkOf(cons, init, a.env, w, fuel), acc);
      GoalIs(cons, init, vars, a, counts, v, acc, code, I.Dropped([n + 1] + counts[1..]), w, fuel);
    } else {
      var p := I.Prepend(counts[0], I.Push(StagesOf(vars.ads[1..], vars.limits[1..], a.env, w, fuel), counts[1..], v));
      RunNothing(a.s, w.lf, fuel);
      StaysPut(a);
      RestHolds(cons, init, vars, a, a, counts, v, v, acc, {}, w, fuel);
      HeadMoved(vars, a, counts);
      RestAsWhole(cons, init, vars, a, a, [], {}, counts, v, acc, w, fuel);
      RestDeclares(cons, vars, a, a.n);
      BodyInside(a, vars, rest, p, SinkOf(cons, init, a.env, w, fuel), acc, w, fuel);
      GoalIs(cons, init, vars, a, counts, v, acc, code, p, w, fuel);
    }
  }
}
