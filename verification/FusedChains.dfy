/** The whole code of a fused iterator chain, from its operands to its result. */
module FusedChains {
  import opened Wrappers
  import opened LuaIr
  import opened Lowering
  import opened LoweringScope
  import opened LoweringMarks
  import opened LoweringState
  import opened LoweringPatterns
  import opened LoweringSteps
  import opened LoweringControl
  import opened LoweringBlocks
  import opened LoweringProof
  import opened FusedLoop
  import opened FusedRounds
  import opened LuaFrame
  import opened RuaFrame
  import I = IterChains
  import R = RuaLang
  import L = LuaRun
  import P = PatternTests
  import E = Encoding

  // ---- the loop statement ----

  /** The Lua variables that hold the source. */
  datatype SourceVars = RangeVars(start: string, end: string, inclusive: bool) | VecVars(holder: string)
  {
    function Source(): Items {
      if RangeVars? then FromRange else FromVec(holder)
    }

    function Names(): set<string> {
      if RangeVars? then {start, end} else {holder}
    }

    /** The last value of a range: its end, or one less. */
    function Stop(): Expr
      requires RangeVars?
    {
      if inclusive then Name(end) else Binary(Name(end), Sub, Integer(1))
    }
  }

  function OddRevs(ads: seq<Adapter>): bool {
    ads != [] && (if ads[0].Rev? then !OddRevs(ads[1..]) else OddRevs(ads[1..]))
  }

  ghost function LoopStmt(sv: SourceVars, cons: Consumer, vars: Vars, index: string, c: Ctx, n: nat): L.Stmt
    requires hide *; |vars.cells| == |vars.ads|
  {
    hide *;
    var body := RoundCode(cons, vars, index, sv.Source(), c, n);
    match sv
    case RangeVars(start, _, _) =>
      if OddRevs(vars.ads) then L.For(index, sv.Stop(), Name(start), -1, body) else L.For(index, Name(start), sv.Stop(), 1, body)
    case VecVars(holder) =>
      if OddRevs(vars.ads) then L.For(index, Field(Name(holder), "n"), Integer(1), -1, body)
      else L.For(index, Integer(1), Field(Name(holder), "n"), 1, body)
  }

  /** What a source holds: two integers of 64 bits, or a vector. */
  datatype SourceVal = RangeVal(lo: int, hi: int, inclusive: bool) | Elements(all: seq<R.Val>)
  {
    /** The integers the loop variable takes, in source order; the end of an exclusive range wraps around. */
    function Indices(): seq<int> {
      match this
      case RangeVal(lo, hi, inclusive) => if inclusive then I.Ints(lo, hi + 1) else I.Loops(lo, hi)
      case Elements(all) => I.Ints(1, |all| + 1)
    }

    /** The items in source order. */
    function Items(): seq<R.Val> {
      match this
      case RangeVal(lo, hi, inclusive) => IntVals(I.Ints(lo, if inclusive then hi + 1 else hi))
      case Elements(all) => all
    }

    /** An exclusive range of 64-bit integers does not end at the smallest one; IterChains says what happens there. */
    predicate EndsRight() {
      RangeVal? && !inclusive ==> R.MIN_INT < hi <= I.MAX_INT
    }
  }

  function IntVals(ns: seq<int>): (r: seq<R.Val>)
    ensures |r| == |ns| && forall i :: 0 <= i < |ns| ==> r[i] == R.IntVal(ns[i])
  {
    if ns == [] then [] else [R.IntVal(ns[0])] + IntVals(ns[1..])
  }

  ghost predicate SourceHolds(sv: SourceVars, x: SourceVal, s: L.Store) {
    match sv
    case RangeVars(start, end, inclusive) =>
      && x.RangeVal? && x.inclusive == inclusive
      && L.Lookup(s, start) == Some(L.IntV(x.lo)) && L.Lookup(s, end) == Some(L.IntV(x.hi))
    case VecVars(holder) =>
      x.Elements? && E.Expressible(R.VecVal(x.all)) && L.Lookup(s, holder) == Some(E.Enc(R.VecVal(x.all)))
  }

  lemma {:induction false} RevParity(ads: seq<Adapter>, limits: seq<int>, env: R.Env, w: World, fuel: nat)
    requires hide *; |limits| == |ads|
    ensures OddRevs(ads) <==> I.RevCount(StagesOf(ads, limits, env, w, fuel)) % 2 == 1
  {
    hide R.Eval;
    if ads != [] {
      RevParity(ads[1..], limits[1..], env, w, fuel);
    }
  }

  lemma {:induction false} UpwardsValues(lo: int, hi: int)
    ensures L.ForValues(lo, hi, 1) == I.Ints(lo, hi + 1)
    decreases hi - lo
  {
    if lo <= hi {
      UpwardsValues(lo + 1, hi);
    }
  }

  lemma {:induction false} IntsAt(lo: int, hi: int)
    ensures |I.Ints(lo, hi)| == (if hi > lo then hi - lo else 0) && forall i :: 0 <= i < |I.Ints(lo, hi)| ==> I.Ints(lo, hi)[i] == lo + i
    decreases hi - lo
  {
    if lo < hi {
      IntsAt(lo + 1, hi);
    }
  }

  lemma {:induction false} DownValuesAt(hi: int, lo: int)
    ensures |L.ForValues(hi, lo, -1)| == (if hi >= lo then hi - lo + 1 else 0)
    ensures forall i :: 0 <= i < |L.ForValues(hi, lo, -1)| ==> L.ForValues(hi, lo, -1)[i] == hi - i
    decreases hi - lo
  {
    if hi >= lo {
      DownValuesAt(hi - 1, lo);
    }
  }

  lemma DownwardsValues(lo: int, hi: int)
    ensures L.ForValues(hi, lo, -1) == I.Reverse(I.Ints(lo, hi + 1))
  {
    IntsAt(lo, hi + 1);
    DownValuesAt(hi, lo);
  }

  lemma LoopsAreItems(x: SourceVal)
    requires x.RangeVal? && x.EndsRight()
    ensures x.Items() == IntVals(x.Indices())
  {
    if !x.inclusive {
      assert R.Wrap(x.hi - 1) == x.hi - 1;
    }
  }

  lemma SupplyForward(sv: SourceVars, x: SourceVal, s: L.Store)
    requires SourceHolds(sv, x, s) && x.EndsRight()
    ensures sv.Source().Supply(s, x.Indices(), x.Items())
  {
    hide L.Lookup, E.Enc, E.Expressible, I.Loops;
    if sv.VecVars? {
      IntsAt(1, |x.all| + 1);
      assert sv.Source().InVec(s, x.all, x.Indices(), x.Items());
    } else {
      LoopsAreItems(x);
    }
  }

  lemma SupplyBackward(sv: SourceVars, x: SourceVal, s: L.Store)
    requires SourceHolds(sv, x, s) && x.EndsRight()
    ensures sv.Source().Supply(s, I.Reverse(x.Indices()), I.Reverse(x.Items()))
  {
    hide L.Lookup, E.Enc, E.Expressible, I.Loops;
    if sv.VecVars? {
      IntsAt(1, |x.all| + 1);
      assert sv.Source().InVec(s, x.all, I.Reverse(x.Indices()), I.Reverse(x.Items()));
    } else {
      LoopsAreItems(x);
    }
  }

  lemma StopEval(sv: SourceVars, x: SourceVal, s: L.Store, f: L.Functions)
    requires hide L.Eval, L.Lookup, E.Enc, E.Expressible; sv.RangeVars? && SourceHolds(sv, x, s)
    ensures L.Eval(Name(sv.start), s, f) == Some(L.IntV(x.lo))
    ensures L.Eval(sv.Stop(), s, f) == Some(L.IntV(if x.inclusive then x.hi else L.Wrap(x.hi - 1)))
  {
    hide L.Lookup;
    NameEval(sv.start, s, f);
    NameEval(sv.end, s, f);
  }

  lemma LengthOfVec(holder: string, all: seq<R.Val>, s: L.Store, f: L.Functions)
    requires L.Lookup(s, holder) == Some(E.Enc(R.VecVal(all)))
    ensures L.Eval(Field(Name(holder), "n"), s, f) == Some(L.IntV(|all|))
  {
    hide L.Lookup;
    NameEval(holder, s, f);
  }

  lemma ForRun(index: string, start: Expr, stop: Expr, step: int, body: Code, lo: int, hi: int, s: L.Store, f: L.Functions, fuel: nat)
    requires hide *; step != 0 && L.Eval(start, s, f) == Some(L.IntV(lo)) && L.Eval(stop, s, f) == Some(L.IntV(hi))
    ensures L.Run([L.For(index, start, stop, step, body)], s, f, fuel) == L.RunFor(index, L.ForValues(lo, hi, step), body, s, f, fuel)
  {
    hide L.Eval, L.RunFor, L.ForValues;
    RunOne(L.For(index, start, stop, step, body), s, f, fuel);
  }

  /** The loop statement visits the source's items, in the order the reversals ask for. */
  lemma LoopStmtRun(sv: SourceVars, x: SourceVal, cons: Consumer, vars: Vars, index: string, c: Ctx, n: nat, s: L.Store, w: World, fuel: nat)
    requires hide Inline, L.Lookup, L.Run, L.RunFor, E.Enc, E.Expressible; vars.Valid() && SourceHolds(sv, x, s)
    ensures var idx := if OddRevs(vars.ads) then I.Reverse(x.Indices()) else x.Indices();
            L.Run([LoopStmt(sv, cons, vars, index, c, n)], s, w.lf, fuel)
            == L.RunFor(index, idx, RoundCode(cons, vars, index, sv.Source(), c, n), s, w.lf, fuel)
  {
    hide L.Eval, L.Run, L.RunFor, L.ForValues, L.Lookup, RoundCode, E.Enc, E.Expressible, I.Ints, I.Reverse, CellsApart, CellNames;
    var body := RoundCode(cons, vars, index, sv.Source(), c, n);
    match sv {
      case RangeVars(start, end, inclusive) =>
        StopEval(sv, x, s, w.lf);
        var stop := if inclusive then x.hi else L.Wrap(x.hi - 1);
        SameWrap(x.hi);
        UpwardsValues(x.lo, stop);
        DownwardsValues(x.lo, stop);
        if OddRevs(vars.ads) {
          ForRun(index, sv.Stop(), Name(start), -1, body, stop, x.lo, s, w.lf, fuel);
        } else {
          ForRun(index, Name(start), sv.Stop(), 1, body, x.lo, stop, s, w.lf, fuel);
        }
      case VecVars(holder) =>
        LengthOfVec(holder, x.all, s, w.lf);
        OneIs(s, w.lf);
        UpwardsValues(1, |x.all|);
        DownwardsValues(1, |x.all|);
        if OddRevs(vars.ads) {
          ForRun(index, Field(Name(holder), "n"), Integer(1), -1, body, |x.all|, 1, s, w.lf, fuel);
        } else {
          ForRun(index, Integer(1), Field(Name(holder), "n"), 1, body, 1, |x.all|, s, w.lf, fuel);
        }
    }
  }

  lemma SameWrap(n: int)
    ensures L.Wrap(n - 1) == R.Wrap(n - 1)
  {
  }

  lemma OneIs(s: L.Store, f: L.Functions)
    ensures L.Eval(Integer(1), s, f) == Some(L.IntV(1))
  {
  }

  /** What the chain means: run the adapters one after the other over the whole list, then the consumer. */
  function ListResult(ads: seq<Adapter>, limits: seq<int>, cons: Consumer, init: R.Val, items: seq<R.Val>, env: R.Env, w: World, fuel: nat): Option<R.Val>
    requires hide *; |limits| == |ads|
  {
    hide *;
    var ys := I.ApplyAll(StagesOf(ads, limits, env, w, fuel), items);
    if ys.None? then None else I.Consume(SinkOf(cons, init, env, w, fuel), ys.value)
  }

  /** Reversals come first; that is when a chain is fused at all. */
  ghost predicate RevsFirst(ads: seq<Adapter>) {
    forall i, j :: 0 <= i < j < |ads| && ads[j].Rev? ==> ads[i].Rev?
  }

  lemma {:induction false} StageAt(ads: seq<Adapter>, limits: seq<int>, env: R.Env, w: World, fuel: nat, i: nat)
    requires hide *; |limits| == |ads| && i < |ads|
    ensures StagesOf(ads, limits, env, w, fuel)[i].Rev? == ads[i].Rev?
  {
    hide R.Eval;
    if i > 0 {
      StageAt(ads[1..], limits[1..], env, w, fuel, i - 1);
    }
  }

  lemma AcceptedStages(ads: seq<Adapter>, limits: seq<int>, env: R.Env, w: World, fuel: nat)
    requires hide *; |limits| == |ads| && RevsFirst(ads)
    ensures I.Accepted(StagesOf(ads, limits, env, w, fuel))
  {
    hide R.Eval;
    forall i | 0 <= i < |ads| ensures StagesOf(ads, limits, env, w, fuel)[i].Rev? == ads[i].Rev? {
      StageAt(ads, limits, env, w, fuel, i);
    }
  }

  lemma StartsSmall(cons: Consumer, init: R.Val, env: R.Env, w: World, fuel: nat, k: nat, n: nat)
    requires k <= I.MAX_INT
    ensures var sink := SinkOf(cons, init, env, w, fuel); Small(sink, I.Init(sink), k) && InRange(I.Zeros(n), k)
  {
    hide R.Eval;
  }

  /**
   * One Lua loop computes what the adapters and the consumer compute list by list, and leaves it in the
   * result variable; the source program's variables are untouched.
   */
  lemma LoopCorrect(sv: SourceVars, x: SourceVal, cons: Consumer, init: R.Val, vars: Vars, index: string, a: State, w: World, fuel: nat)
    requires hide Inline, Fits, R.Eval, L.Lookup, L.Run, E.Enc, E.Expressible, Compiled, Ready;
             Compiled(w) && RevsFirst(vars.ads) && AllFit(vars.ads, a.q) && ConsumerFits(cons, a.q)
    requires Between(a, vars, index, sv.Source(), I.Zeros(|vars.ads|), I.Init(SinkOf(cons, init, a.env, w, fuel)))
    requires SourceHolds(sv, x, a.s) && x.EndsRight() && |x.Items()| <= I.MAX_INT
    requires ListResult(vars.ads, vars.limits, cons, init, x.Items(), a.env, w, fuel).Some?
    ensures var o := L.Run([LoopStmt(sv, cons, vars, index, a.c, a.n)], a.s, w.lf, fuel);
            LoopLeaves(a, vars, index, o, ListResult(vars.ads, vars.limits, cons, init, x.Items(), a.env, w, fuel).value)
  {
    hide Ready, Compiled, AllFit, ConsumerFits, L.Run, L.RunFor, L.Lookup, RoundCode, LoopStmt, StagesOf, SinkOf, I.Rounds, I.ApplyAll,
      I.Consume, Small, InRange, SourceHolds, LoopLeaves, I.Reverse, I.Zeros, I.Init, CellsHold, CellsApart, CellNames, Free, Fixed, E.Enc,
      E.Expressible;
    var stages := StagesOf(vars.ads, vars.limits, a.env, w, fuel);
    var sink := SinkOf(cons, init, a.env, w, fuel);
    var back := OddRevs(vars.ads);
    var idx := if back then I.Reverse(x.Indices()) else x.Indices();
    var items := if back then I.Reverse(x.Items()) else x.Items();
    AcceptedStages(vars.ads, vars.limits, a.env, w, fuel);
    RevParity(vars.ads, vars.limits, a.env, w, fuel);
    I.FusionIsRight(stages, sink, x.Items());
    LoopStmtRun(sv, x, cons, vars, index, a.c, a.n, a.s, w, fuel);
    SupplyForward(sv, x, a.s);
    SupplyBackward(sv, x, a.s);
    StartsSmall(cons, init, a.env, w, fuel, |items|, |vars.ads|);
    LoopRunsRounds(cons, init, vars, index, sv.Source(), a, idx, items, I.Zeros(|vars.ads|), I.Init(sink), w, fuel);
  }

  // ---- the whole chain ----

  datatype Source = RangeOf(start: R.Expr, end: R.Expr, inclusive: bool) | VecOf(e: R.Expr)

  datatype IterChain = IterChain(source: Source, ads: seq<Adapter>, cons: Consumer)

  /** Where the result is built: a new temporary, a new local, or an existing variable. */
  datatype Into = Temporary | NewLocal(z: string) | Existing(z: string)

  datatype GenSource = GenSource(code: Code, sv: SourceVars, next: nat)
  datatype GenCells = GenCells(code: Code, cells: seq<Cell>, next: nat)
  datatype GenResult = GenResult(code: Code, res: string, next: nat)

  /** An operand in the next temporary. */
  ghost function Keep(e: R.Expr, c: Ctx, n: nat): (r: Gen)
    ensures hide *; r.next > n
  {
    hide *;
    var g := Inline(e, c, n);
    Gen(g.code + [L.Local(c.tmp(g.next + 1), Some(g.e))], g.next + 1)
  }

  ghost function SourceCode(src: Source, c: Ctx, n: nat): (r: GenSource)
    ensures r.next >= n
  {
    match src
    case RangeOf(start, end, inclusive) =>
      var x := Keep(start, c, n);
      var y := Keep(end, c, x.next);
      GenSource(x.code + y.code, RangeVars(c.tmp(x.next), c.tmp(y.next), inclusive), y.next)
    case VecOf(e) =>
      var s := Subject(Inline(e, c, n), ImmutablePath(e, c), c);
      GenSource(s.code, VecVars(if s.e.Name? then s.e.id else ""), s.next)
  }

  ghost function CellCode(ad: Adapter, c: Ctx, n: nat): (r: GenCells)
    ensures hide *; r.next >= n && |r.cells| == 1
  {
    hide *;
    match ad
    case Enumerate => GenCells([L.Local(c.tmp(n + 1), Some(Integer(0)))], [Cell(c.tmp(n + 1), "")], n + 1)
    case Skip(limit) =>
      var x := Keep(limit, c, n);
      GenCells(x.code + [L.Local(c.tmp(x.next + 1), Some(Integer(0)))], [Cell(c.tmp(x.next + 1), c.tmp(x.next))], x.next + 1)
    case Take(limit) =>
      var x := Keep(limit, c, n);
      GenCells(x.code + [L.Local(c.tmp(x.next + 1), Some(Integer(0)))], [Cell(c.tmp(x.next + 1), c.tmp(x.next))], x.next + 1)
    case _ => GenCells([], [Cell("", "")], n)
  }

  ghost function CellsCode(ads: seq<Adapter>, c: Ctx, n: nat): (r: GenCells)
    ensures hide *; r.next >= n && |r.cells| == |ads|
  {
    hide *;
    if ads == [] then GenCells([], [], n)
    else
      var x := CellCode(ads[0], c, n);
      var y := CellsCode(ads[1..], c, x.next);
      GenCells(x.code + y.code, x.cells + y.cells, y.next)
  }

  /** The consumer's starting value. */
  ghost function StartCode(cons: Consumer, c: Ctx, n: nat): (r: GenE)
    ensures hide *; r.next >= n
  {
    hide *;
    match cons
    case Collect => GenE([], Table([Named("n", Integer(0))]), n)
    case Fold(init, _, _, _) => Inline(init, c, n)
    case Count => GenE([], Integer(0), n)
    case Any(_) => GenE([], Bool(false), n)
    case All(_) => GenE([], Bool(true), n)
    case _ => GenE([], Nil, n)
  }

  function ResultName(into: Into, c: Ctx, n: nat): string {
    if into.Temporary? then c.tmp(n + 1) else into.z
  }

  function ResultNext(into: Into, n: nat): nat {
    if into.Temporary? then n + 1 else n
  }

  function ResultStmt(e: Expr, into: Into, c: Ctx, n: nat): L.Stmt {
    if into.Existing? then L.Assign(Name(into.z), e) else L.Local(ResultName(into, c, n), Some(e))
  }

  /** The variables of the loop; what the limits are is only known when the code runs. */
  function LoopVars(ads: seq<Adapter>, cells: seq<Cell>, limits: seq<int>, res: string, c: Ctx, n: nat): Vars {
    Vars(ads, cells, limits, c.tmp(n + 1), res)
  }

  /** Source, counters and limits, starting value, loop. */
  ghost function ChainCode(chain: IterChain, into: Into, c: Ctx, n: nat): (r: GenResult)
    ensures r.next >= n
  {
    var src := SourceCode(chain.source, c, n);
    var cells := CellsCode(chain.ads, c, src.next);
    var start := StartCode(chain.cons, c, cells.next);
    var res := ResultName(into, c, start.next);
    var m := ResultNext(into, start.next);
    var vars := LoopVars(chain.ads, cells.cells, [], res, c, m);
    var loop := LoopStmt(src.sv, chain.cons, vars, c.tmp(m + 2), c, m + 2);
    GenResult(src.code + (cells.code + (start.code + ([ResultStmt(start.e, into, c, start.next)] + [loop]))), res,
              BodyCode(chain.ads, cells.cells, chain.cons, vars.item, res, c, m + 2).next)
  }

  // ---- moving on while operands are computed ----

  /** A later place of the same program point: operands have been computed in between. */
  ghost predicate Onward(a: State, b: State) {
    && b.c == a.c && b.q == a.q && b.n >= a.n && SameNames(a.env, b.env) && Extends(a.s, b.s) && Ready(b)
    && forall z :: Fixed(a.c, a.q, a.n, z) ==> L.Lookup(b.s, z) == L.Lookup(a.s, z)
  }

  lemma OnwardThen(a: State, b: State, d: State)
    requires Onward(a, b) && Onward(b, d)
    ensures Onward(a, d)
  {
    hide Ready, Fixed, L.Lookup;
    forall z | Fixed(a.c, a.q, a.n, z) ensures L.Lookup(d.s, z) == L.Lookup(a.s, z) {
      FixedMonotone(a.c, a.q, a.n, b.q, b.n, z);
    }
  }

  lemma OnwardSelf(a: State)
    requires Ready(a)
    ensures Onward(a, a)
  {
    hide Ready, Fixed;
  }

  lemma OnwardFree(a: State, b: State, z: string)
    requires Onward(a, b) && Free(a, z)
    ensures Free(b, z) && L.Lookup(b.s, z) == L.Lookup(a.s, z)
  {
    hide Ready, L.Lookup;
    FixedMonotone(a.c, a.q, a.n, b.q, b.n, z);
    forall x | R.Get(b.env, x).Some? && x in b.c.mentioned ensures b.c.Res(x) != z {
      SameNamesGet(a.env, b.env, x);
    }
  }

  /** A temporary beyond those in use. */
  lemma NewTmpFree(a: State, i: nat, m: nat)
    requires Ready(a) && a.n < i <= m
    ensures Free(a.(n := m), a.c.tmp(i))
  {
    hide Ready, Agree;
    ReadyIsLive(a);
    OldTmp(a.c, a.q, m, i);
    forall x | R.Get(a.env, x).Some? ensures a.c.Res(x) != a.c.tmp(i) {
      assert SameNames(a.env, a.env);
      LiveName(a.env, a.env, a.q.live, x);
      ResOld(a, x);
    }
  }

  lemma KeepOnward(e: R.Expr, a: State, v: R.Val, env: R.Env, w: World, fuel: nat)
    requires hide *; Ready(a) && Fits(e, a.q, false) && Compiled(w) && R.Eval(e, a.env, w.rf, fuel) == R.Done(v, env)
    ensures var g := Keep(e, a.c, a.n);
            var o := L.Run(g.code, a.s, w.lf, fuel);
            && o.Normal?
            && var b := a.(n := g.next, env := env, s := o.store);
               Onward(a, b) && Free(b, a.c.tmp(g.next)) && L.Lookup(b.s, a.c.tmp(g.next)) == Some(E.Enc(v)) && E.Expressible(v)
  {
    hide Ready, Fits, Compiled, L.Run, L.Lookup, R.Eval, Inline, Computes, Fixed, Free, E.Enc, E.Expressible, NamesApart, SubClear, Bounded;
    var g := Inline(e, a.c, a.n);
    var t := a.c.tmp(g.next + 1);
    var code := g.code + [L.Local(t, Some(g.e))];
    InlineCorrect(e, a, w, fuel);
    EvalShape(e, a.env, w.rf, fuel);
    KeepStep(a, g, R.Eval(e, a.env, w.rf, fuel), w, fuel);
    var o := L.Run(code, a.s, w.lf, fuel);
    var b := a.(n := g.next + 1, env := env, s := o.store);
    ReadyIsLive(a);
    forall z | Fixed(a.c, a.q, a.n, z) ensures L.Lookup(o.store, z) == L.Lookup(a.s, z) {
      InlineMarks(e, a.c, a.n, a.q, z, Written);
      BoundedOperand(g.code, a.c, a.q, a.n, g.next + 1, a.q, a.n, g.next, Discard, z, Written);
      BoundedTmp(g.next + 1, Some(g.e), a.c, a.q, a.n, g.next + 1, Discard, z, Written);
      BoundedConcat(g.code, [L.Local(t, Some(g.e))], a.c, a.q, a.n, g.next + 1, Discard, z, Written);
      KeepsFixed(code, a.c, a.q, a.n, g.next + 1, a.s, w.lf, fuel, z);
    }
    NewTmpFree(a, g.next + 1, g.next + 1);
    FreeOver(a.(n := g.next + 1), b, t);
  }

  lemma FreeOver(a: State, b: State, z: string)
    requires Free(a, z) && b.c == a.c && b.q == a.q && b.n == a.n && SameNames(a.env, b.env)
    ensures Free(b, z)
  {
    forall x | R.Get(b.env, x).Some? && x in b.c.mentioned ensures b.c.Res(x) != z {
      SameNamesGet(a.env, b.env, x);
    }
  }

  /** A counter starts at zero in the next temporary. */
  lemma ZeroOnward(a: State, w: World, fuel: nat)
    requires hide *; Ready(a)
    ensures var t := a.c.tmp(a.n + 1);
            var o := L.Run([L.Local(t, Some(Integer(0)))], a.s, w.lf, fuel);
            && o.Normal?
            && var b := a.(n := a.n + 1, s := o.store);
               Onward(a, b) && Free(b, t) && L.Lookup(b.s, t) == Some(L.IntV(0))
  {
    hide Ready, L.Run, L.Eval, L.Lookup, Fixed, Free;
    var t := a.c.tmp(a.n + 1);
    ZeroIs(a.s, w.lf);
    LocalRun(t, Some(Integer(0)), a.s, w.lf, fuel);
    ReadyWithTmp(a, L.IntV(0));
    NewTmpFree(a, a.n + 1, a.n + 1);
    FreeOver(a.(n := a.n + 1), a.(n := a.n + 1, s := L.Run([L.Local(t, Some(Integer(0)))], a.s, w.lf, fuel).store), t);
    forall z | Fixed(a.c, a.q, a.n, z) ensures L.Lookup(a.s + [L.Binding(t, L.IntV(0))], z) == L.Lookup(a.s, z) {
      FixedIsNotNext(a, z);
      LookupAppend(a.s, L.Binding(t, L.IntV(0)), z);
    }
    assert SameNames(a.env, a.env);
  }

  lemma ZeroIs(s: L.Store, f: L.Functions)
    ensures L.Eval(Integer(0), s, f) == Some(L.IntV(0))
  {
  }

  lemma FixedIsNotNext(a: State, z: string)
    requires hide *; Ready(a) && Fixed(a.c, a.q, a.n, z)
    ensures z != a.c.tmp(a.n + 1)
  {
    hide Agree, SubClear, SubFixed, Old;
  }

  // ---- operands of the chain, in order ----

  /** The values of source, limits and starting value, each computed after the ones before it. */
  function EvalSource(src: Source, env: R.Env, w: World, fuel: nat): Option<(SourceVal, R.Env)> {
    hide *;
    match src
    case RangeOf(start, end, inclusive) =>
      var x := R.Eval(start, env, w.rf, fuel);
      if !x.Done? || !x.v.IntVal? then None
      else
        var y := R.Eval(end, x.env, w.rf, fuel);
        if !y.Done? || !y.v.IntVal? then None else Some((RangeVal(x.v.n, y.v.n, inclusive), y.env))
    case VecOf(e) =>
      var x := R.Eval(e, env, w.rf, fuel);
      if !x.Done? || !x.v.VecVal? then None else Some((Elements(x.v.elems), x.env))
  }

  function EvalLimit(ad: Adapter, env: R.Env, w: World, fuel: nat): Option<(int, R.Env)> {
    hide *;
    if ad.Skip? || ad.Take? then
      var x := R.Eval(ad.limit, env, w.rf, fuel);
      if !x.Done? || !x.v.IntVal? then None else Some((x.v.n, x.env))
    else Some((0, env))
  }

  function EvalLimits(ads: seq<Adapter>, env: R.Env, w: World, fuel: nat): (r: Option<(seq<int>, R.Env)>)
    ensures hide *; r.Some? ==> |r.value.0| == |ads|
  {
    hide *;
    if ads == [] then Some(([], env))
    else
      var x := EvalLimit(ads[0], env, w, fuel);
      if x.None? then None
      else
        var rest := EvalLimits(ads[1..], x.value.1, w, fuel);
        if rest.None? then None else Some(([x.value.0] + rest.value.0, rest.value.1))
  }

  function EvalStart(cons: Consumer, env: R.Env, w: World, fuel: nat): Option<(R.Val, R.Env)> {
    hide *;
    if cons.Fold? then
      var x := R.Eval(cons.init, env, w.rf, fuel);
      if x.Done? then Some((x.v, x.env)) else None
    else Some((R.UnitVal, env))
  }

  /** The value of the chain, adapter after adapter over lists, and the variables afterwards. */
  function EvalChain(chain: IterChain, env: R.Env, w: World, fuel: nat): Option<(R.Val, R.Env)> {
    hide *;
    var src := EvalSource(chain.source, env, w, fuel);
    if src.None? then None
    else
      var limits := EvalLimits(chain.ads, src.value.1, w, fuel);
      if limits.None? then None
      else
        var start := EvalStart(chain.cons, limits.value.1, w, fuel);
        if start.None? then None
        else
          var x := ListResult(chain.ads, limits.value.0, chain.cons, start.value.0, src.value.0.Items(), start.value.1, w, fuel);
          if x.None? then None else Some((x.value, start.value.1))
  }

  ghost predicate SourceFits(src: Source, q: Scope) {
    match src
    case RangeOf(start, end, _) => Fits(start, q, false) && Fits(end, q, false)
    case VecOf(e) => Fits(e, q, false)
  }

  ghost predicate LimitsFit(ads: seq<Adapter>, q: Scope) {
    hide *;
    ads == [] || ((ads[0].Skip? || ads[0].Take? ==> Fits(ads[0].limit, q, false)) && LimitsFit(ads[1..], q))
  }

  lemma SourceOnward(src: Source, a: State, x: SourceVal, env: R.Env, w: World, fuel: nat)
    requires hide *; Ready(a) && SourceFits(src, a.q) && Compiled(w) && EvalSource(src, a.env, w, fuel) == Some((x, env))
    ensures var g := SourceCode(src, a.c, a.n);
            var o := L.Run(g.code, a.s, w.lf, fuel);
            && o.Normal?
            && var b := a.(n := g.next, env := env, s := o.store);
               Onward(a, b) && SourceHolds(g.sv, x, b.s) && SourceFixed(b, g.sv)
  {
    hide Ready, Fits, Compiled, L.Run, L.Lookup, R.Eval, Keep, Fixed, Free, E.Enc, E.Expressible, Inline;
    match src {
      case RangeOf(start, end, inclusive) =>
        var u := R.Eval(start, a.env, w.rf, fuel);
        KeepOnward(start, a, u.v, u.env, w, fuel);
        var g := Keep(start, a.c, a.n);
        var a1 := a.(n := g.next, env := u.env, s := L.Run(g.code, a.s, w.lf, fuel).store);
        var v := R.Eval(end, u.env, w.rf, fuel);
        KeepOnward(end, a1, v.v, v.env, w, fuel);
        var h := Keep(end, a.c, a1.n);
        var a2 := a1.(n := h.next, env := v.env, s := L.Run(h.code, a1.s, w.lf, fuel).store);
        RunAppend(g.code, h.code, a.s, w.lf, fuel);
        OnwardThen(a, a1, a2);
        OnwardFree(a1, a2, a.c.tmp(g.next));
        FreeIsFixed(a2, a.c.tmp(g.next));
        FreeIsFixed(a2, a.c.tmp(h.next));
        IntIs(u.v);
        IntIs(v.v);
      case VecOf(e) => VecOnward(e, a, x, env, w, fuel);
    }
  }

  lemma IntIs(v: R.Val)
    requires v.IntVal?
    ensures E.Enc(v) == L.IntV(v.n)
  {
  }

  ghost predicate SourceFixed(a: State, sv: SourceVars) {
    forall z :: z in sv.Names() ==> Fixed(a.c, a.q, a.n, z)
  }

  lemma FreeIsFixed(a: State, z: string)
    requires Free(a, z)
    ensures Fixed(a.c, a.q, a.n, z)
  {
    hide Fixed;
  }

  lemma VecOnward(e: R.Expr, a: State, x: SourceVal, env: R.Env, w: World, fuel: nat)
    requires hide *; Ready(a) && Fits(e, a.q, false) && Compiled(w) && EvalSource(VecOf(e), a.env, w, fuel) == Some((x, env))
    ensures var g := SourceCode(VecOf(e), a.c, a.n);
            var o := L.Run(g.code, a.s, w.lf, fuel);
            && o.Normal?
            && var b := a.(n := g.next, env := env, s := o.store);
               Onward(a, b) && SourceHolds(g.sv, x, b.s) && SourceFixed(b, g.sv)
  {
    hide Ready, Compiled, L.Run, L.Eval, L.Lookup, R.Eval, Inline, Fixed, Computes, E.Enc, E.Expressible, NamesApart, SubClear, Bounded,
      Fits;
    var asIs := ImmutablePath(e, a.c);
    var g := Inline(e, a.c, a.n);
    var s := Subject(g, asIs, a.c);
    var r := R.Eval(e, a.env, w.rf, fuel);
    InlineCorrect(e, a, w, fuel);
    EvalShape(e, a.env, w.rf, fuel);
    ImmutableIsFixed(e, a);
    SubjectStep(a, e, asIs, r, w, fuel);
    var o := L.Run(s.code, a.s, w.lf, fuel);
    ReadyIsLive(a);
    forall z | Fixed(a.c, a.q, a.n, z) ensures L.Lookup(o.store, z) == L.Lookup(a.s, z) {
      InlineMarks(e, a.c, a.n, a.q, z, Written);
      SubjectMarks(g, asIs, a.c, a.q, a.n, s.next, Discard, z, Written);
      KeepsFixed(s.code, a.c, a.q, a.n, s.next, a.s, w.lf, fuel, z);
    }
    NameEval(s.e.id, o.store, w.lf);
  }

  /** Names that are temporaries of a range of numbers. */
  ghost predicate Between2(c: Ctx, n: nat, m: nat, names: set<string>) {
    forall z :: z in names ==> exists i: nat :: n < i <= m && z == c.tmp(i)
  }

  lemma RangesApart(c: Ctx, n: nat, k: nat, m: nat, x: set<string>, y: set<string>)
    requires NamesApart(c) && Between2(c, n, k, x) && Between2(c, k, m, y)
    ensures x !! y
  {
    forall z | z in x ensures z !in y {
      var i: nat :| n < i <= k && z == c.tmp(i);
      LaterTmp(c, i, k, m, y);
    }
  }

  lemma LaterTmp(c: Ctx, i: nat, k: nat, m: nat, y: set<string>)
    requires NamesApart(c) && i <= k && Between2(c, k, m, y)
    ensures c.tmp(i) !in y
  {
    forall j: nat | k < j <= m ensures c.tmp(i) != c.tmp(j) {
      TmpsApart(c, i, j);
    }
  }

  lemma RangesJoin(c: Ctx, n: nat, k: nat, m: nat, x: set<string>, y: set<string>)
    requires Between2(c, n, k, x) && Between2(c, k, m, y) && n <= k <= m
    ensures Between2(c, n, m, x + y)
  {
    forall z | z in x + y ensures exists i: nat :: n < i <= m && z == c.tmp(i) {
      if z in x {
        var i: nat :| n < i <= k && z == c.tmp(i);
      } else {
        var j: nat :| k < j <= m && z == c.tmp(j);
      }
    }
  }

  lemma OneTmp(c: Ctx, n: nat, m: nat, i: nat)
    requires n < i <= m
    ensures Between2(c, n, m, {c.tmp(i)})
  {
  }

  lemma CellOnward(ad: Adapter, a: State, k: int, env: R.Env, w: World, fuel: nat)
    requires hide *;
             Ready(a) && Compiled(w) && (ad.Skip? || ad.Take? ==> Fits(ad.limit, a.q, false)) && EvalLimit(ad, a.env, w, fuel) == Some((k, env))
    ensures var g := CellCode(ad, a.c, a.n);
            var o := L.Run(g.code, a.s, w.lf, fuel);
            && o.Normal?
            && var b := a.(n := g.next, env := env, s := o.store);
               && Onward(a, b) && CellHolds(b.s, ad, g.cells[0], k, 0)
               && (forall z :: z in Used(ad, g.cells[0]) ==> Free(b, z))
               && Between2(a.c, a.n, g.next, Used(ad, g.cells[0]))
               && ((ad.Skip? || ad.Take?) ==> g.cells[0].counter != g.cells[0].limit)
  {
    hide Ready, Fits, Compiled, L.Run, L.Lookup, R.Eval, Keep, Fixed, Free, E.Enc, E.Expressible, NamesApart;
    RunNothing(a.s, w.lf, fuel);
    ReadyIsLive(a);
    if ad.Enumerate? {
      ZeroOnward(a, w, fuel);
      OneTmp(a.c, a.n, a.n + 1, a.n + 1);
    } else if ad.Skip? || ad.Take? {
      LimitOnward(ad.limit, a, k, env, w, fuel);
    } else {
      OnwardSelf(a);
    }
  }

  lemma LimitOnward(limit: R.Expr, a: State, k: int, env: R.Env, w: World, fuel: nat)
    requires hide *; Ready(a) && Compiled(w) && Fits(limit, a.q, false) && R.Eval(limit, a.env, w.rf, fuel) == R.Done(R.IntVal(k), env)
    ensures var g := Keep(limit, a.c, a.n);
            var t, l := a.c.tmp(g.next + 1), a.c.tmp(g.next);
            var o := L.Run(g.code + [L.Local(t, Some(Integer(0)))], a.s, w.lf, fuel);
            && o.Normal?
            && var b := a.(n := g.next + 1, env := env, s := o.store);
               && Onward(a, b) && L.Lookup(b.s, t) == Some(L.IntV(0)) && L.Lookup(b.s, l) == Some(L.IntV(k))
               && Free(b, t) && Free(b, l) && t != l && Between2(a.c, a.n, g.next + 1, {t, l})
  {
    hide Ready, Fits, Compiled, L.Run, L.Lookup, R.Eval, Keep, Fixed, Free, E.Enc, E.Expressible;
    KeepOnward(limit, a, R.IntVal(k), env, w, fuel);
    var g := Keep(limit, a.c, a.n);
    var t, l := a.c.tmp(g.next + 1), a.c.tmp(g.next);
    var a1 := a.(n := g.next, env := env, s := L.Run(g.code, a.s, w.lf, fuel).store);
    ZeroOnward(a1, w, fuel);
    var b := a1.(n := g.next + 1, s := L.Run([L.Local(t, Some(Integer(0)))], a1.s, w.lf, fuel).store);
    RunAppend(g.code, [L.Local(t, Some(Integer(0)))], a.s, w.lf, fuel);
    OnwardThen(a, a1, b);
    OnwardFree(a1, b, l);
    IntIs(R.IntVal(k));
    assert t != l by {
      ReadyIsLive(a);
      TmpsApart(a.c, g.next, g.next + 1);
    }
    OneTmp(a.c, a.n, g.next, g.next);
    OneTmp(a.c, g.next, g.next + 1, g.next + 1);
    RangesJoin(a.c, a.n, g.next, g.next + 1, {l}, {t});
    assert {l} + {t} == {t, l};
  }

  lemma TmpsApart(c: Ctx, i: nat, j: nat)
    requires NamesApart(c) && i != j
    ensures c.tmp(i) != c.tmp(j)
  {
  }

  lemma {:induction false} CellsOnward(ads: seq<Adapter>, a: State, limits: seq<int>, env: R.Env, w: World, fuel: nat)
    requires hide *; Ready(a) && Compiled(w) && LimitsFit(ads, a.q) && EvalLimits(ads, a.env, w, fuel) == Some((limits, env))
    ensures var g := CellsCode(ads, a.c, a.n);
            var o := L.Run(g.code, a.s, w.lf, fuel);
            && o.Normal?
            && var b := a.(n := g.next, env := env, s := o.store);
               && Onward(a, b) && CellsApart(ads, g.cells) && CellsHold(b.s, ads, g.cells, limits, I.Zeros(|ads|))
               && (forall z :: z in CellNames(ads, g.cells) ==> Free(b, z))
               && Between2(a.c, a.n, g.next, CellNames(ads, g.cells))
    decreases |ads|
  {
    hide Ready, Fits, Compiled, L.Run, L.Lookup, CellCode, Fixed, Free, NamesApart, Used, CellHolds, Between2, R.Eval;
    if ads == [] {
      RunNothing(a.s, w.lf, fuel);
      OnwardSelf(a);
      assert Between2(a.c, a.n, a.n, {}) by { NoNames(a.c, a.n); }
    } else {
      var x := EvalLimit(ads[0], a.env, w, fuel).value;
      CellOnward(ads[0], a, x.0, x.1, w, fuel);
      var g := CellCode(ads[0], a.c, a.n);
      var a1 := a.(n := g.next, env := x.1, s := L.Run(g.code, a.s, w.lf, fuel).store);
      CellsOnward(ads[1..], a1, limits[1..], env, w, fuel);
      var h := CellsCode(ads[1..], a.c, a1.n);
      var b := a1.(n := h.next, env := env, s := L.Run(h.code, a1.s, w.lf, fuel).store);
      RunAppend(g.code, h.code, a.s, w.lf, fuel);
      OnwardThen(a, a1, b);
      var cells := g.cells + h.cells;
      assert cells[0] == g.cells[0] && cells[1..] == h.cells;
      var head, rest := Used(ads[0], cells[0]), CellNames(ads[1..], cells[1..]);
      ReadyIsLive(a);
      RangesApart(a.c, a.n, g.next, h.next, head, rest);
      RangesJoin(a.c, a.n, g.next, h.next, head, rest);
      forall z | z in head ensures Free(b, z) && L.Lookup(b.s, z) == L.Lookup(a1.s, z) {
        OnwardFree(a1, b, z);
      }
      HeadStays(ads[0], cells[0], x.0, a1.s, b.s);
      assert I.Zeros(|ads|)[0] == 0 && I.Zeros(|ads|)[1..] == I.Zeros(|ads| - 1);
    }
  }

  lemma NoNames(c: Ctx, n: nat)
    ensures Between2(c, n, n, {})
  {
  }

  lemma HeadStays(ad: Adapter, cell: Cell, k: int, s: L.Store, t: L.Store)
    requires CellHolds(s, ad, cell, k, 0) && forall z :: z in Used(ad, cell) ==> L.Lookup(t, z) == L.Lookup(s, z)
    ensures CellHolds(t, ad, cell, k, 0)
  {
    hide L.Lookup;
  }

  // ---- the starting value and the result variable ----

  /** The starting value as an expression, after its own statements. */
  lemma StartOnward(cons: Consumer, a: State, v: R.Val, env: R.Env, w: World, fuel: nat)
    requires hide *;
             Ready(a) && Compiled(w) && (cons.Fold? ==> Fits(cons.init, a.q, false)) && EvalStart(cons, a.env, w, fuel) == Some((v, env))
    ensures var g := StartCode(cons, a.c, a.n);
            var o := L.Run(g.code, a.s, w.lf, fuel);
            var init := I.Init(SinkOf(cons, v, env, w, fuel));
            && o.Normal?
            && var b := a.(n := g.next, env := env, s := o.store);
               Onward(a, b) && L.Eval(g.e, b.s, w.lf) == Some(E.Enc(init)) && E.Expressible(init)
  {
    hide Ready, Fits, Compiled, L.Run, L.Lookup, R.Eval, Inline, Fixed;
    if cons.Fold? {
      InitOnward(cons.init, a, v, env, w, fuel);
    } else {
      RunNothing(a.s, w.lf, fuel);
      OnwardSelf(a);
      ConstantEvals(a.s, w.lf);
      ZeroIs(a.s, w.lf);
    }
  }

  lemma InitOnward(e: R.Expr, a: State, v: R.Val, env: R.Env, w: World, fuel: nat)
    requires hide *; Ready(a) && Fits(e, a.q, false) && Compiled(w) && R.Eval(e, a.env, w.rf, fuel) == R.Done(v, env)
    ensures var g := Inline(e, a.c, a.n);
            var o := L.Run(g.code, a.s, w.lf, fuel);
            && o.Normal?
            && var b := a.(n := g.next, env := env, s := o.store);
               Onward(a, b) && L.Eval(g.e, b.s, w.lf) == Some(E.Enc(v)) && E.Expressible(v)
  {
    hide Ready, Fits, Compiled, L.Run, L.Eval, L.Lookup, R.Eval, Inline, Fixed, E.Enc, E.Expressible, NamesApart, SubClear, Bounded;
    var g := Inline(e, a.c, a.n);
    InlineCorrect(e, a, w, fuel);
    EvalShape(e, a.env, w.rf, fuel);
    NextOperand(a, R.Eval(e, a.env, w.rf, fuel), g, w, fuel);
    ReadyIsLive(a);
    forall z | Fixed(a.c, a.q, a.n, z) ensures L.Lookup(L.Run(g.code, a.s, w.lf, fuel).store, z) == L.Lookup(a.s, z) {
      InlineMarks(e, a.c, a.n, a.q, z, Written);
      KeepsFixed(g.code, a.c, a.q, a.n, g.next, a.s, w.lf, fuel, z);
    }
  }

  /** A named destination stands for no source variable and is not about to be reused. */
  ghost predicate IntoReady(a: State, into: Into) {
    && (!into.Temporary? ==> Free(a, into.z))
    && (into.Existing? ==> L.Lookup(a.s, into.z).Some?)
  }

  lemma IntoOnward(a: State, b: State, into: Into)
    requires Onward(a, b) && IntoReady(a, into)
    ensures IntoReady(b, into)
  {
    hide Ready, Fixed, Free, L.Lookup;
    if !into.Temporary? {
      OnwardFree(a, b, into.z);
    }
  }

  /** From one state to a later one, all but one variable kept. */
  ghost predicate Stored(a: State, b: State, res: string) {
    && b.c == a.c && b.q == a.q && b.n >= a.n && b.env == a.env && Extends(a.s, b.s) && Ready(b)
    && forall z :: z != res ==> L.Lookup(b.s, z) == L.Lookup(a.s, z)
  }

  /** The result variable starts with the starting value. */
  lemma ResultStored(into: Into, e: Expr, v: R.Val, a: State, w: World, fuel: nat)
    requires hide *; Ready(a) && IntoReady(a, into) && L.Eval(e, a.s, w.lf) == Some(E.Enc(v)) && E.Expressible(v)
    ensures var res := ResultName(into, a.c, a.n);
            var o := L.Run([ResultStmt(e, into, a.c, a.n)], a.s, w.lf, fuel);
            && o.Normal?
            && var b := a.(n := ResultNext(into, a.n), s := o.store);
               Stored(a, b, res) && Free(b, res) && L.Lookup(b.s, res) == Some(E.Enc(v))
  {
    hide Ready, L.Run, L.Eval, L.Lookup, E.Enc, E.Expressible, Fixed, Free;
    var res := ResultName(into, a.c, a.n);
    var a0 := a.(n := ResultNext(into, a.n));
    ReadyMore(a, a0.n);
    if into.Temporary? {
      NewTmpFree(a, a0.n, a0.n);
    }
    assert Free(a0, res);
    if into.Existing? {
      AssignCell(a0, res, e, E.Enc(v), w, fuel);
    } else {
      LocalRun(res, Some(e), a0.s, w.lf, fuel);
      DeclareFree(a0, res, E.Enc(v));
    }
    FreeLater(a0, a0.(s := L.Run([ResultStmt(e, into, a.c, a.n)], a.s, w.lf, fuel).store), res);
  }

  // ---- all variables of the loop are different ----

  lemma OutsideRange(c: Ctx, n: nat, m: nat, names: set<string>, z: string)
    requires Between2(c, n, m, names) && forall i: nat :: n < i <= m ==> c.tmp(i) != z
    ensures z !in names
  {
  }

  lemma FixedBefore(c: Ctx, q: Scope, n: nat, z: string, i: nat)
    requires NamesApart(c) && Fixed(c, q, n, z) && i > n
    ensures z != c.tmp(i)
  {
  }

  /** The variables of the source are not the destination of the result. */
  lemma SourceApart(src: Source, a: State, x: SourceVal, env: R.Env, z: string, w: World, fuel: nat)
    requires Ready(a) && Free(a, z) && SourceFits(src, a.q) && EvalSource(src, a.env, w, fuel) == Some((x, env))
    ensures z !in SourceCode(src, a.c, a.n).sv.Names()
  {
    hide Ready, Fixed, Inline, L.Lookup, R.Eval;
    ReadyIsLive(a);
    match src {
      case RangeOf(start, end, _) =>
        var g := Keep(start, a.c, a.n);
        FixedBefore(a.c, a.q, a.n, z, g.next);
        FixedBefore(a.c, a.q, a.n, z, Keep(end, a.c, g.next).next);
      case VecOf(e) =>
        var g := Inline(e, a.c, a.n);
        FixedBefore(a.c, a.q, a.n, z, g.next + 1);
        if ImmutablePath(e, a.c) {
          PathIsBound(e, a.env, w, fuel);
          PathCode(e, a.c, a.n);
        }
    }
  }

  lemma PathCode(e: R.Expr, c: Ctx, n: nat)
    requires hide *; e.Path?
    ensures Inline(e, c, n) == GenE([], Name(c.Res(e.name)), n)
  {
    hide InlineArgs, GenControl;
  }

  lemma PathIsBound(e: R.Expr, env: R.Env, w: World, fuel: nat)
    requires hide *; e.Path? && R.Eval(e, env, w.rf, fuel).Done?
    ensures R.Get(env, e.name).Some?
  {
  }

  /** A name in use before number k, and not the result, keeps its value. */
  lemma SourceKept(sv: SourceVars, x: SourceVal, s: L.Store, t: L.Store)
    requires SourceHolds(sv, x, s) && forall z :: z in sv.Names() ==> L.Lookup(t, z) == L.Lookup(s, z)
    ensures SourceHolds(sv, x, t)
  {
    hide L.Lookup, E.Enc, E.Expressible;
  }

  /** Where the pieces of a chain are, once its operands and its result variable exist. */
  ghost predicate Pieces(b: State, ads: seq<Adapter>, cells: seq<Cell>, limits: seq<int>, sv: SourceVars, n1: nat, n2: nat, m: nat, res: string) {
    hide *;
    && |cells| == |ads| && |limits| == |ads| && n1 <= n2 <= m && b.n == m + 2
    && CellsApart(ads, cells) && Between2(b.c, n1, n2, CellNames(ads, cells)) && CellsHold(b.s, ads, cells, limits, I.Zeros(|ads|))
    && (forall z :: z in CellNames(ads, cells) ==> Free(b, z))
    && Free(b, res) && (forall i: nat :: n1 < i <= n2 || m < i ==> b.c.tmp(i) != res)
    && (forall z :: z in sv.Names() ==> Fixed(b.c, b.q, n1, z) && z != res)
  }

  lemma PiecesApart(b: State, ads: seq<Adapter>, cells: seq<Cell>, limits: seq<int>, sv: SourceVars, n1: nat, n2: nat, m: nat, res: string)
    requires hide L.Lookup, Ready; Ready(b) && Pieces(b, ads, cells, limits, sv, n1, n2, m, res)
    ensures var vars := LoopVars(ads, cells, limits, res, b.c, m);
            && vars.Valid() && b.c.tmp(m + 2) !in vars.Names()
            && forall z :: z in sv.Source().Holder() ==> Fixed(b.c, b.q, b.n, z) && z !in vars.Names() && z != b.c.tmp(m + 2)
  {
    hide Ready, CellsApart, CellNames, Fixed, NamesApart, Between2, CellsHold, Free;
    ReadyIsLive(b);
    var names := CellNames(ads, cells);
    var item, index := b.c.tmp(m + 1), b.c.tmp(m + 2);
    forall i: nat | n1 < i <= n2 ensures b.c.tmp(i) != item && b.c.tmp(i) != index {
      TmpsApart(b.c, i, m + 1);
      TmpsApart(b.c, i, m + 2);
    }
    OutsideRange(b.c, n1, n2, names, item);
    OutsideRange(b.c, n1, n2, names, index);
    OutsideRange(b.c, n1, n2, names, res);
    TmpsApart(b.c, m + 1, m + 2);
    forall z | z in sv.Names() ensures Fixed(b.c, b.q, b.n, z) && z !in names && z != item && z != index {
      forall i: nat | i > n1 ensures b.c.tmp(i) != z {
        FixedBefore(b.c, b.q, n1, z, i);
      }
      OutsideRange(b.c, n1, n2, names, z);
      FixedMonotone(b.c, b.q, n1, b.q, b.n, z);
    }
  }

  /** Item and loop variable are temporaries nothing else uses. */
  lemma PiecesBetween(b: State, ads: seq<Adapter>, cells: seq<Cell>, limits: seq<int>, sv: SourceVars, n1: nat, n2: nat, m: nat, res: string, acc: R.Val)
    requires Ready(b) && Pieces(b, ads, cells, limits, sv, n1, n2, m, res)
    requires L.Lookup(b.s, res) == Some(E.Enc(acc)) && E.Expressible(acc)
    requires Ready(b.(n := m))
    ensures Between(b, LoopVars(ads, cells, limits, res, b.c, m), b.c.tmp(m + 2), sv.Source(), I.Zeros(|ads|), acc)
  {
    hide Ready, CellsApart, CellNames, Fixed, Between2, CellsHold, Free, L.Lookup, E.Enc, E.Expressible;
    PiecesApart(b, ads, cells, limits, sv, n1, n2, m, res);
    NewTmpFree(b.(n := m), m + 1, m + 2);
    NewTmpFree(b.(n := m), m + 2, m + 2);
    assert b.(n := m).(n := m + 2) == b;
  }

  // ---- the theorem ----

  /** What is evaluated once, before the loop. */
  ghost predicate OperandsFit(chain: IterChain, q: Scope) {
    hide *;
    SourceFits(chain.source, q) && LimitsFit(chain.ads, q) && (chain.cons.Fold? ==> Fits(chain.cons.init, q, false))
  }

  /** What is evaluated in the loop. */
  ghost predicate LoopFits(chain: IterChain, q: Scope) {
    AllFit(chain.ads, q) && ConsumerFits(chain.cons, q) && RevsFirst(chain.ads)
  }

  ghost predicate ChainFits(chain: IterChain, q: Scope) {
    OperandsFit(chain, q) && LoopFits(chain, q)
  }

  /** The chain's source has no more items than a Lua integer can count, and its end does not wrap around. */
  predicate Countable(chain: IterChain, env: R.Env, w: World, fuel: nat) {
    hide *;
    var src := EvalSource(chain.source, env, w, fuel);
    src.Some? ==> src.value.0.EndsRight() && |src.value.0.Items()| <= I.MAX_INT
  }

  /** The chain's value is in the result variable; no other variable that was there before has changed. */
  ghost predicate Delivered(a: State, g: GenResult, o: L.Outcome, x: R.Val, env: R.Env) {
    hide *;
    && o.Normal? && E.Expressible(x) && L.Lookup(o.store, g.res) == Some(E.Enc(x))
    && Extends(a.s, o.store) && SameNames(a.env, env) && Ready(a.(n := g.next, env := env, s := o.store))
    && forall z :: Fixed(a.c, a.q, a.n, z) && z != g.res ==> L.Lookup(o.store, z) == L.Lookup(a.s, z)
  }

  /** The statements before the loop. */
  ghost function SetupCode(chain: IterChain, into: Into, c: Ctx, n: nat): Code {
    var src := SourceCode(chain.source, c, n);
    var cells := CellsCode(chain.ads, c, src.next);
    var start := StartCode(chain.cons, c, cells.next);
    src.code + (cells.code + (start.code + [ResultStmt(start.e, into, c, start.next)]))
  }

  /** What is in place when the loop starts. */
  ghost predicate SetUp(a: State, b: State, chain: IterChain, into: Into, x: SourceVal, limits: seq<int>, acc: R.Val)
    requires |limits| == |chain.ads|
  {
    var src := SourceCode(chain.source, a.c, a.n);
    var cells := CellsCode(chain.ads, a.c, src.next);
    var start := StartCode(chain.cons, a.c, cells.next);
    var res := ResultName(into, a.c, start.next);
    var m := ResultNext(into, start.next);
    && b.c == a.c && b.q == a.q && Ready(b) && Ready(b.(n := m)) && SameNames(a.env, b.env) && Extends(a.s, b.s)
    && Pieces(b, chain.ads, cells.cells, limits, src.sv, src.next, cells.next, m, res)
    && SourceHolds(src.sv, x, b.s)
    && L.Lookup(b.s, res) == Some(E.Enc(acc)) && E.Expressible(acc)
    && forall z :: Fixed(a.c, a.q, a.n, z) && z != res ==> L.Lookup(b.s, z) == L.Lookup(a.s, z)
  }

  /** The operands have been computed, one group after the other. */
  ghost predicate Computed(chain: IterChain, a: State, a1: State, a2: State, a3: State, x: SourceVal, limits: seq<int>, acc: R.Val, w: World)
    requires hide *; |limits| == |chain.ads|
  {
    hide *;
    var src := SourceCode(chain.source, a.c, a.n);
    var cells := CellsCode(chain.ads, a.c, a1.n);
    var start := StartCode(chain.cons, a.c, a2.n);
    && Onward(a, a1) && a1.n == src.next && SourceHolds(src.sv, x, a1.s) && SourceFixed(a1, src.sv)
    && Onward(a1, a2) && a2.n == cells.next
    && CellsApart(chain.ads, cells.cells) && CellsHold(a2.s, chain.ads, cells.cells, limits, I.Zeros(|chain.ads|))
    && (forall z :: z in CellNames(chain.ads, cells.cells) ==> Free(a2, z))
    && Between2(a.c, a1.n, a2.n, CellNames(chain.ads, cells.cells))
    && Onward(a2, a3) && a3.n == start.next
    && L.Eval(start.e, a3.s, w.lf) == Some(E.Enc(acc)) && E.Expressible(acc)
  }

  lemma OperandsRun(chain: IterChain, a: State, x: SourceVal, limits: seq<int>, init: R.Val, e1: R.Env, e2: R.Env, e3: R.Env, w: World, fuel: nat)
      returns (a1: State, a2: State, a3: State)
    requires hide *; Ready(a) && Compiled(w) && OperandsFit(chain, a.q)
    requires EvalSource(chain.source, a.env, w, fuel) == Some((x, e1))
    requires EvalLimits(chain.ads, e1, w, fuel) == Some((limits, e2))
    requires EvalStart(chain.cons, e2, w, fuel) == Some((init, e3))
    ensures a1.env == e1 && a2.env == e2 && a3.env == e3
    ensures Computed(chain, a, a1, a2, a3, x, limits, I.Init(SinkOf(chain.cons, init, e3, w, fuel)), w)
    ensures var src := SourceCode(chain.source, a.c, a.n);
            var cells := CellsCode(chain.ads, a.c, src.next);
            L.Run(src.code + (cells.code + StartCode(chain.cons, a.c, cells.next).code), a.s, w.lf, fuel) == L.Normal(a3.s)
  {
    hide Ready, Compiled, Fits, SourceFits, LimitsFit, L.Run, L.Eval, SourceCode, CellsCode, StartCode, Free, E.Enc, E.Expressible, CellsApart,
      CellNames, CellsHold, Between2, SourceHolds, EvalSource, EvalLimits, EvalStart, SinkOf, I.Init, Onward, SourceFixed, I.Zeros;
    var src := SourceCode(chain.source, a.c, a.n);
    SourceOnward(chain.source, a, x, e1, w, fuel);
    a1 := a.(n := src.next, env := e1, s := L.Run(src.code, a.s, w.lf, fuel).store);
    assert Ready(a1) by { OnwardReady(a, a1); }
    var cells := CellsCode(chain.ads, a.c, src.next);
    CellsOnward(chain.ads, a1, limits, e2, w, fuel);
    a2 := a1.(n := cells.next, env := e2, s := L.Run(cells.code, a1.s, w.lf, fuel).store);
    assert Ready(a2) by { OnwardReady(a1, a2); }
    var start := StartCode(chain.cons, a.c, cells.next);
    StartOnward(chain.cons, a2, init, e3, w, fuel);
    a3 := a2.(n := start.next, env := e3, s := L.Run(start.code, a2.s, w.lf, fuel).store);
    RunAppend(cells.code, start.code, a1.s, w.lf, fuel);
    RunAppend(src.code, cells.code + start.code, a.s, w.lf, fuel);
  }

  lemma SetupRuns(chain: IterChain, into: Into, a: State, x: SourceVal, limits: seq<int>, init: R.Val, e1: R.Env, e2: R.Env, e3: R.Env, w: World, fuel: nat)
    requires hide *; Ready(a) && Compiled(w) && OperandsFit(chain, a.q) && IntoReady(a, into)
    requires EvalSource(chain.source, a.env, w, fuel) == Some((x, e1))
    requires EvalLimits(chain.ads, e1, w, fuel) == Some((limits, e2))
    requires EvalStart(chain.cons, e2, w, fuel) == Some((init, e3))
    ensures var o := L.Run(SetupCode(chain, into, a.c, a.n), a.s, w.lf, fuel);
            var start := StartCode(chain.cons, a.c, CellsCode(chain.ads, a.c, SourceCode(chain.source, a.c, a.n).next).next);
            && o.Normal?
            && SetUp(a, a.(n := ResultNext(into, start.next) + 2, env := e3, s := o.store), chain, into, x, limits,
                     I.Init(SinkOf(chain.cons, init, e3, w, fuel)))
  {
    hide Ready, Compiled, Fits, SourceFits, LimitsFit, L.Run, L.Eval, L.Lookup, SourceCode, CellsCode, StartCode, ResultStmt, Fixed, Free, E.Enc, E.Expressible,
      CellsApart, CellNames, CellsHold, Between2, SourceHolds, EvalSource, EvalLimits, EvalStart, IntoReady, SinkOf, I.Init, SetUp, Stored, SourceFixed, I.Zeros;
    var a1, a2, a3 := OperandsRun(chain, a, x, limits, init, e1, e2, e3, w, fuel);
    IntoOnward(a, a1, into);
    IntoOnward(a1, a2, into);
    IntoOnward(a2, a3, into);
    var src := SourceCode(chain.source, a.c, a.n);
    var cells := CellsCode(chain.ads, a.c, src.next);
    var start := StartCode(chain.cons, a.c, cells.next);
    var acc := I.Init(SinkOf(chain.cons, init, e3, w, fuel));
    ResultStored(into, start.e, acc, a3, w, fuel);
    var last := ResultStmt(start.e, into, a.c, start.next);
    var a4 := a3.(n := ResultNext(into, a3.n), s := L.Run([last], a3.s, w.lf, fuel).store);
    SetupSplit(src.code, cells.code, start.code, last);
    RunAppend(src.code + (cells.code + start.code), [last], a.s, w.lf, fuel);
    SetupDone(chain, into, a, a1, a2, a3, a4, x, limits, acc, w, fuel);
  }

  lemma SetupSplit(x: Code, y: Code, z: Code, last: L.Stmt)
    ensures x + (y + (z + [last])) == x + (y + z) + [last]
  {
  }

  /** What the four steps leave is what the loop starts from. */
  lemma SetupDone(chain: IterChain, into: Into, a: State, a1: State, a2: State, a3: State, a4: State, x: SourceVal, limits: seq<int>, acc: R.Val, w: World, fuel: nat)
    requires hide *; Ready(a) && IntoReady(a, into) && SourceFits(chain.source, a.q)
    requires |limits| == |chain.ads| && EvalSource(chain.source, a.env, w, fuel) == Some((x, a1.env))
    requires Computed(chain, a, a1, a2, a3, x, limits, acc, w)
    requires var res := ResultName(into, a.c, a3.n);
             && Stored(a3, a4, res) && a4.n == ResultNext(into, a3.n) && Free(a4, res)
             && L.Lookup(a4.s, res) == Some(E.Enc(acc))
    ensures SetUp(a, a4.(n := a4.n + 2), chain, into, x, limits, acc)
  {
    hide Ready, Fixed, Free, L.Lookup, SourceCode, SourceFits, CellsCode, StartCode, CellsApart, CellNames, CellsHold, Between2,
      SourceHolds, EvalSource, E.Enc, E.Expressible, I.Zeros, NamesApart, L.Eval;
    var src := SourceCode(chain.source, a.c, a.n);
    var cells := CellsCode(chain.ads, a.c, a1.n);
    var res := ResultName(into, a.c, a3.n);
    var b := a4.(n := a4.n + 2);
    OnwardThen(a1, a2, a3);
    OnwardThen(a, a1, a3);
    ReadyMore(a4, b.n);
    assert b.(n := a4.n) == a4;
    FreeLater(a4, b, res);
    ReadyIsLive(a);
    ResultApart(chain, into, a, a1, a3, x, w, fuel);
    SourceKept(src.sv, x, a1.s, b.s);
    var names := CellNames(chain.ads, cells.cells);
    OutsideRange(a.c, a1.n, a2.n, names, res);
    forall z | z in names ensures Free(b, z) && L.Lookup(b.s, z) == L.Lookup(a2.s, z) {
      OnwardFree(a2, a3, z);
      FreeLater(a3, b, z);
    }
    CellsKept(a2.s, b.s, chain.ads, cells.cells, limits, I.Zeros(|chain.ads|));
    assert SameNames(a.env, b.env);
    ExtendsThen(a.s, a3.s, b.s);
  }

  lemma ExtendsThen(s: L.Store, t: L.Store, u: L.Store)
    requires Extends(s, t) && Extends(t, u)
    ensures Extends(s, u)
  {
  }

  /** The result variable is none of the others. */
  lemma ResultApart(chain: IterChain, into: Into, a: State, a1: State, a3: State, x: SourceVal, w: World, fuel: nat)
    requires Ready(a) && IntoReady(a, into) && SourceFits(chain.source, a.q)
    requires EvalSource(chain.source, a.env, w, fuel) == Some((x, a1.env)) && a1.c == a.c && a1.q == a.q
    requires a1.n == SourceCode(chain.source, a.c, a.n).next && SourceFixed(a1, SourceCode(chain.source, a.c, a.n).sv) && a.n <= a1.n <= a3.n
    ensures var res := ResultName(into, a.c, a3.n);
            var m := ResultNext(into, a3.n);
            && (forall i: nat :: a1.n < i <= a3.n || m < i ==> a.c.tmp(i) != res)
            && (forall z :: z in SourceCode(chain.source, a.c, a.n).sv.Names() ==> Fixed(a.c, a.q, a1.n, z) && z != res)
  {
    hide Ready, Fixed, L.Lookup, SourceCode, SourceFits, EvalSource, NamesApart;
    ReadyIsLive(a);
    var res := ResultName(into, a.c, a3.n);
    var sv := SourceCode(chain.source, a.c, a.n).sv;
    if into.Temporary? {
      forall i: nat | i != a3.n + 1 ensures a.c.tmp(i) != res {
        TmpsApart(a.c, i, a3.n + 1);
      }
      forall z | z in sv.Names() ensures z != res {
        FixedBefore(a.c, a.q, a1.n, z, a3.n + 1);
      }
    } else {
      SourceApart(chain.source, a, x, a1.env, into.z, w, fuel);
      forall i: nat | i > a.n ensures a.c.tmp(i) != res {
        FixedBefore(a.c, a.q, a.n, into.z, i);
      }
    }
  }

  lemma OnwardReady(a: State, b: State)
    requires Onward(a, b)
    ensures Ready(b)
  {
    hide L.Lookup, Ready;
  }

  lemma LoopVarsOnly(sv: SourceVars, cons: Consumer, ads: seq<Adapter>, cells: seq<Cell>, limits: seq<int>, res: string, c: Ctx, m: nat)
    requires hide Inline; |cells| == |ads|
    ensures LoopStmt(sv, cons, LoopVars(ads, cells, limits, res, c, m), c.tmp(m + 2), c, m + 2)
         == LoopStmt(sv, cons, LoopVars(ads, cells, [], res, c, m), c.tmp(m + 2), c, m + 2)
  {
    hide BodyCode, PostCode;
  }

  /**
   * The generated loop, with its counters, guards and breaks, computes what the adapters and the consumer
   * compute one after the other on whole lists, and delivers it to the result variable.
   */
  lemma ChainCorrect(chain: IterChain, into: Into, a: State, x: R.Val, env: R.Env, w: World, fuel: nat)
    requires Ready(a) && Compiled(w) && ChainFits(chain, a.q) && IntoReady(a, into) && Countable(chain, a.env, w, fuel)
    requires EvalChain(chain, a.env, w, fuel) == Some((x, env))
    ensures var g := ChainCode(chain, into, a.c, a.n);
            Delivered(a, g, L.Run(g.code, a.s, w.lf, fuel), x, env)
  {
    hide Ready, Compiled, SourceFits, LimitsFit, Fits, AllFit, ConsumerFits, RevsFirst, L.Run, L.Eval, L.Lookup, SourceCode, CellsCode, StartCode,
      ResultStmt, LoopStmt, BodyCode, Fixed, E.Enc, E.Expressible, EvalSource, EvalLimits, EvalStart, ListResult, IntoReady, SinkOf, I.Init, SetUp,
      Delivered, ResultName, ResultNext;
    var src := SourceCode(chain.source, a.c, a.n);
    var cells := CellsCode(chain.ads, a.c, src.next);
    var start := StartCode(chain.cons, a.c, cells.next);
    var m := ResultNext(into, start.next);
    var res := ResultName(into, a.c, start.next);
    var (v, e1) := EvalSource(chain.source, a.env, w, fuel).value;
    var (limits, e2) := EvalLimits(chain.ads, e1, w, fuel).value;
    var (init, e3) := EvalStart(chain.cons, e2, w, fuel).value;
    SetupRuns(chain, into, a, v, limits, init, e1, e2, e3, w, fuel);
    var setup := SetupCode(chain, into, a.c, a.n);
    var b := a.(n := m + 2, env := e3, s := L.Run(setup, a.s, w.lf, fuel).store);
    var loop := LoopStmt(src.sv, chain.cons, LoopVars(chain.ads, cells.cells, limits, res, a.c, m), a.c.tmp(m + 2), a.c, m + 2);
    LoopVarsOnly(src.sv, chain.cons, chain.ads, cells.cells, limits, res, a.c, m);
    var g := ChainCode(chain, into, a.c, a.n);
    ChainParts(src.code, cells.code, start.code, [ResultStmt(start.e, into, a.c, start.next)], [loop]);
    assert g.code == setup + [loop];
    RunAppend(setup, [loop], a.s, w.lf, fuel);
    LoopDelivers(chain, into, a, b, v, limits, init, x, w, fuel);
  }

  lemma ChainParts(x: Code, y: Code, z: Code, u: Code, v: Code)
    ensures x + (y + (z + (u + v))) == x + (y + (z + u)) + v
  {
  }

  lemma LoopDelivers(chain: IterChain, into: Into, a: State, b: State, v: SourceVal, limits: seq<int>, init: R.Val, x: R.Val, w: World, fuel: nat)
    requires hide Inline, Fits, R.Eval, L.Lookup, L.Run, E.Enc, E.Expressible, Agree, Compiled, Ready;
             Ready(a) && Compiled(w) && LoopFits(chain, a.q) && |limits| == |chain.ads| && v.EndsRight() && |v.Items()| <= I.MAX_INT
    requires SetUp(a, b, chain, into, v, limits, I.Init(SinkOf(chain.cons, init, b.env, w, fuel)))
    requires ListResult(chain.ads, limits, chain.cons, init, v.Items(), b.env, w, fuel) == Some(x)
    ensures var g := ChainCode(chain, into, a.c, a.n);
            var src := SourceCode(chain.source, a.c, a.n);
            var cells := CellsCode(chain.ads, a.c, src.next);
            var m := ResultNext(into, StartCode(chain.cons, a.c, cells.next).next);
            Delivered(a, g, L.Run([LoopStmt(src.sv, chain.cons, LoopVars(chain.ads, cells.cells, limits, g.res, a.c, m), a.c.tmp(m + 2), a.c, m + 2)], b.s, w.lf, fuel), x, b.env)
  {
    hide Ready, Compiled, Fits, AllFit, ConsumerFits, RevsFirst, L.Run, L.Lookup, SourceCode, CellsCode, StartCode, ResultStmt, LoopStmt, BodyCode,
      Fixed, Free, E.Enc, E.Expressible, ListResult, SinkOf, I.Init, ResultName, ResultNext, CellsApart, CellNames, CellsHold, Between2, SourceHolds,
      Between, I.Zeros;
    var g := ChainCode(chain, into, a.c, a.n);
    var src := SourceCode(chain.source, a.c, a.n);
    var cells := CellsCode(chain.ads, a.c, src.next);
    var start := StartCode(chain.cons, a.c, cells.next);
    var m := ResultNext(into, start.next);
    var vars := LoopVars(chain.ads, cells.cells, limits, g.res, a.c, m);
    var index := a.c.tmp(m + 2);
    PiecesBetween(b, chain.ads, cells.cells, limits, src.sv, src.next, cells.next, m, g.res, I.Init(SinkOf(chain.cons, init, b.env, w, fuel)));
    LoopCorrect(src.sv, v, chain.cons, init, vars, index, b, w, fuel);
    var o := L.Run([LoopStmt(src.sv, chain.cons, vars, index, a.c, m + 2)], b.s, w.lf, fuel);
    var d := b.(s := o.store);
    ReadyMore(d, g.next);
    ExtendsThen(a.s, b.s, d.s);
    forall z | Fixed(a.c, a.q, a.n, z) && z != g.res ensures L.Lookup(o.store, z) == L.Lookup(a.s, z) {
      OldIsNotOfLoop(a, b, chain.ads, cells.cells, limits, src.sv, src.next, cells.next, m, g.res, z);
    }
  }

  /** A name in use before the chain, other than the result, is not a variable of the loop. */
  lemma OldIsNotOfLoop(a: State, b: State, ads: seq<Adapter>, cells: seq<Cell>, limits: seq<int>, sv: SourceVars, n1: nat, n2: nat, m: nat, res: string, z: string)
    requires hide L.Lookup, Ready; Ready(a) && b.c == a.c && b.q == a.q && a.n <= n1 && Pieces(b, ads, cells, limits, sv, n1, n2, m, res)
    requires Fixed(a.c, a.q, a.n, z) && z != res
    ensures z !in LoopVars(ads, cells, limits, res, a.c, m).Names() + {a.c.tmp(m + 2)} && Fixed(b.c, b.q, b.n, z)
  {
    hide Ready, Fixed, L.Lookup, CellsApart, CellNames, CellsHold, Free, Between2, NamesApart;
    ReadyIsLive(a);
    forall i: nat | i > a.n ensures a.c.tmp(i) != z {
      FixedBefore(a.c, a.q, a.n, z, i);
    }
    OutsideRange(a.c, n1, n2, CellNames(ads, cells), z);
    FixedMonotone(a.c, a.q, a.n, b.q, b.n, z);
  }

  // ---- where chains occur ----

  /** As an operand: the result is built in a temporary declared beforehand. */
  lemma ChainInline(chain: IterChain, a: State, x: R.Val, env: R.Env, w: World, fuel: nat)
    requires hide *; Ready(a) && Compiled(w) && ChainFits(chain, a.q) && Countable(chain, a.env, w, fuel)
    requires EvalChain(chain, a.env, w, fuel) == Some((x, env))
    ensures var t := a.c.tmp(a.n + 1);
            var o := L.Run([L.Local(t, None)] + ChainCode(chain, Existing(t), a.c, a.n + 1).code, a.s, w.lf, fuel);
            Computes(R.Done(x, env), o, Name(t), a.c, w)
  {
    hide Ready, Compiled, ChainFits, Countable, EvalChain, ChainCode, L.Run, L.Eval, L.Lookup, E.Enc, E.Expressible, Fixed, Free, Agree;
    var t := a.c.tmp(a.n + 1);
    var a1 := a.(n := a.n + 1, s := a.s + [L.Binding(t, L.NilV)]);
    var g := ChainCode(chain, Existing(t), a.c, a.n + 1);
    RunAppend([L.Local(t, None)], g.code, a.s, w.lf, fuel);
    LocalRun(t, None, a.s, w.lf, fuel);
    ReadyWithTmp(a, L.NilV);
    NewTmpFree(a, a.n + 1, a.n + 1);
    assert SameNames(a.env, a.env);
    FreeOver(a.(n := a.n + 1), a1, t);
    ChainCorrect(chain, Existing(t), a1, x, env, w, fuel);
    ChainName(chain, Existing(t), a.c, a.n + 1);
    var o := L.Run(g.code, a1.s, w.lf, fuel);
    NameEval(t, o.store, w.lf);
    ReadyIsLive(a1.(n := g.next, env := env, s := o.store));
  }

  lemma ChainName(chain: IterChain, into: Into, c: Ctx, n: nat)
    requires hide *; !into.Temporary?
    ensures ChainCode(chain, into, c, n).res == into.z
  {
    hide Inline;
  }

  /** In return position. */
  lemma ChainReturn(chain: IterChain, a: State, x: R.Val, env: R.Env, w: World, fuel: nat)
    requires Ready(a) && Compiled(w) && ChainFits(chain, a.q) && Countable(chain, a.env, w, fuel)
    requires EvalChain(chain, a.env, w, fuel) == Some((x, env))
    ensures var g := ChainCode(chain, Temporary, a.c, a.n);
            L.Run(g.code + [L.Return(Some(Name(g.res)))], a.s, w.lf, fuel) == L.Returned(E.Enc(x))
  {
    hide Ready, Compiled, ChainFits, Countable, EvalChain, ChainCode, L.Run, L.Eval, L.Lookup, E.Enc, E.Expressible, Fixed, Free;
    var g := ChainCode(chain, Temporary, a.c, a.n);
    ChainCorrect(chain, Temporary, a, x, env, w, fuel);
    var o := L.Run(g.code, a.s, w.lf, fuel);
    RunAppend(g.code, [L.Return(Some(Name(g.res)))], a.s, w.lf, fuel);
    ReturnRun(Name(g.res), o.store, w.lf, fuel);
    NameEval(g.res, o.store, w.lf);
  }

  lemma ReadyWider(a: State, x: string)
    requires Ready(a) && x !in a.q.live
    ensures var a0 := a.(q := a.q.Bind({x})); Ready(a0) && Free(a0, a.c.loc(x))
  {
    hide E.Enc, E.Expressible, E.EncFields, E.EncAll;
    ReadyIsLive(a);
    var q0 := a.q.Bind({x});
    OldLoc(a.c, q0, a.n, x);
    forall z ensures Fixed(a.c, a.q, a.n, z) ==> Fixed(a.c, q0, a.n, z)
      ensures Old(a.c, a.q, a.n, z) ==> Old(a.c, q0, a.n, z)
    {
      FixedMonotone(a.c, a.q, a.n, q0, a.n, z);
    }
    hide NamesApart, Agree, SubClear, Fixed, Old;
    assert SubClear(a.c, q0) by { LetContext(a, x); SubClearHere(a, x); }
    assert x !in a.q.may by {
      if x in a.q.may {
        assert SameNames(a.env, a.env);
        LiveName(a.env, a.env, a.q.live, x);
      }
    }
    forall y | R.Get(a.env, y).Some? ensures a.c.Res(y) != a.c.loc(x) {
      assert SameNames(a.env, a.env);
      LiveName(a.env, a.env, a.q.live, y);
      LetApart(a, x, y);
    }
  }

  lemma SubClearHere(a: State, x: string)
    requires Ready(a) && x !in a.q.live
    ensures SubClear(a.c, a.q.Bind({x}))
  {
  }

  /** As the initializer of a `let`: the result is built in the variable's own local. */
  lemma ChainLet(chain: IterChain, y: string, a: State, x: R.Val, env: R.Env, w: World, fuel: nat)
    requires Ready(a) && Compiled(w) && y !in a.q.live && ChainFits(chain, a.q.Bind({y})) && Countable(chain, a.env, w, fuel)
    requires EvalChain(chain, a.env, w, fuel) == Some((x, env))
    ensures var g := ChainCode(chain, NewLocal(a.c.loc(y)), a.c, a.n);
            Advances(a, R.Done(R.UnitVal, env + [R.Slot(y, x)]), L.Run(g.code, a.s, w.lf, fuel), a.c, LetScopeOf(y, a.q), g.next)
  {
    hide Ready, Compiled, ChainFits, Countable, EvalChain, ChainCode, L.Run, L.Eval, L.Lookup, E.Enc, E.Expressible, Fixed, Free, Agree,
      Opens, SameBelow;
    var z := a.c.loc(y);
    var a0 := a.(q := a.q.Bind({y}));
    var g := ChainCode(chain, NewLocal(z), a.c, a.n);
    ReadyWider(a, y);
    ChainCorrect(chain, NewLocal(z), a0, x, env, w, fuel);
    ChainName(chain, NewLocal(z), a.c, a.n);
    var o := L.Run(g.code, a.s, w.lf, fuel);
    ReadyIsLive(a0.(n := g.next, env := env, s := o.store));
    ReadyMore(a, g.next);
    AgreeExcept(a.c, env, o.store, Some(z));
    LetDelivered(a.(n := g.next), y, x, env, o.store);
    SameBelowSelf(a.c, a.q.live);
    LetGrows(y, a.q);
  }

  lemma AgreeExcept(c: Ctx, env: R.Env, s: L.Store, except: Option<string>)
    requires Agree(c, env, s, None)
    ensures Agree(c, env, s, except)
  {
  }
}
