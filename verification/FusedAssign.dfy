/** Assigning an iterator chain to a variable that already exists. */
module FusedAssign {
  import opened Wrappers
  import opened LuaIr
  import opened Lowering
  import opened LoweringScope
  import opened LoweringMarks
  import opened LoweringState
  import opened LoweringPatterns
  import opened LoweringSteps
  import opened LoweringControl
  import opened LoweringBlocks
  import opened LoweringDropped
  import opened FusedLoop
  import opened FusedRounds
  import opened FusedChains
  import opened LuaFrame
  import opened RuaFrame
  import I = IterChains
  import R = RuaLang
  import L = LuaRun
  import E = Encoding

  // ---- the condition ----

  predicate ReadByAdapter(x: string, ad: Adapter) {
    match ad
    case Map(k) => Occurs(x, k.body)
    case Filter(k) => Occurs(x, k.body)
    case FilterMap(k) => Occurs(x, k.body)
    case _ => false
  }

  predicate ReadByConsumer(x: string, cons: Consumer) {
    match cons
    case Fold(_, _, _, body) => Occurs(x, body)
    case Any(k) => Occurs(x, k.body)
    case All(k) => Occurs(x, k.body)
    case Find(k) => Occurs(x, k.body)
    case _ => false
  }

  /** Some closure of the chain mentions x. Source, limits and starting value may: they are evaluated first. */
  predicate ReadInLoop(x: string, chain: IterChain) {
    ReadByConsumer(x, chain.cons) || exists i :: 0 <= i < |chain.ads| && ReadByAdapter(x, chain.ads[i])
  }

  // ---- the same code and scope with x forgotten ----

  lemma ClosureDropped(body: R.Expr, q: Scope, inner: set<string>, x: string)
    requires Fits(body, q.(live := inner, may := {}), false) && !Occurs(x, body) && x in inner
    ensures Fits(body, Drop(q, x).(live := inner, may := {}), false)
  {
    hide Fits, Occurs;
    var q1 := q.(live := inner, may := {});
    FitsDropped(body, q1, false, x);
    assert q1.may - {x} == {};
    assert Drop(q1, x) == Drop(q, x).(live := inner, may := {});
  }

  lemma ConsumerDropped(cons: Consumer, q: Scope, x: string)
    requires ConsumerFits(cons, q) && !ReadByConsumer(x, cons) && x in q.live
    ensures ConsumerFits(cons, Drop(q, x))
  {
    hide Fits, Occurs;
    match cons {
      case Fold(_, acc, param, body) => ClosureDropped(body, q, q.live + {acc} + {param}, x);
      case Any(k) => ClosureDropped(k.body, q, q.live + {k.param}, x);
      case All(k) => ClosureDropped(k.body, q, q.live + {k.param}, x);
      case Find(k) => ClosureDropped(k.body, q, q.live + {k.param}, x);
      case _ =>
    }
  }

  lemma {:induction false} AdaptersDropped(ads: seq<Adapter>, q: Scope, x: string)
    requires hide *; AllFit(ads, q) && x in q.live && forall i :: 0 <= i < |ads| ==> !ReadByAdapter(x, ads[i])
    ensures AllFit(ads, Drop(q, x))
  {
    hide Fits, Occurs;
    if ads != [] {
      assert !ReadByAdapter(x, ads[0]);
      if ads[0].Map? || ads[0].Filter? || ads[0].FilterMap? {
        ClosureDropped(ads[0].k.body, q, q.live + {ads[0].k.param}, x);
      }
      AdaptersDropped(ads[1..], q, x);
    }
  }

  lemma SameClosure(body: R.Expr, c: Ctx, q: Scope, live: set<string>, sub: map<string, string>, n: nat, x: string)
    requires Fits(body, q.(live := live, may := {}), false) && x in live && c.mentioned == q.mentioned
    ensures Inline(body, DropC(c, x).(sub := sub), n) == Inline(body, c.(sub := sub), n)
  {
    hide Inline, Fits;
    SameInline(body, c.(sub := sub), q.(live := live, may := {}), false, n, x);
  }

  lemma SameSink(cons: Consumer, item: string, res: string, c: Ctx, q: Scope, n: nat, x: string)
    requires ConsumerFits(cons, q) && x in q.live && c.mentioned == q.mentioned
    ensures SinkCode(cons, item, res, DropC(c, x), n) == SinkCode(cons, item, res, c, n)
  {
    hide Fits, Inline;
    match cons {
      case Fold(_, acc, param, body) => SameClosure(body, c, q, q.live + {acc} + {param}, c.sub[acc := res][param := item], n, x);
      case Any(k) => SameClosure(k.body, c, q, q.live + {k.param}, c.sub[k.param := item], n, x);
      case All(k) => SameClosure(k.body, c, q, q.live + {k.param}, c.sub[k.param := item], n, x);
      case Find(k) => SameClosure(k.body, c, q, q.live + {k.param}, c.sub[k.param := item], n, x);
      case _ =>
    }
  }

  lemma {:induction false} SameBody(ads: seq<Adapter>, cells: seq<Cell>, cons: Consumer, item: string, res: string, c: Ctx, q: Scope, n: nat, x: string)
    requires hide *; |cells| == |ads| && AllFit(ads, q) && ConsumerFits(cons, q) && x in q.live && c.mentioned == q.mentioned
    ensures BodyCode(ads, cells, cons, item, res, DropC(c, x), n) == BodyCode(ads, cells, cons, item, res, c, n)
    decreases |ads|
  {
    hide Fits, Inline, SinkCode, ConsumerFits;
    if ads == [] {
      SameSink(cons, item, res, c, q, n, x);
    } else if ads[0].Map? || ads[0].Filter? || ads[0].FilterMap? {
      var k := ads[0].k;
      SameClosure(k.body, c, q, q.live + {k.param}, c.sub[k.param := item], n, x);
      SameBody(ads[1..], cells[1..], cons, item, res, c, q, Inline(k.body, FusedLoop.Call(k, item, c), n).next, x);
    } else {
      SameBody(ads[1..], cells[1..], cons, item, res, c, q, n, x);
    }
  }

  lemma SameSource(src: Source, c: Ctx, q: Scope, n: nat, x: string)
    requires SourceFits(src, q) && x in q.live && c.mentioned == q.mentioned
    ensures SourceCode(src, DropC(c, x), n) == SourceCode(src, c, n)
  {
    hide Fits, Inline;
    match src {
      case RangeOf(start, end, _) =>
        SameInline(start, c, q, false, n, x);
        SameInline(end, c, q, false, Keep(start, c, n).next, x);
      case VecOf(e) => SameInline(e, c, q, false, n, x);
    }
  }

  lemma {:induction false} SameCells(ads: seq<Adapter>, c: Ctx, q: Scope, n: nat, x: string)
    requires LimitsFit(ads, q) && x in q.live && c.mentioned == q.mentioned
    ensures CellsCode(ads, DropC(c, x), n) == CellsCode(ads, c, n)
  {
    hide Fits, Inline;
    if ads != [] {
      if ads[0].Skip? || ads[0].Take? {
        SameInline(ads[0].limit, c, q, false, n, x);
      }
      SameCells(ads[1..], c, q, CellCode(ads[0], c, n).next, x);
    }
  }

  lemma SameStart(cons: Consumer, c: Ctx, q: Scope, n: nat, x: string)
    requires hide *; (cons.Fold? ==> Fits(cons.init, q, false)) && x in q.live && c.mentioned == q.mentioned
    ensures StartCode(cons, DropC(c, x), n) == StartCode(cons, c, n)
  {
    hide Fits, Inline;
    if cons.Fold? {
      SameInline(cons.init, c, q, false, n, x);
    }
  }

  /** The chain's code does not change when x is forgotten. */
  lemma SameChainCode(chain: IterChain, z: string, c: Ctx, q: Scope, n: nat, x: string)
    requires ChainFits(chain, q) && x in q.live && c.mentioned == q.mentioned
    ensures ChainCode(chain, Existing(z), DropC(c, x), n) == ChainCode(chain, Existing(z), c, n)
    ensures SetupCode(chain, Existing(z), DropC(c, x), n) == SetupCode(chain, Existing(z), c, n)
    ensures var src := SourceCode(chain.source, c, n);
            var cells := CellsCode(chain.ads, c, src.next);
            && SourceCode(chain.source, DropC(c, x), n) == src
            && CellsCode(chain.ads, DropC(c, x), src.next) == cells
            && StartCode(chain.cons, DropC(c, x), cells.next) == StartCode(chain.cons, c, cells.next)
  {
    hide Fits, SourceCode, CellsCode, StartCode, BodyCode, PostCode, SourceFits, LimitsFit, AllFit, ConsumerFits, RevsFirst;
    var src := SourceCode(chain.source, c, n);
    var cells := CellsCode(chain.ads, c, src.next);
    SameSource(chain.source, c, q, n, x);
    SameCells(chain.ads, c, q, src.next, x);
    SameStart(chain.cons, c, q, cells.next, x);
    var m := StartCode(chain.cons, c, cells.next).next;
    SameBody(chain.ads, cells.cells, chain.cons, c.tmp(m + 1), z, c, q, m + 2, x);
  }

  lemma SameLoopStmt(sv: SourceVars, cons: Consumer, ads: seq<Adapter>, cells: seq<Cell>, limits: seq<int>, z: string, c: Ctx, q: Scope, m: nat, x: string)
    requires hide Inline, Fits; |cells| == |ads| && AllFit(ads, q) && ConsumerFits(cons, q) && x in q.live && c.mentioned == q.mentioned
    ensures LoopStmt(sv, cons, LoopVars(ads, cells, limits, z, DropC(c, x), m), c.tmp(m + 2), DropC(c, x), m + 2)
         == LoopStmt(sv, cons, LoopVars(ads, cells, limits, z, c, m), c.tmp(m + 2), c, m + 2)
  {
    hide BodyCode, PostCode, AllFit, ConsumerFits;
    SameBody(ads, cells, cons, c.tmp(m + 1), z, c, q, m + 2, x);
  }

  lemma BetweenDropped(c: Ctx, x: string, n: nat, m: nat, names: set<string>)
    requires Between2(c, n, m, names)
    ensures Between2(DropC(c, x), n, m, names)
  {
  }

  // ---- states with x forgotten ----

  lemma FixedDropped(a: State, x: string, z: string)
    requires Ready(a) && x in a.q.live && x in a.q.may
    ensures Fixed(a.c, a.q, a.n, z) <==> Fixed(DropC(a.c, x), Drop(a.q, x), a.n, z) && z != a.c.loc(x)
    ensures Fixed(DropC(a.c, x), Drop(a.q, x), a.n, a.c.loc(x))
  {
    hide Agree, SubClear, SubFixed;
  }

  lemma ReadyDropped(a: State, x: string)
    requires Ready(a) && x in a.q.live && x in a.q.may
    ensures Ready(DropState(a, x))
  {
    hide Fixed, Old, E.Enc, E.Expressible, L.Lookup;
    var b := DropState(a, x);
    forall z ensures Fixed(a.c, a.q, a.n, z) ==> Fixed(b.c, b.q, b.n, z) {
      FixedDropped(a, x, z);
    }
    forall z ensures Old(a.c, a.q, a.n, z) ==> Old(b.c, b.q, b.n, z) {
      OldSameNaming(a.c, b.c, a.q, a.n, z);
      FixedMonotone(b.c, a.q, a.n, b.q, b.n, z);
    }
    forall y | R.Get(a.env, y).Some? && y in b.c.mentioned ensures Holds(b.c, a.env, a.s, y) {
      assert Holds(a.c, a.env, a.s, y);
    }
  }

  lemma FreeDropped(a: State, x: string, z: string)
    requires Ready(a) && x in a.q.live && x in a.q.may && Free(a, z)
    ensures Free(DropState(a, x), z) && z != a.c.loc(x)
  {
    hide Ready, Fixed;
    FixedDropped(a, x, z);
  }

  /** With x forgotten, its own local is free to build the result in. */
  lemma IntoDropped(a: State, x: string)
    requires Ready(a) && x in a.q.live && x in a.q.may && L.Lookup(a.s, a.c.loc(x)).Some?
    ensures IntoReady(DropState(a, x), Existing(a.c.loc(x)))
  {
    hide Ready, Fixed;
    FixedDropped(a, x, a.c.loc(x));
    ReadyIsLive(a);
    forall y | R.Get(a.env, y).Some? && y in a.c.mentioned - {x} ensures a.c.Res(y) != a.c.loc(x) {
      assert SameNames(a.env, a.env);
      LiveName(a.env, a.env, a.q.live, y);
      ResApart(a, x, y);
    }
  }

  /** From the operands' values to a loop that is ready to run, with x forgotten. */
  lemma DroppedSetup(chain: IterChain, x: string, a: State, a1: State, a2: State, a3: State, a4: State, v: SourceVal, limits: seq<int>, acc: R.Val, w: World)
    requires hide *; Ready(a) && x in a.q.live && x in a.q.may && ChainFits(chain, a.q) && |limits| == |chain.ads|
    requires Computed(chain, a, a1, a2, a3, v, limits, acc, w)
    requires var z := a.c.loc(x);
             Stored(DropState(a3, x), a4, z) && a4.n == a3.n && Free(a4, z) && L.Lookup(a4.s, z) == Some(E.Enc(acc))
    ensures SetUp(DropState(a, x), a4.(n := a4.n + 2), chain, Existing(a.c.loc(x)), v, limits, acc)
  {
    hide Ready, Fixed, Free, L.Lookup, L.Eval, SourceCode, CellsCode, StartCode, SourceFits, LimitsFit, AllFit, ConsumerFits, RevsFirst,
      CellsApart, CellNames, CellsHold, Between2, SourceHolds, E.Enc, E.Expressible, I.Zeros, NamesApart, Fits;
    var z := a.c.loc(x);
    var src := SourceCode(chain.source, a.c, a.n);
    var cells := CellsCode(chain.ads, a.c, a1.n);
    var b := a4.(n := a4.n + 2);
    var names := CellNames(chain.ads, cells.cells);
    ReadyIsLive(a);
    assert a.c.mentioned == a.q.mentioned;
    SameChainCode(chain, z, a.c, a.q, a.n, x);
    OnwardThen(a1, a2, a3);
    OnwardThen(a, a1, a3);
    ReadyMore(a4, b.n);
    assert b.(n := a4.n) == a4;
    FreeLater(a4, b, z);
    forall y | y in src.sv.Names() ensures Fixed(b.c, b.q, a1.n, y) && y != z && L.Lookup(b.s, y) == L.Lookup(a1.s, y) {
      FixedDropped(a1, x, y);
    }
    SourceKept(src.sv, v, a1.s, b.s);
    forall y | y in names ensures Free(b, y) && y != z && L.Lookup(b.s, y) == L.Lookup(a2.s, y) {
      OnwardFree(a2, a3, y);
      FreeDropped(a3, x, y);
      FreeLater(DropState(a3, x), b, y);
    }
    CellsKept(a2.s, b.s, chain.ads, cells.cells, limits, I.Zeros(|chain.ads|));
    forall i: nat ensures b.c.tmp(i) != z {
      LocalIsNoTmp(a.c, i, x);
    }
    ExtendsThen(a.s, a3.s, b.s);
    forall y | Fixed(DropC(a.c, x), Drop(a.q, x), a.n, y) && y != z ensures L.Lookup(b.s, y) == L.Lookup(a.s, y) {
      FixedDropped(a, x, y);
    }
    BetweenDropped(a.c, x, a1.n, a2.n, names);
    assert Pieces(b, chain.ads, cells.cells, limits, src.sv, a1.n, a2.n, a4.n, z);
  }

  lemma LocalIsNoTmp(c: Ctx, i: nat, x: string)
    requires NamesApart(c)
    ensures c.tmp(i) != c.loc(x)
  {
  }

  // ---- the theorem ----

  /**
   * The chain builds its result in the variable itself. Nothing else changes, and the value is the
   * chain's, as long as no closure mentions the variable.
   */
  lemma ChainToVariable(chain: IterChain, x: string, a: State, v: R.Val, env: R.Env, w: World, fuel: nat)
    requires Ready(a) && Compiled(w) && ChainFits(chain, a.q) && Countable(chain, a.env, w, fuel)
    requires x in a.q.live && x in a.q.may && L.Bound(a.s, a.c.loc(x)) && !ReadInLoop(x, chain)
    requires EvalChain(chain, a.env, w, fuel) == Some((v, env))
    ensures SameNames(a.env, env)
    ensures Sim(R.Done(v, env), L.Run(ChainCode(chain, Existing(a.c.loc(x)), a.c, a.n).code, a.s, w.lf, fuel), a.c, Var(a.c.loc(x)), false)
  {
    hide Ready, Compiled, Fits, SourceFits, LimitsFit, AllFit, ConsumerFits, RevsFirst, L.Run, L.Lookup, L.Bound, SourceCode, CellsCode, StartCode,
      LoopStmt, BodyCode, Free, E.Enc, E.Expressible, Agree, EvalSource, EvalLimits, EvalStart, ListResult, SinkOf, I.Init, Computed, Stored, SetUp,
      Delivered, ReadByAdapter, ReadByConsumer;
    var z := a.c.loc(x);
    var (src, e1) := EvalSource(chain.source, a.env, w, fuel).value;
    var (limits, e2) := EvalLimits(chain.ads, e1, w, fuel).value;
    var (init, e3) := EvalStart(chain.cons, e2, w, fuel).value;
    var acc := I.Init(SinkOf(chain.cons, init, e3, w, fuel));
    var a1, a2, a3 := OperandsRun(chain, a, src, limits, init, e1, e2, e3, w, fuel);
    var a4 := ResultInVariable(chain, x, a, a1, a2, a3, src, limits, acc, w, fuel);
    DroppedSetup(chain, x, a, a1, a2, a3, a4, src, limits, acc, w);
    ReadyDropped(a, x);
    ConsumerDropped(chain.cons, a.q, x);
    AdaptersDropped(chain.ads, a.q, x);
    MentionedSame(a);
    SameChainCode(chain, z, a.c, a.q, a.n, x);
    FusedChains.LoopDelivers(chain, Existing(z), DropState(a, x), a4.(n := a4.n + 2), src, limits, init, v, w, fuel);
    var cells := CellsCode(chain.ads, a.c, SourceCode(chain.source, a.c, a.n).next);
    SameLoopStmt(SourceCode(chain.source, a.c, a.n).sv, chain.cons, chain.ads, cells.cells, limits, z, a.c, a.q, StartCode(chain.cons, a.c, cells.next).next, x);
    ComputedNumbers(chain, a, a1, a2, a3, src, limits, acc, w);
    ChainName(chain, Existing(z), a.c, a.n);
    ChainRun(chain, z, a, a3.s, a4.s, limits, w, fuel);
    DroppedDelivers(chain, x, a, L.Run(ChainCode(chain, Existing(z), a.c, a.n).code, a.s, w.lf, fuel), v, env);
  }

  lemma ComputedNumbers(chain: IterChain, a: State, a1: State, a2: State, a3: State, v: SourceVal, limits: seq<int>, acc: R.Val, w: World)
    requires hide *; |limits| == |chain.ads| && Computed(chain, a, a1, a2, a3, v, limits, acc, w)
    ensures a1.n == SourceCode(chain.source, a.c, a.n).next && a2.n == CellsCode(chain.ads, a.c, a1.n).next
    ensures a3.n == StartCode(chain.cons, a.c, a2.n).next
  {
    hide Ready, Fixed, Free, L.Lookup, L.Eval, SourceCode, CellsCode, StartCode, CellsApart, CellNames, CellsHold, Between2, SourceHolds,
      E.Enc, E.Expressible;
  }

  lemma MentionedSame(a: State)
    requires Ready(a)
    ensures a.c.mentioned == a.q.mentioned
  {
    ReadyIsLive(a);
  }

  /** The starting value goes into the variable. */
  lemma ResultInVariable(chain: IterChain, x: string, a: State, a1: State, a2: State, a3: State, v: SourceVal, limits: seq<int>, acc: R.Val, w: World, fuel: nat)
      returns (a4: State)
    requires hide *; Ready(a) && x in a.q.live && x in a.q.may && L.Bound(a.s, a.c.loc(x)) && |limits| == |chain.ads|
    requires Computed(chain, a, a1, a2, a3, v, limits, acc, w)
    ensures var z := a.c.loc(x);
            && a4 == DropState(a3, x).(s := a4.s)
            && Stored(DropState(a3, x), a4, z) && Free(a4, z) && L.Lookup(a4.s, z) == Some(E.Enc(acc))
            && L.Run([ResultStmt(StartCode(chain.cons, a.c, a2.n).e, Existing(z), a.c, a3.n)], a3.s, w.lf, fuel) == L.Normal(a4.s)
  {
    hide Ready, L.Run, L.Eval, L.Lookup, L.Bound, SourceCode, CellsCode, StartCode, Fixed, Free, E.Enc, E.Expressible, CellsApart,
      CellNames, CellsHold, Between2, SourceHolds, SourceFixed, I.Zeros;
    var z := a.c.loc(x);
    OnwardThen(a1, a2, a3);
    OnwardThen(a, a1, a3);
    ExtendsBound(a.s, a3.s, z);
    ReadyDropped(a3, x);
    BoundHasValue(a3.s, z);
    IntoDropped(a3, x);
    var e := StartCode(chain.cons, a.c, a2.n).e;
    ResultStored(Existing(z), e, acc, DropState(a3, x), w, fuel);
    a4 := DropState(a3, x).(s := L.Run([ResultStmt(e, Existing(z), a.c, a3.n)], a3.s, w.lf, fuel).store);
  }

  lemma BoundHasValue(s: L.Store, z: string)
    requires L.Bound(s, z)
    ensures L.Lookup(s, z).Some?
  {
  }

  /** Operands, starting value, loop. */
  lemma ChainRun(chain: IterChain, z: string, a: State, s3: L.Store, s4: L.Store, limits: seq<int>, w: World, fuel: nat)
    requires hide Inline, L.Run; |limits| == |chain.ads|
    requires var src := SourceCode(chain.source, a.c, a.n);
             var cells := CellsCode(chain.ads, a.c, src.next);
             var start := StartCode(chain.cons, a.c, cells.next);
             && L.Run(src.code + (cells.code + start.code), a.s, w.lf, fuel) == L.Normal(s3)
             && L.Run([ResultStmt(start.e, Existing(z), a.c, start.next)], s3, w.lf, fuel) == L.Normal(s4)
    ensures var src := SourceCode(chain.source, a.c, a.n);
            var cells := CellsCode(chain.ads, a.c, src.next);
            var m := StartCode(chain.cons, a.c, cells.next).next;
            L.Run(ChainCode(chain, Existing(z), a.c, a.n).code, a.s, w.lf, fuel)
            == L.Run([LoopStmt(src.sv, chain.cons, LoopVars(chain.ads, cells.cells, limits, z, a.c, m), a.c.tmp(m + 2), a.c, m + 2)], s4, w.lf, fuel)
  {
    hide L.Run, SourceCode, CellsCode, StartCode, LoopStmt, BodyCode;
    var src := SourceCode(chain.source, a.c, a.n);
    var cells := CellsCode(chain.ads, a.c, src.next);
    var start := StartCode(chain.cons, a.c, cells.next);
    var m := start.next;
    var last := ResultStmt(start.e, Existing(z), a.c, m);
    var loop := LoopStmt(src.sv, chain.cons, LoopVars(chain.ads, cells.cells, [], z, a.c, m), a.c.tmp(m + 2), a.c, m + 2);
    LoopVarsOnly(src.sv, chain.cons, chain.ads, cells.cells, limits, z, a.c, m);
    ChainSplit(src.code, cells.code, start.code, last, loop);
    RunAppend(src.code + (cells.code + start.code), [last] + [loop], a.s, w.lf, fuel);
    RunAppend([last], [loop], s3, w.lf, fuel);
  }

  lemma ChainSplit(x: Code, y: Code, z: Code, last: L.Stmt, loop: L.Stmt)
    ensures x + (y + (z + ([last] + [loop]))) == x + (y + z) + ([last] + [loop])
  {
  }

  lemma DroppedDelivers(chain: IterChain, x: string, a: State, o: L.Outcome, v: R.Val, env: R.Env)
    requires Ready(a) && x in a.q.live && x in a.q.may
    requires Delivered(DropState(a, x), ChainCode(chain, Existing(a.c.loc(x)), a.c, a.n), o, v, env)
    ensures SameNames(a.env, env) && Sim(R.Done(v, env), o, a.c, Var(a.c.loc(x)), false)
  {
    hide Ready, ChainCode, Fixed, E.Enc, E.Expressible, L.Lookup, Holds, NamesApart;
    var z := a.c.loc(x);
    ChainName(chain, Existing(z), a.c, a.n);
    ReadyIsLive(DropState(a, x).(n := ChainCode(chain, Existing(z), a.c, a.n).next, env := env, s := o.store));
    NotSubstituted(a, x);
    forall y | R.Get(env, y).Some? && y in a.c.mentioned && a.c.Res(y) != z ensures Holds(a.c, env, o.store, y) {
      assert Holds(DropC(a.c, x), env, o.store, y);
      SameHolds(a.c, x, env, o.store, y);
    }
  }

  lemma SameHolds(c: Ctx, x: string, env: R.Env, s: L.Store, y: string)
    ensures Holds(DropC(c, x), env, s, y) <==> Holds(c, env, s, y)
  {
    hide E.Enc, E.Expressible, L.Lookup;
  }

  /** The whole assignment `x = chain`, wherever it stands. */
  lemma ChainAssign(chain: IterChain, x: string, a: State, v: R.Val, env: R.Env, d: Dest, w: World, fuel: nat)
    requires Ready(a) && DestReady(a, d) && Compiled(w) && ChainFits(chain, a.q) && Countable(chain, a.env, w, fuel)
    requires x in a.q.live && x in a.q.may && x in a.q.mentioned && !ReadInLoop(x, chain)
    requires EvalChain(chain, a.env, w, fuel) == Some((v, env))
    ensures a.c.Res(x) == a.c.loc(x) && R.Get(env, x).Some?
    ensures Sim(R.Done(R.UnitVal, R.Set(env, x, v)),
                L.Run(ChainCode(chain, Existing(a.c.Res(x)), a.c, a.n).code + AssignResult(d), a.s, w.lf, fuel), a.c, d, false)
  {
    hide Ready, DestReady, Compiled, ChainFits, Countable, EvalChain, ChainCode, ReadInLoop, Sim, L.Run, L.Bound, SameNames;
    NotSubstituted(a, x);
    MentionedSame(a);
    ReadyIsLive(a);
    VariableHolds(a, x);
    ChainToVariable(chain, x, a, v, env, w, fuel);
    StillInScope(a.env, env, a.q.may, x);
    AssignStep(a, x, ChainCode(chain, Existing(a.c.loc(x)), a.c, a.n).code, R.Done(v, env), d, false, w, fuel);
  }

  lemma StillInScope(env: R.Env, after: R.Env, may: set<string>, x: string)
    requires MayBound(env, may) && SameNames(env, after) && x in may
    ensures R.Get(after, x).Some?
  {
    SameNamesGet(env, after, x);
  }
}
