/** The fused loop as a whole: its rounds, its source, and what it leaves in the result variable. */
module FusedRounds {
  import opened Wrappers
  import opened LuaIr
  import opened Lowering
  import opened LoweringScope
  import opened LoweringMarks
  import opened LoweringState
  import opened LoweringPatterns
  import opened LoweringSteps
  import opened LoweringControl
  import opened LoweringBlocks
  import opened LoweringMatch
  import opened LoweringProof
  import opened FusedLoop
  import opened LuaFrame
  import opened RuaFrame
  import I = IterChains
  import R = RuaLang
  import L = LuaRun
  import P = PatternTests
  import E = Encoding

  // ---- after the body ----

  lemma {:induction false} PostCorrect(ads: seq<Adapter>, cells: seq<Cell>, limits: seq<int>, counts: seq<int>, s: L.Store, env: R.Env, w: World, fuel: nat)
    requires hide *; |cells| == |ads| && |limits| == |ads| && |counts| == |ads| && CellsHold(s, ads, cells, limits, counts)
    ensures L.Run(PostCode(ads, cells), s, w.lf, fuel) ==
            if I.Exhausted(StagesOf(ads, limits, env, w, fuel), counts) then L.Broke(s) else L.Normal(s)
    decreases |ads|
  {
    hide L.Run, L.Lookup, StageOf;
    if ads == [] {
      RunNothing(s, w.lf, fuel);
    } else {
      var first := if ads[0].Take? then [TakeTest(cells[0])] else [];
      PostCorrect(ads[1..], cells[1..], limits[1..], counts[1..], s, env, w, fuel);
      RunAppend(first, PostCode(ads[1..], cells[1..]), s, w.lf, fuel);
      StageIsTake(ads[0], limits[0], env, w, fuel);
      if ads[0].Take? {
        TakeTestRun(cells[0], counts[0], limits[0], s, w, fuel);
      } else {
        RunNothing(s, w.lf, fuel);
      }
    }
  }

  lemma StageIsTake(ad: Adapter, limit: int, env: R.Env, w: World, fuel: nat)
    ensures hide *; var st := StageOf(ad, limit, env, w, fuel); st.Take? == ad.Take? && (st.Take? ==> st.limit == limit)
  {
    hide R.Eval;
  }

  // ---- the source of items ----

  /** The loop variable itself, or the element of a vector at it. */
  datatype Items = FromRange | FromVec(holder: string)
  {
    function Expr(index: string): Expr {
      match this
      case FromRange => Name(index)
      case FromVec(holder) => Index(Name(holder), Name(index))
    }

    /** With the loop variable at idx[j], the expression is items[j]. */
    ghost predicate Supply(s: L.Store, idx: seq<int>, items: seq<R.Val>) {
      && |idx| == |items|
      && (FromRange? ==> forall j :: 0 <= j < |idx| ==> items[j] == R.IntVal(idx[j]))
      && (FromVec? ==> exists all :: InVec(s, all, idx, items))
    }

    ghost predicate InVec(s: L.Store, all: seq<R.Val>, idx: seq<int>, items: seq<R.Val>)
      requires FromVec? && |idx| == |items|
    {
      && L.Lookup(s, holder) == Some(E.Enc(R.VecVal(all))) && E.Expressible(R.VecVal(all))
      && forall j :: 0 <= j < |idx| ==> 1 <= idx[j] <= |all| && items[j] == all[idx[j] - 1]
    }

    function Holder(): set<string> {
      if FromVec? then {holder} else {}
    }
  }

  lemma SupplyFirst(src: Items, s: L.Store, idx: seq<int>, items: seq<R.Val>, index: string, f: L.Functions)
    requires src.Supply(s, idx, items) && items != [] && index !in src.Holder()
    ensures L.Eval(src.Expr(index), s + [L.Binding(index, L.IntV(idx[0]))], f) == Some(E.Enc(items[0])) && E.Expressible(items[0])
  {
    hide L.Lookup, L.EvalAll, L.EvalBinary, E.EncFields, R.FieldOf, E.EncAll, L.EvalFields;
    var b := L.Binding(index, L.IntV(idx[0]));
    var t := s + [b];
    LookupAppend(s, b, index);
    NameEval(index, t, f);
    if src.FromVec? {
      var all :| src.InVec(s, all, idx, items);
      LookupAppend(s, b, src.holder);
      NameEval(src.holder, t, f);
    }
  }

  lemma SupplyRest(src: Items, s: L.Store, t: L.Store, idx: seq<int>, items: seq<R.Val>)
    requires hide L.Lookup, E.Enc, E.Expressible;
             src.Supply(s, idx, items) && items != [] && forall z :: z in src.Holder() ==> L.Lookup(t, z) == L.Lookup(s, z)
    ensures src.Supply(t, idx[1..], items[1..])
  {
    hide L.Lookup, E.Enc, E.Expressible;
    if src.FromVec? {
      var all :| src.InVec(s, all, idx, items);
      assert src.InVec(t, all, idx[1..], items[1..]);
    }
  }

  // ---- one round ----

  /** The place before the loop and between its rounds. */
  ghost predicate Between(a: State, vars: Vars, index: string, src: Items, counts: seq<int>, acc: R.Val) {
    && vars.Valid() && |counts| == |vars.ads|
    && Ready(a) && (forall z :: z in vars.Names() + {index} ==> Free(a, z))
    && index !in vars.Names()
    && (forall z :: z in src.Holder() ==> Fixed(a.c, a.q, a.n, z) && z !in vars.Names() && z != index)
    && CellsHold(a.s, vars.ads, vars.cells, vars.limits, counts)
    && L.Lookup(a.s, vars.res) == Some(E.Enc(acc)) && E.Expressible(acc)
  }

  ghost function RoundCode(cons: Consumer, vars: Vars, index: string, src: Items, c: Ctx, n: nat): Code
    requires hide *; |vars.cells| == |vars.ads|
  {
    hide *;
    [L.Local(vars.item, Some(src.Expr(index)))] + (BodyCode(vars.ads, vars.cells, cons, vars.item, vars.res, c, n).code + PostCode(vars.ads, vars.cells))
  }

  /** Declaring a variable of the loop. */
  lemma DeclareFree(a: State, z: string, v: L.Value)
    requires Ready(a) && Free(a, z)
    ensures var b := a.(s := a.s + [L.Binding(z, v)]);
            && Ready(b) && Extends(a.s, b.s) && L.Lookup(b.s, z) == Some(v)
            && forall y :: y != z ==> L.Lookup(b.s, y) == L.Lookup(a.s, y)
  {
    hide Ready, L.Lookup, E.Enc, E.Expressible, Fixed;
    var s1 := a.s + [L.Binding(z, v)];
    forall y ensures L.Lookup(s1, y) == if y == z then Some(v) else L.Lookup(a.s, y) {
      LookupAppend(a.s, L.Binding(z, v), y);
    }
    ReadyIsLive(a);
    forall x | R.Get(a.env, x).Some? && x in a.c.mentioned ensures Holds(a.c, a.env, s1, x) {
      assert Holds(a.c, a.env, a.s, x);
    }
    assert SameNames(a.env, a.env) && Extends(a.s, s1);
    ReadyNext(a, a.n, a.env, s1);
  }

  /** What a round of the list program says about a round of the loop. */
  ghost predicate RoundEnds(a: State, vars: Vars, index: string, o: L.Outcome, r: I.Round) {
    && Finished(o) && (r.stop <==> o.Broke?) && |o.store| == |a.s|
    && vars.Valid() && Moved(a, a.(s := o.store), vars.Names() + {index})
    && L.Lookup(o.store, vars.res) == Some(E.Enc(r.acc)) && E.Expressible(r.acc)
    && (!r.stop ==> |r.counts| == |vars.ads| && CellsHold(o.store, vars.ads, vars.cells, vars.limits, r.counts))
  }

  /** From the end of the body to the end of the round, where the loop's own locals are dropped. */
  lemma RoundLeaves(a: State, b: State, vars: Vars, index: string, counts: seq<int>, acc: R.Val, broke: bool, code: Code, w: World, fuel: nat)
    requires hide L.Lookup, L.Run, E.Enc, E.Expressible, SomeMarks, Ready;
             vars.Valid() && Ready(a) && (forall z :: z in vars.Names() + {index} ==> Free(a, z)) && index !in vars.Names()
    requires b == a.(s := b.s) && |b.s| == |a.s| + 2 && b.s[..|a.s|] == a.s && b.s[|a.s|].name == index && b.s[|a.s| + 1].name == vars.item
    requires DeclaresNew(code, a.c, a.q, a.n)
    requires Ends(b, vars, L.Run(code, b.s, w.lf, fuel), counts, acc, broke)
    requires forall z :: z != index && z != vars.item ==> L.Lookup(b.s, z) == L.Lookup(a.s, z)
    ensures var l := L.Leave(L.Run(code, b.s, w.lf, fuel), |a.s|); RoundEnds(a, vars, index, l, I.Round(counts, acc, broke))
  {
    hide Ready, L.Run, L.Lookup, Fixed, Old, DeclaresNew, E.Enc, E.Expressible, SomeMarks, Marks, CellsHold, CellsApart, CellNames;
    var o := L.Run(code, b.s, w.lf, fuel);
    RunExtends(code, b.s, w.lf, fuel);
    var s1 := o.store[..|a.s|];
    forall z | Old(a.c, a.q, a.n, z) && z != index && z != vars.item
      ensures L.Lookup(s1, z) == L.Lookup(o.store, z)
    {
      NotDeclared(code, a.c, a.q, a.n, z);
      RunKeeps(code, b.s, w.lf, fuel, z);
      forall i | |a.s| <= i < |o.store| ensures o.store[i].name != z {
        assert i < |b.s| ==> o.store[i].name == b.s[i].name;
      }
      LookupPrefix(o.store, |a.s|, z);
    }
    RoundAgrees(a, b, vars, index, o.store, s1);
    forall i | 0 <= i < |a.s| ensures s1[i].name == a.s[i].name {
      assert o.store[i].name == b.s[i].name && b.s[..|a.s|][i] == a.s[i];
    }
    assert Extends(a.s, s1);
    assert SameNames(a.env, a.env);
    ReadyNext(a, a.n, a.env, s1);
    forall z | Fixed(a.c, a.q, a.n, z) && z !in vars.Names() + {index} ensures L.Lookup(s1, z) == L.Lookup(a.s, z) {
      FixedIsOld(a.c, a.q, a.n, z);
    }
    forall z | z in vars.Names() && z != vars.item ensures L.Lookup(s1, z) == L.Lookup(o.store, z) {
      FreeIsOld(a, z);
    }
    if !broke {
      CellsKept(o.store, s1, vars.ads, vars.cells, vars.limits, counts);
    }
    assert vars.res in vars.Names();
  }

  lemma NotDeclared(code: Code, c: Ctx, q: Scope, n: nat, z: string)
    requires DeclaresNew(code, c, q, n) && Old(c, q, n, z)
    ensures !SomeMarks(code, z, Declared)
  {
    hide Old, SomeMarks;
  }

  lemma FreeIsOld(a: State, z: string)
    requires Free(a, z)
    ensures Old(a.c, a.q, a.n, z)
  {
    FixedIsOld(a.c, a.q, a.n, z);
  }

  lemma RoundAgrees(a: State, b: State, vars: Vars, index: string, s: L.Store, s1: L.Store)
    requires hide L.Lookup, Agree, Ready;
             Ready(a) && Ready(b.(s := s)) && b == a.(s := b.s) && vars.Valid() && forall z :: z in vars.Names() + {index} ==> Free(a, z)
    requires forall z :: Old(a.c, a.q, a.n, z) && z != index && z != vars.item ==> L.Lookup(s1, z) == L.Lookup(s, z)
    ensures Agree(a.c, a.env, s1, None)
  {
    hide Ready, L.Lookup, Fixed, Old, E.Enc, E.Expressible, CellsApart, CellNames;
    ReadyIsLive(b.(s := s));
    ReadyIsLive(a);
    forall x | R.Get(a.env, x).Some? && x in a.c.mentioned ensures Holds(a.c, a.env, s1, x) {
      assert Holds(a.c, a.env, s, x);
      assert SameNames(a.env, a.env);
      LiveName(a.env, a.env, a.q.live, x);
      ResOld(a, x);
      assert Free(a, index) && Free(a, vars.item);
    }
  }

  lemma {:induction false} PostDeclares(ads: seq<Adapter>, cells: seq<Cell>, c: Ctx, q: Scope, n: nat)
    requires hide *; |cells| == |ads|
    ensures DeclaresNew(PostCode(ads, cells), c, q, n)
    decreases |ads|
  {
    hide DeclaresNew;
    AssignNothing("", Nil, c, q, n);
    if ads != [] {
      var first := if ads[0].Take? then [TakeTest(cells[0])] else [];
      PostDeclares(ads[1..], cells[1..], c, q, n);
      if ads[0].Take? {
        WhenDeclares(Binary(Name(cells[0].counter), Ge, Name(cells[0].limit)), [L.Break], c, q, n);
      }
      DeclaresConcat(first, PostCode(ads[1..], cells[1..]), c, q, n);
    }
  }

  /** Body and final tests together. */
  lemma PostEnds(b: State, vars: Vars, body: Code, counts: seq<int>, acc: R.Val, broke: bool, env: R.Env, w: World, fuel: nat)
    requires hide R.Eval, L.Lookup, L.Run, E.Enc, E.Expressible, Ready;
             vars.Valid() && Ends(b, vars, L.Run(body, b.s, w.lf, fuel), counts, acc, broke)
    requires !broke ==> |counts| == |vars.ads|
    ensures var stop := broke || I.Exhausted(StagesOf(vars.ads, vars.limits, env, w, fuel), counts);
            Ends(b, vars, L.Run(body + PostCode(vars.ads, vars.cells), b.s, w.lf, fuel), counts, acc, stop)
  {
    hide L.Run, L.Lookup, E.Enc, E.Expressible, Moved, CellsHold, CellsApart, CellNames, I.Exhausted, StagesOf, PostCode;
    RunAppend(body, PostCode(vars.ads, vars.cells), b.s, w.lf, fuel);
    if !broke {
      PostCorrect(vars.ads, vars.cells, vars.limits, counts, L.Run(body, b.s, w.lf, fuel).store, env, w, fuel);
    }
  }

  /** One round of the loop does what one round of the list program does. */
  lemma RoundCorrect(cons: Consumer, init: R.Val, vars: Vars, index: string, src: Items, a: State, i: int, v: R.Val, counts: seq<int>, acc: R.Val, w: World, fuel: nat)
    requires hide Inline, Fits, R.Eval, L.Eval, L.Lookup, L.Run, E.Enc, E.Expressible, Compiled, Ready;
             Between(a, vars, index, src, counts, acc) && Compiled(w) && AllFit(vars.ads, a.q) && ConsumerFits(cons, a.q)
    requires InRange(counts, 1) && Small(SinkOf(cons, init, a.env, w, fuel), acc, 1)
    requires L.Eval(src.Expr(index), a.s + [L.Binding(index, L.IntV(i))], w.lf) == Some(E.Enc(v)) && E.Expressible(v)
    ensures var r := I.OneRound(StagesOf(vars.ads, vars.limits, a.env, w, fuel), counts, SinkOf(cons, init, a.env, w, fuel), acc, v);
            var code := RoundCode(cons, vars, index, src, a.c, a.n);
            var l := L.Leave(L.Run(code, a.s + [L.Binding(index, L.IntV(i))], w.lf, fuel), |a.s|);
            r.Some? ==> RoundEnds(a, vars, index, l, r.value)
  {
    hide Ready, Compiled, ConsumerFits, AllFit, L.Run, L.Eval, L.Lookup, Fixed, BodyCode, PostCode, E.Enc, E.Expressible, BodyEnds,
      CellsHold, CellsApart, CellNames, I.Push, StagesOf, SinkOf, Small, InRange, DeclaresNew, RoundEnds, I.OneRound, Free;
    var s1 := a.s + [L.Binding(index, L.IntV(i))];
    var s2 := s1 + [L.Binding(vars.item, E.Enc(v))];
    var b := a.(s := s2);
    var body := BodyCode(vars.ads, vars.cells, cons, vars.item, vars.res, a.c, a.n).code;
    var post := PostCode(vars.ads, vars.cells);
    var stages := StagesOf(vars.ads, vars.limits, a.env, w, fuel);
    var sink := SinkOf(cons, init, a.env, w, fuel);
    RunAppend([L.Local(vars.item, Some(src.Expr(index)))], body + post, s1, w.lf, fuel);
    LocalRun(vars.item, Some(src.Expr(index)), s1, w.lf, fuel);
    RoundStarts(vars, index, src, a, i, v, counts, acc);
    BodyCorrect(cons, init, vars, b, counts, v, acc, w, fuel);
    RoundDeclares(cons, vars, a);
    var p := I.Push(stages, counts, v);
    BodyToRound(a, b, vars, index, body, counts, v, acc, stages, sink, p, w, fuel);
  }

  lemma RoundDeclares(cons: Consumer, vars: Vars, a: State)
    requires hide Inline, Fits, SomeMarks, Ready; Ready(a) && vars.Valid() && AllFit(vars.ads, a.q) && ConsumerFits(cons, a.q)
    ensures DeclaresNew(BodyCode(vars.ads, vars.cells, cons, vars.item, vars.res, a.c, a.n).code + PostCode(vars.ads, vars.cells), a.c, a.q, a.n)
  {
    hide Ready, AllFit, ConsumerFits, BodyCode, PostCode, DeclaresNew, NamesApart, SubClear, CellsApart, CellNames;
    ReadyIsLive(a);
    BodyDeclares(vars.ads, vars.cells, cons, vars.item, vars.res, a.c, a.q, a.n, a.n);
    PostDeclares(vars.ads, vars.cells, a.c, a.q, a.n);
    DeclaresConcat(BodyCode(vars.ads, vars.cells, cons, vars.item, vars.res, a.c, a.n).code, PostCode(vars.ads, vars.cells), a.c, a.q, a.n);
  }

  /** With the loop variable and the item declared, the body can start. */
  lemma RoundStarts(vars: Vars, index: string, src: Items, a: State, i: int, v: R.Val, counts: seq<int>, acc: R.Val)
    requires hide *; Between(a, vars, index, src, counts, acc) && E.Expressible(v)
    ensures var s1 := a.s + [L.Binding(index, L.IntV(i))];
            var s2 := s1 + [L.Binding(vars.item, E.Enc(v))];
            && vars.At(a.(s := s2), counts, v, acc)
            && |s2| == |a.s| + 2 && s2[..|a.s|] == a.s && s2[|a.s|].name == index && s2[|a.s| + 1].name == vars.item
            && forall z :: z != index && z != vars.item ==> L.Lookup(s2, z) == L.Lookup(a.s, z)
  {
    hide Ready, L.Lookup, Fixed, E.Enc, E.Expressible, CellsHold, CellsApart, CellNames;
    var a1 := a.(s := a.s + [L.Binding(index, L.IntV(i))]);
    DeclareFree(a, index, L.IntV(i));
    FreeLater(a, a1, vars.item);
    DeclareFree(a1, vars.item, E.Enc(v));
    var b := a1.(s := a1.s + [L.Binding(vars.item, E.Enc(v))]);
    forall z | z in vars.Names() ensures Free(b, z) {
      FreeLater(a, b, z);
    }
    CellsKept(a.s, b.s, vars.ads, vars.cells, vars.limits, counts);
  }

  lemma BodyToRound(a: State, b: State, vars: Vars, index: string, body: Code, counts: seq<int>, v: R.Val, acc: R.Val,
                    stages: seq<I.Stage>, sink: I.Sink, p: I.Pushed, w: World, fuel: nat)
    requires hide R.Eval, L.Lookup, L.Run, E.Enc, E.Expressible, SomeMarks, Ready;
             vars.Valid() && Ready(a) && (forall z :: z in vars.Names() + {index} ==> Free(a, z)) && index !in vars.Names()
    requires b == a.(s := b.s) && |b.s| == |a.s| + 2 && b.s[..|a.s|] == a.s && b.s[|a.s|].name == index && b.s[|a.s| + 1].name == vars.item
    requires DeclaresNew(body + PostCode(vars.ads, vars.cells), a.c, a.q, a.n)
    requires forall z :: z != index && z != vars.item ==> L.Lookup(b.s, z) == L.Lookup(a.s, z)
    requires stages == StagesOf(vars.ads, vars.limits, a.env, w, fuel) && |counts| == |stages| && p == I.Push(stages, counts, v)
    requires BodyEnds(b, vars, L.Run(body, b.s, w.lf, fuel), p, sink, acc)
    ensures var r := I.OneRound(stages, counts, sink, acc, v);
            var l := L.Leave(L.Run(body + PostCode(vars.ads, vars.cells), b.s, w.lf, fuel), |a.s|);
            r.Some? ==> RoundEnds(a, vars, index, l, r.value)
  {
    hide Ready, L.Run, L.Lookup, PostCode, E.Enc, E.Expressible, Ends, CellsApart, CellNames, I.Push, StagesOf, DeclaresNew, RoundEnds, Free,
      I.Sinks, I.Exhausted;
    var code := body + PostCode(vars.ads, vars.cells);
    match p {
      case Undefined =>
      case Stopped =>
        EndsAnyCounts(b, vars, L.Run(body, b.s, w.lf, fuel), [], counts, acc);
        PostEnds(b, vars, body, counts, acc, true, a.env, w, fuel);
        RoundLeaves(a, b, vars, index, counts, acc, true, code, w, fuel);
      case Dropped(next) =>
        EndsLength(b, vars, L.Run(body, b.s, w.lf, fuel), next, acc);
        PostEnds(b, vars, body, next, acc, false, a.env, w, fuel);
        RoundLeaves(a, b, vars, index, next, acc, I.Exhausted(stages, next), code, w, fuel);
      case Passed(x, next) =>
        var t := I.Sinks(sink, acc, x);
        if t.Some? && |next| == |stages| {
          PostEnds(b, vars, body, next, t.value.acc, t.value.stop, a.env, w, fuel);
          RoundLeaves(a, b, vars, index, next, t.value.acc, t.value.stop || I.Exhausted(stages, next), code, w, fuel);
        }
    }
  }

  lemma EndsAnyCounts(b: State, vars: Vars, o: L.Outcome, counts: seq<int>, others: seq<int>, acc: R.Val)
    requires Ends(b, vars, o, counts, acc, true)
    ensures Ends(b, vars, o, others, acc, true)
  {
    hide Moved, L.Lookup, E.Enc, E.Expressible;
  }

  lemma EndsLength(b: State, vars: Vars, o: L.Outcome, counts: seq<int>, acc: R.Val)
    requires Ends(b, vars, o, counts, acc, false)
    ensures |counts| == |vars.ads|
  {
    hide Moved, L.Lookup, E.Enc, E.Expressible;
  }

  // ---- all rounds ----

  lemma {:induction false} PushCounts(stages: seq<I.Stage>, counts: seq<int>, v: R.Val, k: nat)
    requires |counts| == |stages| && InRange(counts, k + 1)
    ensures match I.Push(stages, counts, v)
            case Passed(_, next) => |next| == |stages| && InRange(next, k)
            case Dropped(next) => |next| == |stages| && InRange(next, k)
            case _ => true
    decreases |stages|
  {
    if stages != [] {
      forall u ensures match I.Push(stages[1..], counts[1..], u)
            case Passed(_, next) => |next| == |stages| - 1 && InRange(next, k)
            case Dropped(next) => |next| == |stages| - 1 && InRange(next, k)
            case _ => true
      {
        PushCounts(stages[1..], counts[1..], u, k);
      }
    }
  }

  lemma RoundShrinks(stages: seq<I.Stage>, counts: seq<int>, sink: I.Sink, acc: R.Val, v: R.Val, k: nat)
    requires |counts| == |stages| && InRange(counts, k + 1) && Small(sink, acc, k + 1)
    ensures var r := I.OneRound(stages, counts, sink, acc, v);
            r.Some? && !r.value.stop ==> |r.value.counts| == |stages| && InRange(r.value.counts, k) && Small(sink, r.value.acc, k)
  {
    hide I.Push, I.Exhausted, InRange;
    PushCounts(stages, counts, v, k);
  }

  lemma InRangeFewer(counts: seq<int>, sink: I.Sink, acc: R.Val, k: nat, m: nat)
    requires InRange(counts, k) && Small(sink, acc, k) && m <= k
    ensures InRange(counts, m) && Small(sink, acc, m)
  {
  }

  /** The loop leaves the list program's result in the result variable. */
  ghost predicate LoopLeaves(a: State, vars: Vars, index: string, o: L.Outcome, x: R.Val) {
    && o.Normal? && vars.Valid() && |o.store| == |a.s|
    && Moved(a, a.(s := o.store), vars.Names() + {index})
    && L.Lookup(o.store, vars.res) == Some(E.Enc(x)) && E.Expressible(x)
  }

  lemma {:induction false} LoopRunsRounds(cons: Consumer, init: R.Val, vars: Vars, index: string, src: Items, a: State, idx: seq<int>, items: seq<R.Val>, counts: seq<int>, acc: R.Val, w: World, fuel: nat)
    requires hide Inline, Fits, R.Eval, L.Lookup, L.RunFor, E.Enc, E.Expressible, Compiled, Ready;
             Between(a, vars, index, src, counts, acc) && src.Supply(a.s, idx, items)
    requires Compiled(w) && AllFit(vars.ads, a.q) && ConsumerFits(cons, a.q)
    requires InRange(counts, |items|) && Small(SinkOf(cons, init, a.env, w, fuel), acc, |items|)
    ensures var x := I.Rounds(StagesOf(vars.ads, vars.limits, a.env, w, fuel), counts, SinkOf(cons, init, a.env, w, fuel), acc, items);
            x.Some? ==> LoopLeaves(a, vars, index, L.RunFor(index, idx, RoundCode(cons, vars, index, src, a.c, a.n), a.s, w.lf, fuel), x.value)
    decreases |items|
  {
    hide Ready, Compiled, ConsumerFits, AllFit, L.Run, L.Eval, L.Lookup, Free, Fixed, RoundCode, E.Enc, E.Expressible, CellsHold,
      CellsApart, CellNames, I.OneRound, StagesOf, SinkOf, Small, InRange, Moved;
    var stages := StagesOf(vars.ads, vars.limits, a.env, w, fuel);
    var sink := SinkOf(cons, init, a.env, w, fuel);
    var code := RoundCode(cons, vars, index, src, a.c, a.n);
    if items == [] {
      NoRounds(a, vars, index, acc);
    } else {
      var v := items[0];
      var r := I.OneRound(stages, counts, sink, acc, v);
      SupplyFirst(src, a.s, idx, items, index, w.lf);
      InRangeFewer(counts, sink, acc, |items|, 1);
      RoundCorrect(cons, init, vars, index, src, a, idx[0], v, counts, acc, w, fuel);
      RoundShrinks(stages, counts, sink, acc, v, |items| - 1);
      if r.Some? {
        var l := L.Leave(L.Run(code, a.s + [L.Binding(index, L.IntV(idx[0]))], w.lf, fuel), |a.s|);
        if !r.value.stop {
          var b := a.(s := l.store);
          BetweenAgain(a, b, vars, index, src, counts, acc, r.value, l, idx, items);
          LoopRunsRounds(cons, init, vars, index, src, b, idx[1..], items[1..], r.value.counts, r.value.acc, w, fuel);
          var x := I.Rounds(stages, r.value.counts, sink, r.value.acc, items[1..]);
          if x.Some? {
            LoopGoesOn(a, b, vars, index, L.RunFor(index, idx[1..], code, l.store, w.lf, fuel), x.value);
          }
        }
      }
    }
  }

  lemma NoRounds(a: State, vars: Vars, index: string, acc: R.Val)
    requires Ready(a) && vars.Valid() && L.Lookup(a.s, vars.res) == Some(E.Enc(acc)) && E.Expressible(acc)
    ensures LoopLeaves(a, vars, index, L.Normal(a.s), acc)
  {
    hide Ready, L.Lookup, E.Enc, E.Expressible, Fixed;
  }

  lemma BetweenAgain(a: State, b: State, vars: Vars, index: string, src: Items, counts: seq<int>, acc: R.Val, r: I.Round, l: L.Outcome, idx: seq<int>, items: seq<R.Val>)
    requires hide L.Lookup, E.Enc, E.Expressible, Ready;
             Between(a, vars, index, src, counts, acc) && RoundEnds(a, vars, index, l, r) && !r.stop && b == a.(s := l.store)
    requires src.Supply(a.s, idx, items) && items != []
    ensures Between(b, vars, index, src, r.counts, r.acc) && src.Supply(b.s, idx[1..], items[1..])
  {
    hide Ready, L.Lookup, Fixed, E.Enc, E.Expressible, CellsHold;
    forall z | z in vars.Names() + {index} ensures Free(b, z) {
      FreeLater(a, b, z);
    }
    SupplyRest(src, a.s, b.s, idx, items);
  }

  lemma LoopGoesOn(a: State, b: State, vars: Vars, index: string, o: L.Outcome, x: R.Val)
    requires hide L.Lookup, E.Enc, E.Expressible, Ready;
             Ready(a) && b == a.(s := b.s) && |b.s| == |a.s| && vars.Valid() && Moved(a, b, vars.Names() + {index}) && LoopLeaves(b, vars, index, o, x)
    ensures LoopLeaves(a, vars, index, o, x)
  {
    hide Ready, L.Lookup, E.Enc, E.Expressible, Fixed;
    MovedThen(a, b, b.(s := o.store), vars.Names() + {index}, vars.Names() + {index}, vars.Names() + {index});
  }
}
