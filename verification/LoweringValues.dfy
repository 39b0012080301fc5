/** Lowered operators, constructors and operands compute the represented values. */
module LoweringValues {
  import opened Wrappers
  import opened LuaIr
  import opened Lowering
  import opened LoweringScope
  import opened LoweringMarks
  import opened LoweringState
  import opened LuaFrame
  import R = RuaLang
  import L = LuaRun
  import P = PatternTests
  import E = Encoding

  // ---- operators ----

  lemma UnaryEnc(op: R.UnOp, v: R.Val)
    ensures var r := R.ApplyUnary(op, v);
            r.Some? ==> E.Expressible(r.value) && L.EvalUnary(if op == R.Neg then Neg else Not, E.Enc(v)) == Some(E.Enc(r.value))
  {
  }

  lemma BinaryEnc(op: R.BinOp, a: R.Val, b: R.Val)
    ensures hide *; var r := R.ApplyBinary(op, a, b);
            r.Some? ==>
              && E.Expressible(r.value) && !op.And? && !op.Or? && !op.Coalesce?
              && L.EvalBinary(if op == R.Concat then Concat else LuaOp(op), E.Enc(a), E.Enc(b)) == Some(E.Enc(r.value))
  {
  }

  lemma UnaryEval(op: R.UnOp, e: Expr, v: R.Val, s: L.Store, f: L.Functions)
    requires hide *; L.Eval(e, s, f) == Some(E.Enc(v))
    ensures var r := R.ApplyUnary(op, v);
            r.Some? ==> E.Expressible(r.value) && L.Eval(UnaryExpr(op, e), s, f) == Some(E.Enc(r.value))
  {
    hide E.Enc, R.ApplyUnary, L.EvalUnary;
    UnaryEnc(op, v);
  }

  lemma StrictEval(op: R.BinOp, x: Expr, y: Expr, a: R.Val, b: R.Val, s: L.Store, f: L.Functions)
    requires hide *; L.Eval(x, s, f) == Some(E.Enc(a)) && L.Eval(y, s, f) == Some(E.Enc(b))
    ensures var r := R.ApplyBinary(op, a, b);
            r.Some? ==> E.Expressible(r.value) && L.Eval(BinaryExpr(op, x, y), s, f) == Some(E.Enc(r.value))
  {
    hide E.Enc, R.ApplyBinary, L.EvalBinary, E.Expressible, L.EvalFields, L.EvalAll, L.Lookup;
    BinaryEnc(op, a, b);
    if op == R.Concat {
      ParenEval(Binary(x, Concat, y), s, f);
    }
  }

  lemma ParenEval(e: Expr, s: L.Store, f: L.Functions)
    ensures L.Eval(Parenthesized(e), s, f) == L.Eval(e, s, f)
  {
  }

  /** `and` and `or` stop at the left operand exactly when `&&` and `||` do. */
  lemma ShortCircuit(op: R.BinOp, x: Expr, y: Expr, b: bool, s: L.Store, f: L.Functions)
    requires (op == R.And || op == R.Or) && L.Eval(x, s, f) == Some(L.BoolV(b))
    ensures L.Eval(BinaryExpr(op, x, y), s, f) == if b == (op == R.Or) then Some(L.BoolV(b)) else L.Eval(y, s, f)
  {
  }

  lemma LiteralEval(v: R.Val, s: L.Store, f: L.Functions)
    requires PlainLiteral(v)
    ensures E.Expressible(v) && L.Eval(P.LiteralExpr(v), s, f) == Some(E.Enc(v))
  {
  }

  // ---- constructors ----

  lemma {:induction false} EvalAllSnoc(es: seq<Expr>, s: L.Store, f: L.Functions)
    requires hide *; es != []
    ensures var init, last := L.EvalAll(es[..|es| - 1], s, f), L.Eval(es[|es| - 1], s, f);
            L.EvalAll(es, s, f) == if init.None? || last.None? then None else Some(init.value + [last.value])
  {
    var init := es[..|es| - 1];
    if |es| == 1 {
      var v := L.Eval(es[0], s, f);
      assert v.Some? ==> [v.value] + [] == [] + [v.value];
      EvalNone(s, f);
      assert init == [] && es[1..] == [];
    } else {
      EvalAllSnoc(es[1..], s, f);
      var v, vs, last := L.Eval(es[0], s, f), L.EvalAll(es[1..][..|es| - 2], s, f), L.Eval(es[|es| - 1], s, f);
      assert v.Some? && vs.Some? && last.Some? ==> [v.value] + (vs.value + [last.value]) == [v.value] + vs.value + [last.value];
      assert init[0] == es[0] && init[1..] == es[1..][..|es| - 2] && es[1..][|es| - 2] == es[|es| - 1];
    }
  }

  lemma {:induction false} TableEval(tag: string, es: seq<Expr>, s: L.Store, f: L.Functions)
    ensures hide *; var vs := L.EvalAll(es, s, f);
            vs.Some? ==> L.EvalFields([Named("tag", Str(tag))] + Positional(es), s, f) == Some(L.TableV(vs.value, map["tag" := L.StrV(tag)]))
  {
    hide L.Eval, L.EvalAll;
    var head := [Named("tag", Str(tag))];
    if es == [] {
      assert L.EvalAll(es, s, f) == Some([]) by { EvalNone(s, f); }
      assert head + [] == head;
      TagOnly(tag, s, f);
    } else {
      var init, last := es[..|es| - 1], es[|es| - 1];
      EvalAllSnoc(es, s, f);
      TableEval(tag, init, s, f);
      var fields := head + Positional(es);
      assert fields[..|fields| - 1] == head + Positional(init) && fields[|fields| - 1] == Value(last);
      if L.EvalAll(es, s, f).Some? {
        AddPositional(L.EvalFields(head + Positional(init), s, f).value, last, s, f);
      }
    }
  }

  lemma EvalNone(s: L.Store, f: L.Functions)
    ensures L.EvalAll([], s, f) == Some([])
  {
  }

  lemma TagOnly(tag: string, s: L.Store, f: L.Functions)
    ensures L.EvalFields([Named("tag", Str(tag))], s, f) == Some(L.TableV([], map["tag" := L.StrV(tag)]))
  {
    assert [Named("tag", Str(tag))][..0] == [];
    assert L.Eval(Str(tag), s, f) == Some(L.StrV(tag));
  }

  lemma AddPositional(t: L.Value, e: Expr, s: L.Store, f: L.Functions)
    requires hide *; t.TableV? && L.Eval(e, s, f).Some?
    ensures L.AddField(t, Value(e), s, f) == Some(t.(items := t.items + [L.Eval(e, s, f).value]))
  {
  }

  lemma VariantEval(tag: R.Tag, es: seq<Expr>, vs: seq<R.Val>, s: L.Store, f: L.Functions)
    requires hide *; L.EvalAll(es, s, f) == Some(E.EncAll(vs))
    requires forall i :: 0 <= i < |vs| ==> E.Expressible(vs[i])
    ensures E.Expressible(R.VariantVal(tag, vs))
    ensures L.Eval(Table([Named("tag", Str(tag.name))] + Positional(es)), s, f) == Some(E.Enc(R.VariantVal(tag, vs)))
  {
    TableEval(tag.name, es, s, f);
    hide L.EvalFields, L.EvalAll, E.EncAll;
  }

  lemma CallEval(g: string, es: seq<Expr>, vs: seq<R.Val>, w: World, s: L.Store)
    requires hide *; Compiled(w) && g != "error" && L.EvalAll(es, s, w.lf) == Some(E.EncAll(vs))
    requires forall i :: 0 <= i < |vs| ==> E.Expressible(vs[i])
    ensures var r := w.rf(g, vs);
            r.Some? ==> E.Expressible(r.value) && L.Eval(Call(Name(g), es), s, w.lf) == Some(E.Enc(r.value))
  {
    hide L.EvalAll, E.EncAll, E.Enc, E.Expressible;
  }

  lemma ResultEval(ok: bool, e: Expr, v: R.Val, w: World, s: L.Store)
    requires Compiled(w) && E.Expressible(v) && L.Eval(e, s, w.lf) == Some(E.Enc(v))
    ensures E.Expressible(R.ResultVal(ok, v))
    ensures L.Eval(Call(Name(if ok then "ok" else "err"), [e]), s, w.lf) == Some(E.Enc(R.ResultVal(ok, v)))
  {
    hide R.FieldOf;
    assert [e][1..] == [];
    assert L.EvalAll([e], s, w.lf) == Some([E.Enc(v)]) by {
      assert L.EvalAll([], s, w.lf) == Some([]);
      assert [E.Enc(v)] + [] == [E.Enc(v)];
    }
    hide L.EvalAll;
  }

  // ---- operands that wait ----

  /** A name an operand reads: one of its temporaries, or a source variable. */
  ghost predicate From(c: Ctx, n: nat, m: nat, names: set<string>, z: string) {
    || (exists i: nat :: n < i <= m && z == c.tmp(i))
    || (exists x :: x in names && z == c.Res(x))
  }

  lemma FromWiden(c: Ctx, n: nat, m: nat, names: set<string>, n1: nat, m1: nat, more: set<string>, z: string)
    requires From(c, n, m, names, z) && n1 <= n && m <= m1 && names <= more
    ensures From(c, n1, m1, more, z)
  {
  }

  lemma {:induction false} InlineReadsFrom(e: R.Expr, c: Ctx, n: nat, z: string)
    ensures var g := Inline(e, c, n); Reads(g.e, z) ==> From(c, n, g.next, InlineReads(e), z)
    decreases e, 1
  {
    hide GenControl, From;
    var g := Inline(e, c, n);
    match e {
      case Lit(v) =>
      case Path(x) => assert From(c, n, g.next, {x}, c.Res(x)) by { FromPath(c, n, g.next, x); }
      case Unary(_, operand) => InlineReadsFrom(operand, c, n, z);
      case SomeCall(payload) => InlineReadsFrom(payload, c, n, z);
      case ResultCall(ok, payload) =>
        InlineReadsFrom(payload, c, n, z);
        CallReads(if ok then "ok" else "err", [Inline(payload, c, n).e], z);
        assert [Inline(payload, c, n).e][1..] == [];
      case Binary(op, lhs, rhs) => BinaryReadsFrom(e, c, n, z);
      case Call(f, args) =>
        ArgsReadFrom(args, c, n, z);
        CallReads(f, InlineArgs(args, c, n).es, z);
      case VariantCall(tag, args) =>
        ArgsReadFrom(args, c, n, z);
        TableReads(tag.name, InlineArgs(args, c, n).es, z);
      case Try(_, _) => TryReadsFrom(e, c, n, z);
      case _ => FromTmp(c, n, g.next, n + 1);
    }
  }

  lemma FromTmp(c: Ctx, n: nat, m: nat, i: nat)
    requires n < i <= m
    ensures From(c, n, m, {}, c.tmp(i))
  {
  }

  lemma FromPath(c: Ctx, n: nat, m: nat, x: string)
    ensures From(c, n, m, {x}, c.Res(x))
  {
  }

  /** Some of the expressions reads the name. */
  ghost predicate AnyReads(es: seq<Expr>, z: string) {
    es != [] && (Reads(es[0], z) || AnyReads(es[1..], z))
  }

  lemma {:induction false} AnyReadsAt(es: seq<Expr>, i: nat, z: string)
    requires i < |es| && Reads(es[i], z)
    ensures AnyReads(es, z)
  {
    hide Reads;
    if i > 0 {
      AnyReadsAt(es[1..], i - 1, z);
    }
  }

  lemma CallReads(f: string, es: seq<Expr>, z: string)
    ensures Reads(Call(Name(f), es), z) ==> AnyReads(es, z)
  {
    if Reads(Call(Name(f), es), z) {
      var i :| 0 <= i < |es| && Reads(es[i], z);
      AnyReadsAt(es, i, z);
    }
  }

  lemma {:induction false} PositionalAt(es: seq<Expr>)
    ensures |Positional(es)| == |es| && forall i :: 0 <= i < |es| ==> Positional(es)[i] == Value(es[i])
  {
    if es != [] {
      PositionalAt(es[..|es| - 1]);
    }
  }

  lemma TableReads(tag: string, es: seq<Expr>, z: string)
    ensures Reads(Table([Named("tag", Str(tag))] + Positional(es)), z) ==> AnyReads(es, z)
  {
    var fields := [Named("tag", Str(tag))] + Positional(es);
    if Reads(Table(fields), z) {
      PositionalAt(es);
      var i :| 0 <= i < |fields| && FieldReads(fields[i], z);
      assert !Reads(Str(tag), z);
      if i > 0 {
        assert fields[i] == Value(es[i - 1]);
        AnyReadsAt(es, i - 1, z);
      }
    }
  }

  lemma TryReadsFrom(e: R.Expr, c: Ctx, n: nat, z: string)
    requires e.Try?
    ensures var g := Inline(e, c, n); Reads(g.e, z) ==> From(c, n, g.next, InlineReads(e), z)
  {
    hide From, InlineArgs, GenArms, EmitBindings, GenStmts, GenElse, GenTo, P.ElementTests, P.AndAll, P.FieldTests, GenReturnMatch, GenLoop;
    var i := Inline(e.inner, c, n).next + 1;
    FromTmp(c, n, i, i);
    assert InlineReads(e) == {};
    assert Reads(P.ResultPayload(Name(c.tmp(i))), z) <==> z == c.tmp(i) by {
      assert !Reads(Integer(2), z);
    }
  }

  lemma {:induction false} BinaryReadsFrom(e: R.Expr, c: Ctx, n: nat, z: string)
    requires e.Binary?
    ensures var g := Inline(e, c, n); Reads(g.e, z) ==> From(c, n, g.next, InlineReads(e), z)
    decreases e, 0
  {
    hide From, Inline;
    var a := Inline(e.lhs, c, n);
    InlineReadsFrom(e.lhs, c, n, z);
    if e.bop == R.Coalesce {
      InlineCoalesce(e, c, n);
      FromTmp(c, n, Inline(e, c, n).next, a.next + 1);
    } else {
      InlineStrict(e, c, n);
      var b := Inline(e.rhs, c, a.next);
      InlineReadsFrom(e.rhs, c, a.next, z);
      if From(c, n, a.next, InlineReads(e.lhs), z) {
        FromWiden(c, n, a.next, InlineReads(e.lhs), n, b.next, InlineReads(e), z);
      }
      if From(c, a.next, b.next, InlineReads(e.rhs), z) {
        FromWiden(c, a.next, b.next, InlineReads(e.rhs), n, b.next, InlineReads(e), z);
      }
      BinaryExprReads(e.bop, a.e, b.e, z);
    }
  }

  lemma BinaryExprReads(op: R.BinOp, x: Expr, y: Expr, z: string)
    ensures Reads(BinaryExpr(op, x, y), z) ==> Reads(x, z) || Reads(y, z)
  {
    assert Reads(Binary(x, Concat, y), z) <==> Reads(x, z) || Reads(y, z);
  }

  lemma {:induction false} ArgsReadFrom(args: seq<R.Expr>, c: Ctx, n: nat, z: string)
    ensures var g := InlineArgs(args, c, n); AnyReads(g.es, z) ==> From(c, n, g.next, AllInlineReads(args), z)
    decreases args, 1
  {
    hide From, Inline, Reads;
    if args != [] {
      var a := Inline(args[0], c, n);
      var b := InlineArgs(args[1..], c, a.next);
      var all := AllInlineReads(args);
      InlineReadsFrom(args[0], c, n, z);
      ArgsReadFrom(args[1..], c, a.next, z);
      if From(c, n, a.next, InlineReads(args[0]), z) {
        FromWiden(c, n, a.next, InlineReads(args[0]), n, b.next, all, z);
      }
      if From(c, a.next, b.next, AllInlineReads(args[1..]), z) {
        FromWiden(c, a.next, b.next, AllInlineReads(args[1..]), n, b.next, all, z);
      }
    }
  }

  lemma {:induction false} ReadsAreLive(e: R.Expr, q: Scope)
    requires Fits(e, q, false)
    ensures InlineReads(e) <= q.live
    decreases e
  {
    hide R.MatchPattern, R.MatchAny, R.RootFits, FitsElse, FitsArgs, FitsBlock, FitsArms;
    match e {
      case Unary(_, operand) => ReadsAreLive(operand, q);
      case Binary(op, lhs, rhs) =>
        ReadsAreLive(lhs, q);
        ReadsAreLive(rhs, if op == R.Coalesce then q else q.Without(InlineReads(lhs)));
      case Call(_, args) => ArgReadsAreLive(args, q);
      case SomeCall(payload) => ReadsAreLive(payload, q);
      case ResultCall(_, payload) => ReadsAreLive(payload, q);
      case VariantCall(_, args) => ArgReadsAreLive(args, q);
      case _ =>
    }
  }

  lemma {:induction false} ArgReadsAreLive(args: seq<R.Expr>, q: Scope)
    requires FitsArgs(args, q)
    ensures AllInlineReads(args) <= q.live
    decreases args
  {
    hide Fits, InlineReads;
    if args != [] {
      ReadsAreLive(args[0], q);
      ArgReadsAreLive(args[1..], q.Without(InlineReads(args[0])));
    }
  }

  /** Code generated after an operand leaves alone what the operand still has to read. */
  lemma WaitsUnchanged(e: R.Expr, a: State, code: Code, m: nat, z: string)
    requires Ready(a) && Fits(e, a.q, false) && Reads(Inline(e, a.c, a.n).e, z)
    requires var n1 := Inline(e, a.c, a.n).next;
             n1 <= m && Bounded(code, a.c, a.q.Without(InlineReads(e)), n1, m, Discard, z, Written)
    ensures !Marks(code, z, Written)
  {
    hide Fits, Inline, NamesApart, SubClear, SubFixed, Agree, Old, Fixed, Own, Marks, From, Reads, Ready, InlineReads;
    var n1 := Inline(e, a.c, a.n).next;
    var q1 := a.q.Without(InlineReads(e));
    InlineReadsFrom(e, a.c, a.n, z);
    ReadsAreLive(e, a.q);
    ReadyIsLive(a);
    FromIsFixed(a, InlineReads(e), n1, z);
    FixedNotOwn(a.c, q1, n1, m, z, Written);
  }

  lemma FromIsFixed(a: State, names: set<string>, n1: nat, z: string)
    requires Ready(a) && a.n <= n1 && From(a.c, a.n, n1, names, z) && names <= a.q.live
    ensures Fixed(a.c, a.q.Without(names), n1, z)
  {
    hide NamesApart, Agree, Old, SubClear;
    var q1 := a.q.Without(names);
    if i: nat :| a.n < i <= n1 && z == a.c.tmp(i) {
      OldTmp(a.c, q1, n1, i);
    } else {
      var x :| x in names && z == a.c.Res(x);
      if x in a.c.sub {
        FixedMonotone(a.c, a.q, a.n, q1, n1, z);
      } else {
        OldLoc(a.c, q1, n1, x);
      }
    }
  }

  /** So its value is the same afterwards. */
  lemma WaitKeepsValue(e: R.Expr, a: State, code: Code, m: nat, s: L.Store, f: L.Functions, fuel: nat)
    requires hide *; Ready(a) && Fits(e, a.q, false) && Inline(e, a.c, a.n).next <= m
    requires forall z :: Bounded(code, a.c, a.q.Without(InlineReads(e)), Inline(e, a.c, a.n).next, m, Discard, z, Written)
    ensures var o := L.Run(code, s, f, fuel); var x := Inline(e, a.c, a.n).e;
            o.Normal? ==> L.Eval(x, o.store, f) == L.Eval(x, s, f)
  {
    hide Fits, Inline, Ready, Marks, Reads, Bounded, L.Run, L.Eval, L.Lookup;
    var o := L.Run(code, s, f, fuel);
    var x := Inline(e, a.c, a.n).e;
    if o.Normal? {
      forall z | Reads(x, z)
        ensures L.Lookup(o.store, z) == L.Lookup(s, z)
      {
        WaitsUnchanged(e, a, code, m, z);
        RunKeeps(code, s, f, fuel, z);
      }
      EvalReads(x, o.store, s, f);
    }
  }
}
