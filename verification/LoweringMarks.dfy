/** The Lua names that generated code declares and stores to. */
module LoweringMarks {
  import opened Wrappers
  import opened LuaIr
  import opened Lowering
  import opened LoweringScope
  import opened LuaFrame
  import R = RuaLang
  import L = LuaRun
  import P = PatternTests
  import M = MatchSelection

  /** Substituted names are live, and none of them is ever assigned. */
  ghost predicate SubClear(c: Ctx, q: Scope) {
    && c.mentioned == q.mentioned && c.mutable == q.mutable
    && q.may <= q.mutable
    && c.sub.Keys <= q.live && c.sub.Keys !! q.may
  }

  /**
   * A name that code generated here between temporaries n and m may touch: one of those temporaries,
   * the local of a variable that is not live yet, or, to store to, of one that may be assigned.
   */
  ghost predicate Own(c: Ctx, q: Scope, n: nat, m: nat, z: string, k: Mark) {
    || (exists i: nat :: n < i <= m && z == c.tmp(i))
    || (exists x :: z == c.loc(x) && (x !in q.live || (k != Declared && x in q.may)))
  }

  /** Or the destination, or, when breaking, the variable for the loop's value. */
  ghost predicate Allowed(c: Ctx, q: Scope, n: nat, m: nat, d: Dest, z: string, k: Mark) {
    || Own(c, q, n, m, z, k)
    || (k != Declared && d == Var(z))
    || (k == Breaking && c.brk == Some(z))
  }

  lemma OwnLoc(c: Ctx, q: Scope, n: nat, m: nat, x: string, z: string, k: Mark)
    requires z == c.loc(x) && (x !in q.live || (k != Declared && x in q.may))
    ensures Own(c, q, n, m, z, k)
  {
  }

  /** A part of the code, generated in a scope with more live variables, touches no more. */
  lemma Widen(c: Ctx, q: Scope, n: nat, m: nat, c1: Ctx, q1: Scope, n1: nat, m1: nat, d: Dest, z: string, k: Mark)
    requires Allowed(c1, q1, n1, m1, d, z, k)
    requires c1.loc == c.loc && c1.tmp == c.tmp && c1.brk == c.brk
    requires n <= n1 && m1 <= m && q.live <= q1.live && forall x :: x in q1.may && x in q.live ==> x in q.may
    ensures Allowed(c, q, n, m, d, z, k)
  {
    if exists x :: z == c1.loc(x) && (x !in q1.live || (k != Declared && x in q1.may)) {
      var x :| z == c1.loc(x) && (x !in q1.live || (k != Declared && x in q1.may));
      OwnLoc(c, q, n, m, x, z, k);
    }
  }

  /** The same for code without a destination. */
  lemma WidenTo(c: Ctx, q: Scope, n: nat, m: nat, q1: Scope, n1: nat, m1: nat, d: Dest, z: string, k: Mark)
    requires Allowed(c, q1, n1, m1, Discard, z, k)
    requires n <= n1 && m1 <= m && q.live <= q1.live && forall x :: x in q1.may && x in q.live ==> x in q.may
    ensures Allowed(c, q, n, m, d, z, k)
  {
    Widen(c, q, n, m, c, q1, n1, m1, Discard, z, k);
  }

  lemma AllowedTmp(c: Ctx, q: Scope, n: nat, m: nat, i: nat, d: Dest, z: string, k: Mark)
    requires n < i <= m && z == c.tmp(i)
    ensures Allowed(c, q, n, m, d, z, k)
  {
  }

  lemma AllowedLoc(c: Ctx, q: Scope, n: nat, m: nat, x: string, d: Dest, z: string, k: Mark)
    requires z == c.loc(x) && (x !in q.live || (k != Declared && x in q.may))
    ensures Allowed(c, q, n, m, d, z, k)
  {
  }

  lemma WhenMarks(cond: Expr, body: Code, z: string, k: Mark)
    ensures Marks([When(cond, body)], z, k) ==> k != Declared && Marks(body, z, k)
  {
    IfMarks(cond, body, [], z, k);
    PlainMarks(L.Break, z, k);
  }

  // ---- pattern bindings ----

  function BindNames(binds: seq<P.PatternBinding>): (r: seq<string>)
    ensures |r| == |binds| && forall i :: 0 <= i < |binds| ==> r[i] == binds[i].name
  {
    if binds == [] then [] else [binds[0].name] + BindNames(binds[1..])
  }

  lemma BindNamesConcat(a: seq<P.PatternBinding>, b: seq<P.PatternBinding>)
    ensures BindNames(a + b) == BindNames(a) + BindNames(b)
  {
  }

  lemma {:induction false} PatBindNames(p: R.Pattern, subject: Expr, cachedTag: Option<Expr>)
    ensures BindNames(P.PatTest(p, subject, cachedTag).binds) == Binders(p)
    decreases p
  {
    match p {
      case OptionPat(some, payload) =>
        if some && payload.Some? {
          PatBindNames(payload.value, subject, None);
          BindNamesConcat([], P.PatTest(payload.value, subject, None).binds);
        }
      case ResultPat(ok, payload) =>
        if payload.Some? {
          PatBindNames(payload.value, P.ResultPayload(subject), None);
          BindNamesConcat([], P.PatTest(payload.value, P.ResultPayload(subject), None).binds);
        }
      case TuplePat(tag, elems) =>
        ElementBindNames(elems, subject, 0);
        BindNamesConcat([], P.ElementTests(elems, subject, 0).binds);
      case StructPat(_, fields) =>
        FieldBindNames(fields, subject);
        BindNamesConcat([], P.FieldTests(fields, subject).binds);
      case _ =>
    }
  }

  lemma {:induction false} ElementBindNames(ps: seq<R.Pattern>, subject: Expr, i: nat)
    ensures BindNames(P.ElementTests(ps, subject, i).binds) == ElementBinders(ps)
    decreases ps
  {
    if ps != [] {
      PatBindNames(ps[0], Index(subject, Integer(i + 1)), None);
      ElementBindNames(ps[1..], subject, i + 1);
      BindNamesConcat(P.PatTest(ps[0], Index(subject, Integer(i + 1)), None).binds, P.ElementTests(ps[1..], subject, i + 1).binds);
    }
  }

  lemma {:induction false} FieldBindNames(ps: seq<R.FieldPat>, subject: Expr)
    ensures BindNames(P.FieldTests(ps, subject).binds) == FieldBinders(ps)
    decreases ps
  {
    if ps != [] {
      FieldBindName(ps[0], subject);
      FieldBindNames(ps[1..], subject);
      BindNamesConcat(P.FieldTest(ps[0], subject).binds, P.FieldTests(ps[1..], subject).binds);
    }
  }

  lemma {:induction false} FieldBindName(p: R.FieldPat, subject: Expr)
    ensures BindNames(P.FieldTest(p, subject).binds) == FieldBinder(p)
    decreases p
  {
    hide P.PatTest;
    PatBindNames(p.pattern, Field(subject, p.name), None);
  }

  /** Every binding is of one of the names. */
  ghost predicate BindsOf(binds: seq<P.PatternBinding>, names: seq<string>) {
    forall i :: 0 <= i < |binds| ==> binds[i].name in names
  }

  lemma {:induction false} RetainOf(binds: seq<P.PatternBinding>, mentioned: set<string>, names: seq<string>)
    requires BindsOf(binds, names)
    ensures BindsOf(P.Retain(binds, mentioned), names)
  {
    if binds != [] {
      RetainOf(binds[1..], mentioned, names);
    }
  }

  lemma PatBindsOf(p: R.Pattern, subject: Expr, cachedTag: Option<Expr>)
    ensures BindsOf(P.PatTest(p, subject, cachedTag).binds, Binders(p))
  {
    hide P.PatTest;
    PatBindNames(p, subject, cachedTag);
  }

  lemma ArmBindsOf(pats: seq<R.Pattern>, subject: Expr, cachedTag: Option<Expr>, mentioned: set<string>)
    ensures BindsOf(P.ArmTests(pats, subject, cachedTag, mentioned).binds, ArmBinders(pats))
  {
    hide P.PatTest;
    if |pats| == 1 {
      PatBindsOf(pats[0], subject, cachedTag);
      RetainOf(P.PatTest(pats[0], subject, cachedTag).binds, mentioned, Binders(pats[0]));
    }
  }

  /** Bindings become locals of new variables or substitutions for them. */
  lemma {:induction false} EmitMarks(binds: seq<P.PatternBinding>, names: seq<string>, c: Ctx, q: Scope, n: nat, m: nat, d: Dest, z: string, k: Mark)
    requires BindsOf(binds, names) && NewBinders(names, q) && SubClear(c, q) && n <= m
    ensures Marks(EmitBindings(binds, c).code, z, k) ==> Allowed(c, q, n, m, d, z, k)
    ensures SubClear(c.(sub := EmitBindings(binds, c).sub), q.Bind(Elements(names)))
  {
    hide Marks, Allowed;
    if binds == [] {
      PlainMarks(L.Break, z, k);
    } else {
      var init, b := binds[..|binds| - 1], binds[|binds| - 1];
      EmitMarks(init, names, c, q, n, m, d, z, k);
      assert b.name in names;
      if !b.value.Name? {
        MarksConcat(EmitBindings(init, c).code, [L.Local(c.loc(b.name), Some(b.value))], z, k);
        LocalMarks(c.loc(b.name), Some(b.value), z, k);
        if z == c.loc(b.name) {
          AllowedLoc(c, q, n, m, b.name, d, z, k);
        }
      }
    }
  }

  // ---- expressions ----

  ghost predicate Bounded(code: Code, c: Ctx, q: Scope, n: nat, m: nat, d: Dest, z: string, k: Mark) {
    Marks(code, z, k) ==> Allowed(c, q, n, m, d, z, k)
  }

  lemma BoundedNone(c: Ctx, q: Scope, n: nat, m: nat, d: Dest, z: string, k: Mark)
    ensures Bounded([], c, q, n, m, d, z, k)
  {
    hide Marks;
    PlainMarks(L.Break, z, k);
  }

  lemma BoundedPlain(st: L.Stmt, c: Ctx, q: Scope, n: nat, m: nat, d: Dest, z: string, k: Mark)
    requires st.Expression? || st.Return?
    ensures Bounded([st], c, q, n, m, d, z, k)
  {
    hide Marks;
    PlainMarks(st, z, k);
  }

  lemma BoundedTmp(i: nat, e: Option<Expr>, c: Ctx, q: Scope, n: nat, m: nat, d: Dest, z: string, k: Mark)
    requires n < i <= m
    ensures Bounded([L.Local(c.tmp(i), e)], c, q, n, m, d, z, k)
  {
    hide Marks;
    LocalMarks(c.tmp(i), e, z, k);
    if z == c.tmp(i) { AllowedTmp(c, q, n, m, i, d, z, k); }
  }

  lemma BoundedLocal(x: string, e: Option<Expr>, c: Ctx, q: Scope, n: nat, m: nat, d: Dest, z: string, k: Mark)
    requires x !in q.live
    ensures Bounded([L.Local(c.loc(x), e)], c, q, n, m, d, z, k)
  {
    hide Marks;
    LocalMarks(c.loc(x), e, z, k);
    if z == c.loc(x) { AllowedLoc(c, q, n, m, x, d, z, k); }
  }

  lemma BoundedAssignTmp(i: nat, e: Expr, c: Ctx, q: Scope, n: nat, m: nat, d: Dest, z: string, k: Mark)
    requires n < i <= m
    ensures Bounded([L.Assign(Name(c.tmp(i)), e)], c, q, n, m, d, z, k)
  {
    hide Marks;
    AssignMarks(c.tmp(i), e, z, k);
    if z == c.tmp(i) { AllowedTmp(c, q, n, m, i, d, z, k); }
  }

  lemma BoundedDest(x: string, e: Expr, c: Ctx, q: Scope, n: nat, m: nat, z: string, k: Mark)
    ensures Bounded([L.Assign(Name(x), e)], c, q, n, m, Var(x), z, k)
  {
    hide Marks;
    AssignMarks(x, e, z, k);
  }

  lemma BoundedConcat(a: Code, b: Code, c: Ctx, q: Scope, n: nat, m: nat, d: Dest, z: string, k: Mark)
    requires Bounded(a, c, q, n, m, d, z, k) && Bounded(b, c, q, n, m, d, z, k)
    ensures Bounded(a + b, c, q, n, m, d, z, k)
  {
    hide Marks;
    MarksConcat(a, b, z, k);
  }

  lemma BoundedWhen(cond: Expr, body: Code, c: Ctx, q: Scope, n: nat, m: nat, d: Dest, z: string, k: Mark)
    requires Bounded(body, c, q, n, m, d, z, k)
    ensures Bounded([When(cond, body)], c, q, n, m, d, z, k)
  {
    hide Marks;
    WhenMarks(cond, body, z, k);
  }

  lemma BoundedIf(cond: Expr, body: Code, els: Code, c: Ctx, q: Scope, n: nat, m: nat, d: Dest, z: string, k: Mark)
    requires Bounded(body, c, q, n, m, d, z, k) && Bounded(els, c, q, n, m, d, z, k)
    ensures Bounded([L.If([L.Branch(cond, body)], els)], c, q, n, m, d, z, k)
  {
    hide Marks;
    IfMarks(cond, body, els, z, k);
  }

  lemma BoundedWiden(code: Code, c: Ctx, q: Scope, n: nat, m: nat, c1: Ctx, q1: Scope, n1: nat, m1: nat, d: Dest, z: string, k: Mark)
    requires Bounded(code, c1, q1, n1, m1, d, z, k)
    requires c1.loc == c.loc && c1.tmp == c.tmp && c1.brk == c.brk
    requires n <= n1 && m1 <= m && q.live <= q1.live && forall x :: x in q1.may && x in q.live ==> x in q.may
    ensures Bounded(code, c, q, n, m, d, z, k)
  {
    hide Marks;
    if Marks(code, z, k) {
      Widen(c, q, n, m, c1, q1, n1, m1, d, z, k);
    }
  }

  /** Code that computes an operand has no destination, so it is bounded under any. */
  lemma BoundedOperand(code: Code, c: Ctx, q: Scope, n: nat, m: nat, q1: Scope, n1: nat, m1: nat, d: Dest, z: string, k: Mark)
    requires Bounded(code, c, q1, n1, m1, Discard, z, k)
    requires n <= n1 && m1 <= m && q.live <= q1.live && forall x :: x in q1.may && x in q.live ==> x in q.may
    ensures Bounded(code, c, q, n, m, d, z, k)
  {
    hide Marks;
    if Marks(code, z, k) {
      WidenTo(c, q, n, m, q1, n1, m1, d, z, k);
    }
  }

  lemma BoundedFinish(e: Expr, c: Ctx, q: Scope, n: nat, m: nat, d: Dest, z: string, k: Mark)
    ensures Bounded(Finish(e, d), c, q, n, m, d, z, k)
    ensures Bounded(AssignResult(d), c, q, n, m, d, z, k)
  {
    hide Bounded;
    match d {
      case Discard =>
        BoundedNone(c, q, n, m, d, z, k);
        BoundedPlain(L.Expression(e), c, q, n, m, d, z, k);
      case Var(x) =>
        BoundedDest(x, e, c, q, n, m, z, k);
        BoundedDest(x, Nil, c, q, n, m, z, k);
      case ToReturn =>
        BoundedPlain(L.Return(Some(e)), c, q, n, m, d, z, k);
        BoundedPlain(L.Return(Some(Nil)), c, q, n, m, d, z, k);
    }
  }

  lemma {:induction false} InlineMarks(e: R.Expr, c: Ctx, n: nat, q: Scope, z: string, k: Mark)
    requires Fits(e, q, false) && SubClear(c, q)
    ensures Bounded(Inline(e, c, n).code, c, q, n, Inline(e, c, n).next, Discard, z, k)
    decreases e, 3
  {
    hide Bounded, GenControl, FitsArm, R.MatchAny, FitsElse, M.ProvenExhaustive, R.MatchAll, FitsArgs, R.RootFits, FitsBlock, InlineReads,
      InlineOnly, Binders, InlineArgs, R.MatchFields;
    var m := Inline(e, c, n).next;
    match e {
      case Lit(_) => BoundedNone(c, q, n, m, Discard, z, k);
      case Path(_) => BoundedNone(c, q, n, m, Discard, z, k);
      case Unary(_, operand) => InlineMarks(operand, c, n, q, z, k);
      case SomeCall(payload) => InlineMarks(payload, c, n, q, z, k);
      case ResultCall(_, payload) => InlineMarks(payload, c, n, q, z, k);
      case Binary(op, lhs, rhs) => BinaryMarks(e, c, n, q, z, k);
      case Call(_, args) => ArgsMarks(args, c, n, q, z, k);
      case VariantCall(_, args) => ArgsMarks(args, c, n, q, z, k);
      case Try(_, _) => TryMarks(e, c, n, q, z, k);
      case _ =>
        var g := GenControl(e, Var(c.tmp(n + 1)), c, n + 1);
        HoistMarks(e, c, n, q, z, k);
    }
  }

  lemma {:induction false} HoistMarks(e: R.Expr, c: Ctx, n: nat, q: Scope, z: string, k: Mark)
    requires hide *; IsControl(e) && Fits(e, q, false) && SubClear(c, q)
    ensures var g := GenControl(e, Var(c.tmp(n + 1)), c, n + 1);
            Bounded([L.Local(c.tmp(n + 1), None)] + g.code, c, q, n, g.next, Discard, z, k)
    decreases e, 2
  {
    hide GenControl, Fits, Marks;
    var t := c.tmp(n + 1);
    var g := GenControl(e, Var(t), c, n + 1);
    ControlMarks(e, Var(t), c, n + 1, q, false, z, k);
    if Marks(g.code, z, k) {
      if z == t {
        AllowedTmp(c, q, n, g.next, n + 1, Discard, z, k);
      } else {
        assert Allowed(c, q, n + 1, g.next, Discard, z, k);
        Widen(c, q, n, g.next, c, q, n + 1, g.next, Discard, z, k);
      }
    }
    BoundedTmp(n + 1, None, c, q, n, g.next, Discard, z, k);
    BoundedConcat([L.Local(t, None)], g.code, c, q, n, g.next, Discard, z, k);
  }

  lemma {:induction false} BinaryMarks(e: R.Expr, c: Ctx, n: nat, q: Scope, z: string, k: Mark)
    requires e.Binary? && Fits(e, q, false) && SubClear(c, q)
    ensures Bounded(Inline(e, c, n).code, c, q, n, Inline(e, c, n).next, Discard, z, k)
    decreases e, 1
  {
    hide Bounded, Allowed, Inline, SubClear;
    var a := Inline(e.lhs, c, n);
    InlineMarks(e.lhs, c, n, q, z, k);
    if e.bop == R.Coalesce {
      var b := Inline(e.rhs, c, a.next + 1);
      InlineMarks(e.rhs, c, a.next + 1, q, z, k);
      InlineCoalesce(e, c, n);
      CoalesceMarks(a, b, c, q, n, z, k);
    } else {
      var b := Inline(e.rhs, c, a.next);
      var q1 := q.Without(InlineReads(e.lhs));
      assert SubClear(c, q1) by { SubClearMinus(c, q, InlineReads(e.lhs)); }
      InlineMarks(e.rhs, c, a.next, q1, z, k);
      InlineStrict(e, c, n);
      BoundedOperand(a.code, c, q, n, b.next, q, n, a.next, Discard, z, k);
      BoundedOperand(b.code, c, q, n, b.next, q1, a.next, b.next, Discard, z, k);
      BoundedConcat(a.code, b.code, c, q, n, b.next, Discard, z, k);
    }
  }

  lemma SubClearMinus(c: Ctx, q: Scope, names: set<string>)
    requires SubClear(c, q)
    ensures SubClear(c, q.Without(names))
  {
  }

  function CoalesceCode(a: GenE, t: string, b: GenE): Code {
    a.code + [L.Local(t, Some(a.e))] + [When(Binary(Name(t), Eq, Nil), b.code + [L.Assign(Name(t), b.e)])]
  }

  lemma InlineCoalesce(e: R.Expr, c: Ctx, n: nat)
    requires hide *; e.Binary? && e.bop == R.Coalesce
    ensures var a := Inline(e.lhs, c, n);
            var b := Inline(e.rhs, c, a.next + 1);
            Inline(e, c, n) == GenE(CoalesceCode(a, c.tmp(a.next + 1), b), Name(c.tmp(a.next + 1)), b.next)
  {
    hide GenControl, InlineArgs, P.LiteralExpr, UnaryExpr, BinaryExpr, Positional;
  }

  lemma InlineStrict(e: R.Expr, c: Ctx, n: nat)
    requires hide *; e.Binary? && e.bop != R.Coalesce
    ensures var a := Inline(e.lhs, c, n);
            var b := Inline(e.rhs, c, a.next);
            Inline(e, c, n) == GenE(a.code + b.code, BinaryExpr(e.bop, a.e, b.e), b.next)
  {
    hide GenControl, InlineArgs, P.LiteralExpr, UnaryExpr, BinaryExpr, Positional;
  }

  lemma CoalesceMarks(a: GenE, b: GenE, c: Ctx, q: Scope, n: nat, z: string, k: Mark)
    requires hide *; n <= a.next < b.next && Bounded(a.code, c, q, n, a.next, Discard, z, k)
    requires Bounded(b.code, c, q, a.next + 1, b.next, Discard, z, k)
    ensures Bounded(CoalesceCode(a, c.tmp(a.next + 1), b), c, q, n, b.next, Discard, z, k)
  {
    hide Bounded, Allowed;
    var m, t := b.next, c.tmp(a.next + 1);
    BoundedOperand(a.code, c, q, n, m, q, n, a.next, Discard, z, k);
    BoundedOperand(b.code, c, q, n, m, q, a.next + 1, m, Discard, z, k);
    BoundedAssignTmp(a.next + 1, b.e, c, q, n, m, Discard, z, k);
    BoundedConcat(b.code, [L.Assign(Name(t), b.e)], c, q, n, m, Discard, z, k);
    BoundedWhen(Binary(Name(t), Eq, Nil), b.code + [L.Assign(Name(t), b.e)], c, q, n, m, Discard, z, k);
    BoundedTmp(a.next + 1, Some(a.e), c, q, n, m, Discard, z, k);
    BoundedConcat(a.code, [L.Local(t, Some(a.e))], c, q, n, m, Discard, z, k);
    BoundedConcat(a.code + [L.Local(t, Some(a.e))], [When(Binary(Name(t), Eq, Nil), b.code + [L.Assign(Name(t), b.e)])], c, q, n, m, Discard, z, k);
  }

  lemma {:induction false} TryMarks(e: R.Expr, c: Ctx, n: nat, q: Scope, z: string, k: Mark)
    requires e.Try? && Fits(e, q, false) && SubClear(c, q)
    ensures Bounded(Inline(e, c, n).code, c, q, n, Inline(e, c, n).next, Discard, z, k)
    decreases e, 0
  {
    hide Bounded, R.MatchPattern, R.MatchAny, R.RootFits, GenElse, GenTo, FitsArm, P.ElementTests, FitsElse, M.ProvenExhaustive, P.AndAll,
      P.FieldTests, FitsArgs, FitsBlock, GenBlock, EmitBindings, InlineArgs, GenArms, GenReturnMatch, GenLoop;
    var m := Inline(e, c, n).next;
    var g := Inline(e.inner, c, n);
    var t := c.tmp(g.next + 1);
    var cond, out := if e.isResult then Unary(Not, P.ResultIsOk(Name(t))) else Binary(Name(t), Eq, Nil), L.Return(Some(if e.isResult then Name(t) else Nil));
    InlineMarks(e.inner, c, n, q, z, k);
    BoundedOperand(g.code, c, q, n, m, q, n, g.next, Discard, z, k);
    BoundedTmp(g.next + 1, Some(g.e), c, q, n, m, Discard, z, k);
    BoundedConcat(g.code, [L.Local(t, Some(g.e))], c, q, n, m, Discard, z, k);
    BoundedPlain(out, c, q, n, m, Discard, z, k);
    BoundedWhen(cond, [out], c, q, n, m, Discard, z, k);
    BoundedConcat(g.code + [L.Local(t, Some(g.e))], [When(cond, [out])], c, q, n, m, Discard, z, k);
  }

  lemma {:induction false} ArgsMarks(args: seq<R.Expr>, c: Ctx, n: nat, q: Scope, z: string, k: Mark)
    requires FitsArgs(args, q) && SubClear(c, q)
    ensures Bounded(InlineArgs(args, c, n).code, c, q, n, InlineArgs(args, c, n).next, Discard, z, k)
    decreases args, 1
  {
    hide Bounded, Allowed, Fits, Inline;
    var m := InlineArgs(args, c, n).next;
    if args == [] {
      BoundedNone(c, q, n, m, Discard, z, k);
    } else {
      var a := Inline(args[0], c, n);
      var b := InlineArgs(args[1..], c, a.next);
      var q1 := q.Without(InlineReads(args[0]));
      InlineMarks(args[0], c, n, q, z, k);
      ArgsMarks(args[1..], c, a.next, q1, z, k);
      BoundedOperand(a.code, c, q, n, m, q, n, a.next, Discard, z, k);
      BoundedOperand(b.code, c, q, n, m, q1, a.next, b.next, Discard, z, k);
      BoundedConcat(a.code, b.code, c, q, n, m, Discard, z, k);
    }
  }

  lemma {:induction false} ToMarks(e: R.Expr, d: Dest, c: Ctx, n: nat, q: Scope, ret: bool, z: string, k: Mark)
    requires Fits(e, q, ret) && SubClear(c, q)
    ensures Bounded(GenTo(e, d, c, n).code, c, q, n, GenTo(e, d, c, n).next, d, z, k)
    decreases e, 4
  {
    hide Bounded, GenControl, Inline, R.MatchAny, R.FieldOf, FitsElse, M.ProvenExhaustive, R.MatchAll, FitsArgs, R.RootFits, FitsBlock;
    if IsControl(e) {
      ControlMarks(e, d, c, n, q, ret, z, k);
    } else {
      var g := Inline(e, c, n);
      InlineMarks(e, c, n, q, z, k);
      BoundedOperand(g.code, c, q, n, g.next, q, n, g.next, d, z, k);
      BoundedFinish(g.e, c, q, n, g.next, d, z, k);
      BoundedConcat(g.code, Finish(g.e, d), c, q, n, g.next, d, z, k);
    }
  }

  lemma {:induction false} ControlMarks(e: R.Expr, d: Dest, c: Ctx, n: nat, q: Scope, ret: bool, z: string, k: Mark)
    requires IsControl(e) && Fits(e, q, ret) && SubClear(c, q)
    ensures Bounded(GenControl(e, d, c, n).code, c, q, n, GenControl(e, d, c, n).next, d, z, k)
    decreases e, 1
  {
    hide Bounded, GenElse, R.MatchFields, GenTo, FitsArm, P.Alternatives, R.MatchAny, P.ElementTests, GenReturnBody, FitsElse, P.Retain,
      M.ProvenExhaustive, R.MatchAll, P.AndAll, P.FieldTests, P.OrAll, FitsArgs, R.RootFits, FitsBlock, M.RootOf, GenBlock, EmitBindings, InlineArgs,
      GenArms;
    match e {
      case Loop(body) => LoopMarks(body, d, c, n, q, z, k);
      case If(_, _, _) => IfThenMarks(e, d, c, n, q, ret, z, k);
      case IfLet(_, _, _, _) => IfLetMarks(e, d, c, n, q, ret, z, k);
      case BlockExpr(b) => BlockMarks(b, d, c, n, q, ret, z, k);
      case Match(_, _) => MatchMarks(e, d, c, n, q, ret, z, k);
      case Assign(_, _, _) => AssignExprMarks(e, d, c, n, q, ret, z, k);
    }
  }

  lemma {:induction false} IfThenMarks(e: R.Expr, d: Dest, c: Ctx, n: nat, q: Scope, ret: bool, z: string, k: Mark)
    requires e.If? && Fits(e, q, ret) && SubClear(c, q)
    ensures Bounded(GenControl(e, d, c, n).code, c, q, n, GenControl(e, d, c, n).next, d, z, k)
    decreases e, 0
  {
    hide Bounded, GenBlock, GenElse, Inline, FitsArm, P.Alternatives, R.MatchAny, P.ElementTests, GenReturnBody, FitsElse, P.Retain,
      M.ProvenExhaustive, R.MatchAll, P.AndAll, P.FieldTests, P.OrAll, FitsArgs, R.RootFits, FitsBlock, M.RootOf, GenLoop, InlineReads, InlineOnly,
      Binders, EmitBindings, GenArms, R.MatchFields, GenTo;
    var g := Inline(e.cond, c, n);
    var t := GenBlock(e.thn, d, c, g.next);
    var o := GenElse(e.els, d, c, t.next);
    InlineMarks(e.cond, c, n, q, z, k);
    BoundedOperand(g.code, c, q, n, o.next, q, n, g.next, d, z, k);
    BlockMarks(e.thn, d, c, g.next, q, ret, z, k);
    BoundedWiden(t.code, c, q, n, o.next, c, q, g.next, t.next, d, z, k);
    ElseMarks(e.els, d, c, t.next, q, ret, z, k);
    BoundedWiden(o.code, c, q, n, o.next, c, q, t.next, o.next, d, z, k);
    BoundedIf(g.e, t.code, o.code, c, q, n, o.next, d, z, k);
    BoundedConcat(g.code, [L.If([L.Branch(g.e, t.code)], o.code)], c, q, n, o.next, d, z, k);
  }

  lemma {:induction false} IfLetMarks(e: R.Expr, d: Dest, c: Ctx, n: nat, q: Scope, ret: bool, z: string, k: Mark)
    requires e.IfLet? && Fits(e, q, ret) && SubClear(c, q)
    ensures Bounded(GenControl(e, d, c, n).code, c, q, n, GenControl(e, d, c, n).next, d, z, k)
    decreases e, 0
  {
    hide Bounded, Allowed, GenBlock, GenElse, Inline, EmitBindings, P.PatTest, SubClear, FitsArm, P.Alternatives, R.MatchAny, GenReturnBody,
      FitsElse, P.Retain, M.ProvenExhaustive, R.MatchAll, P.AndAll, P.OrAll, FitsArgs, R.RootFits, FitsBlock, M.RootOf, GenLoop, InlineReads,
      InlineOnly, Binders, GenArms, R.MatchFields, GenTo;
    var g := Inline(e.subject, c, n);
    var s := Subject(g, ImmutablePath(e.subject, c), c);
    var test := P.PatTest(e.pat, s.e, None);
    var b := EmitBindings(test.binds, c);
    var inner, q1 := c.(sub := b.sub), q.Bind(Elements(Binders(e.pat)));
    var t := GenBlock(e.thn, d, inner, s.next);
    var o := GenElse(e.els, d, c, t.next);
    var m := o.next;
    InlineMarks(e.subject, c, n, q, z, k);
    SubjectMarks(g, ImmutablePath(e.subject, c), c, q, n, m, d, z, k);
    PatBindsOf(e.pat, s.e, None);
    EmitMarks(test.binds, Binders(e.pat), c, q, n, m, d, z, k);
    assert Bounded(b.code, c, q, n, m, d, z, k) by { BoundedIs(b.code, c, q, n, m, d, z, k); }
    BlockMarks(e.thn, d, inner, s.next, q1, ret, z, k);
    BoundedWiden(t.code, c, q, n, m, inner, q1, s.next, t.next, d, z, k);
    ElseMarks(e.els, d, c, t.next, q, ret, z, k);
    BoundedWiden(o.code, c, q, n, m, c, q, t.next, m, d, z, k);
    BoundedConcat(b.code, t.code, c, q, n, m, d, z, k);
    BoundedIf(P.AndAll(test.tests), b.code + t.code, o.code, c, q, n, m, d, z, k);
    BoundedConcat(s.code, [L.If([L.Branch(P.AndAll(test.tests), b.code + t.code)], o.code)], c, q, n, m, d, z, k);
  }

  lemma BoundedIs(code: Code, c: Ctx, q: Scope, n: nat, m: nat, d: Dest, z: string, k: Mark)
    ensures Bounded(code, c, q, n, m, d, z, k) <==> (Marks(code, z, k) ==> Allowed(c, q, n, m, d, z, k))
  {
    hide Marks;
  }

  lemma SubjectMarks(g: GenE, asIs: bool, c: Ctx, q: Scope, n: nat, m: nat, d: Dest, z: string, k: Mark)
    requires n <= g.next <= Subject(g, asIs, c).next <= m && Bounded(g.code, c, q, n, g.next, Discard, z, k)
    ensures Bounded(Subject(g, asIs, c).code, c, q, n, m, d, z, k)
  {
    hide Bounded, Allowed;
    BoundedOperand(g.code, c, q, n, m, q, n, g.next, d, z, k);
    if !asIs {
      BoundedTmp(g.next + 1, Some(g.e), c, q, n, m, d, z, k);
      BoundedConcat(g.code, [L.Local(c.tmp(g.next + 1), Some(g.e))], c, q, n, m, d, z, k);
    }
  }

  lemma {:induction false} AssignExprMarks(e: R.Expr, d: Dest, c: Ctx, n: nat, q: Scope, ret: bool, z: string, k: Mark)
    requires e.Assign? && Fits(e, q, ret) && SubClear(c, q)
    ensures Bounded(GenControl(e, d, c, n).code, c, q, n, GenControl(e, d, c, n).next, d, z, k)
    decreases e, 0
  {
    hide Bounded, Inline, GenTo, GenElse, R.MatchFields, FitsArm, R.MatchAny, P.ElementTests, FitsElse, M.ProvenExhaustive, R.MatchAll, P.AndAll,
      P.FieldTests, FitsArgs, R.RootFits, FitsBlock, M.RootOf, GenBlock, EmitBindings, GenArms, GenChain, GenLoop, InlineReads, InlineOnly, Binders;
    var x := c.Res(e.target);
    assert x == c.loc(e.target);
    BoundedFinish(Nil, c, q, n, GenControl(e, d, c, n).next, d, z, k);
    if e.aop.Some? {
      var g := Inline(e.rhs, c, n);
      var st := L.Assign(Name(x), BinaryExpr(e.aop.value, Name(x), g.e));
      InlineMarks(e.rhs, c, n, q, z, k);
      BoundedOperand(g.code, c, q, n, g.next, q, n, g.next, d, z, k);
      StoreMarks(st, e.target, c, q, n, g.next, d, z, k);
      BoundedConcat(g.code, [st], c, q, n, g.next, d, z, k);
      BoundedConcat(g.code + [st], AssignResult(d), c, q, n, g.next, d, z, k);
    } else {
      var g := GenTo(e.rhs, Var(x), c, n);
      ToMarks(e.rhs, Var(x), c, n, q, false, z, k);
      IntoVariable(g.code, e.target, c, q, n, g.next, d, z, k);
      BoundedConcat(g.code, AssignResult(d), c, q, n, g.next, d, z, k);
    }
  }

  lemma StoreMarks(st: L.Stmt, x: string, c: Ctx, q: Scope, n: nat, m: nat, d: Dest, z: string, k: Mark)
    requires hide *; st.Assign? && st.target == Name(c.loc(x)) && x in q.may
    ensures Bounded([st], c, q, n, m, d, z, k)
  {
    hide Marks;
    AssignMarks(c.loc(x), st.value, z, k);
    if k != Declared && z == c.loc(x) {
      AllowedLoc(c, q, n, m, x, d, z, k);
    }
  }

  lemma IntoVariable(code: Code, x: string, c: Ctx, q: Scope, n: nat, m: nat, d: Dest, z: string, k: Mark)
    requires Bounded(code, c, q, n, m, Var(c.loc(x)), z, k) && (x in q.may || x !in q.live)
    ensures Bounded(code, c, q, n, m, d, z, k)
  {
    hide Marks;
    if k != Declared && z == c.loc(x) {
      AllowedLoc(c, q, n, m, x, d, z, k);
    }
  }

  lemma {:induction false} ElseMarks(els: Option<R.Else>, d: Dest, c: Ctx, n: nat, q: Scope, ret: bool, z: string, k: Mark)
    requires FitsElse(els, q, ret) && SubClear(c, q)
    ensures Bounded(GenElse(els, d, c, n).code, c, q, n, GenElse(els, d, c, n).next, d, z, k)
    decreases els, 0
  {
    hide Bounded, GenBlock, GenTo, Fits, FitsBlock;
    match els {
      case None =>
        BoundedNone(c, q, n, n, d, z, k);
        if d.Var? { BoundedDest(d.x, Nil, c, q, n, n, z, k); }
      case Some(ElseBlock(b)) => BlockMarks(b, d, c, n, q, ret, z, k);
      case Some(ElseIf(e)) => ToMarks(e, d, c, n, q, ret, z, k);
    }
  }

  lemma {:induction false} LoopMarks(body: R.Block, d: Dest, c: Ctx, n: nat, q: Scope, z: string, k: Mark)
    requires FitsBlock(body, q, false) && SubClear(c, q)
    ensures Bounded(GenLoop(body, d, c, n).code, c, q, n, GenLoop(body, d, c, n).next, d, z, k)
    decreases body, 6
  {
    hide Bounded, Allowed, GenBlock, FitsBlock;
    var m := GenLoop(body, d, c, n).next;
    match d {
      case Discard => WhileBodyMarks(body, None, Bool(true), d, c, n, n, m, q, z, k);
      case Var(x) => WhileBodyMarks(body, Some(x), Bool(true), d, c, n, n, m, q, z, k);
      case ToReturn =>
        var t := c.tmp(n + 1);
        var g := GenBlock(body, Discard, c.(brk := Some(t)), n + 1);
        WhileBodyMarks(body, Some(t), Bool(true), Var(t), c, n, n + 1, m, q, z, k);
        IntoTemporary([L.While(Bool(true), g.code)], n + 1, c, q, n, m, d, z, k);
        BoundedTmp(n + 1, None, c, q, n, m, d, z, k);
        BoundedPlain(L.Return(Some(Name(t))), c, q, n, m, d, z, k);
        BoundedConcat([L.Local(t, None)], [L.While(Bool(true), g.code)], c, q, n, m, d, z, k);
        BoundedConcat([L.Local(t, None)] + [L.While(Bool(true), g.code)], [L.Return(Some(Name(t)))], c, q, n, m, d, z, k);
        assert [L.Local(t, None)] + [L.While(Bool(true), g.code)] + [L.Return(Some(Name(t)))] == GenLoop(body, d, c, n).code;
    }
  }

  lemma IntoTemporary(code: Code, i: nat, c: Ctx, q: Scope, n: nat, m: nat, d: Dest, z: string, k: Mark)
    requires Bounded(code, c, q, n, m, Var(c.tmp(i)), z, k) && n < i <= m
    ensures Bounded(code, c, q, n, m, d, z, k)
  {
    hide Marks;
    if k != Declared && z == c.tmp(i) {
      AllowedTmp(c, q, n, m, i, d, z, k);
    }
  }

  /** Inside a loop the variable for the value of a `break` is the loop's destination. */
  lemma {:induction false} WhileBodyMarks(body: R.Block, brk: Option<string>, cond: Expr, d: Dest, c: Ctx, n: nat, n1: nat, m: nat, q: Scope, z: string, k: Mark)
    requires hide *; FitsBlock(body, q, false) && SubClear(c, q)
    requires n <= n1 && GenBlock(body, Discard, c.(brk := brk), n1).next <= m && (brk.Some? ==> d == Var(brk.value))
    ensures Bounded([L.While(cond, GenBlock(body, Discard, c.(brk := brk), n1).code)], c, q, n, m, d, z, k)
    decreases body, 5
  {
    hide GenBlock, Marks, FitsBlock;
    var inner := c.(brk := brk);
    var g := GenBlock(body, Discard, inner, n1);
    BlockMarks(body, Discard, inner, n1, q, false, z, Breaking);
    WhileMarks(cond, g.code, z, k);
    if k != Declared && Marks(g.code, z, Breaking) && brk != Some(z) {
      OwnIsOwn(inner, c, q, n1, g.next, n, m, z, k);
    }
  }

  lemma OwnIsOwn(c1: Ctx, c: Ctx, q: Scope, n1: nat, m1: nat, n: nat, m: nat, z: string, k: Mark)
    requires Own(c1, q, n1, m1, z, Breaking) && k != Declared && c1.loc == c.loc && c1.tmp == c.tmp && n <= n1 && m1 <= m
    ensures Own(c, q, n, m, z, k)
  {
    if exists x :: z == c1.loc(x) && (x !in q.live || x in q.may) {
      var x :| z == c1.loc(x) && (x !in q.live || x in q.may);
      OwnLoc(c, q, n, m, x, z, k);
    }
  }

  // ---- match ----

  lemma {:induction false} MatchMarks(e: R.Expr, d: Dest, c: Ctx, n: nat, q: Scope, ret: bool, z: string, k: Mark)
    requires e.Match? && Fits(e, q, ret) && SubClear(c, q)
    ensures Bounded(GenControl(e, d, c, n).code, c, q, n, GenControl(e, d, c, n).next, d, z, k)
    decreases e, 0
  {
    hide Bounded, GenArms, GenReturnMatch, Inline, Covers, FitsArms, EmitBindings, GenStmts, GenElse, GenTo, P.ElementTests, FitsElse,
      M.ProvenExhaustive, P.AndAll, P.FieldTests, FitsArgs, FitsBlock;
    var q1 := if ret && NoGuards(e.arms) && e.scrut.Path? then q.Without({e.scrut.name}) else q;
    if d.ToReturn? && NoGuards(e.arms) {
      var g := Inline(e.scrut, c, n);
      var s := Subject(g, e.scrut.Path?, c);
      var r := GenReturnMatch(s, e.arms, c);
      InlineMarks(e.scrut, c, n, q, z, k);
      SubjectMarks(g, e.scrut.Path?, c, q, n, s.next, d, z, k);
      ReturnMatchMarks(s, e.arms, c, n, q, q1, ret, z, k);
    } else {
      var m := c.tmp(n + 1);
      var g := Inline(e.scrut, c, n + 1);
      var matched := c.tmp(g.next + 1);
      var a := GenArms(e.arms, m, matched, d, c, g.next + 1);
      var locals := [L.Local(m, Some(g.e)), L.Local(matched, Some(Bool(false)))];
      var last := [When(Unary(Not, Name(matched)), [L.Expression(ERROR_CALL)])];
      InlineMarks(e.scrut, c, n + 1, q, z, k);
      BoundedOperand(g.code, c, q, n, a.next, q, n + 1, g.next, d, z, k);
      BoundedTmp(n + 1, Some(g.e), c, q, n, a.next, d, z, k);
      BoundedTmp(g.next + 1, Some(Bool(false)), c, q, n, a.next, d, z, k);
      BoundedConcat([L.Local(m, Some(g.e))], [L.Local(matched, Some(Bool(false)))], c, q, n, a.next, d, z, k);
      assert [L.Local(m, Some(g.e))] + [L.Local(matched, Some(Bool(false)))] == locals;
      ArmsMarks(e.arms, m, g.next + 1, d, c, n, g.next + 1, q, q1, ret, z, k);
      BoundedPlain(L.Expression(ERROR_CALL), c, q, n, a.next, d, z, k);
      BoundedWhen(Unary(Not, Name(matched)), [L.Expression(ERROR_CALL)], c, q, n, a.next, d, z, k);
      BoundedConcat(g.code, locals, c, q, n, a.next, d, z, k);
      BoundedConcat(g.code + locals, a.code, c, q, n, a.next, d, z, k);
      BoundedConcat(g.code + locals + a.code, last, c, q, n, a.next, d, z, k);
    }
  }

  /** The flag is a temporary of the match itself; q1 is the scope of the arms. */
  lemma {:induction false} ArmsMarks(arms: seq<R.Arm>, m: string, flag: nat, d: Dest, c: Ctx, n: nat, n1: nat, q: Scope, q1: Scope, ret: bool, z: string, k: Mark)
    requires FitsArms(arms, q1, ret) && SubClear(c, q) && n < flag <= n1
    requires q1 == q || exists x :: q1 == q.Without({x})
    ensures var g := GenArms(arms, m, c.tmp(flag), d, c, n1); Bounded(g.code, c, q, n, g.next, d, z, k)
    decreases arms, 0
  {
    hide Bounded, Allowed, GenArm, FitsArm, SubClear;
    var g := GenArms(arms, m, c.tmp(flag), d, c, n1);
    if arms == [] {
      BoundedNone(c, q, n, n1, d, z, k);
    } else {
      var a := GenArm(arms[0], m, c.tmp(flag), d, c, n1);
      var rest := GenArms(arms[1..], m, c.tmp(flag), d, c, a.next);
      ArmMarks(arms[0], m, flag, d, c, n, n1, q, q1, ret, z, k);
      BoundedWiden(a.code, c, q, n, g.next, c, q, n, a.next, d, z, k);
      ArmsMarks(arms[1..], m, flag, d, c, n, a.next, q, q1, ret, z, k);
      BoundedConcat(a.code, rest.code, c, q, n, g.next, d, z, k);
    }
  }

  lemma SubClearWithout(c: Ctx, q: Scope, q1: Scope)
    requires SubClear(c, q) && (q1 == q || exists x :: q1 == q.Without({x}))
    ensures SubClear(c, q1) && q1.live == q.live && q1.may <= q.may
  {
  }

  lemma {:induction false} ArmMarks(arm: R.Arm, m: string, flag: nat, d: Dest, c: Ctx, n: nat, n1: nat, q: Scope, q1: Scope, ret: bool, z: string, k: Mark)
    requires FitsArm(arm, q1, ret) && SubClear(c, q) && n < flag <= n1
    requires q1 == q || exists x :: q1 == q.Without({x})
    ensures var g := GenArm(arm, m, c.tmp(flag), d, c, n1); Bounded(g.code, c, q, n, g.next, d, z, k)
    decreases arm, 0
  {
    hide Bounded, Allowed, GenTo, Inline, EmitBindings, P.ArmTests, SubClear, Fits, P.AndAll;
    SubClearWithout(c, q, q1);
    var flagName := c.tmp(flag);
    var end := GenArm(arm, m, flagName, d, c, n1).next;
    var t := P.ArmTests(arm.pats, Name(m), None, c.mentioned);
    var b := EmitBindings(t.binds, c);
    var inner, q2 := c.(sub := b.sub), q1.Bind(Elements(ArmBinders(arm.pats)));
    var unmatched := Unary(Not, Name(flagName));
    var cond := if t.tests == [] then unmatched else Binary(unmatched, And, Parenthesized(P.AndAll(t.tests)));
    var set_ := [L.Assign(Name(flagName), Bool(true))];
    ArmBindsOf(arm.pats, Name(m), None, c.mentioned);
    EmitMarks(t.binds, ArmBinders(arm.pats), c, q1, n1, end, d, z, k);
    assert Bounded(b.code, c, q1, n1, end, d, z, k) by { BoundedIs(b.code, c, q1, n1, end, d, z, k); }
    BoundedWiden(b.code, c, q, n, end, c, q1, n1, end, d, z, k);
    BoundedAssignTmp(flag, Bool(true), c, q, n, end, d, z, k);
    if arm.guard.None? {
      var body := GenTo(arm.body, d, inner, n1);
      ToMarks(arm.body, d, inner, n1, q2, ret, z, k);
      BoundedWiden(body.code, c, q, n, end, inner, q2, n1, end, d, z, k);
      BoundedConcat(set_, body.code, c, q, n, end, d, z, k);
      BoundedConcat(b.code, set_ + body.code, c, q, n, end, d, z, k);
      BoundedWhen(cond, b.code + (set_ + body.code), c, q, n, end, d, z, k);
    } else {
      var g := Inline(arm.guard.value, inner, n1);
      var body := GenTo(arm.body, d, inner, g.next);
      InlineMarks(arm.guard.value, inner, n1, q2, z, k);
      BoundedOperand(g.code, inner, q2, n1, end, q2, n1, g.next, d, z, k);
      BoundedWiden(g.code, c, q, n, end, inner, q2, n1, end, d, z, k);
      ToMarks(arm.body, d, inner, g.next, q2, ret, z, k);
      BoundedWiden(body.code, c, q, n, end, inner, q2, g.next, end, d, z, k);
      BoundedConcat(set_, body.code, c, q, n, end, d, z, k);
      BoundedWhen(g.e, set_ + body.code, c, q, n, end, d, z, k);
      BoundedConcat(g.code, [When(g.e, set_ + body.code)], c, q, n, end, d, z, k);
      BoundedConcat(b.code, g.code + [When(g.e, set_ + body.code)], c, q, n, end, d, z, k);
      BoundedWhen(cond, b.code + (g.code + [When(g.e, set_ + body.code)]), c, q, n, end, d, z, k);
    }
  }

  lemma {:induction false} ReturnMatchMarks(s: GenE, arms: seq<R.Arm>, c: Ctx, n: nat, q: Scope, q1: Scope, ret: bool, z: string, k: Mark)
    requires FitsArms(arms, q1, ret) && SubClear(c, q) && n <= s.next
    requires q1 == q || exists x :: q1 == q.Without({x})
    requires Bounded(s.code, c, q, n, s.next, ToReturn, z, k)
    ensures var g := GenReturnMatch(s, arms, c); Bounded(g.code, c, q, n, g.next, ToReturn, z, k)
    decreases arms, 2
  {
    hide Bounded, Allowed, GenChain, FitsArms, SubClear, M.ProvenExhaustive, UsesRootTag, UsesResultTag, ArmPatterns, M.Flatten;
    var m := GenReturnMatch(s, arms, c).next;
    var pats := M.Flatten(ArmPatterns(arms));
    var proven := M.ProvenExhaustive(pats);
    var conditional := |arms| - (if proven && arms != [] then 1 else 0);
    var cached := conditional >= 2 && UsesRootTag(pats);
    var tag := c.tmp(s.next + 1);
    var read := Some(if UsesResultTag(pats) then P.ResultIsOk(s.e) else Field(s.e, "tag"));
    var tagCode := if cached then [L.Local(tag, read)] else [];
    var n1 := if cached then s.next + 1 else s.next;
    var chain := GenChain(arms, s.e, if cached then Some(Name(tag)) else None, proven, c, n1);
    var last := if chain.tail.Some? then chain.tail.value else [L.Expression(ERROR_CALL)];
    BoundedWiden(s.code, c, q, n, m, c, q, n, s.next, ToReturn, z, k);
    BoundedNone(c, q, n, m, ToReturn, z, k);
    if cached { BoundedTmp(s.next + 1, read, c, q, n, m, ToReturn, z, k); }
    ChainBounded(arms, s.e, if cached then Some(Name(tag)) else None, proven, c, n, n1, q, q1, ret, z, k);
    BoundedPlain(L.Expression(ERROR_CALL), c, q, n, m, ToReturn, z, k);
    BoundedChain(chain.branches, last, c, q, n, m, z, k);
    BoundedConcat(s.code, tagCode, c, q, n, m, ToReturn, z, k);
    BoundedConcat(s.code + tagCode, if chain.branches == [] then last else [L.If(chain.branches, last)], c, q, n, m, ToReturn, z, k);
  }

  lemma BoundedChain(branches: seq<L.Branch>, last: Code, c: Ctx, q: Scope, n: nat, m: nat, z: string, k: Mark)
    requires Bounded(last, c, q, n, m, ToReturn, z, k)
    requires BranchesMark(branches, z, k) ==> Allowed(c, q, n, m, ToReturn, z, k)
    ensures Bounded([L.If(branches, last)], c, q, n, m, ToReturn, z, k)
  {
    hide Marks, BranchesMark, Allowed;
    ChainMarks(branches, last, z, k);
  }

  lemma {:induction false} ChainBounded(arms: seq<R.Arm>, subject: Expr, cached: Option<Expr>, proven: bool, c: Ctx, n: nat, n1: nat, q: Scope, q1: Scope, ret: bool, z: string, k: Mark)
    requires hide *; FitsArms(arms, q1, ret) && SubClear(c, q) && n <= n1
    requires q1 == q || exists x :: q1 == q.Without({x})
    ensures var g := GenChain(arms, subject, cached, proven, c, n1);
            && (BranchesMark(g.branches, z, k) ==> Allowed(c, q, n, g.next, ToReturn, z, k))
            && (g.tail.Some? ==> Bounded(g.tail.value, c, q, n, g.next, ToReturn, z, k))
    decreases arms, 1
  {
    hide Bounded, Allowed, GenReturnBody, P.ArmTests, SubClear, FitsArm, BranchesMark, EmitBindings;
    var end := GenChain(arms, subject, cached, proven, c, n1).next;
    if arms == [] {
      BranchesMarkSplit(L.Branch(Nil, []), [], z, k);
    } else {
      var t := P.ArmTests(arms[0].pats, subject, cached, c.mentioned);
      var body := GenReturnBody(arms[0], EmitBindings(t.binds, c), c, n1);
      ReturnBodyMarks(arms[0], subject, cached, c, n, n1, q, q1, ret, z, k);
      if t.tests == [] || (proven && |arms| == 1) {
        BranchesMarkSplit(L.Branch(Nil, []), [], z, k);
      } else {
        var rest := GenChain(arms[1..], subject, cached, proven, c, body.next);
        ChainBounded(arms[1..], subject, cached, proven, c, n, body.next, q, q1, ret, z, k);
        BranchesMarkSplit(L.Branch(P.AndAll(t.tests), body.code), rest.branches, z, k);
        BoundedWiden(body.code, c, q, n, end, c, q, n, body.next, ToReturn, z, k);
        BoundedIs(body.code, c, q, n, end, ToReturn, z, k);
      }
    }
  }

  lemma {:induction false} ReturnBodyMarks(arm: R.Arm, subject: Expr, cached: Option<Expr>, c: Ctx, n: nat, n1: nat, q: Scope, q1: Scope, ret: bool, z: string, k: Mark)
    requires FitsArm(arm, q1, ret) && SubClear(c, q) && n <= n1
    requires q1 == q || exists x :: q1 == q.Without({x})
    ensures var g := GenReturnBody(arm, EmitBindings(P.ArmTests(arm.pats, subject, cached, c.mentioned).binds, c), c, n1);
            Bounded(g.code, c, q, n, g.next, ToReturn, z, k)
    decreases arm, 0
  {
    hide Bounded, Allowed, GenTo, EmitBindings, P.ArmTests, SubClear, Fits;
    SubClearWithout(c, q, q1);
    var t := P.ArmTests(arm.pats, subject, cached, c.mentioned);
    var b := EmitBindings(t.binds, c);
    var inner, q2 := c.(sub := b.sub), q1.Bind(Elements(ArmBinders(arm.pats)));
    var body := GenTo(arm.body, ToReturn, inner, n1);
    ArmBindsOf(arm.pats, subject, cached, c.mentioned);
    EmitMarks(t.binds, ArmBinders(arm.pats), c, q1, n1, body.next, ToReturn, z, k);
    assert Bounded(b.code, c, q1, n1, body.next, ToReturn, z, k) by { BoundedIs(b.code, c, q1, n1, body.next, ToReturn, z, k); }
    BoundedWiden(b.code, c, q, n, body.next, c, q1, n1, body.next, ToReturn, z, k);
    ToMarks(arm.body, ToReturn, inner, n1, q2, ret, z, k);
    BoundedWiden(body.code, c, q, n, body.next, inner, q2, n1, body.next, ToReturn, z, k);
    BoundedConcat(b.code, body.code, c, q, n, body.next, ToReturn, z, k);
  }

  // ---- blocks and statements ----

  /** A block sees the substitutions its statements made. */
  lemma {:induction false} StmtSub(s: R.Stmt, c: Ctx, n: nat, q: Scope)
    requires FitsStmt(s, q) && SubClear(c, q)
    ensures var c1 := c.(sub := GenStmt(s, c, n).sub);
            SubClear(c1, AfterOne(s, q)) && forall y :: y in q.live ==> c1.Res(y) == c.Res(y)
  {
    hide Inline, GenTo, GenBlock, GenLoop, Fits, FitsBlock;
  }

  lemma {:induction false} StmtsSub(stmts: seq<R.Stmt>, c: Ctx, n: nat, q: Scope)
    requires FitsStmts(stmts, q) && SubClear(c, q)
    ensures var c1 := c.(sub := GenStmts(stmts, c, n).sub);
            SubClear(c1, After(stmts, q)) && q.live <= After(stmts, q).live
    ensures var c1 := c.(sub := GenStmts(stmts, c, n).sub); forall y :: y in q.live ==> c1.Res(y) == c.Res(y)
    decreases stmts
  {
    hide GenStmt, FitsStmt, SubClear;
    if stmts != [] {
      var first := GenStmt(stmts[0], c, n);
      StmtSub(stmts[0], c, n, q);
      StmtsSub(stmts[1..], c.(sub := first.sub), first.next, AfterOne(stmts[0], q));
    }
  }

  lemma {:induction false} AfterGrows(stmts: seq<R.Stmt>, q: Scope)
    requires FitsStmts(stmts, q)
    ensures var q1 := After(stmts, q); q.live <= q1.live && forall x :: x in q1.may && x in q.live ==> x in q.may
  {
    hide Fits, FitsBlock;
    if stmts != [] {
      AfterGrows(stmts[1..], AfterOne(stmts[0], q));
    }
  }

  lemma {:induction false} BlockMarks(b: R.Block, d: Dest, c: Ctx, n: nat, q: Scope, ret: bool, z: string, k: Mark)
    requires FitsBlock(b, q, ret) && SubClear(c, q)
    ensures Bounded(GenBlock(b, d, c, n).code, c, q, n, GenBlock(b, d, c, n).next, d, z, k)
    decreases b, 4
  {
    hide Bounded, Allowed, GenStmts, GenTo, Fits, FitsStmts, SubClear;
    var s := GenStmts(b.stmts, c, n);
    var m := GenBlock(b, d, c, n).next;
    StmtsMarks(b.stmts, c, n, q, z, k);
    BoundedOperand(s.code, c, q, n, m, q, n, s.next, d, z, k);
    if b.tail.Some? {
      var c1, q1 := c.(sub := s.sub), After(b.stmts, q);
      StmtsSub(b.stmts, c, n, q);
      AfterGrows(b.stmts, q);
      var t := GenTo(b.tail.value, d, c1, s.next);
      ToMarks(b.tail.value, d, c1, s.next, q1, ret, z, k);
      BoundedWiden(t.code, c, q, n, m, c1, q1, s.next, m, d, z, k);
      BoundedConcat(s.code, t.code, c, q, n, m, d, z, k);
    } else {
      BoundedNone(c, q, n, m, d, z, k);
      if d.Var? { BoundedDest(d.x, Nil, c, q, n, m, z, k); }
      BoundedConcat(s.code, if d.Var? then [L.Assign(Name(d.x), Nil)] else [], c, q, n, m, d, z, k);
    }
  }

  lemma {:induction false} StmtsMarks(stmts: seq<R.Stmt>, c: Ctx, n: nat, q: Scope, z: string, k: Mark)
    requires FitsStmts(stmts, q) && SubClear(c, q)
    ensures Bounded(GenStmts(stmts, c, n).code, c, q, n, GenStmts(stmts, c, n).next, Discard, z, k)
    decreases stmts, 0
  {
    hide Bounded, Allowed, GenStmt, FitsStmt, SubClear;
    if stmts == [] {
      BoundedNone(c, q, n, n, Discard, z, k);
    } else {
      var m := GenStmts(stmts, c, n).next;
      var first := GenStmt(stmts[0], c, n);
      var c1, q1 := c.(sub := first.sub), AfterOne(stmts[0], q);
      var rest := GenStmts(stmts[1..], c1, first.next);
      StmtMarksBounded(stmts[0], c, n, q, z, k);
      BoundedWiden(first.code, c, q, n, m, c, q, n, first.next, Discard, z, k);
      StmtSub(stmts[0], c, n, q);
      StmtsMarks(stmts[1..], c1, first.next, q1, z, k);
      LetIsNew(stmts[0], q);
      BoundedWiden(rest.code, c, q, n, m, c1, q1, first.next, m, Discard, z, k);
      BoundedConcat(first.code, rest.code, c, q, n, m, Discard, z, k);
    }
  }

  lemma LetIsNew(s: R.Stmt, q: Scope)
    requires FitsStmt(s, q)
    ensures var q1 := AfterOne(s, q); q.live <= q1.live && forall x :: x in q1.may && x in q.live ==> x in q.may
  {
    hide Fits, FitsBlock;
  }

  lemma {:induction false} StmtMarksBounded(s: R.Stmt, c: Ctx, n: nat, q: Scope, z: string, k: Mark)
    requires FitsStmt(s, q) && SubClear(c, q)
    ensures Bounded(GenStmt(s, c, n).code, c, q, n, GenStmt(s, c, n).next, Discard, z, k)
    decreases s, 1
  {
    hide Bounded, GenLet, GenTo, GenBlock, GenLoop, Inline, Fits, FitsBlock, SubClear;
    match s {
      case Let(x, init) => LetMarks(s, c, n, q, z, k);
      case ExprStmt(e) => ToMarks(e, Discard, c, n, q, false, z, k);
      case Return(result) =>
        if result.None? {
          BoundedPlain(L.Return(None), c, q, n, n, Discard, z, k);
          BoundedDo([L.Return(None)], c, q, n, n, z, k);
        } else {
          var g := GenTo(result.value, ToReturn, c, n);
          ToMarks(result.value, ToReturn, c, n, q, true, z, k);
          NoDestination(g.code, c, q, n, g.next, z, k);
          BoundedDo(g.code, c, q, n, g.next, z, k);
        }
      case While(cond, body) =>
        var g := Inline(cond, c, n);
        var m := GenStmt(s, c, n).next;
        InlineMarks(cond, c, n, q, z, k);
        BoundedOperand(g.code, c, q, n, m, q, n, g.next, Discard, z, k);
        WhileBodyMarks(body, None, g.e, Discard, c, n, g.next, m, q, z, k);
        BoundedConcat(g.code, [L.While(g.e, GenBlock(body, Discard, c.(brk := None), g.next).code)], c, q, n, m, Discard, z, k);
      case LoopStmt(body) => LoopMarks(body, Discard, c, n, q, z, k);
      case Break(result) =>
        if result.None? {
          BreakValueMarks(if c.brk.Some? then [L.Assign(Name(c.brk.value), Nil)] else [], c, q, n, n, z, k);
        } else {
          var d := if c.brk.Some? then Var(c.brk.value) else Discard;
          ToMarks(result.value, d, c, n, q, false, z, k);
          BoundedBreak(GenTo(result.value, d, c, n).code, d, c, q, n, GenTo(result.value, d, c, n).next, z, k);
        }
    }
  }

  lemma NoDestination(code: Code, c: Ctx, q: Scope, n: nat, m: nat, z: string, k: Mark)
    requires Bounded(code, c, q, n, m, ToReturn, z, k)
    ensures Bounded(code, c, q, n, m, Discard, z, k)
  {
    hide Marks;
  }

  lemma BoundedDo(code: Code, c: Ctx, q: Scope, n: nat, m: nat, z: string, k: Mark)
    requires Bounded(code, c, q, n, m, Discard, z, k)
    ensures Bounded([L.Do(code)], c, q, n, m, Discard, z, k)
  {
    hide Marks;
    DoMarks(code, z, k);
  }

  lemma BreakValueMarks(code: Code, c: Ctx, q: Scope, n: nat, m: nat, z: string, k: Mark)
    requires hide *; code == if c.brk.Some? then [L.Assign(Name(c.brk.value), Nil)] else []
    ensures Bounded(code + [L.Break], c, q, n, m, Discard, z, k)
  {
    hide Marks, Own;
    BreakMarks(code, z, k);
    if c.brk.Some? {
      AssignMarks(c.brk.value, Nil, z, k);
    } else {
      PlainMarks(L.Break, z, k);
    }
  }

  lemma BoundedBreak(code: Code, d: Dest, c: Ctx, q: Scope, n: nat, m: nat, z: string, k: Mark)
    requires hide *; d == if c.brk.Some? then Var(c.brk.value) else Discard
    requires Bounded(code, c, q, n, m, d, z, k)
    ensures Bounded(code + [L.Break], c, q, n, m, Discard, z, k)
  {
    hide Marks, Own;
    BreakMarks(code, z, k);
  }

  lemma {:induction false} LetMarks(s: R.Stmt, c: Ctx, n: nat, q: Scope, z: string, k: Mark)
    requires hide *; s.Let? && FitsStmt(s, q) && SubClear(c, q)
    ensures Bounded(GenLet(s.name, s.init, c, n).code, c, q, n, GenLet(s.name, s.init, c, n).next, Discard, z, k)
    decreases s, 0
  {
    hide Bounded, Allowed, GenTo, Inline, Fits, SubClear;
    var x, init := s.name, s.init;
    var q0 := if NeedsHoist(init) then q.Bind({x}) else q;
    var m := GenLet(x, init, c, n).next;
    if x !in c.mentioned && Removable(init) {
      BoundedNone(c, q, n, n, Discard, z, k);
    } else {
      assert Fits(init, q0, false) && SubClear(c, q0) by { LetScope(s, c, q); }
      if x !in c.mentioned && Discardable(init) {
        ToMarks(init, Discard, c, n, q0, false, z, k);
        BoundedWiden(GenTo(init, Discard, c, n).code, c, q, n, m, c, q0, n, m, Discard, z, k);
      } else if init.Try? {
        LetTryMarks(s, c, n, q, z, k);
      } else if NeedsHoist(init) {
        var g := GenTo(init, Var(c.loc(x)), c, n);
        ToMarks(init, Var(c.loc(x)), c, n, q0, false, z, k);
        BoundedWiden(g.code, c, q, n, m, c, q0, n, m, Var(c.loc(x)), z, k);
        IntoVariable(g.code, x, c, q, n, m, Discard, z, k);
        BoundedLocal(x, None, c, q, n, m, Discard, z, k);
        BoundedConcat([L.Local(c.loc(x), None)], g.code, c, q, n, m, Discard, z, k);
      } else {
        var g := Inline(init, c, n);
        InlineMarks(init, c, n, q0, z, k);
        BoundedLocal(x, Some(g.e), c, q, n, m, Discard, z, k);
        BoundedConcat(g.code, [L.Local(c.loc(x), Some(g.e))], c, q, n, m, Discard, z, k);
      }
    }
  }

  lemma LetScope(s: R.Stmt, c: Ctx, q: Scope)
    requires hide *; s.Let? && FitsStmt(s, q) && SubClear(c, q) && !(s.name !in c.mentioned && Removable(s.init))
    ensures var q0 := if NeedsHoist(s.init) then q.Bind({s.name}) else q; Fits(s.init, q0, false) && SubClear(c, q0)
    ensures s.name !in q.live && (Aliases(s.init, q.mutable) ==> s.name !in q.mutable)
  {
    hide Fits;
  }

  lemma {:induction false} LetTryMarks(s: R.Stmt, c: Ctx, n: nat, q: Scope, z: string, k: Mark)
    requires hide *; s.Let? && FitsStmt(s, q) && SubClear(c, q) && s.init.Try?
    requires !(s.name !in c.mentioned && (Removable(s.init) || Discardable(s.init)))
    ensures Bounded(GenLet(s.name, s.init, c, n).code, c, q, n, GenLet(s.name, s.init, c, n).next, Discard, z, k)
    decreases s.init, 0
  {
    hide Bounded, GenTo, Inline, SubClear, FitsBlock, R.MatchPattern, R.MatchAny, R.RootFits, M.ProvenExhaustive, Binders, FitsArm, FitsElse,
      FitsArgs;
    LetScope(s, c, q);
    var x, inner := s.name, s.init.inner;
    var m := GenLet(x, s.init, c, n).next;
    assert Fits(inner, q, false);
    var g := Inline(inner, c, n);
    InlineMarks(inner, c, n, q, z, k);
    BoundedOperand(g.code, c, q, n, m, q, n, g.next, Discard, z, k);
    if s.init.isResult {
      var t := c.tmp(g.next + 1);
      var out := L.Return(Some(Name(t)));
      var cond := Unary(Not, P.ResultIsOk(Name(t)));
      BoundedTmp(g.next + 1, Some(g.e), c, q, n, m, Discard, z, k);
      BoundedPlain(out, c, q, n, m, Discard, z, k);
      BoundedWhen(cond, [out], c, q, n, m, Discard, z, k);
      BoundedLocal(x, Some(P.ResultPayload(Name(t))), c, q, n, m, Discard, z, k);
      BoundedConcat(g.code, [L.Local(t, Some(g.e))], c, q, n, m, Discard, z, k);
      BoundedConcat(g.code + [L.Local(t, Some(g.e))], [When(cond, [out])], c, q, n, m, Discard, z, k);
      BoundedConcat(g.code + [L.Local(t, Some(g.e))] + [When(cond, [out])], [L.Local(c.loc(x), Some(P.ResultPayload(Name(t))))], c, q, n, m, Discard, z, k);
    } else {
      var out := L.Return(Some(Nil));
      BoundedPlain(out, c, q, n, m, Discard, z, k);
      if ImmutablePath(inner, c) {
        BoundedWhen(Binary(g.e, Eq, Nil), [out], c, q, n, m, Discard, z, k);
        BoundedConcat(g.code, [When(Binary(g.e, Eq, Nil), [out])], c, q, n, m, Discard, z, k);
      } else {
        var test := When(Binary(Name(c.loc(x)), Eq, Nil), [out]);
        BoundedWhen(Binary(Name(c.loc(x)), Eq, Nil), [out], c, q, n, m, Discard, z, k);
        BoundedLocal(x, Some(g.e), c, q, n, m, Discard, z, k);
        BoundedConcat(g.code, [L.Local(c.loc(x), Some(g.e))], c, q, n, m, Discard, z, k);
        BoundedConcat(g.code + [L.Local(c.loc(x), Some(g.e))], [test], c, q, n, m, Discard, z, k);
      }
    }
  }
}
