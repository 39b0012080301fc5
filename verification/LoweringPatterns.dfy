/** After a pattern has matched, its variables are represented. */
module LoweringPatterns {
  import opened Wrappers
  import opened LuaIr
  import opened Lowering
  import opened LoweringScope
  import opened LoweringMarks
  import opened LoweringState
  import opened LoweringSteps
  import opened LuaFrame
  import opened RuaFrame
  import R = RuaLang
  import L = LuaRun
  import P = PatternTests
  import E = Encoding

  // ---- which slots a match binds ----

  function SlotNames(slots: seq<R.Slot>): (r: seq<string>)
    ensures |r| == |slots| && forall i :: 0 <= i < |slots| ==> r[i] == slots[i].name
  {
    if slots == [] then [] else [slots[0].name] + SlotNames(slots[1..])
  }

  lemma SlotNamesConcat(a: seq<R.Slot>, b: seq<R.Slot>)
    ensures SlotNames(a + b) == SlotNames(a) + SlotNames(b)
  {
  }

  lemma {:induction false} MatchBinders(p: R.Pattern, v: R.Val)
    ensures var m := R.MatchPattern(p, v); m.Yes? ==> SlotNames(m.binds) == Binders(p)
    decreases p
  {
    hide SlotNames, R.FieldOf, R.MatchAll, R.MatchFields;
    match p {
      case OptionPat(some, payload) =>
        if v.SomeVal? && payload.Some? { MatchBinders(payload.value, v.payload); }
      case ResultPat(_, payload) =>
        if v.ResultVal? && payload.Some? { MatchBinders(payload.value, v.payload); }
      case TuplePat(_, elems) =>
        if v.VariantVal? && |elems| <= |v.items| { ElementsMatchBinders(elems, v.items); }
      case StructPat(_, fields) =>
        if v.RecordVal? { FieldsMatchBinders(fields, v.fields); }
      case _ =>
    }
  }

  lemma {:induction false} ElementsMatchBinders(ps: seq<R.Pattern>, vs: seq<R.Val>)
    requires |ps| <= |vs|
    ensures var m := R.MatchAll(ps, vs); m.Yes? ==> SlotNames(m.binds) == ElementBinders(ps)
    decreases ps
  {
    if ps != [] {
      MatchBinders(ps[0], vs[0]);
      ElementsMatchBinders(ps[1..], vs[1..]);
      var a, b := R.MatchPattern(ps[0], vs[0]), R.MatchAll(ps[1..], vs[1..]);
      if a.Yes? && b.Yes? { SlotNamesConcat(a.binds, b.binds); }
    }
  }

  lemma {:induction false} FieldsMatchBinders(ps: seq<R.FieldPat>, fields: seq<R.FieldVal>)
    ensures var m := R.MatchFields(ps, fields); m.Yes? ==> SlotNames(m.binds) == FieldBinders(ps)
    decreases ps
  {
    if ps != [] {
      var v := R.FieldOf(fields, ps[0].name);
      FieldsMatchBinders(ps[1..], fields);
      if v.Some? {
        FieldMatchBinder(ps[0], v.value);
        var a, b := R.MatchField(ps[0], v.value), R.MatchFields(ps[1..], fields);
        if a.Yes? && b.Yes? { SlotNamesConcat(a.binds, b.binds); }
      }
    }
  }

  lemma {:induction false} FieldMatchBinder(p: R.FieldPat, v: R.Val)
    ensures var m := R.MatchField(p, v); m.Yes? ==> SlotNames(m.binds) == FieldBinder(p)
    decreases p
  {
    hide R.MatchPattern;
    MatchBinders(p.pattern, v);
  }

  lemma ArmMatchBinders(pats: seq<R.Pattern>, v: R.Val)
    ensures var m := R.MatchArm(pats, v); m.Yes? ==> SlotNames(m.binds) == ArmBinders(pats)
  {
    hide R.MatchAny, R.MatchPattern;
    if |pats| == 1 {
      MatchBinders(pats[0], v);
    } else {
      P.AnyBindsNothing(pats, v);
    }
  }

  // ---- what the bound paths read ----

  /** The expression reads nothing but one Lua variable. */
  ghost predicate Rooted(e: Expr, root: string) {
    forall z :: Reads(e, z) ==> z == root
  }

  ghost predicate AllRooted(binds: seq<P.PatternBinding>, root: string) {
    forall i :: 0 <= i < |binds| ==> Rooted(binds[i].value, root)
  }

  lemma RootedPaths(e: Expr, root: string, i: int, name: string)
    requires Rooted(e, root)
    ensures Rooted(Index(e, Integer(i)), root) && Rooted(Field(e, name), root)
  {
    assert forall z :: !Reads(Integer(i), z);
  }

  lemma {:induction false} PatternRooted(p: R.Pattern, subject: Expr, cachedTag: Option<Expr>, root: string)
    requires Rooted(subject, root)
    ensures AllRooted(P.PatTest(p, subject, cachedTag).binds, root)
    decreases p
  {
    hide Rooted;
    match p {
      case OptionPat(some, payload) =>
        if some && payload.Some? { PatternRooted(payload.value, subject, None, root); }
      case ResultPat(_, payload) =>
        RootedPaths(subject, root, 2, "");
        if payload.Some? { PatternRooted(payload.value, P.ResultPayload(subject), None, root); }
      case TuplePat(_, elems) => ElementsRooted(elems, subject, 0, root);
      case StructPat(_, fields) => FieldsRooted(fields, subject, root);
      case _ =>
    }
  }

  lemma {:induction false} ElementsRooted(ps: seq<R.Pattern>, subject: Expr, i: nat, root: string)
    requires Rooted(subject, root)
    ensures AllRooted(P.ElementTests(ps, subject, i).binds, root)
    decreases ps
  {
    hide Rooted;
    if ps != [] {
      RootedPaths(subject, root, i + 1, "");
      PatternRooted(ps[0], Index(subject, Integer(i + 1)), None, root);
      ElementsRooted(ps[1..], subject, i + 1, root);
    }
  }

  lemma {:induction false} FieldsRooted(ps: seq<R.FieldPat>, subject: Expr, root: string)
    requires Rooted(subject, root)
    ensures AllRooted(P.FieldTests(ps, subject).binds, root)
    decreases ps
  {
    hide Rooted;
    if ps != [] {
      FieldRooted(ps[0], subject, root);
      FieldsRooted(ps[1..], subject, root);
    }
  }

  lemma {:induction false} FieldRooted(p: R.FieldPat, subject: Expr, root: string)
    requires Rooted(subject, root)
    ensures AllRooted(P.FieldTest(p, subject).binds, root)
    decreases p
  {
    hide Rooted, P.PatTest;
    RootedPaths(subject, root, 0, p.name);
    PatternRooted(p.pattern, Field(subject, p.name), None, root);
  }

  lemma {:induction false} RetainRooted(binds: seq<P.PatternBinding>, mentioned: set<string>, root: string)
    requires AllRooted(binds, root)
    ensures AllRooted(P.Retain(binds, mentioned), root)
  {
    hide Rooted;
    if binds != [] {
      RetainRooted(binds[1..], mentioned, root);
    }
  }

  // ---- running the bindings ----

  /** What the emitted bindings have achieved: every bound path is readable under its source name. */
  ghost predicate Emitted(a: State, binds: seq<P.PatternBinding>, w: World, o: L.Outcome) {
    hide *;
    var c1 := a.c.(sub := EmitBindings(binds, a.c).sub);
    && o.Normal? && Extends(a.s, o.store)
    && (forall z :: Old(a.c, a.q, a.n, z) ==> L.Lookup(o.store, z) == L.Lookup(a.s, z))
    && (forall j :: 0 <= j < |binds| ==> L.Lookup(o.store, c1.Res(binds[j].name)) == L.Eval(binds[j].value, a.s, w.lf))
    && (forall x :: x !in BindNames(binds) ==> c1.Res(x) == a.c.Res(x) && (x in c1.sub <==> x in a.c.sub))
    && (forall x :: x in c1.sub ==> Fixed(a.c, a.q, a.n, c1.sub[x]))
  }

  lemma {:induction false} BindingsRun(a: State, binds: seq<P.PatternBinding>, root: string, w: World, fuel: nat)
    requires hide *; Ready(a) && Fixed(a.c, a.q, a.n, root) && AllRooted(binds, root) && NewBinders(BindNames(binds), a.q)
    requires forall i :: 0 <= i < |binds| ==> L.Eval(binds[i].value, a.s, w.lf).Some?
    ensures Emitted(a, binds, w, L.Run(EmitBindings(binds, a.c).code, a.s, w.lf, fuel))
  {
    hide Ready, Fixed, Rooted, Emitted, L.Eval, L.Run, EmitBindings, BindNames;
    if binds == [] {
      NothingEmitted(a, w, fuel);
    } else {
      var init, b := binds[..|binds| - 1], binds[|binds| - 1];
      BindNamesConcat(init, [b]);
      assert binds == init + [b];
      InitBinders(init, b, a.q);
      assert AllRooted(init, root);
      BindingsRun(a, init, root, w, fuel);
      BindingStep(a, init, b, root, w, fuel);
    }
  }

  lemma InitBinders(init: seq<P.PatternBinding>, b: P.PatternBinding, q: Scope)
    requires NewBinders(BindNames(init + [b]), q)
    ensures NewBinders(BindNames(init), q) && b.name !in BindNames(init) && b.name !in q.live
  {
    var names := BindNames(init + [b]);
    assert names[|init|] == b.name;
    forall i | 0 <= i < |init| ensures BindNames(init)[i] == names[i] {
      assert (init + [b])[i] == init[i];
    }
  }

  lemma NothingEmitted(a: State, w: World, fuel: nat)
    requires Ready(a)
    ensures Emitted(a, [], w, L.Run(EmitBindings([], a.c).code, a.s, w.lf, fuel))
  {
    hide Fixed, Old, NamesApart, SubClear, Agree, L.Eval, L.Lookup;
  }

  lemma BindingStep(a: State, init: seq<P.PatternBinding>, b: P.PatternBinding, root: string, w: World, fuel: nat)
    requires Ready(a) && Fixed(a.c, a.q, a.n, root) && Rooted(b.value, root)
    requires NewBinders(BindNames(init), a.q) && b.name !in BindNames(init) && b.name !in a.q.live
    requires L.Eval(b.value, a.s, w.lf).Some?
    requires Emitted(a, init, w, L.Run(EmitBindings(init, a.c).code, a.s, w.lf, fuel))
    ensures Emitted(a, init + [b], w, L.Run(EmitBindings(init + [b], a.c).code, a.s, w.lf, fuel))
  {
    hide Ready, NamesApart, L.Run, L.Lookup, L.Eval, BindNames;
    var binds := init + [b];
    assert binds[..|binds| - 1] == init && binds[|binds| - 1] == b;
    BindNamesConcat(init, [b]);
    assert [b][1..] == [];
    var code := EmitBindings(init, a.c).code;
    var s1 := L.Run(code, a.s, w.lf, fuel).store;
    SubNames(a, b.name);
    if b.value.Name? {
      assert Reads(b.value, b.value.id);
      NameEval(b.value.id, a.s, w.lf);
      FixedIsOld(a.c, a.q, a.n, root);
      SubstituteStep(a, init, b, w, L.Run(code, a.s, w.lf, fuel));
    } else {
      forall z | Reads(b.value, z) ensures L.Lookup(s1, z) == L.Lookup(a.s, z) {
        FixedIsOld(a.c, a.q, a.n, z);
      }
      EvalReads(b.value, s1, a.s, w.lf);
      var st := L.Local(a.c.loc(b.name), Some(b.value));
      RunAppend(code, [st], a.s, w.lf, fuel);
      RunOne(st, s1, w.lf, fuel);
      DeclareStep(a, init, b, w, s1);
    }
  }

  lemma FixedIsOld(c: Ctx, q: Scope, n: nat, z: string)
    requires Fixed(c, q, n, z)
    ensures Old(c, q, n, z)
  {
  }

  lemma SubNames(a: State, x: string)
    requires Ready(a) && x !in a.q.live
    ensures x !in a.c.sub && NamesApart(a.c)
  {
    hide NamesApart, Fixed, Old, Agree;
  }

  lemma SubstituteStep(a: State, init: seq<P.PatternBinding>, b: P.PatternBinding, w: World, o: L.Outcome)
    requires hide *; Emitted(a, init, w, o) && b.name !in BindNames(init) && b.value.Name?
    requires Fixed(a.c, a.q, a.n, b.value.id) && Old(a.c, a.q, a.n, b.value.id)
    requires L.Eval(b.value, a.s, w.lf) == L.Lookup(a.s, b.value.id)
    ensures Emitted(a, init + [b], w, o)
  {
    hide Fixed, Old, L.Lookup, L.Eval, EmitBindings, BindNames;
    var binds := init + [b];
    var c0, c1 := a.c.(sub := EmitBindings(init, a.c).sub), a.c.(sub := EmitBindings(binds, a.c).sub);
    EmitSubstitution(init, b, a.c);
    BindNamesConcat(init, [b]);
    assert BindNames(binds) == BindNames(init) + [b.name];
    forall j | 0 <= j < |binds| ensures L.Lookup(o.store, c1.Res(binds[j].name)) == L.Eval(binds[j].value, a.s, w.lf) {
      if j < |init| {
        assert binds[j] == init[j] && BindNames(init)[j] == init[j].name;
        assert c1.Res(init[j].name) == c0.Res(init[j].name);
      } else {
        assert c1.Res(b.name) == b.value.id;
      }
    }
    forall x | x !in BindNames(binds) ensures c1.Res(x) == a.c.Res(x) && (x in c1.sub <==> x in a.c.sub) {
      assert BindNames(binds)[|init|] == b.name;
      assert x != b.name && x !in BindNames(init);
    }
    assert forall x :: x in c1.sub ==> Fixed(a.c, a.q, a.n, c1.sub[x]);
  }

  lemma EmitSubstitution(init: seq<P.PatternBinding>, b: P.PatternBinding, c: Ctx)
    requires b.value.Name?
    ensures var g, h := EmitBindings(init + [b], c), EmitBindings(init, c); g.code == h.code && g.sub == h.sub[b.name := b.value.id]
  {
    assert (init + [b])[..|init|] == init;
  }

  lemma DeclareStep(a: State, init: seq<P.PatternBinding>, b: P.PatternBinding, w: World, s1: L.Store)
    requires hide *; Emitted(a, init, w, L.Normal(s1)) && b.name !in BindNames(init) && !b.value.Name?
    requires NamesApart(a.c) && b.name !in a.q.live && b.name !in a.c.sub
    requires L.Eval(b.value, a.s, w.lf).Some?
    requires NewBinders(BindNames(init), a.q)
    ensures Emitted(a, init + [b], w, L.Normal(s1 + [L.Binding(a.c.loc(b.name), L.Eval(b.value, a.s, w.lf).value)]))
  {
    hide L.Lookup, L.Eval, EmitBindings, BindNames, NamesApart, Fixed, Old;
    var binds := init + [b];
    var new_ := L.Binding(a.c.loc(b.name), L.Eval(b.value, a.s, w.lf).value);
    var s2 := s1 + [new_];
    var c1 := a.c.(sub := EmitBindings(init, a.c).sub);
    EmitDeclaration(init, b, a.c);
    BindNamesConcat(init, [b]);
    assert BindNames(binds) == BindNames(init) + [b.name];
    forall z | Old(a.c, a.q, a.n, z) ensures L.Lookup(s2, z) == L.Lookup(a.s, z) {
      LookupAppend(s1, new_, z);
      NewApart(a, b.name, z);
    }
    forall j | 0 <= j < |binds| ensures L.Lookup(s2, c1.Res(binds[j].name)) == L.Eval(binds[j].value, a.s, w.lf) {
      LookupAppend(s1, new_, c1.Res(binds[j].name));
      if j < |init| {
        var y := init[j].name;
        assert binds[j] == init[j] && BindNames(init)[j] == y;
        if y in c1.sub {
          FixedIsOld(a.c, a.q, a.n, c1.sub[y]);
          NewApart(a, b.name, c1.sub[y]);
        } else {
          LocApart(a.c, y, b.name);
        }
      } else {
        assert c1.Res(b.name) == a.c.Res(b.name);
      }
    }
    forall x | x !in BindNames(binds) ensures c1.Res(x) == a.c.Res(x) && (x in c1.sub <==> x in a.c.sub) {
      assert x !in BindNames(init);
    }
    assert Extends(a.s, s2);
  }

  lemma EmitDeclaration(init: seq<P.PatternBinding>, b: P.PatternBinding, c: Ctx)
    requires !b.value.Name?
    ensures EmitBindings(init + [b], c).sub == EmitBindings(init, c).sub
  {
    assert (init + [b])[..|init|] == init;
  }

  /** The local of a variable that is not live is no name in use. */
  lemma NewApart(a: State, x: string, z: string)
    requires NamesApart(a.c) && x !in a.q.live && Old(a.c, a.q, a.n, z)
    ensures z != a.c.loc(x)
  {
    OldNotDeclared(a.c, a.q, a.n, a.n, z);
    if z == a.c.loc(x) {
      OwnLoc(a.c, a.q, a.n, a.n, x, z, Declared);
    }
  }

  lemma LocApart(c: Ctx, x: string, y: string)
    requires NamesApart(c) && x != y
    ensures c.loc(x) != c.loc(y)
  {
  }

  // ---- the state after the bindings ----

  /** Every mentioned slot has a binding with its value. */
  ghost predicate Represented(slots: seq<R.Slot>, binds: seq<P.PatternBinding>, mentioned: set<string>, s: L.Store, f: L.Functions) {
    hide *;
    forall i :: 0 <= i < |slots| && slots[i].name in mentioned ==>
      E.Expressible(slots[i].value) &&
      exists j :: 0 <= j < |binds| && binds[j].name == slots[i].name && L.Eval(binds[j].value, s, f) == Some(E.Enc(slots[i].value))
  }

  lemma {:induction false} GetConcat(env: R.Env, more: R.Env, x: string)
    ensures R.Get(env + more, x) == if R.Get(more, x).Some? then R.Get(more, x) else R.Get(env, x)
  {
    if more == [] {
      assert env + more == env;
    } else {
      var init := more[..|more| - 1];
      assert env + more == (env + init) + [more[|more| - 1]] && more == init + [more[|more| - 1]];
      GetAppend(env + init, more[|more| - 1], x);
      GetAppend(init, more[|more| - 1], x);
      GetConcat(env, init, x);
    }
  }

  lemma {:induction false} GetFinds(env: R.Env, x: string) returns (i: nat)
    requires R.Get(env, x).Some?
    ensures i < |env| && env[i] == R.Slot(x, R.Get(env, x).value)
  {
    if env[|env| - 1].name == x {
      i := |env| - 1;
    } else {
      i := GetFinds(env[..|env| - 1], x);
    }
  }

  lemma BoundReady(a: State, slots: seq<R.Slot>, binds: seq<P.PatternBinding>, names: seq<string>, w: World, o: L.Outcome)
    requires hide L.Eval, L.Lookup, E.Enc, E.Expressible, Ready;
             Ready(a) && Emitted(a, binds, w, o) && Represented(slots, binds, a.c.mentioned, a.s, w.lf)
    requires NewBinders(names, a.q) && SlotNames(slots) == names && BindsOf(binds, names)
    ensures Ready(State(a.c.(sub := EmitBindings(binds, a.c).sub), a.q.Bind(Elements(names)), a.n, a.env + slots, o.store))
  {
    hide NamesApart, L.Lookup, L.Eval, E.Enc, E.Expressible, Old, Fixed, Agree;
    var c1, q1 := a.c.(sub := EmitBindings(binds, a.c).sub), a.q.Bind(Elements(names));
    var b := State(c1, q1, a.n, a.env + slots, o.store);
    EmitMarks(binds, names, a.c, a.q, a.n, a.n, Discard, "", Declared);
    BoundSubFixed(a, binds, names, w, o);
    assert NamesApart(c1) by { SameNaming(a.c, c1); }
    forall i | 0 <= i < |b.env| ensures b.env[i].name in q1.live {
      if i >= |a.env| {
        assert SlotNames(slots)[i - |a.env|] == b.env[i].name;
        assert names[i - |a.env|] in Elements(names);
      }
    }
    BoundAgree(a, slots, binds, names, w, o);
    assert MayBound(b.env, q1.may) by {
      forall x | x in q1.may ensures R.Get(b.env, x).Some? {
        GetConcat(a.env, slots, x);
      }
    }
    if c1.brk.Some? {
      FixedMonotone(a.c, a.q, a.n, q1, a.n, c1.brk.value);
      assert Old(c1, q1, a.n, c1.brk.value) by { OldSameNaming(a.c, c1, q1, a.n, c1.brk.value); }
      ExtendsBound(a.s, o.store, c1.brk.value);
    }
  }

  lemma SameNaming(c: Ctx, c1: Ctx)
    requires NamesApart(c) && c1.loc == c.loc && c1.tmp == c.tmp
    ensures NamesApart(c1)
  {
  }

  lemma OldSameNaming(c: Ctx, c1: Ctx, q: Scope, n: nat, z: string)
    requires c1.loc == c.loc && c1.tmp == c.tmp
    ensures Old(c, q, n, z) ==> Old(c1, q, n, z)
    ensures Fixed(c, q, n, z) ==> Fixed(c1, q, n, z)
  {
  }

  lemma BoundSubFixed(a: State, binds: seq<P.PatternBinding>, names: seq<string>, w: World, o: L.Outcome)
    requires Emitted(a, binds, w, o)
    ensures SubFixed(a.c.(sub := EmitBindings(binds, a.c).sub), a.q.Bind(Elements(names)), a.n)
  {
    hide Fixed, Old, L.Lookup, L.Eval, NamesApart, Agree;
    var c1, q1 := a.c.(sub := EmitBindings(binds, a.c).sub), a.q.Bind(Elements(names));
    forall x | x in c1.sub ensures Fixed(c1, q1, a.n, c1.sub[x]) {
      FixedMonotone(a.c, a.q, a.n, q1, a.n, c1.sub[x]);
      OldSameNaming(a.c, c1, q1, a.n, c1.sub[x]);
    }
  }

  lemma BoundAgree(a: State, slots: seq<R.Slot>, binds: seq<P.PatternBinding>, names: seq<string>, w: World, o: L.Outcome)
    requires hide L.Eval, L.Lookup, E.Enc, E.Expressible, Agree, Ready;
             Ready(a) && Emitted(a, binds, w, o) && Represented(slots, binds, a.c.mentioned, a.s, w.lf)
    requires NewBinders(names, a.q) && SlotNames(slots) == names && BindsOf(binds, names)
    ensures Agree(a.c.(sub := EmitBindings(binds, a.c).sub), a.env + slots, o.store, None)
  {
    hide NamesApart, L.Lookup, L.Eval, E.Enc, E.Expressible, Old, Fixed, Ready, EmitBindings, SubClear, BindNames, R.Get;
    var c1 := a.c.(sub := EmitBindings(binds, a.c).sub);
    forall x | R.Get(a.env + slots, x).Some? && x in c1.mentioned
      ensures Holds(c1, a.env + slots, o.store, x)
    {
      GetConcat(a.env, slots, x);
      if R.Get(slots, x).Some? {
        var i := GetFinds(slots, x);
        assert slots[i].name in a.c.mentioned;
        var j :| 0 <= j < |binds| && binds[j].name == slots[i].name && L.Eval(binds[j].value, a.s, w.lf) == Some(E.Enc(slots[i].value));
      } else {
        ReadyIsLive(a);
        assert Holds(a.c, a.env, a.s, x);
        assert SameNames(a.env, a.env);
        LiveName(a.env, a.env, a.q.live, x);
        assert x !in BindNames(binds) by {
          forall j | 0 <= j < |binds| ensures binds[j].name != x {
            assert binds[j].name in names;
          }
        }
        ResOld(a, x);
      }
    }
  }

  // ---- together with the tests ----

  lemma {:induction false} RetainHas(slots: seq<R.Slot>, mentioned: set<string>, i: nat) returns (j: nat)
    requires i < |slots| && slots[i].name in mentioned
    ensures j < |P.RetainSlots(slots, mentioned)| && P.RetainSlots(slots, mentioned)[j] == slots[i]
  {
    if i == 0 {
      j := 0;
    } else {
      j := RetainHas(slots[1..], mentioned, i - 1);
      j := j + if slots[0].name in mentioned then 1 else 0;
    }
  }

  lemma {:induction false} RetainIn(slots: seq<R.Slot>, mentioned: set<string>)
    ensures forall i :: 0 <= i < |P.RetainSlots(slots, mentioned)| ==> P.RetainSlots(slots, mentioned)[i] in slots
  {
    if slots != [] {
      RetainIn(slots[1..], mentioned);
      var rest := P.RetainSlots(slots[1..], mentioned);
      forall i | 0 <= i < |rest| ensures rest[i] in slots {
        assert rest[i] in slots[1..];
      }
    }
  }

  ghost predicate DistinctSlots(slots: seq<R.Slot>) {
    forall i, j :: 0 <= i < j < |slots| ==> slots[i].name != slots[j].name
  }

  lemma {:induction false} RetainDistinct(slots: seq<R.Slot>, mentioned: set<string>)
    requires DistinctSlots(slots)
    ensures DistinctSlots(P.RetainSlots(slots, mentioned))
  {
    if slots != [] {
      RetainDistinct(slots[1..], mentioned);
      var rest := P.RetainSlots(slots[1..], mentioned);
      RetainIn(slots[1..], mentioned);
      forall i | 0 <= i < |rest| ensures rest[i].name != slots[0].name {
        var k :| 0 <= k < |slots[1..]| && slots[1..][k] == rest[i];
        assert slots[k + 1] == rest[i];
      }
      DistinctCons(slots[0], rest);
    }
  }

  lemma DistinctCons(first: R.Slot, rest: seq<R.Slot>)
    requires DistinctSlots(rest) && forall i :: 0 <= i < |rest| ==> rest[i].name != first.name
    ensures DistinctSlots([first] + rest) && DistinctSlots([] + rest)
  {
    assert [] + rest == rest;
  }

  lemma SlotsDistinct(slots: seq<R.Slot>)
    ensures Distinct(SlotNames(slots)) <==> DistinctSlots(slots)
  {
    hide SlotNames;
    var names := SlotNames(slots);
    if Distinct(names) {
      forall i, j | 0 <= i < j < |slots| ensures slots[i].name != slots[j].name {
        assert names[i] != names[j];
      }
    }
    if DistinctSlots(slots) {
      forall i, j | 0 <= i < j < |names| ensures names[i] != names[j] {
        assert slots[i].name != slots[j].name;
      }
    }
  }

  lemma BindNamesAreSlotNames(binds: seq<P.PatternBinding>, slots: seq<R.Slot>, s: L.Store, f: L.Functions)
    requires P.BindsAgree(binds, slots, s, f)
    ensures BindNames(binds) == SlotNames(slots)
  {
    hide L.Eval, E.Enc, E.Expressible;
  }

  /** The variables of an arm that matched: what the arm's code may rely on. */
  lemma ArmReady(a: State, pats: seq<R.Pattern>, v: R.Val, root: string, cachedTag: Option<Expr>, w: World, fuel: nat)
    requires hide *; Ready(a) && Fixed(a.c, a.q, a.n, root) && NewBinders(ArmBinders(pats), a.q)
    requires E.Expressible(v) && L.Eval(Name(root), a.s, w.lf) == Some(E.Enc(v)) && P.CachedOk(cachedTag, v, a.s, w.lf)
    requires R.MatchArm(pats, v).Yes?
    ensures var t := P.ArmTests(pats, Name(root), cachedTag, a.c.mentioned);
            var b := EmitBindings(t.binds, a.c);
            var o := L.Run(b.code, a.s, w.lf, fuel);
            && o.Normal? && Extends(a.s, o.store)
            && Ready(State(a.c.(sub := b.sub), a.q.Bind(Elements(ArmBinders(pats))), a.n, a.env + R.MatchArm(pats, v).binds, o.store))
  {
    hide Ready, Fixed, L.Eval, L.Run, P.CachedOk, E.Expressible, E.Enc, R.MatchArm, P.ArmTests, P.AndAll, P.RetainSlots, P.BindsAgree,
      NewBinders, Represented, Emitted, SlotNames;
    var slots := R.MatchArm(pats, v).binds;
    var t := P.ArmTests(pats, Name(root), cachedTag, a.c.mentioned);
    P.ArmTestsDecide(pats, v, Name(root), cachedTag, a.c.mentioned, a.s, w.lf);
    ArmMatchBinders(pats, v);
    ArmBindsOf(pats, Name(root), cachedTag, a.c.mentioned);
    ArmRooted(pats, root, cachedTag, a.c.mentioned);
    KeptBindings(slots, t.binds, ArmBinders(pats), a.c.mentioned, a.q, a.s, w.lf);
    BindingsRun(a, t.binds, root, w, fuel);
    BoundReady(a, slots, t.binds, ArmBinders(pats), w, L.Run(EmitBindings(t.binds, a.c).code, a.s, w.lf, fuel));
    assert L.Run(EmitBindings(t.binds, a.c).code, a.s, w.lf, fuel).Normal? && Extends(a.s, L.Run(EmitBindings(t.binds, a.c).code, a.s, w.lf, fuel).store) by {
      EmittedRuns(a, t.binds, w, L.Run(EmitBindings(t.binds, a.c).code, a.s, w.lf, fuel));
    }
  }

  lemma EmittedRuns(a: State, binds: seq<P.PatternBinding>, w: World, o: L.Outcome)
    requires hide *; Emitted(a, binds, w, o)
    ensures o.Normal? && Extends(a.s, o.store)
  {
    hide L.Eval;
  }

  /** The bindings that some code mentions represent all the slots that matter. */
  lemma KeptBindings(slots: seq<R.Slot>, binds: seq<P.PatternBinding>, names: seq<string>, mentioned: set<string>, q: Scope, s: L.Store, f: L.Functions)
    requires hide *; P.BindsAgree(binds, P.RetainSlots(slots, mentioned), s, f) && SlotNames(slots) == names
    requires BindsOf(binds, names) && NewBinders(names, q)
    ensures NewBinders(BindNames(binds), q) && Represented(slots, binds, mentioned, s, f)
    ensures forall i :: 0 <= i < |binds| ==> L.Eval(binds[i].value, s, f).Some?
  {
    hide L.Eval, E.Expressible, E.Enc, P.RetainSlots;
    var kept := P.RetainSlots(slots, mentioned);
    SlotsDistinct(slots);
    RetainDistinct(slots, mentioned);
    SlotsDistinct(kept);
    BindNamesAreSlotNames(binds, kept, s, f);
    forall i | 0 <= i < |binds| ensures BindNames(binds)[i] !in q.live && BindNames(binds)[i] !in q.mutable {
      assert binds[i].name in names;
    }
    forall i | 0 <= i < |slots| && slots[i].name in mentioned
      ensures E.Expressible(slots[i].value)
      ensures exists j :: 0 <= j < |binds| && binds[j].name == slots[i].name && L.Eval(binds[j].value, s, f) == Some(E.Enc(slots[i].value))
    {
      var j := RetainHas(slots, mentioned, i);
      assert binds[j].name == kept[j].name;
    }
  }

  lemma ArmRooted(pats: seq<R.Pattern>, root: string, cachedTag: Option<Expr>, mentioned: set<string>)
    ensures AllRooted(P.ArmTests(pats, Name(root), cachedTag, mentioned).binds, root)
  {
    hide P.PatTest;
    assert Rooted(Name(root), root);
    hide Rooted;
    if |pats| == 1 {
      PatternRooted(pats[0], Name(root), cachedTag, root);
      RetainRooted(P.PatTest(pats[0], Name(root), cachedTag).binds, mentioned, root);
    }
  }

  /** The same for the pattern of an `if let`, whose bindings are all emitted. */
  lemma PatternReady(a: State, p: R.Pattern, v: R.Val, root: string, w: World, fuel: nat)
    requires hide *; Ready(a) && Fixed(a.c, a.q, a.n, root) && NewBinders(Binders(p), a.q)
    requires E.Expressible(v) && L.Eval(Name(root), a.s, w.lf) == Some(E.Enc(v))
    requires R.MatchPattern(p, v).Yes?
    ensures var t := P.PatTest(p, Name(root), None);
            var b := EmitBindings(t.binds, a.c);
            var o := L.Run(b.code, a.s, w.lf, fuel);
            && o.Normal? && Extends(a.s, o.store)
            && Ready(State(a.c.(sub := b.sub), a.q.Bind(Elements(Binders(p))), a.n, a.env + R.MatchPattern(p, v).binds, o.store))
  {
    hide Ready, Fixed, L.Eval, L.Run, E.Expressible, E.Enc, R.MatchPattern, P.PatTest;
    var slots := R.MatchPattern(p, v).binds;
    var t := P.PatTest(p, Name(root), None);
    P.PatTestDecides(p, v, Name(root), None, a.s, w.lf);
    MatchBinders(p, v);
    BindNamesAreSlotNames(t.binds, slots, a.s, w.lf);
    PatBindsOf(p, Name(root), None);
    assert Rooted(Name(root), root);
    PatternRooted(p, Name(root), None, root);
    assert Represented(slots, t.binds, a.c.mentioned, a.s, w.lf) by {
      forall i | 0 <= i < |slots|
        ensures exists j :: 0 <= j < |t.binds| && t.binds[j].name == slots[i].name && L.Eval(t.binds[j].value, a.s, w.lf) == Some(E.Enc(slots[i].value))
      {
        assert t.binds[i].name == slots[i].name;
      }
    }
    BindingsRun(a, t.binds, root, w, fuel);
    BoundReady(a, slots, t.binds, Binders(p), w, L.Run(EmitBindings(t.binds, a.c).code, a.s, w.lf, fuel));
  }
}
