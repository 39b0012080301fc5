/** How a source state and a Lua state correspond while lowered code runs. */
module LoweringState {
  import opened Wrappers
  import opened LuaIr
  import opened Lowering
  import opened LoweringScope
  import opened LoweringMarks
  import opened LuaFrame
  import opened RuaFrame
  import R = RuaLang
  import L = LuaRun
  import E = Encoding

  // ---- names ----

  /** Locals and temporaries have Lua names of their own. */
  ghost predicate NamesApart(c: Ctx) {
    && (forall i: nat, j: nat :: c.tmp(i) == c.tmp(j) ==> i == j)
    && (forall x, y :: c.loc(x) == c.loc(y) ==> x == y)
    && (forall i: nat, x :: c.tmp(i) != c.loc(x))
  }

  /** A name in use before the code at hand: an earlier temporary or the local of a live variable. */
  ghost predicate Old(c: Ctx, q: Scope, n: nat, z: string) {
    || (exists i: nat :: 1 <= i <= n && z == c.tmp(i))
    || (exists x :: x in q.live && z == c.loc(x))
  }

  /** A name in use that nothing assigns any more. */
  ghost predicate Fixed(c: Ctx, q: Scope, n: nat, z: string) {
    || (exists i: nat :: 1 <= i <= n && z == c.tmp(i))
    || (exists x :: x in q.live && x !in q.may && z == c.loc(x))
  }

  lemma FixedNotOwn(c: Ctx, q: Scope, n: nat, m: nat, z: string, k: Mark)
    requires NamesApart(c) && Fixed(c, q, n, z)
    ensures !Own(c, q, n, m, z, k)
  {
  }

  lemma OldNotDeclared(c: Ctx, q: Scope, n: nat, m: nat, z: string)
    requires NamesApart(c) && Old(c, q, n, z)
    ensures !Own(c, q, n, m, z, Declared)
  {
  }

  lemma OldTmp(c: Ctx, q: Scope, n: nat, i: nat)
    requires 1 <= i <= n
    ensures Old(c, q, n, c.tmp(i)) && Fixed(c, q, n, c.tmp(i))
  {
  }

  lemma OldLoc(c: Ctx, q: Scope, n: nat, x: string)
    requires x in q.live
    ensures Old(c, q, n, c.loc(x)) && (x !in q.may ==> Fixed(c, q, n, c.loc(x)))
  {
  }

  // ---- states ----

  /** The functions of the program, on both sides. */
  datatype World = World(rf: R.Functions, lf: L.Functions)

  /** Lua functions compute what the source functions do, on represented values. */
  ghost predicate Compiled(w: World) {
    && (forall g, vs :: w.rf(g, vs).Some? && (forall i :: 0 <= i < |vs| ==> E.Expressible(vs[i])) ==>
          E.Expressible(w.rf(g, vs).value) && w.lf(g, E.EncAll(vs)) == Some(E.Enc(w.rf(g, vs).value)))
    && (forall v :: w.lf("ok", [v]) == Some(L.TableV([L.BoolV(true), v], map[])))
    && (forall v :: w.lf("err", [v]) == Some(L.TableV([L.BoolV(false), v], map[])))
  }

  ghost predicate Holds(c: Ctx, env: R.Env, s: L.Store, x: string) {
    var v := R.Get(env, x);
    v.Some? && E.Expressible(v.value) && L.Lookup(s, c.Res(x)) == Some(E.Enc(v.value))
  }

  /** Every variable in scope that is mentioned is represented, except one Lua name being delivered to. */
  ghost predicate Agree(c: Ctx, env: R.Env, s: L.Store, except: Option<string>) {
    forall x :: R.Get(env, x).Some? && x in c.mentioned && except != Some(c.Res(x)) ==> Holds(c, env, s, x)
  }

  ghost predicate EnvLive(env: R.Env, live: set<string>) {
    forall i :: 0 <= i < |env| ==> env[i].name in live
  }

  /** What may still be assigned is in scope. */
  ghost predicate MayBound(env: R.Env, may: set<string>) {
    forall x :: x in may ==> R.Get(env, x).Some?
  }

  ghost predicate SubFixed(c: Ctx, q: Scope, n: nat) {
    forall x :: x in c.sub ==> Fixed(c, q, n, c.sub[x])
  }

  /** A place in the generated code, the number of temporaries before it, and the two states there. */
  datatype State = State(c: Ctx, q: Scope, n: nat, env: R.Env, s: L.Store)

  ghost predicate Ready(a: State) {
    hide *;
    && NamesApart(a.c) && SubClear(a.c, a.q) && SubFixed(a.c, a.q, a.n)
    && EnvLive(a.env, a.q.live) && MayBound(a.env, a.q.may)
    && Agree(a.c, a.env, a.s, None)
    && (a.c.brk.Some? ==> Old(a.c, a.q, a.n, a.c.brk.value) && L.Bound(a.s, a.c.brk.value))
  }

  ghost predicate DestReady(a: State, d: Dest) {
    d.Var? ==> Old(a.c, a.q, a.n, d.x) && L.Bound(a.s, d.x)
  }

  // ---- outcomes ----

  /** An evaluation that does not finish here ends the Lua code in the same way. */
  ghost predicate Exits(r: R.Result, o: L.Outcome, c: Ctx) {
    hide *;
    match r
    case Done(_, _) => false
    case Brk(v, env) =>
      && E.Expressible(v) && o.Broke?
      && Agree(c, env, o.store, c.brk)
      && (c.brk.Some? ==> L.Lookup(o.store, c.brk.value) == Some(E.Enc(v)))
    case Ret(v) => E.Expressible(v) && o == L.Returned(E.Enc(v))
    case Panic => o == L.Failed
    case OutOfFuel => o == L.OutOfFuel
    case Stuck => true
  }

  /** The value arrives at its destination; falling through in return position means nil. */
  ghost predicate Arrives(v: R.Val, env: R.Env, o: L.Outcome, c: Ctx, d: Dest, falls: bool) {
    hide *;
    E.Expressible(v) &&
    match d
    case Discard => o.Normal? && Agree(c, env, o.store, None)
    case Var(z) => o.Normal? && Agree(c, env, o.store, Some(z)) && L.Lookup(o.store, z) == Some(E.Enc(v))
    case ToReturn => o == L.Returned(E.Enc(v)) || (falls && o.Normal? && E.Enc(v) == L.NilV)
  }

  ghost predicate Sim(r: R.Result, o: L.Outcome, c: Ctx, d: Dest, falls: bool) {
    hide *;
    if r.Done? then Arrives(r.v, r.env, o, c, d, falls) else Exits(r, o, c)
  }

  /** The value is what the given Lua expression evaluates to after the code has run. */
  ghost predicate Computes(r: R.Result, o: L.Outcome, e: Expr, c: Ctx, w: World) {
    hide *;
    if r.Done? then
      E.Expressible(r.v) && o.Normal? && Agree(c, r.env, o.store, None) && L.Eval(e, o.store, w.lf) == Some(E.Enc(r.v))
    else Exits(r, o, c)
  }

  // ---- moving between states ----

  lemma RunExtends(code: Code, s: L.Store, f: L.Functions, fuel: nat)
    ensures hide L.Run; var o := L.Run(code, s, f, fuel); Finished(o) ==> Extends(s, o.store)
  {
    hide L.Run;
    RunKeeps(code, s, f, fuel, "");
  }

  lemma ResOld(a: State, x: string)
    requires Ready(a) && x in a.q.live
    ensures Old(a.c, a.q, a.n, a.c.Res(x))
    ensures x in a.c.sub || x !in a.q.may ==> Fixed(a.c, a.q, a.n, a.c.Res(x))
  {
  }

  lemma FixedMonotone(c: Ctx, q: Scope, n: nat, q1: Scope, n1: nat, z: string)
    requires n <= n1 && q.live <= q1.live && forall x :: x in q1.may && x in q.live ==> x in q.may
    ensures Fixed(c, q, n, z) ==> Fixed(c, q1, n1, z)
    ensures Old(c, q, n, z) ==> Old(c, q1, n1, z)
  {
    if exists x :: x in q.live && x !in q.may && z == c.loc(x) {
      var x :| x in q.live && x !in q.may && z == c.loc(x);
      assert x in q1.live && x !in q1.may;
    }
  }

  lemma MayBoundSame(env: R.Env, after: R.Env, may: set<string>)
    requires SameNames(env, after) && MayBound(env, may)
    ensures MayBound(after, may)
  {
    forall x | x in may ensures R.Get(after, x).Some? {
      SameNamesGet(env, after, x);
    }
  }

  /** After code that finished with corresponding states, the next place is ready. */
  lemma ReadyNext(a: State, n1: nat, env: R.Env, s: L.Store)
    requires Ready(a) && a.n <= n1 && SameNames(a.env, env) && Extends(a.s, s) && Agree(a.c, env, s, None)
    ensures Ready(a.(n := n1, env := env, s := s))
  {
    hide NamesApart, SubClear, Fixed, Agree, Old;
    MayBoundSame(a.env, env, a.q.may);
    forall z ensures Fixed(a.c, a.q, a.n, z) ==> Fixed(a.c, a.q, n1, z)
    {
      FixedMonotone(a.c, a.q, a.n, a.q, n1, z);
    }
    if a.c.brk.Some? {
      FixedMonotone(a.c, a.q, a.n, a.q, n1, a.c.brk.value);
      ExtendsBound(a.s, s, a.c.brk.value);
    }
  }

  lemma DestNext(a: State, n1: nat, env: R.Env, s: L.Store, d: Dest)
    requires DestReady(a, d) && a.n <= n1 && Extends(a.s, s)
    ensures DestReady(a.(n := n1, env := env, s := s), d)
  {
    hide Old;
    if d.Var? {
      FixedMonotone(a.c, a.q, a.n, a.q, n1, d.x);
      ExtendsBound(a.s, s, d.x);
    }
  }

  /** Fewer variables may be assigned. */
  lemma ReadyWithout(a: State, names: set<string>)
    requires Ready(a)
    ensures Ready(a.(q := a.q.Without(names)))
  {
    hide NamesApart, Agree, Fixed, Old, SubClear;
    SubClearMinus(a.c, a.q, names);
    forall z ensures Fixed(a.c, a.q, a.n, z) ==> Fixed(a.c, a.q.Without(names), a.n, z)
      ensures Old(a.c, a.q, a.n, z) ==> Old(a.c, a.q.Without(names), a.n, z)
    {
      FixedMonotone(a.c, a.q, a.n, a.q.Without(names), a.n, z);
    }
  }

  /** A new temporary does not disturb anything. */
  lemma AgreeWithTmp(c: Ctx, q: Scope, n: nat, env: R.Env, s: L.Store, i: nat, v: L.Value)
    requires NamesApart(c) && SubFixed(c, q, n) && Agree(c, env, s, None) && n < i
    ensures Agree(c, env, s + [L.Binding(c.tmp(i), v)], None)
  {
    hide E.Expressible, E.Enc, L.Lookup;
    forall x | R.Get(env, x).Some? && x in c.mentioned
      ensures Holds(c, env, s + [L.Binding(c.tmp(i), v)], x)
    {
      assert Holds(c, env, s, x);
      LookupAppend(s, L.Binding(c.tmp(i), v), c.Res(x));
    }
  }

  /** Declaring temporary number a.n + 1. */
  lemma ReadyWithTmp(a: State, v: L.Value)
    requires hide *; Ready(a)
    ensures Ready(a.(n := a.n + 1, s := a.s + [L.Binding(a.c.tmp(a.n + 1), v)]))
    ensures L.Lookup(a.s + [L.Binding(a.c.tmp(a.n + 1), v)], a.c.tmp(a.n + 1)) == Some(v)
  {
    hide NamesApart, SubClear, SubFixed, Agree;
    var s1 := a.s + [L.Binding(a.c.tmp(a.n + 1), v)];
    AgreeWithTmp(a.c, a.q, a.n, a.env, a.s, a.n + 1, v);
    LookupAppend(a.s, L.Binding(a.c.tmp(a.n + 1), v), a.c.tmp(a.n + 1));
    assert Extends(a.s, s1);
    assert SameNames(a.env, a.env);
    ReadyNext(a, a.n + 1, a.env, s1);
  }

  /** Storing into a name leaves everything else in agreement. */
  lemma AgreeUpdate(c: Ctx, env: R.Env, s: L.Store, z: string, v: L.Value, except: Option<string>)
    requires L.Bound(s, z) && (Agree(c, env, s, None) || Agree(c, env, s, Some(z)))
    ensures Agree(c, env, L.Update(s, z, v), Some(z)) && L.Lookup(L.Update(s, z, v), z) == Some(v)
  {
    hide E.Expressible, E.Enc, L.Lookup, L.Update;
    LookupUpdate(s, z, v, z);
    forall x | R.Get(env, x).Some? && x in c.mentioned && c.Res(x) != z
      ensures Holds(c, env, L.Update(s, z, v), x)
    {
      assert Holds(c, env, s, x);
      LookupUpdate(s, z, v, c.Res(x));
    }
  }

  /** The delivered temporary is none of the names in use. */
  lemma AgreeForget(a: State, env: R.Env, s: L.Store, i: nat)
    requires Ready(a) && SameNames(a.env, env) && Agree(a.c, env, s, Some(a.c.tmp(i))) && a.n < i
    ensures Agree(a.c, env, s, None)
  {
    hide E.Expressible, E.Enc, L.Lookup, Holds;
    forall x | R.Get(env, x).Some? && x in a.c.mentioned
      ensures Holds(a.c, env, s, x)
    {
      LiveName(env, a.env, a.q.live, x);
      ResOld(a, x);
      assert a.c.Res(x) != a.c.tmp(i);
    }
  }

  lemma LiveName(env: R.Env, before: R.Env, live: set<string>, x: string)
    requires SameNames(before, env) && EnvLive(before, live) && R.Get(env, x).Some?
    ensures x in live
  {
    GetIsNamed(env, x);
    var i :| 0 <= i < |env| && env[i].name == x;
    assert before[i].name == x;
  }

  // ---- leaving a Lua block ----

  /** The code declares nothing that was in use before it. */
  ghost predicate DeclaresNew(code: Code, c: Ctx, q: Scope, n: nat) {
    forall z :: Old(c, q, n, z) ==> !SomeMarks(code, z, Declared)
  }

  lemma BoundedDeclaresNew(code: Code, c: Ctx, q: Scope, n: nat, m: nat, d: Dest)
    requires NamesApart(c) && forall z :: Bounded(code, c, q, n, m, d, z, Declared)
    ensures DeclaresNew(code, c, q, n)
  {
    hide NamesApart, Old, Own;
    forall z | Old(c, q, n, z)
      ensures !SomeMarks(code, z, Declared)
    {
      OldNotDeclared(c, q, n, m, z);
      assert Bounded(code, c, q, n, m, d, z, Declared);
      MarksBreaking(code, z);
    }
  }

  /** Dropping the locals of a block changes no name that was in use before it. */
  lemma LeaveLookup(code: Code, c: Ctx, q: Scope, n: nat, s: L.Store, f: L.Functions, fuel: nat, z: string)
    requires hide L.Lookup, L.Run, SomeMarks; DeclaresNew(code, c, q, n) && Old(c, q, n, z)
    ensures var o := L.Run(code, s, f, fuel);
            Finished(o) ==> |s| <= |o.store| && L.Lookup(o.store[..|s|], z) == L.Lookup(o.store, z)
  {
    hide L.Run, L.Lookup, Old, SomeMarks, Marks;
    var o := L.Run(code, s, f, fuel);
    RunKeeps(code, s, f, fuel, z);
    if Finished(o) {
      LookupPrefix(o.store, |s|, z);
    }
  }

  lemma LeaveAgree(a: State, code: Code, f: L.Functions, fuel: nat, env: R.Env, except: Option<string>)
    requires hide L.Run, SomeMarks, Agree, Ready; Ready(a) && DeclaresNew(code, a.c, a.q, a.n) && SameNames(a.env, env)
    requires var o := L.Run(code, a.s, f, fuel); Finished(o) && Agree(a.c, env, o.store, except)
    ensures var o := L.Run(code, a.s, f, fuel); |a.s| <= |o.store| && Agree(a.c, env, o.store[..|a.s|], except)
  {
    hide L.Run, L.Lookup, Old, Ready, DeclaresNew, E.Expressible, E.Enc;
    var o := L.Run(code, a.s, f, fuel);
    RunExtends(code, a.s, f, fuel);
    forall x | R.Get(env, x).Some? && x in a.c.mentioned && except != Some(a.c.Res(x))
      ensures Holds(a.c, env, o.store[..|a.s|], x)
    {
      assert Holds(a.c, env, o.store, x);
      assert EnvLive(a.env, a.q.live) by { ReadyIsLive(a); }
      LiveName(env, a.env, a.q.live, x);
      ResOld(a, x);
      LeaveLookup(code, a.c, a.q, a.n, a.s, f, fuel, a.c.Res(x));
    }
  }

  lemma ReadyIsLive(a: State)
    requires hide *; Ready(a)
    ensures EnvLive(a.env, a.q.live) && MayBound(a.env, a.q.may) && NamesApart(a.c) && SubClear(a.c, a.q) && SubFixed(a.c, a.q, a.n) && Agree(a.c, a.env, a.s, None)
    ensures a.c.brk.Some? ==> Old(a.c, a.q, a.n, a.c.brk.value) && L.Bound(a.s, a.c.brk.value)
  {
    hide Agree;
  }

  /** Code run as the body of a Lua block delivers the same. */
  lemma LeaveSim(a: State, code: Code, f: L.Functions, fuel: nat, r: R.Result, d: Dest, falls: bool)
    requires hide *; Ready(a) && DestReady(a, d) && DeclaresNew(code, a.c, a.q, a.n) && Shape(a.env, r)
    requires Sim(r, L.Run(code, a.s, f, fuel), a.c, d, falls)
    ensures Sim(r, L.Leave(L.Run(code, a.s, f, fuel), |a.s|), a.c, d, falls)
  {
    hide L.Run, L.Lookup, Old, Ready, DeclaresNew, Agree, E.Expressible, E.Enc;
    var o := L.Run(code, a.s, f, fuel);
    RunExtends(code, a.s, f, fuel);
    ReadyIsLive(a);
    if r.Done? {
      if d.Discard? {
        LeaveAgree(a, code, f, fuel, r.env, None);
      } else if d.Var? {
        LeaveAgree(a, code, f, fuel, r.env, Some(d.x));
        LeaveLookup(code, a.c, a.q, a.n, a.s, f, fuel, d.x);
      }
    } else if r.Brk? {
      LeaveAgree(a, code, f, fuel, r.env, a.c.brk);
      if a.c.brk.Some? {
        LeaveLookup(code, a.c, a.q, a.n, a.s, f, fuel, a.c.brk.value);
      }
    }
  }

  /** Code that exits early exits the same way from inside a block. */
  lemma LeaveExits(a: State, code: Code, f: L.Functions, fuel: nat, r: R.Result)
    requires hide *; Ready(a) && DeclaresNew(code, a.c, a.q, a.n) && Shape(a.env, r)
    requires Exits(r, L.Run(code, a.s, f, fuel), a.c)
    ensures Exits(r, L.Leave(L.Run(code, a.s, f, fuel), |a.s|), a.c)
  {
    hide L.Run, Ready, DeclaresNew, Agree, Exits;
    assert !r.Done? by { ExitsNotDone(r, L.Run(code, a.s, f, fuel), a.c); }
    LeaveSim(a, code, f, fuel, r, Discard, false);
  }

  lemma ExitsNotDone(r: R.Result, o: L.Outcome, c: Ctx)
    requires Exits(r, o, c)
    ensures !r.Done? && (!r.Stuck? ==> !o.Normal?)
  {
    hide L.Lookup, E.Enc, E.Expressible, Agree;
  }

  // ---- running in sequence ----

  /** If the first part exits, so does the whole. */
  lemma ExitFirst(x: Code, y: Code, s: L.Store, f: L.Functions, fuel: nat, r: R.Result, c: Ctx)
    requires Exits(r, L.Run(x, s, f, fuel), c)
    ensures Exits(r, L.Run(x + y, s, f, fuel), c)
  {
    hide L.Run, Agree, L.Lookup, E.Enc, E.Expressible;
    RunAppend(x, y, s, f, fuel);
  }
}
