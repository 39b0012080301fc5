/** A whole program: functions that call one another, each lowered on its own. */
module LoweringProgram {
  import opened Wrappers
  import opened Lowering
  import opened LoweringScope
  import opened LoweringState
  import opened LoweringPatterns
  import opened LoweringProof
  import R = RuaLang
  import L = LuaRun
  import E = Encoding

  datatype Function = Function(params: seq<string>, body: R.Block, mentioned: set<string>, mutable: set<string>)
  {
    function Scope(): Scope {
      LoweringScope.Scope(mentioned, mutable, Elements(params), Elements(params) * mutable)
    }

    function Context(names: Naming): Ctx {
      Ctx(names.loc, names.tmp, mentioned, mutable, map[], None)
    }
  }

  /** The Lua names of locals and temporaries. */
  datatype Naming = Naming(loc: string -> string, tmp: nat -> string)

  type Program = map<string, Function>

  /** Every function is one the lowering is right for, and none is named like the runtime's own. */
  ghost predicate ProgramFits(p: Program) {
    hide *;
    && "ok" !in p && "err" !in p
    && forall g :: g in p ==> Distinct(p[g].params) && FitsBlock(p[g].body, p[g].Scope(), true)
  }

  // ---- calling a function ----

  function Bind(params: seq<string>, vs: seq<R.Val>): (env: R.Env)
    requires |params| == |vs|
    ensures |env| == |vs| && forall i :: 0 <= i < |vs| ==> env[i] == R.Slot(params[i], vs[i])
  {
    if params == [] then [] else [R.Slot(params[0], vs[0])] + Bind(params[1..], vs[1..])
  }

  function BindLua(params: seq<string>, vs: seq<L.Value>, names: Naming): (s: L.Store)
    requires |params| == |vs|
    ensures |s| == |vs| && forall i :: 0 <= i < |vs| ==> s[i] == L.Binding(names.loc(params[i]), vs[i])
  {
    if params == [] then [] else [L.Binding(names.loc(params[0]), vs[0])] + BindLua(params[1..], vs[1..], names)
  }

  /** A call in the source program, with at most depth calls inside one another. */
  function SourceCall(p: Program, g: string, vs: seq<R.Val>, depth: nat, fuel: nat): R.Result
    decreases depth, 0
  {
    hide *;
    if g !in p || |vs| != |p[g].params| then R.Stuck
    else if depth == 0 then R.OutOfFuel
    else R.EvalFunction(p[g].body, Bind(p[g].params, vs), SourceFunctions(p, depth - 1, fuel), fuel)
  }

  function SourceFunctions(p: Program, depth: nat, fuel: nat): R.Functions
    decreases depth, 1
  {
    hide *;
    (g: string, vs: seq<R.Val>) => var r := SourceCall(p, g, vs, depth, fuel); if r.Ret? then Some(r.v) else None
  }

  /** The same call in the generated program. */
  ghost function LuaCall(p: Program, names: Naming, g: string, vs: seq<L.Value>, depth: nat, fuel: nat): L.Outcome
    decreases depth, 0
  {
    hide *;
    if g !in p || |vs| != |p[g].params| then L.Failed
    else if depth == 0 then L.OutOfFuel
    else
      CallResult(L.Run(GenFunction(p[g].body, p[g].Context(names)), BindLua(p[g].params, vs, names), LuaFunctions(p, names, depth - 1, fuel), fuel))
  }

  /** The functions of the program, and the two constructors of the runtime. */
  ghost function LuaFunctions(p: Program, names: Naming, depth: nat, fuel: nat): L.Functions
    decreases depth, 1
  {
    hide *;
    (g: string, vs: seq<L.Value>) =>
      if g == "ok" && |vs| == 1 then Some(L.TableV([L.BoolV(true), vs[0]], map[]))
      else if g == "err" && |vs| == 1 then Some(L.TableV([L.BoolV(false), vs[0]], map[]))
      else var o := LuaCall(p, names, g, vs, depth, fuel); if o.Returned? then Some(o.result) else None
  }

  ghost function WorldAt(p: Program, names: Naming, depth: nat, fuel: nat): World {
    World(SourceFunctions(p, depth, fuel), LuaFunctions(p, names, depth, fuel))
  }

  ghost predicate AllApart(names: Naming) {
    NamesApart(Ctx(names.loc, names.tmp, {}, {}, map[], None))
  }

  // ---- the theorem ----

  lemma {:induction false} SlotNamesOfBind(params: seq<string>, vs: seq<R.Val>)
    requires |params| == |vs|
    ensures SlotNames(Bind(params, vs)) == params
  {
    if params != [] {
      SlotNamesOfBind(params[1..], vs[1..]);
      var rest := Bind(params[1..], vs[1..]);
      assert ([R.Slot(params[0], vs[0])] + rest)[1..] == rest;
    }
  }

  /** One call is right if the calls it makes are. */
  lemma CallStep(p: Program, names: Naming, g: string, vs: seq<R.Val>, depth: nat, fuel: nat)
    requires hide *; ProgramFits(p) && AllApart(names) && Compiled(WorldAt(p, names, depth, fuel))
    requires forall i :: 0 <= i < |vs| ==> E.Expressible(vs[i])
    ensures var o := LuaCall(p, names, g, E.EncAll(vs), depth + 1, fuel);
            match SourceCall(p, g, vs, depth + 1, fuel)
            case Ret(v) => o == L.Returned(E.Enc(v)) && E.Expressible(v)
            case Panic => o == L.Failed
            case OutOfFuel => o == L.OutOfFuel
            case _ => true
  {
    hide FitsBlock, Compiled, L.Run, GenFunction, R.EvalFunction, E.Enc, E.Expressible, LuaFunctions, SourceFunctions, BindLua, Bind,
      E.EncAll;
    if g in p && |vs| == |p[g].params| {
      var f := p[g];
      var params := Bind(f.params, vs);
      var s := BindLua(f.params, E.EncAll(vs), names);
      SlotNamesOfBind(f.params, vs);
      FunctionCorrect(f.body, params, f.Context(names), f.Scope(), s, WorldAt(p, names, depth, fuel), fuel);
    }
  }

  /** At every depth, the generated functions compute what the source functions do. */
  lemma {:induction false} FunctionsCompiled(p: Program, names: Naming, depth: nat, fuel: nat)
    requires ProgramFits(p) && AllApart(names)
    ensures Compiled(WorldAt(p, names, depth, fuel))
  {
    hide ProgramFits, SourceCall, LuaCall, E.Enc, E.Expressible;
    var w := WorldAt(p, names, depth, fuel);
    forall g: string, vs: seq<R.Val> | w.rf(g, vs).Some? && (forall i :: 0 <= i < |vs| ==> E.Expressible(vs[i]))
      ensures E.Expressible(w.rf(g, vs).value) && w.lf(g, E.EncAll(vs)) == Some(E.Enc(w.rf(g, vs).value))
    {
      assert depth > 0 && g in p by { OnlyProgramFunctions(p, g, vs, depth, fuel); }
      NotTheRuntime(p, g);
      FunctionsCompiled(p, names, depth - 1, fuel);
      CallStep(p, names, g, vs, depth - 1, fuel);
    }
  }

  lemma OnlyProgramFunctions(p: Program, g: string, vs: seq<R.Val>, depth: nat, fuel: nat)
    requires SourceCall(p, g, vs, depth, fuel).Ret?
    ensures depth > 0 && g in p
  {
    hide R.EvalBlock;
  }

  lemma NotTheRuntime(p: Program, g: string)
    requires ProgramFits(p) && g in p
    ensures g != "ok" && g != "err"
  {
    hide FitsBlock;
  }

  /**
   * A program of fitting functions is lowered correctly: calling any of them returns the represented
   * result, fails exactly where the source panics, and diverges with it.
   */
  lemma ProgramCorrect(p: Program, names: Naming, g: string, vs: seq<R.Val>, depth: nat, fuel: nat)
    requires hide *; ProgramFits(p) && AllApart(names) && forall i :: 0 <= i < |vs| ==> E.Expressible(vs[i])
    ensures var o := LuaCall(p, names, g, E.EncAll(vs), depth, fuel);
            match SourceCall(p, g, vs, depth, fuel)
            case Ret(v) => o == L.Returned(E.Enc(v)) && E.Expressible(v)
            case Panic => o == L.Failed
            case OutOfFuel => o == L.OutOfFuel
            case _ => true
  {
    hide ProgramFits, E.Enc, E.Expressible, L.Run, R.EvalFunction, GenFunction, BindLua, Bind, E.EncAll;
    if depth > 0 {
      FunctionsCompiled(p, names, depth - 1, fuel);
      CallStep(p, names, g, vs, depth - 1, fuel);
    }
  }
}
