/** Returned matches on values of a known type, under the computable test on nested patterns. */
module TypedMatch {
  import opened Wrappers
  import opened LuaIr
  import opened Lowering
  import opened LoweringScope
  import opened LoweringState
  import opened LoweringProof
  import T = PatternTypes
  import C = MatchCoverage
  import M = MatchSelection
  import R = RuaLang
  import L = LuaRun
  import E = Encoding

  /** When the nested test accepts the arms, every value of the type is accepted by one of them. */
  lemma TestedArmsAccept(arms: seq<R.Arm>, ty: T.Ty, d: T.Decls, v: R.Val)
    requires hide *;
             T.DeclsOk(d) && C.AllTyped(M.Flatten(ArmPatterns(arms)), ty, d) && C.ArmsCover(ArmPatterns(arms), ty, d) && T.HasType(v, ty, d)
    ensures SomeAccepts(arms, v)
  {
    hide T.HasType, C.AllTyped, C.ArmsCover, M.FirstMatch, R.MatchArm;
    var pats := ArmPatterns(arms);
    C.CoveredValue(pats, ty, d, v);
    C.FirstMatchIs(pats, v, 0);
    var k := M.FirstMatch(pats, v, 0).value;
    PatternsOf(arms, k);
  }

  lemma {:induction false} PatternsOf(arms: seq<R.Arm>, k: nat)
    requires k < |ArmPatterns(arms)|
    ensures k < |arms| && ArmPatterns(arms)[k] == arms[k].pats
  {
    if k > 0 {
      PatternsOf(arms[1..], k - 1);
    }
  }

  /**
   * The chain of a returned match, last test dropped or not, runs as the source's arms do on every value of
   * the matched type, if the nested test accepts the arms; no arm has to be known to accept the value.
   */
  lemma TestedMatchCorrect(arms: seq<R.Arm>, ty: T.Ty, d: T.Decls, v: R.Val, s: GenE, a: State, w: World, fuel: nat)
    requires hide *;
             T.DeclsOk(d) && C.AllTyped(M.Flatten(ArmPatterns(arms)), ty, d) && C.ArmsCover(ArmPatterns(arms), ty, d) && T.HasType(v, ty, d)
    requires Ready(a) && a.n == s.next && s.code == [] && s.e.Name? && Fixed(a.c, a.q, a.n, s.e.id) && Compiled(w)
    requires E.Expressible(v) && L.Eval(s.e, a.s, w.lf) == Some(E.Enc(v))
    requires FitsArms(arms, a.q, true) && NoGuards(arms) && R.ArmsFit(arms, v)
    ensures Sim(R.EvalArms(arms, v, a.env, w.rf, fuel), L.Run(GenReturnMatch(s, arms, a.c).code, a.s, w.lf, fuel), a.c, ToReturn, FallsArms(arms))
  {
    hide Ready, Compiled, L.Run, L.Eval, Sim, GenChain, GenReturnMatch, M.ProvenExhaustive, M.Flatten, ArmPatterns, FitsArms, FallsArms, R.EvalArms,
      R.ArmsFit, Fixed, E.Enc, E.Expressible, T.HasType, C.AllTyped, C.ArmsCover, SomeAccepts, CachesTag, TagCode, ChainCode, NoGuards;
    TestedArmsAccept(arms, ty, d, v);
    AfterSubject(arms, v, s, a, w, fuel);
    ReturnMatchCode(s, arms, a.c);
    FirstEmpty(s.code, if CachesTag(arms) then TagCode(s, arms, a.c) else []);
  }

  lemma FirstEmpty(x: Code, y: Code)
    requires x == []
    ensures x + y == y
  {
  }
}
