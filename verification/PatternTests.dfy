/** Lowering patterns to an ordered list of Lua tests and the paths their bindings read. */
module PatternTests {
  import opened Wrappers
  import opened Encoding
  import opened LuaIr
  import R = RuaLang
  import L = LuaRun

  datatype PatternBinding = PatternBinding(name: string, value: Expr)

  datatype Tests = Tests(tests: seq<Expr>, binds: seq<PatternBinding>)

  function Then(a: Tests, b: Tests): Tests {
    Tests(a.tests + b.tests, a.binds + b.binds)
  }

  function ResultIsOk(e: Expr): Expr {
    Index(e, Integer(1))
  }

  function ResultPayload(e: Expr): Expr {
    Index(e, Integer(2))
  }

  function LiteralExpr(v: R.Val): Expr {
    match v
    case IntVal(n) => Integer(n)
    case BoolVal(b) => Bool(b)
    case StrVal(s) => Str(s)
    case _ => Nil
  }

  function TagTest(subject: Expr, cachedTag: Option<Expr>, tag: string): Expr {
    Binary(if cachedTag.Some? then cachedTag.value else Field(subject, "tag"), Eq, Str(tag))
  }

  function OkTest(subject: Expr, cachedTag: Option<Expr>, ok: bool): Expr {
    var tag := if cachedTag.Some? then cachedTag.value else ResultIsOk(subject);
    if ok then tag else Unary(Not, tag)
  }

  function PatTest(p: R.Pattern, subject: Expr, cachedTag: Option<Expr>): Tests
    decreases p
  {
    hide *;
    match p
    case Wildcard => Tests([], [])
    case Binding(x) => Tests([], [PatternBinding(x, subject)])
    case Literal(v) => Tests([Binary(subject, Eq, LiteralExpr(v))], [])
    case Range(lo, hi, inclusive) =>
      var upper := if inclusive then Le else Lt;
      Tests([Parenthesized(Binary(Binary(subject, Ge, Integer(lo)), And, Binary(subject, upper, Integer(hi))))], [])
    case OptionPat(some, payload) =>
      if !some then Tests([Binary(subject, Eq, Nil)], [])
      else
        Then(Tests([Binary(subject, Ne, Nil)], []),
             if payload.Some? then PatTest(payload.value, subject, None) else Tests([], []))
    case ResultPat(ok, payload) =>
      Then(Tests([OkTest(subject, cachedTag, ok)], []),
           if payload.Some? then PatTest(payload.value, ResultPayload(subject), None) else Tests([], []))
    case TuplePat(tag, elems) =>
      Then(Tests([TagTest(subject, cachedTag, tag.name)], []), ElementTests(elems, subject, 0))
    case StructPat(variant, fields) =>
      Then(Tests(if variant.Some? then [TagTest(subject, cachedTag, variant.value.name)] else [], []), FieldTests(fields, subject))
  }

  function ElementTests(ps: seq<R.Pattern>, subject: Expr, i: nat): Tests
    decreases ps
  {
    if ps == [] then Tests([], [])
    else Then(PatTest(ps[0], Index(subject, Integer(i + 1)), None), ElementTests(ps[1..], subject, i + 1))
  }

  function FieldTests(ps: seq<R.FieldPat>, subject: Expr): Tests
    decreases ps
  {
    if ps == [] then Tests([], []) else Then(FieldTest(ps[0], subject), FieldTests(ps[1..], subject))
  }

  function FieldTest(p: R.FieldPat, subject: Expr): Tests
    decreases p
  {
    PatTest(p.pattern, Field(subject, p.name), None)
  }

  /** `a and b and c`, grouped to the left. */
  function AndAll(tests: seq<Expr>): Expr {
    if tests == [] then Bool(true)
    else if |tests| == 1 then tests[0]
    else Binary(AndAll(tests[..|tests| - 1]), And, tests[|tests| - 1])
  }

  function OrAll(tests: seq<Expr>): Expr {
    if tests == [] then Bool(false)
    else if |tests| == 1 then tests[0]
    else Binary(OrAll(tests[..|tests| - 1]), Or, tests[|tests| - 1])
  }

  function Alternatives(ps: seq<R.Pattern>, subject: Expr, cachedTag: Option<Expr>): seq<Expr> {
    if ps == [] then []
    else [Parenthesized(AndAll(PatTest(ps[0], subject, cachedTag).tests))] + Alternatives(ps[1..], subject, cachedTag)
  }

  /** The bindings that some later code mentions. */
  function Retain(binds: seq<PatternBinding>, mentioned: set<string>): seq<PatternBinding> {
    if binds == [] then []
    else (if binds[0].name in mentioned then [binds[0]] else []) + Retain(binds[1..], mentioned)
  }

  function ArmTests(pats: seq<R.Pattern>, subject: Expr, cachedTag: Option<Expr>, mentioned: set<string>): Tests {
    if |pats| == 1 then
      var t := PatTest(pats[0], subject, cachedTag);
      Tests(t.tests, Retain(t.binds, mentioned))
    else Tests([OrAll(Alternatives(pats, subject, cachedTag))], [])
  }

  // ---- running tests in order ----

  ghost predicate Passes(e: Expr, s: L.Store, f: L.Functions) {
    hide *;
    var v := L.Eval(e, s, f);
    v.Some? && L.Truthy(v.value)
  }

  ghost predicate Rejects(e: Expr, s: L.Store, f: L.Functions) {
    hide *;
    var v := L.Eval(e, s, f);
    v.Some? && !L.Truthy(v.value)
  }

  ghost predicate AllPass(tests: seq<Expr>, s: L.Store, f: L.Functions) {
    hide *;
    forall i :: 0 <= i < |tests| ==> Passes(tests[i], s, f)
  }

  /** Some test is false and every test before it holds, so nothing after it is evaluated. */
  ghost predicate FirstRejects(tests: seq<Expr>, s: L.Store, f: L.Functions) {
    hide *;
    exists k :: 0 <= k < |tests| && Rejects(tests[k], s, f) && forall i :: 0 <= i < k ==> Passes(tests[i], s, f)
  }

  ghost predicate BindsAgree(binds: seq<PatternBinding>, slots: seq<R.Slot>, s: L.Store, f: L.Functions) {
    hide *;
    && |binds| == |slots|
    && forall i :: 0 <= i < |binds| ==>
         binds[i].name == slots[i].name && Expressible(slots[i].value) && L.Eval(binds[i].value, s, f) == Some(Enc(slots[i].value))
  }

  /** The tests decide the pattern and the binding paths read what the pattern binds. */
  ghost predicate Decides(t: Tests, m: R.Matched, s: L.Store, f: L.Functions) {
    match m
    case Yes(slots) => AllPass(t.tests, s, f) && BindsAgree(t.binds, slots, s, f)
    case No => FirstRejects(t.tests, s, f)
    case IllTyped => true
  }

  lemma DecidesThen(a: Tests, b: Tests, x: R.Matched, y: R.Matched, s: L.Store, f: L.Functions)
    requires Decides(a, x, s, f) && (x.Yes? ==> Decides(b, y, s, f))
    ensures Decides(Then(a, b), R.AndThen(x, y), s, f)
  {
    hide Passes, Rejects, L.Eval, Enc, Expressible;
    var t := Then(a, b).tests;
    if x.No? {
      var k :| 0 <= k < |a.tests| && Rejects(a.tests[k], s, f) && forall i :: 0 <= i < k ==> Passes(a.tests[i], s, f);
      assert Rejects(t[k], s, f) && forall i :: 0 <= i < k ==> t[i] == a.tests[i];
    } else if x.Yes? && y.No? {
      var k :| 0 <= k < |b.tests| && Rejects(b.tests[k], s, f) && forall i :: 0 <= i < k ==> Passes(b.tests[i], s, f);
      assert Rejects(t[|a.tests| + k], s, f);
      forall i | 0 <= i < |a.tests| + k
        ensures Passes(t[i], s, f)
      {
        assert i >= |a.tests| ==> t[i] == b.tests[i - |a.tests|];
      }
    }
  }

  lemma DecidesOne(e: Expr, m: R.Matched, s: L.Store, f: L.Functions)
    requires m == R.Yes([]) ==> Passes(e, s, f)
    requires m.No? ==> Rejects(e, s, f)
    requires m.Yes? ==> m.binds == []
    ensures Decides(Tests([e], []), m, s, f)
  {
    if m.No? {
      assert Rejects([e][0], s, f);
    }
  }

  // ---- the tests decide the pattern ----

  function LuaTagOf(v: R.Val): Option<L.Value> {
    match v
    case ResultVal(ok, _) => Some(L.BoolV(ok))
    case VariantVal(tag, _) => Some(L.StrV(tag.name))
    case RecordVal(tag, _) => if tag.Some? then Some(L.StrV(tag.value.name)) else None
    case _ => None
  }

  /** A cached tag holds the tag of the value. */
  ghost predicate CachedOk(cachedTag: Option<Expr>, v: R.Val, s: L.Store, f: L.Functions) {
    hide *;
    cachedTag.Some? ==> LuaTagOf(v).Some? && L.Eval(cachedTag.value, s, f) == LuaTagOf(v)
  }

  lemma TagReads(subject: Expr, cachedTag: Option<Expr>, v: R.Val, s: L.Store, f: L.Functions)
    requires hide *; Expressible(v) && L.Eval(subject, s, f) == Some(Enc(v)) && CachedOk(cachedTag, v, s, f)
    ensures v.ResultVal? ==> L.Eval(if cachedTag.Some? then cachedTag.value else ResultIsOk(subject), s, f) == Some(L.BoolV(v.ok))
    ensures v.VariantVal? ==> L.Eval(if cachedTag.Some? then cachedTag.value else Field(subject, "tag"), s, f) == Some(L.StrV(v.tag.name))
    ensures v.RecordVal? && v.rtag.Some? ==>
              L.Eval(if cachedTag.Some? then cachedTag.value else Field(subject, "tag"), s, f) == Some(L.StrV(v.rtag.value.name))
  {
    hide L.EvalAll, L.EvalBinary, L.Lookup;
    if v.RecordVal? && v.rtag.Some? {
      TagReadExactly(v.rtag.value, v.fields);
    }
  }

  lemma {:induction false} PatTestDecides(p: R.Pattern, v: R.Val, subject: Expr, cachedTag: Option<Expr>, s: L.Store, f: L.Functions)
    requires Expressible(v) && L.Eval(subject, s, f) == Some(Enc(v)) && CachedOk(cachedTag, v, s, f)
    ensures Decides(PatTest(p, subject, cachedTag), R.MatchPattern(p, v), s, f)
    decreases p
  {
    hide Enc, Expressible, EncFields, EncAll;
    match p {
      case Wildcard =>
      case Binding(x) =>
      case Literal(w) => LiteralDecides(w, v, subject, s, f);
      case Range(lo, hi, inclusive) => RangeDecides(lo, hi, inclusive, v, subject, s, f);
      case OptionPat(some, payload) => OptionDecides(p, v, subject, cachedTag, s, f);
      case ResultPat(ok, payload) => ResultDecides(p, v, subject, cachedTag, s, f);
      case TuplePat(tag, elems) => TupleDecides(p, v, subject, cachedTag, s, f);
      case StructPat(variant, fields) => StructDecides(p, v, subject, cachedTag, s, f);
    }
  }

  lemma LiteralDecides(w: R.Val, v: R.Val, subject: Expr, s: L.Store, f: L.Functions)
    requires L.Eval(subject, s, f) == Some(Enc(v))
    ensures Decides(PatTest(R.Literal(w), subject, None), R.MatchPattern(R.Literal(w), v), s, f)
  {
    hide R.FieldOf, R.MatchAll;
    DecidesOne(Binary(subject, Eq, LiteralExpr(w)), R.MatchPattern(R.Literal(w), v), s, f);
  }

  lemma RangeDecides(lo: int, hi: int, inclusive: bool, v: R.Val, subject: Expr, s: L.Store, f: L.Functions)
    requires L.Eval(subject, s, f) == Some(Enc(v))
    ensures Decides(PatTest(R.Range(lo, hi, inclusive), subject, None), R.MatchPattern(R.Range(lo, hi, inclusive), v), s, f)
  {
    var upper := if inclusive then Le else Lt;
    var a, b := Binary(subject, Ge, Integer(lo)), Binary(subject, upper, Integer(hi));
    if v.IntVal? {
      assert L.Eval(a, s, f) == Some(L.BoolV(v.n >= lo));
      assert L.Eval(b, s, f) == Some(L.BoolV(if inclusive then v.n <= hi else v.n < hi));
    }
    DecidesOne(Parenthesized(Binary(a, And, b)), R.MatchPattern(R.Range(lo, hi, inclusive), v), s, f);
  }

  lemma NilTests(v: R.Val, subject: Expr, s: L.Store, f: L.Functions)
    requires Expressible(v) && L.Eval(subject, s, f) == Some(Enc(v)) && (v.SomeVal? || v.NoneVal?)
    ensures L.Eval(Binary(subject, Eq, Nil), s, f) == Some(L.BoolV(v.NoneVal?))
    ensures L.Eval(Binary(subject, Ne, Nil), s, f) == Some(L.BoolV(v.SomeVal?))
  {
    NilOnlyForNilLike(v);
  }

  lemma {:induction false} OptionDecides(p: R.Pattern, v: R.Val, subject: Expr, cachedTag: Option<Expr>, s: L.Store, f: L.Functions)
    requires p.OptionPat?
    requires Expressible(v) && L.Eval(subject, s, f) == Some(Enc(v))
    ensures Decides(PatTest(p, subject, cachedTag), R.MatchPattern(p, v), s, f)
    decreases p, 0
  {
    hide Decides, L.Eval;
    if v.SomeVal? || v.NoneVal? {
      NilTests(v, subject, s, f);
      if !p.some {
        DecidesOne(Binary(subject, Eq, Nil), if v.NoneVal? then R.Yes([]) else R.No, s, f);
      } else {
        DecidesOne(Binary(subject, Ne, Nil), if v.SomeVal? then R.Yes([]) else R.No, s, f);
        var rest := if p.payload.Some? then PatTest(p.payload.value, subject, None) else Tests([], []);
        var inner := if v.NoneVal? then R.No else if p.payload.Some? then R.MatchPattern(p.payload.value, v.payload) else R.Yes([]);
        if v.SomeVal? {
          if p.payload.Some? {
            PatTestDecides(p.payload.value, v.payload, subject, None, s, f);
          } else {
            NothingDecides(s, f);
          }
          YesThen(inner);
        }
        DecidesThen(Tests([Binary(subject, Ne, Nil)], []), rest, if v.SomeVal? then R.Yes([]) else R.No, inner, s, f);
      }
    } else {
      IllTypedDecides(PatTest(p, subject, cachedTag), s, f);
    }
  }

  lemma IllTypedDecides(t: Tests, s: L.Store, f: L.Functions)
    ensures Decides(t, R.IllTyped, s, f)
  {
  }

  lemma NothingDecides(s: L.Store, f: L.Functions)
    ensures Decides(Tests([], []), R.Yes([]), s, f)
  {
  }

  lemma YesThen(m: R.Matched)
    ensures R.AndThen(R.Yes([]), m) == m
  {
    if m.Yes? {
      assert [] + m.binds == m.binds;
    }
  }

  lemma OkTestDecides(subject: Expr, cachedTag: Option<Expr>, v: R.Val, ok: bool, s: L.Store, f: L.Functions)
    requires hide *; v.ResultVal?
    requires Expressible(v) && L.Eval(subject, s, f) == Some(Enc(v)) && CachedOk(cachedTag, v, s, f)
    ensures Decides(Tests([OkTest(subject, cachedTag, ok)], []), if ok == v.ok then R.Yes([]) else R.No, s, f)
  {
    hide Decides;
    TagReads(subject, cachedTag, v, s, f);
    DecidesOne(OkTest(subject, cachedTag, ok), if ok == v.ok then R.Yes([]) else R.No, s, f);
  }

  lemma PayloadReads(subject: Expr, v: R.Val, s: L.Store, f: L.Functions)
    requires hide *; v.ResultVal? && L.Eval(subject, s, f) == Some(Enc(v))
    ensures L.Eval(ResultPayload(subject), s, f) == Some(Enc(v.payload))
    ensures L.Eval(ResultIsOk(subject), s, f) == Some(L.BoolV(v.ok))
  {
  }

  lemma {:induction false} ResultDecides(p: R.Pattern, v: R.Val, subject: Expr, cachedTag: Option<Expr>, s: L.Store, f: L.Functions)
    requires p.ResultPat?
    requires Expressible(v) && L.Eval(subject, s, f) == Some(Enc(v)) && CachedOk(cachedTag, v, s, f)
    ensures Decides(PatTest(p, subject, cachedTag), R.MatchPattern(p, v), s, f)
    decreases p, 0
  {
    hide Decides, L.Eval, CachedOk, Enc, OkTest;
    if v.ResultVal? {
      var first := if p.ok == v.ok then R.Yes([]) else R.No;
      OkTestDecides(subject, cachedTag, v, p.ok, s, f);
      PayloadReads(subject, v, s, f);
      var rest := if p.payload.Some? then PatTest(p.payload.value, ResultPayload(subject), None) else Tests([], []);
      var inner := if p.payload.Some? then R.MatchPattern(p.payload.value, v.payload) else R.Yes([]);
      if p.payload.Some? {
        NoCachedTag(v.payload, s, f);
        PatTestDecides(p.payload.value, v.payload, ResultPayload(subject), None, s, f);
      } else {
        NothingDecides(s, f);
      }
      YesThen(inner);
      DecidesThen(Tests([OkTest(subject, cachedTag, p.ok)], []), rest, first, inner, s, f);
    } else {
      IllTypedDecides(PatTest(p, subject, cachedTag), s, f);
    }
  }

  lemma NoCachedTag(v: R.Val, s: L.Store, f: L.Functions)
    ensures CachedOk(None, v, s, f)
  {
  }

  lemma TagTestDecides(subject: Expr, cachedTag: Option<Expr>, v: R.Val, tag: R.Tag, s: L.Store, f: L.Functions)
    requires hide *; R.TagOf(v).Some? && R.TagOf(v).value.siblings == tag.siblings
    requires Expressible(v) && L.Eval(subject, s, f) == Some(Enc(v)) && CachedOk(cachedTag, v, s, f)
    ensures Decides(Tests([TagTest(subject, cachedTag, tag.name)], []), if R.TagOf(v).value == tag then R.Yes([]) else R.No, s, f)
  {
    hide Decides, Enc, Expressible, EncFields, EncAll;
    TagReads(subject, cachedTag, v, s, f);
    DecidesOne(TagTest(subject, cachedTag, tag.name), if R.TagOf(v).value == tag then R.Yes([]) else R.No, s, f);
  }

  lemma {:induction false} TupleDecides(p: R.Pattern, v: R.Val, subject: Expr, cachedTag: Option<Expr>, s: L.Store, f: L.Functions)
    requires p.TuplePat?
    requires Expressible(v) && L.Eval(subject, s, f) == Some(Enc(v)) && CachedOk(cachedTag, v, s, f)
    ensures Decides(PatTest(p, subject, cachedTag), R.MatchPattern(p, v), s, f)
    decreases p, 0
  {
    hide Decides, L.Eval, CachedOk, Enc, TagTest;
    if R.MatchPattern(p, v).IllTyped? {
      IllTypedDecides(PatTest(p, subject, cachedTag), s, f);
      return;
    }
    var test := TagTest(subject, cachedTag, p.tag.name);
    var first := if R.TagOf(v).value == p.tag then R.Yes([]) else R.No;
    TagTestDecides(subject, cachedTag, v, p.tag, s, f);
    var inner := if first.Yes? then R.MatchAll(p.elems, v.items) else R.No;
    if first.Yes? {
      assert v.items[0..] == v.items;
      ElementsDecide(p.elems, v, subject, 0, s, f);
    }
    YesThen(inner);
    DecidesThen(Tests([test], []), ElementTests(p.elems, subject, 0), first, inner, s, f);
  }

  lemma ElementReads(subject: Expr, v: R.Val, i: nat, s: L.Store, f: L.Functions)
    requires hide *; v.VariantVal? && Expressible(v) && L.Eval(subject, s, f) == Some(Enc(v)) && i < |v.items|
    ensures L.Eval(Index(subject, Integer(i + 1)), s, f) == Some(Enc(v.items[i])) && Expressible(v.items[i])
  {
    hide R.FieldOf, L.EvalAll, L.EvalBinary, EncFields, L.Lookup, EncAll;
    assert L.Eval(Integer(i + 1), s, f) == Some(L.IntV(i + 1));
  }

  lemma {:induction false} ElementsDecide(ps: seq<R.Pattern>, v: R.Val, subject: Expr, i: nat, s: L.Store, f: L.Functions)
    requires hide *; v.VariantVal? && Expressible(v) && L.Eval(subject, s, f) == Some(Enc(v))
    requires i + |ps| <= |v.items|
    ensures Decides(ElementTests(ps, subject, i), R.MatchAll(ps, v.items[i..]), s, f)
    decreases ps, 0
  {
    hide Decides, L.Eval, Enc;
    if ps == [] {
      NothingDecides(s, f);
    } else {
      var sub := Index(subject, Integer(i + 1));
      ElementReads(subject, v, i, s, f);
      NoCachedTag(v.items[i], s, f);
      PatTestDecides(ps[0], v.items[i], sub, None, s, f);
      ElementsDecide(ps[1..], v, subject, i + 1, s, f);
      assert v.items[i..][1..] == v.items[i + 1..];
      DecidesThen(PatTest(ps[0], sub, None), ElementTests(ps[1..], subject, i + 1), R.MatchPattern(ps[0], v.items[i]), R.MatchAll(ps[1..], v.items[i + 1..]), s, f);
    }
  }

  lemma {:induction false} StructDecides(p: R.Pattern, v: R.Val, subject: Expr, cachedTag: Option<Expr>, s: L.Store, f: L.Functions)
    requires p.StructPat?
    requires Expressible(v) && L.Eval(subject, s, f) == Some(Enc(v)) && CachedOk(cachedTag, v, s, f)
    ensures Decides(PatTest(p, subject, cachedTag), R.MatchPattern(p, v), s, f)
    decreases p, 0
  {
    hide Decides, L.Eval, CachedOk, Enc, TagTest;
    if R.MatchPattern(p, v).IllTyped? {
      IllTypedDecides(PatTest(p, subject, cachedTag), s, f);
      return;
    }
    var first := if v.RecordVal? && v.rtag == p.variant then R.Yes([]) else R.No;
    var head := Tests(if p.variant.Some? then [TagTest(subject, cachedTag, p.variant.value.name)] else [], []);
    if p.variant.Some? {
      TagTestDecides(subject, cachedTag, v, p.variant.value, s, f);
    } else {
      NothingDecides(s, f);
    }
    var inner := if first.Yes? then R.MatchFields(p.fields, v.fields) else R.No;
    if first.Yes? {
      FieldsDecide(p.fields, v, subject, s, f);
    }
    YesThen(inner);
    DecidesThen(head, FieldTests(p.fields, subject), first, inner, s, f);
  }

  lemma {:induction false} FieldsDecide(ps: seq<R.FieldPat>, v: R.Val, subject: Expr, s: L.Store, f: L.Functions)
    requires hide *; v.RecordVal? && Expressible(v) && L.Eval(subject, s, f) == Some(Enc(v))
    ensures Decides(FieldTests(ps, subject), R.MatchFields(ps, v.fields), s, f)
    decreases ps, 0
  {
    hide Decides, PatTest, EncFields, EncAll;
    if ps == [] {
      NothingDecides(s, f);
    } else {
      var w := R.FieldOf(v.fields, ps[0].name);
      FieldsDecide(ps[1..], v, subject, s, f);
      if w.Some? {
        FieldOfExpressible(v.fields, ps[0].name);
        FieldLookup(v.fields, if v.rtag.Some? then map["tag" := L.StrV(v.rtag.value.name)] else map[], ps[0].name);
        FieldDecides(ps[0], w.value, subject, s, f);
      } else {
        IllTypedDecides(FieldTest(ps[0], subject), s, f);
      }
      DecidesThen(FieldTest(ps[0], subject), FieldTests(ps[1..], subject),
                  if w.None? then R.IllTyped else R.MatchField(ps[0], w.value), R.MatchFields(ps[1..], v.fields), s, f);
    }
  }

  lemma {:induction false} FieldDecides(p: R.FieldPat, v: R.Val, subject: Expr, s: L.Store, f: L.Functions)
    requires Expressible(v) && L.Eval(Field(subject, p.name), s, f) == Some(Enc(v))
    ensures Decides(FieldTest(p, subject), R.MatchField(p, v), s, f)
    decreases p, 0
  {
    hide R.MatchPattern, L.Eval, PatTest, Enc, Expressible;
    PatTestDecides(p.pattern, v, Field(subject, p.name), None, s, f);
  }

  // ---- exactly the values whose outside is decided correctly ----

  /** A pattern that looks at the outside of a value only and binds nothing. */
  predicate RootOnly(p: R.Pattern) {
    match p
    case Binding(_) => false
    case OptionPat(_, payload) => payload.None?
    case ResultPat(_, payload) => payload.None?
    case TuplePat(_, elems) => elems == []
    case StructPat(_, fields) => fields == []
    case _ => true
  }

  /** Every root pattern is decided correctly on a value if and only if the value is kept apart. */
  lemma RootsDecideExactly(v: R.Val, subject: Expr, s: L.Store, f: L.Functions)
    requires L.Eval(subject, s, f) == Some(Enc(v))
    ensures (forall p :: RootOnly(p) ==> Decides(PatTest(p, subject, None), R.MatchPattern(p, v), s, f)) <==> KeptApart(v)
  {
    hide Decides, PatTest, KeptApart, L.Eval, Enc;
    if KeptApart(v) {
      forall p | RootOnly(p)
        ensures Decides(PatTest(p, subject, None), R.MatchPattern(p, v), s, f)
      {
        KeptRootDecides(p, v, subject, s, f);
      }
    } else {
      var p := LostRoot(v, subject, s, f);
    }
  }

  lemma KeptRootDecides(p: R.Pattern, v: R.Val, subject: Expr, s: L.Store, f: L.Functions)
    requires RootOnly(p) && KeptApart(v) && L.Eval(subject, s, f) == Some(Enc(v))
    ensures Decides(PatTest(p, subject, None), R.MatchPattern(p, v), s, f)
  {
    hide Decides, KeptApart, L.Eval;
    match p {
      case Wildcard => NothingDecides(s, f);
      case Literal(w) => LiteralDecides(w, v, subject, s, f);
      case Range(lo, hi, inclusive) => RangeDecides(lo, hi, inclusive, v, subject, s, f);
      case OptionPat(some, _) => OptionRootDecides(some, v, subject, s, f);
      case ResultPat(ok, _) => ResultRootDecides(ok, v, subject, s, f);
      case TuplePat(tag, _) => TupleRootDecides(tag, v, subject, s, f);
      case StructPat(variant, _) => StructRootDecides(variant, v, subject, s, f);
    }
  }

  lemma OptionRootDecides(some: bool, v: R.Val, subject: Expr, s: L.Store, f: L.Functions)
    requires KeptApart(v) && L.Eval(subject, s, f) == Some(Enc(v))
    ensures var p := R.OptionPat(some, None); Decides(PatTest(p, subject, None), R.MatchPattern(p, v), s, f)
  {
    hide Decides;
    var p := R.OptionPat(some, None);
    var test := Binary(subject, if some then Ne else Eq, Nil);
    assert PatTest(p, subject, None) == Tests([test], []);
    NilExactly(v);
    if v.SomeVal? || v.NoneVal? {
      DecidesOne(test, R.MatchPattern(p, v), s, f);
    } else {
      IllTypedDecides(PatTest(p, subject, None), s, f);
    }
  }

  lemma ResultRootDecides(ok: bool, v: R.Val, subject: Expr, s: L.Store, f: L.Functions)
    requires L.Eval(subject, s, f) == Some(Enc(v))
    ensures var p := R.ResultPat(ok, None); Decides(PatTest(p, subject, None), R.MatchPattern(p, v), s, f)
  {
    hide Decides;
    var p := R.ResultPat(ok, None);
    var test := OkTest(subject, None, ok);
    assert PatTest(p, subject, None) == Tests([test], []);
    if v.ResultVal? {
      PayloadReads(subject, v, s, f);
      DecidesOne(test, R.MatchPattern(p, v), s, f);
    } else {
      IllTypedDecides(PatTest(p, subject, None), s, f);
    }
  }

  lemma TagFieldReads(v: R.Val, subject: Expr, s: L.Store, f: L.Functions)
    requires hide *; R.TagOf(v).Some? && L.Eval(subject, s, f) == Some(Enc(v))
    ensures var t := L.Eval(Field(subject, "tag"), s, f);
            t.Some? && (t.value == L.StrV(R.TagOf(v).value.name) <==> KeptApart(v))
  {
    if v.RecordVal? {
      TagReadExactly(v.rtag.value, v.fields);
    }
  }

  lemma TagRootDecides(tag: R.Tag, v: R.Val, subject: Expr, s: L.Store, f: L.Functions)
    requires hide *; KeptApart(v) && L.Eval(subject, s, f) == Some(Enc(v))
    requires R.TagOf(v).Some? && R.TagOf(v).value.siblings == tag.siblings
    ensures Decides(Tests([TagTest(subject, None, tag.name)], []), if R.TagOf(v).value == tag then R.Yes([]) else R.No, s, f)
  {
    hide Decides, KeptApart, Enc;
    TagFieldReads(v, subject, s, f);
    DecidesOne(TagTest(subject, None, tag.name), if R.TagOf(v).value == tag then R.Yes([]) else R.No, s, f);
  }

  lemma TupleRootDecides(tag: R.Tag, v: R.Val, subject: Expr, s: L.Store, f: L.Functions)
    requires KeptApart(v) && L.Eval(subject, s, f) == Some(Enc(v))
    ensures var p := R.TuplePat(tag, []); Decides(PatTest(p, subject, None), R.MatchPattern(p, v), s, f)
  {
    hide Decides, KeptApart, L.Eval, Enc;
    var p := R.TuplePat(tag, []);
    assert PatTest(p, subject, None) == Tests([TagTest(subject, None, tag.name)], []);
    if R.MatchPattern(p, v).IllTyped? {
      IllTypedDecides(PatTest(p, subject, None), s, f);
    } else {
      TagRootDecides(tag, v, subject, s, f);
    }
  }

  lemma StructRootDecides(variant: Option<R.Tag>, v: R.Val, subject: Expr, s: L.Store, f: L.Functions)
    requires KeptApart(v) && L.Eval(subject, s, f) == Some(Enc(v))
    ensures var p := R.StructPat(variant, []); Decides(PatTest(p, subject, None), R.MatchPattern(p, v), s, f)
  {
    hide Decides, KeptApart, L.Eval, Enc;
    var p := R.StructPat(variant, []);
    if R.MatchPattern(p, v).IllTyped? {
      IllTypedDecides(PatTest(p, subject, None), s, f);
    } else if variant.Some? {
      assert PatTest(p, subject, None) == Tests([TagTest(subject, None, variant.value.name)], []);
      TagRootDecides(variant.value, v, subject, s, f);
    } else {
      assert PatTest(p, subject, None) == Tests([], []);
      NothingDecides(s, f);
    }
  }

  /** On a value that is not kept apart, the pattern it was built to match fails. */
  lemma LostRoot(v: R.Val, subject: Expr, s: L.Store, f: L.Functions) returns (p: R.Pattern)
    requires !KeptApart(v) && L.Eval(subject, s, f) == Some(Enc(v))
    ensures RootOnly(p) && R.MatchPattern(p, v).Yes? && FirstRejects(PatTest(p, subject, None).tests, s, f)
    ensures !Decides(PatTest(p, subject, None), R.MatchPattern(p, v), s, f)
  {
    if v.SomeVal? {
      p := R.OptionPat(true, None);
      NilExactly(v);
      var test := Binary(subject, Ne, Nil);
      assert PatTest(p, subject, None) == Tests([test], []);
      assert Rejects(PatTest(p, subject, None).tests[0], s, f);
    } else {
      p := R.StructPat(v.rtag, []);
      TagFieldReads(v, subject, s, f);
      var test := TagTest(subject, None, v.rtag.value.name);
      assert PatTest(p, subject, None) == Tests([test], []);
      assert Rejects(PatTest(p, subject, None).tests[0], s, f);
    }
  }

  // ---- conjunctions and alternatives ----

  /** Holding: the conjunction is truthy. Failing: it is false, and nothing went wrong on the way. */
  lemma {:induction false} AndAllEvaluates(tests: seq<Expr>, s: L.Store, f: L.Functions)
    ensures AllPass(tests, s, f) ==> Passes(AndAll(tests), s, f)
    ensures FirstRejects(tests, s, f) ==> Rejects(AndAll(tests), s, f)
  {
    hide L.Eval;
    if tests == [] {
      TrueIsTrue(s, f);
    } else if |tests| > 1 {
      var init, last := tests[..|tests| - 1], tests[|tests| - 1];
      AndAllEvaluates(init, s, f);
      AndEvaluates(AndAll(init), last, s, f);
      if FirstRejects(tests, s, f) {
        var k :| 0 <= k < |tests| && Rejects(tests[k], s, f) && forall i :: 0 <= i < k ==> Passes(tests[i], s, f);
        if k < |init| {
          assert Rejects(init[k], s, f);
        } else {
          assert AllPass(init, s, f);
        }
      }
    }
  }

  lemma TrueIsTrue(s: L.Store, f: L.Functions)
    ensures Passes(Bool(true), s, f) && Rejects(Bool(false), s, f)
  {
  }

  lemma AndEvaluates(a: Expr, b: Expr, s: L.Store, f: L.Functions)
    ensures Rejects(a, s, f) ==> Rejects(Binary(a, And, b), s, f)
    ensures Passes(a, s, f) && Passes(b, s, f) ==> Passes(Binary(a, And, b), s, f)
    ensures Passes(a, s, f) && Rejects(b, s, f) ==> Rejects(Binary(a, And, b), s, f)
  {
    hide L.EvalAll, L.EvalBinary, L.Lookup, L.AddField, L.EvalFields;
  }

  lemma OrEvaluates(a: Expr, b: Expr, s: L.Store, f: L.Functions)
    ensures Passes(a, s, f) ==> Passes(Binary(a, Or, b), s, f)
    ensures Rejects(a, s, f) && Passes(b, s, f) ==> Passes(Binary(a, Or, b), s, f)
    ensures Rejects(a, s, f) && Rejects(b, s, f) ==> Rejects(Binary(a, Or, b), s, f)
  {
    hide L.EvalAll, L.EvalBinary, L.Lookup;
  }

  lemma ParenEvaluates(a: Expr, s: L.Store, f: L.Functions)
    ensures L.Eval(Parenthesized(a), s, f) == L.Eval(a, s, f)
  {
  }

  /** The first alternative that holds decides an `or`; all those before it are false. */
  ghost predicate FirstPasses(tests: seq<Expr>, s: L.Store, f: L.Functions) {
    hide *;
    exists k :: 0 <= k < |tests| && Passes(tests[k], s, f) && forall i :: 0 <= i < k ==> Rejects(tests[i], s, f)
  }

  lemma {:induction false} OrAllEvaluates(tests: seq<Expr>, s: L.Store, f: L.Functions)
    ensures hide *; FirstPasses(tests, s, f) ==> Passes(OrAll(tests), s, f)
    ensures (forall i :: 0 <= i < |tests| ==> Rejects(tests[i], s, f)) ==> Rejects(OrAll(tests), s, f)
  {
    hide L.Eval;
    if tests == [] {
      TrueIsTrue(s, f);
    } else if |tests| > 1 {
      var init, last := tests[..|tests| - 1], tests[|tests| - 1];
      OrAllEvaluates(init, s, f);
      OrEvaluates(OrAll(init), last, s, f);
      if FirstPasses(tests, s, f) {
        var k :| 0 <= k < |tests| && Passes(tests[k], s, f) && forall i :: 0 <= i < k ==> Rejects(tests[i], s, f);
        if k < |init| {
          assert Passes(init[k], s, f);
        }
      }
    }
  }

  lemma {:induction false} AlternativesDecide(ps: seq<R.Pattern>, v: R.Val, subject: Expr, cachedTag: Option<Expr>, s: L.Store, f: L.Functions)
    requires hide *; Expressible(v) && L.Eval(subject, s, f) == Some(Enc(v)) && CachedOk(cachedTag, v, s, f)
    ensures var alts := Alternatives(ps, subject, cachedTag);
            match R.MatchAny(ps, v)
            case Yes(_) => FirstPasses(alts, s, f)
            case No => forall i :: 0 <= i < |alts| ==> Rejects(alts[i], s, f)
            case IllTyped => true
    decreases ps
  {
    hide L.Eval, Expressible, CachedOk, PatTest, Enc, R.MatchPattern, R.MatchFields;
    if ps != [] {
      var t := PatTest(ps[0], subject, cachedTag).tests;
      var alts, rest := Alternatives(ps, subject, cachedTag), Alternatives(ps[1..], subject, cachedTag);
      PatTestDecides(ps[0], v, subject, cachedTag, s, f);
      AndAllEvaluates(t, s, f);
      ParenEvaluates(AndAll(t), s, f);
      AlternativesDecide(ps[1..], v, subject, cachedTag, s, f);
      assert alts[0] == Parenthesized(AndAll(t)) && alts[1..] == rest;
      var m := R.MatchPattern(ps[0], v);
      if m.Yes? {
        assert Passes(alts[0], s, f);
      } else if m.No? && R.MatchAny(ps[1..], v).Yes? {
        var k :| 0 <= k < |rest| && Passes(rest[k], s, f) && forall i :: 0 <= i < k ==> Rejects(rest[i], s, f);
        assert alts[k + 1] == rest[k];
        forall i | 0 <= i < k + 1 ensures Rejects(alts[i], s, f) {
          assert i > 0 ==> alts[i] == rest[i - 1];
        }
      } else if m.No? && R.MatchAny(ps[1..], v).No? {
        forall i | 0 <= i < |alts| ensures Rejects(alts[i], s, f) {
          assert i > 0 ==> alts[i] == rest[i - 1];
        }
      }
    }
  }

  function RetainSlots(slots: seq<R.Slot>, mentioned: set<string>): seq<R.Slot> {
    if slots == [] then []
    else (if slots[0].name in mentioned then [slots[0]] else []) + RetainSlots(slots[1..], mentioned)
  }

  lemma {:induction false} RetainAgrees(binds: seq<PatternBinding>, slots: seq<R.Slot>, mentioned: set<string>, s: L.Store, f: L.Functions)
    requires BindsAgree(binds, slots, s, f)
    ensures BindsAgree(Retain(binds, mentioned), RetainSlots(slots, mentioned), s, f)
  {
    hide L.Eval, Expressible;
    if binds != [] {
      RetainAgrees(binds[1..], slots[1..], mentioned, s, f);
    }
  }

  /** The one condition of an arm: it holds exactly when the arm matches, and reading it never fails. */
  lemma ArmTestsDecide(pats: seq<R.Pattern>, v: R.Val, subject: Expr, cachedTag: Option<Expr>, mentioned: set<string>, s: L.Store, f: L.Functions)
    requires Expressible(v) && L.Eval(subject, s, f) == Some(Enc(v)) && CachedOk(cachedTag, v, s, f)
    ensures var t := ArmTests(pats, subject, cachedTag, mentioned);
            match R.MatchArm(pats, v)
            case Yes(slots) => Passes(AndAll(t.tests), s, f) && BindsAgree(t.binds, RetainSlots(slots, mentioned), s, f)
            case No => Rejects(AndAll(t.tests), s, f)
            case IllTyped => true
  {
    hide L.Eval, Expressible, CachedOk, PatTest, Enc, R.MatchPattern;
    var t := ArmTests(pats, subject, cachedTag, mentioned);
    if |pats| == 1 {
      PatTestDecides(pats[0], v, subject, cachedTag, s, f);
      AndAllEvaluates(t.tests, s, f);
      var m := R.MatchPattern(pats[0], v);
      if m.Yes? {
        RetainAgrees(PatTest(pats[0], subject, cachedTag).binds, m.binds, mentioned, s, f);
      }
    } else {
      AlternativesDecide(pats, v, subject, cachedTag, s, f);
      OrAllEvaluates(Alternatives(pats, subject, cachedTag), s, f);
      AnyBindsNothing(pats, v);
    }
  }

  lemma {:induction false} AnyBindsNothing(pats: seq<R.Pattern>, v: R.Val)
    ensures hide *; var m := R.MatchAny(pats, v); m.Yes? ==> m.binds == []
  {
    if pats != [] {
      AnyBindsNothing(pats[1..], v);
    }
  }
}
