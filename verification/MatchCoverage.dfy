/** The matches for which dropping the last test is right. */
module MatchCoverage {
  import opened Wrappers
  import opened RuaLang
  import opened PatternTypes
  import opened PatternCoverage
  import M = MatchSelection

  // ---- matches on a value of the type ----

  lemma {:induction false} NeverIll(p: Pattern, v: Val, ty: Ty, d: Decls)
    requires DeclsOk(d) && PatTyped(p, ty, d) && HasType(v, ty, d)
    ensures !MatchPattern(p, v).IllTyped?
    decreases p, 1
  {
    hide VariantCons, FieldOf, MatchAll, FieldTypes, HasForm;
    match p {
      case OptionPat(_, payload) =>
        if p.some && v.SomeVal? && payload.Some? { NeverIll(payload.value, v.payload, ty.item, d); }
      case ResultPat(ok, payload) =>
        if ok == v.ok && payload.Some? { NeverIll(payload.value, v.payload, if ok then ty.okTy else ty.errTy, d); }
      case TuplePat(_, _) => TupleNeverIll(p, v, ty, d);
      case StructPat(_, _) => StructNeverIll(p, v, ty, d);
      case _ =>
    }
  }

  /** A value of a type with forms, and a pattern for one of them: same family of tags, and the same form for the same tag. */
  lemma TagsOfType(p: Pattern, con: Con, v: Val, own: Con, ty: Ty, d: Decls)
    requires DeclsOk(d) && (ty.EnumTy? || ty.StructTy?) && con in Cons(ty, d) && own in Cons(ty, d) && HeadIs(p, con)
    requires |own.Args()| == |Parts(v)| && v == Build(own, Parts(v)) && (p.TuplePat? || p.StructPat?)
    ensures var tag := if p.TuplePat? then Some(p.tag) else p.variant;
            && (tag.Some? ==> TagOf(v).Some? && TagOf(v).value.siblings == tag.value.siblings && (TagOf(v).value == tag.value ==> own == con))
            && (tag.None? ==> own == con)
  {
    hide Cons, DeclsOk, Zip, Parts;
    TagsOfCons(con, own, ty, d);
    assert TagOf(v) == TagOfCon(own);
    assert TagOfCon(con) == if p.TuplePat? then Some(p.tag) else p.variant;
  }

  lemma {:induction false} TupleNeverIll(p: Pattern, v: Val, ty: Ty, d: Decls)
    requires DeclsOk(d) && p.TuplePat? && PatTyped(p, ty, d) && HasType(v, ty, d)
    ensures !MatchPattern(p, v).IllTyped?
    decreases p, 0
  {
    hide Cons, HasType, FieldOf, MatchAll, FieldTypes;
    var own := Decompose(v, ty, d);
    var con :| con in Cons(ty, d) && HeadIs(p, con) && |p.elems| <= |con.Args()|
                                 && forall i :: 0 <= i < |p.elems| ==> PatTyped(p.elems[i], con.Args()[i], d);
    TagsOfType(p, con, v, own, ty, d);
    if TagOf(v).value == p.tag {
      forall i | 0 <= i < |p.elems| ensures !MatchPattern(p.elems[i], v.items[i]).IllTyped? {
        NeverIll(p.elems[i], v.items[i], con.Args()[i], d);
      }
      AllNotIll(p.elems, v.items);
    }
  }

  lemma {:induction false} AllNotIll(ps: seq<Pattern>, vs: seq<Val>)
    requires |ps| <= |vs| && forall i :: 0 <= i < |ps| ==> !MatchPattern(ps[i], vs[i]).IllTyped?
    ensures !MatchAll(ps, vs).IllTyped?
  {
    hide MatchPattern;
    if ps != [] {
      AllNotIll(ps[1..], vs[1..]);
    }
  }

  lemma {:induction false} StructNeverIll(p: Pattern, v: Val, ty: Ty, d: Decls)
    requires DeclsOk(d) && p.StructPat? && PatTyped(p, ty, d) && HasType(v, ty, d)
    ensures !MatchPattern(p, v).IllTyped?
    decreases p, 0
  {
    hide Cons, HasType;
    var own := Decompose(v, ty, d);
    var con :| con in Cons(ty, d) && HeadIs(p, con) && forall i :: 0 <= i < |p.fields| ==> FieldPatTyped(p.fields[i], con.fields, d);
    TagsOfType(p, con, v, own, ty, d);
    if p.variant.None? || TagOf(v).value == p.variant.value {
      ConsAreOk(ty, d, con);
      var us := Parts(v);
      forall i | 0 <= i < |p.fields|
        ensures FieldOf(v.fields, p.fields[i].name).Some? && !MatchField(p.fields[i], FieldOf(v.fields, p.fields[i].name).value).IllTyped?
      {
        FieldNeverIll(p.fields[i], con.fields, us, d);
      }
      FieldsNotIll(p.fields, v.fields);
    }
  }

  lemma {:induction false} FieldNeverIll(p: FieldPat, fs: seq<NamedTy>, us: seq<Val>, d: Decls)
    requires DeclsOk(d) && DistinctFields(fs) && FieldPatTyped(p, fs, d) && HaveTypes(us, FieldTypes(fs), d)
    ensures var w := FieldOf(Zip(fs, us), p.name); w.Some? && !MatchField(p, w.value).IllTyped?
    decreases p, 0
  {
    hide HasType, MatchPattern, PatTyped, Zip, FieldOf, FieldTypes;
    var k :| 0 <= k < |fs| && fs[k].name == p.name && PatTyped(p.pattern, fs[k].ty, d);
    ZipLookup(fs, us, k);
    assert HasType(us[k], FieldTypes(fs)[k], d);
    NeverIll(p.pattern, us[k], fs[k].ty, d);
  }

  lemma {:induction false} FieldsNotIll(ps: seq<FieldPat>, fields: seq<FieldVal>)
    requires forall i :: 0 <= i < |ps| ==> FieldOf(fields, ps[i].name).Some? && !MatchField(ps[i], FieldOf(fields, ps[i].name).value).IllTyped?
    ensures !MatchFields(ps, fields).IllTyped?
  {
    hide MatchField, FieldOf;
    if ps != [] {
      FieldsNotIll(ps[1..], fields);
    }
  }

  // ---- the arms of a match ----

  /** One row for each pattern. */
  function Rows(pats: seq<Pattern>): (r: seq<Row>)
    ensures |r| == |pats| && forall i :: 0 <= i < |pats| ==> r[i] == [pats[i]]
  {
    if pats == [] then [] else [[pats[0]]] + Rows(pats[1..])
  }

  lemma {:induction false} RowsMatch(pats: seq<Pattern>, v: Val)
    ensures SomeRow(Rows(pats), [v]) <==> M.SomeMatches(pats, v)
  {
    hide MatchPattern;
    if pats != [] {
      RowsMatch(pats[1..], v);
      assert Rows(pats)[1..] == Rows(pats[1..]);
      assert MatchRow([pats[0]], [v]) <==> MatchPattern([pats[0]][0], [v][0]).Yes?;
      if M.SomeMatches(pats[1..], v) {
        var i :| 0 <= i < |pats[1..]| && MatchPattern(pats[1..][i], v).Yes?;
        assert MatchPattern(pats[i + 1], v).Yes?;
      }
      if M.SomeMatches(pats, v) && !MatchPattern(pats[0], v).Yes? {
        var i :| 0 <= i < |pats| && MatchPattern(pats[i], v).Yes?;
        assert MatchPattern(pats[1..][i - 1], v).Yes?;
      }
    }
  }

  lemma {:induction false} FirstMatchIs(arms: seq<seq<Pattern>>, v: Val, i: nat)
    requires i <= |arms|
    ensures var m := M.FirstMatch(arms, v, i); m.Some? ==> m.value < |arms| && MatchArm(arms[m.value], v).Yes?
    decreases |arms| - i
  {
    hide MatchArm;
    if i < |arms| {
      FirstMatchIs(arms, v, i + 1);
    }
  }

  lemma {:induction false} AnyComesFrom(ps: seq<Pattern>, v: Val) returns (j: nat)
    requires MatchAny(ps, v).Yes?
    ensures j < |ps| && MatchPattern(ps[j], v).Yes?
  {
    hide MatchPattern;
    j := 0;
    if MatchPattern(ps[0], v).No? {
      j := AnyComesFrom(ps[1..], v);
      j := j + 1;
    }
  }

  /** An arm runs exactly when some pattern accepts the value. */
  lemma SomeArmRuns(arms: seq<seq<Pattern>>, v: Val)
    requires M.WellTyped(M.Flatten(arms), v)
    ensures M.FirstMatch(arms, v, 0).Some? <==> M.SomeMatches(M.Flatten(arms), v)
  {
    hide MatchPattern;
    var pats := M.Flatten(arms);
    if M.FirstMatch(arms, v, 0).Some? {
      FirstMatchIs(arms, v, 0);
      var k := M.FirstMatch(arms, v, 0).value;
      var j := 0;
      if |arms[k]| != 1 { j := AnyComesFrom(arms[k], v); }
      M.FlattenHasArm(arms, k);
      assert arms[k][j] in pats;
      var i :| 0 <= i < |pats| && pats[i] == arms[k][j];
    } else if M.SomeMatches(pats, v) {
      var i :| 0 <= i < |pats| && MatchPattern(pats[i], v).Yes?;
      var k := M.FlattenComesFrom(arms, pats[i]);
      var j :| 0 <= j < |arms[k]| && arms[k][j] == pats[i];
      forall m | 0 <= m < |arms[k]| ensures !MatchPattern(arms[k][m], v).IllTyped? {
        M.FlattenHasArm(arms, k);
        assert arms[k][m] in pats;
        var n :| 0 <= n < |pats| && pats[n] == arms[k][m];
      }
      M.AnyFinds(arms[k], v, j);
      M.MatchIsFound(arms, v, 0, k);
    }
  }

  ghost predicate AllTyped(pats: seq<Pattern>, ty: Ty, d: Decls) {
    hide *;
    forall i :: 0 <= i < |pats| ==> PatTyped(pats[i], ty, d)
  }

  /** The nested test on the patterns of a match. */
  predicate ArmsCover(arms: seq<seq<Pattern>>, ty: Ty, d: Decls)
    requires DeclsOk(d)
  {
    Covers(Rows(M.Flatten(arms)), [ty], d)
  }

  lemma RowsAreTyped(pats: seq<Pattern>, ty: Ty, d: Decls)
    requires AllTyped(pats, ty, d)
    ensures RowsTyped(Rows(pats), [ty], d) && Shaped(Rows(pats), 1)
  {
    hide PatTyped;
  }

  /** One value of the type: an arm runs when some row accepts it, and so when the nested test accepts the arms. */
  lemma CoveredValue(arms: seq<seq<Pattern>>, ty: Ty, d: Decls, v: Val)
    requires DeclsOk(d) && AllTyped(M.Flatten(arms), ty, d) && HasType(v, ty, d)
    ensures Shaped(Rows(M.Flatten(arms)), 1) && (M.FirstMatch(arms, v, 0).Some? <==> SomeRow(Rows(M.Flatten(arms)), [v]))
    ensures ArmsCover(arms, ty, d) ==> M.FirstMatch(arms, v, 0).Some?
  {
    hide PatTyped, HasType, MatchPattern, Covers, DeclsOk, M.SomeMatches, M.FirstMatch;
    var pats := M.Flatten(arms);
    RowsAreTyped(pats, ty, d);
    forall i | 0 <= i < |pats| ensures !MatchPattern(pats[i], v).IllTyped? { NeverIll(pats[i], v, ty, d); }
    SomeArmRuns(arms, v);
    RowsMatch(pats, v);
    if ArmsCover(arms, ty, d) {
      CoversSound(Rows(pats), [ty], d, [v]);
    }
  }

  /** The nested test says exactly whether every value of the type has an arm. */
  lemma ArmsCoverExactly(arms: seq<seq<Pattern>>, ty: Ty, d: Decls, sample: Ty -> Val)
    requires DeclsOk(d) && Closed(d) && Inhabited(sample, d) && Known(ty, d) && AllTyped(M.Flatten(arms), ty, d)
    ensures ArmsCover(arms, ty, d) <==> forall v :: HasType(v, ty, d) ==> M.FirstMatch(arms, v, 0).Some?
  {
    hide PatTyped, HasType, MatchPattern, Covers, Closed, Inhabited, DeclsOk, AllTyped, M.FirstMatch;
    var pats := M.Flatten(arms);
    RowsAreTyped(pats, ty, d);
    forall v | HasType(v, ty, d)
      ensures ArmsCover(arms, ty, d) ==> M.FirstMatch(arms, v, 0).Some?
      ensures M.FirstMatch(arms, v, 0).Some? <==> SomeRow(Rows(pats), [v])
    {
      CoveredValue(arms, ty, d, v);
    }
    if !ArmsCover(arms, ty, d) {
      var vs := CoversComplete(Rows(pats), [ty], d, sample);
      assert vs == [vs[0]] && HasType(vs[0], [ty][0], d);
    }
  }

  /**
   * Dropping the last test of a match on a value of the type is right, whatever the value, if and only
   * if the match is not proven exhaustive by its roots (so nothing is dropped) or the nested test accepts it.
   */
  lemma DroppingIsRightExactly(arms: seq<seq<Pattern>>, ty: Ty, d: Decls, sample: Ty -> Val)
    requires DeclsOk(d) && Closed(d) && Inhabited(sample, d) && Known(ty, d) && AllTyped(M.Flatten(arms), ty, d)
    ensures (forall v :: HasType(v, ty, d) ==> M.ChainSelects(arms, v, 0) == M.FirstMatch(arms, v, 0))
       <==> arms == [] || !M.ProvenExhaustive(M.Flatten(arms)) || ArmsCover(arms, ty, d)
  {
    hide PatTyped, HasType, Closed, Inhabited, DeclsOk, ArmsCover, M.FirstMatch, M.ChainSelects, M.ProvenExhaustive;
    ArmsCoverExactly(arms, ty, d, sample);
    forall v
      ensures M.ChainSelects(arms, v, 0) == M.FirstMatch(arms, v, 0)
         <==> M.FirstMatch(arms, v, 0).Some? || !M.ProvenExhaustive(M.Flatten(arms)) || arms == []
    {
      M.ChainIsRightExactly(arms, v);
    }
  }

  /** The nested test rejects what the roots accept: `Some(1)` and `None`, with no arm for `Some(2)`. */
  lemma NestedTestRejects(d: Decls)
    requires DeclsOk(d)
    ensures var arms := [[OptionPat(true, Some(Literal(IntVal(1))))], [OptionPat(false, None)]];
            M.ProvenExhaustive(M.Flatten(arms)) && !ArmsCover(arms, OptionTy(IntTy), d)
  {
    hide Covers, M.ProvenExhaustive, MatchPattern, PatTyped, HasType, Rows;
    var a, b := OptionPat(true, Some(Literal(IntVal(1)))), OptionPat(false, None);
    var arms := [[a], [b]];
    var pats := [a, b];
    var v := SomeVal(IntVal(2));
    assert arms[..1] == [[a]] && arms[..1][..0] == [];
    assert M.Flatten([[a]]) == [a];
    assert M.Flatten(arms) == [a] + [b] == pats;
    M.TwoHalves(a, b);
    SmallFacts(a, b, v, d);
    RowsAreTyped(pats, OptionTy(IntTy), d);
    RowsMatch(pats, v);
    if ArmsCover(arms, OptionTy(IntTy), d) {
      CoversSound(Rows(pats), [OptionTy(IntTy)], d, [v]);
      assert false;
    }
  }

  lemma SmallFacts(a: Pattern, b: Pattern, v: Val, d: Decls)
    requires a == OptionPat(true, Some(Literal(IntVal(1)))) && b == OptionPat(false, None) && v == SomeVal(IntVal(2))
    ensures AllTyped([a, b], OptionTy(IntTy), d) && HasType(v, OptionTy(IntTy), d) && !M.SomeMatches([a, b], v)
  {
    assert MatchPattern(a, v) == No && MatchPattern(b, v) == No;
    assert HasType(IntVal(2), IntTy, d);
    assert PatTyped(Literal(IntVal(1)), IntTy, d);
  }
}
