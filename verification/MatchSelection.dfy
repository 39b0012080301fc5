/** When a match may leave out the test of its last arm. */
module MatchSelection {
  import opened Wrappers
  import opened RuaLang

  // ---- what code generation sees of a pattern: its root ----

  datatype Builtin = OptionSome | OptionNone | ResultOk | ResultErr

  datatype Root = CatchAll | BuiltinRoot(b: Builtin) | BoolRoot(value: bool) | TagRoot(tag: Tag) | OtherRoot

  function RootOf(p: Pattern): Root {
    match p
    case Wildcard => CatchAll
    case Binding(_) => CatchAll
    case Literal(v) => if v.BoolVal? then BoolRoot(v.b) else OtherRoot
    case Range(_, _, _) => OtherRoot
    case OptionPat(some, _) => BuiltinRoot(if some then OptionSome else OptionNone)
    case ResultPat(ok, _) => BuiltinRoot(if ok then ResultOk else ResultErr)
    case TuplePat(tag, _) => TagRoot(tag)
    case StructPat(tag, _) => if tag.Some? then TagRoot(tag.value) else OtherRoot
  }

  ghost predicate HasRoot(pats: seq<Pattern>, r: Root) {
    exists i :: 0 <= i < |pats| && RootOf(pats[i]) == r
  }

  /** Two of the patterns name variants of different enums. */
  ghost predicate Conflict(pats: seq<Pattern>) {
    exists i, j :: 0 <= i < j < |pats| && RootOf(pats[i]).TagRoot? && RootOf(pats[j]).TagRoot? &&
      RootOf(pats[i]).tag.siblings != RootOf(pats[j]).tag.siblings
  }

  ghost predicate NoTest(pats: seq<Pattern>) {
    forall i :: 0 <= i < |pats| ==> RootOf(pats[i]) != CatchAll
  }

  /** Every variant of one enum is named, and nothing but variants, ranges and plain literals occurs. */
  ghost predicate AllVariantsNamed(pats: seq<Pattern>) {
    && (forall i :: 0 <= i < |pats| ==> !RootOf(pats[i]).BuiltinRoot? && !RootOf(pats[i]).BoolRoot?)
    && exists i :: 0 <= i < |pats| && RootOf(pats[i]).TagRoot? &&
         forall x :: x in RootOf(pats[i]).tag.siblings ==> NamesVariant(pats, x)
  }

  ghost predicate NamesVariant(pats: seq<Pattern>, x: string) {
    exists i :: 0 <= i < |pats| && RootOf(pats[i]).TagRoot? && RootOf(pats[i]).tag.name == x
  }

  ghost predicate RootsCover(pats: seq<Pattern>) {
    || (HasRoot(pats, BuiltinRoot(OptionSome)) && HasRoot(pats, BuiltinRoot(OptionNone)))
    || (HasRoot(pats, BuiltinRoot(ResultOk)) && HasRoot(pats, BuiltinRoot(ResultErr)))
    || (HasRoot(pats, BoolRoot(true)) && HasRoot(pats, BoolRoot(false)))
    || AllVariantsNamed(pats)
  }

  ghost predicate ProvenExhaustive(pats: seq<Pattern>) {
    || (exists k :: 0 <= k < |pats| && RootOf(pats[k]) == CatchAll && !Conflict(pats[..k]))
    || (!Conflict(pats) && NoTest(pats) && RootsCover(pats))
  }

  // ---- the scan ----

  datatype Seen = Seen(builtins: set<Builtin>, owner: Option<set<string>>, variants: set<string>, booleans: set<bool>)

  /** What the scan has collected from the patterns so far. */
  ghost predicate Collected(pats: seq<Pattern>, s: Seen) {
    && NoTest(pats)
    && !Conflict(pats)
    && (forall b :: b in s.builtins <==> HasRoot(pats, BuiltinRoot(b)))
    && (forall b :: b in s.booleans <==> HasRoot(pats, BoolRoot(b)))
    && (forall x :: x in s.variants <==> NamesVariant(pats, x))
    && (s.owner.None? ==> forall i :: 0 <= i < |pats| ==> !RootOf(pats[i]).TagRoot?)
    && (s.owner.Some? ==> s.variants <= s.owner.value && exists i :: 0 <= i < |pats| && RootOf(pats[i]).TagRoot?)
    && (forall i :: 0 <= i < |pats| && RootOf(pats[i]).TagRoot? ==> s.owner == Some(RootOf(pats[i]).tag.siblings))
  }

  lemma CollectStep(pats: seq<Pattern>, s: Seen, p: Pattern, t: Seen)
    requires Collected(pats, s) && RootOf(p) != CatchAll
    requires RootOf(p).TagRoot? && s.owner.Some? ==> RootOf(p).tag.siblings == s.owner.value
    requires t == match RootOf(p)
                  case BuiltinRoot(b) => s.(builtins := s.builtins + {b})
                  case BoolRoot(b) => s.(booleans := s.booleans + {b})
                  case TagRoot(tag) => s.(owner := Some(tag.siblings), variants := s.variants + {tag.name})
                  case _ => s
    ensures Collected(pats + [p], t)
  {
    hide RootOf;
    var after := pats + [p];
    assert after[|pats|] == p && forall i :: 0 <= i < |pats| ==> after[i] == pats[i];
    forall r: Root
      ensures HasRoot(after, r) <==> HasRoot(pats, r) || RootOf(p) == r
    {
      if HasRoot(pats, r) {
        var i :| 0 <= i < |pats| && RootOf(pats[i]) == r;
        assert RootOf(after[i]) == r;
      }
      if RootOf(p) == r {
        assert RootOf(after[|pats|]) == r;
      }
    }
    forall x: string
      ensures NamesVariant(after, x) <==> NamesVariant(pats, x) || (RootOf(p).TagRoot? && RootOf(p).tag.name == x)
    {
      if NamesVariant(pats, x) {
        var i :| 0 <= i < |pats| && RootOf(pats[i]).TagRoot? && RootOf(pats[i]).tag.name == x;
        assert RootOf(after[i]).TagRoot? && RootOf(after[i]).tag.name == x;
      }
      if RootOf(p).TagRoot? && RootOf(p).tag.name == x {
        assert RootOf(after[|pats|]).TagRoot?;
      }
    }
  }

  lemma SubsetOfSameSize(a: set<string>, b: set<string>)
    requires a <= b
    ensures |a| <= |b| && (|a| == |b| ==> a == b)
    decreases |b|
  {
    if a != {} {
      var x :| x in a;
      SubsetOfSameSize(a - {x}, b - {x});
      assert a == (a - {x}) + {x} && b == (b - {x}) + {x};
    }
  }

  lemma ConflictFound(pats: seq<Pattern>, s: Seen, p: Pattern, rest: seq<Pattern>)
    requires hide *; Collected(pats, s) && s.owner.Some? && RootOf(p).TagRoot? && RootOf(p).tag.siblings != s.owner.value
    ensures !ProvenExhaustive(pats + [p] + rest)
  {
    hide HasRoot, NamesVariant;
    var all := pats + [p] + rest;
    var i :| 0 <= i < |pats| && RootOf(pats[i]).TagRoot?;
    assert all[i] == pats[i] && all[|pats|] == p;
    assert Conflict(all);
    forall k | 0 <= k < |all| && RootOf(all[k]) == CatchAll
      ensures Conflict(all[..k])
    {
      assert forall j :: 0 <= j < |pats| ==> all[j] == pats[j];
      assert all[..k][i] == pats[i] && all[..k][|pats|] == p;
    }
  }

  /** The check that decides whether a last test may be dropped. */
  method MatchIsExhaustive(pats: seq<Pattern>) returns (proven: bool)
    ensures proven <==> ProvenExhaustive(pats)
  {
    hide Collected, ProvenExhaustive, Conflict, NoTest, HasRoot, NamesVariant;
    var seen := Seen({}, None, {}, {});
    assert Collected([], seen) by { NothingCollected(); }
    for i := 0 to |pats|
      invariant Collected(pats[..i], seen)
    {
      var p := pats[i];
      assert pats[..i + 1] == pats[..i] + [p];
      assert pats == pats[..i] + [p] + pats[i + 1..];
      match RootOf(p) {
        case CatchAll =>
          CatchAllFound(pats, i, seen);
          return true;
        case BuiltinRoot(b) =>
          var next := seen.(builtins := seen.builtins + {b});
          CollectStep(pats[..i], seen, p, next);
          seen := next;
        case BoolRoot(b) =>
          var next := seen.(booleans := seen.booleans + {b});
          CollectStep(pats[..i], seen, p, next);
          seen := next;
        case TagRoot(tag) =>
          if seen.owner.Some? && seen.owner.value != tag.siblings {
            ConflictFound(pats[..i], seen, p, pats[i + 1..]);
            return false;
          }
          var next := seen.(owner := Some(tag.siblings), variants := seen.variants + {tag.name});
          CollectStep(pats[..i], seen, p, next);
          seen := next;
        case OtherRoot =>
          CollectStep(pats[..i], seen, p, seen);
      }
    }
    assert pats[..|pats|] == pats;
    var option := OptionSome in seen.builtins && OptionNone in seen.builtins;
    var result := ResultOk in seen.builtins && ResultErr in seen.builtins;
    BooleansBoth(seen.booleans);
    if option || result || |seen.booleans| == 2 {
      proven := true;
    } else if seen.owner.None? {
      proven := false;
    } else {
      proven := seen.builtins == {} && seen.booleans == {} && |seen.variants| == |seen.owner.value|;
    }
    ScanDecides(pats, seen);
  }

  lemma NothingCollected()
    ensures Collected([], Seen({}, None, {}, {}))
  {
  }

  lemma CatchAllFound(pats: seq<Pattern>, i: nat, s: Seen)
    requires hide *; i < |pats| && RootOf(pats[i]) == CatchAll && Collected(pats[..i], s)
    ensures ProvenExhaustive(pats)
  {
  }

  lemma BooleansBoth(s: set<bool>)
    ensures |s| == 2 <==> true in s && false in s
  {
    var t := s - {true};
    assert |s| == |t| + if true in s then 1 else 0;
    var u := t - {false};
    assert |t| == |u| + if false in t then 1 else 0;
    forall b: bool
      ensures b !in u
    {
      if b {
        assert true !in t;
      }
    }
    assert u == {};
  }

  lemma ScanDecides(pats: seq<Pattern>, s: Seen)
    requires hide *; Collected(pats, s)
    ensures ProvenExhaustive(pats) <==>
              || (OptionSome in s.builtins && OptionNone in s.builtins)
              || (ResultOk in s.builtins && ResultErr in s.builtins)
              || (true in s.booleans && false in s.booleans)
              || (s.owner.Some? && s.builtins == {} && s.booleans == {} && |s.variants| == |s.owner.value|)
  {
    VariantsDecide(pats, s);
    hide AllVariantsNamed, HasRoot, NamesVariant;
  }

  lemma VariantsDecide(pats: seq<Pattern>, s: Seen)
    requires Collected(pats, s)
    ensures AllVariantsNamed(pats) <==> s.owner.Some? && s.builtins == {} && s.booleans == {} && |s.variants| == |s.owner.value|
  {
    hide Conflict, NamesVariant;
    if s.owner.Some? {
      SubsetOfSameSize(s.variants, s.owner.value);
      assert (forall x :: x in s.owner.value ==> NamesVariant(pats, x)) <==> s.variants == s.owner.value;
    }
    NoRootsSeen(pats, s);
  }

  lemma NoRootsSeen(pats: seq<Pattern>, s: Seen)
    requires Collected(pats, s)
    ensures s.builtins == {} && s.booleans == {} <==> forall i :: 0 <= i < |pats| ==> !RootOf(pats[i]).BuiltinRoot? && !RootOf(pats[i]).BoolRoot?
  {
    forall i | 0 <= i < |pats|
      ensures RootOf(pats[i]).BuiltinRoot? ==> RootOf(pats[i]).b in s.builtins
      ensures RootOf(pats[i]).BoolRoot? ==> RootOf(pats[i]).value in s.booleans
    {
      assert HasRoot(pats, RootOf(pats[i]));
    }
    forall b | b in s.builtins
      ensures exists i :: 0 <= i < |pats| && RootOf(pats[i]).BuiltinRoot?
    {
      var i :| 0 <= i < |pats| && RootOf(pats[i]) == BuiltinRoot(b);
    }
    forall b | b in s.booleans
      ensures exists i :: 0 <= i < |pats| && RootOf(pats[i]).BoolRoot?
    {
      var i :| 0 <= i < |pats| && RootOf(pats[i]) == BoolRoot(b);
    }
  }

  // ---- when the check is right ----

  /** A sub-pattern that accepts every value of its type. */
  predicate Irrefutable(p: Pattern)
    decreases p
  {
    match p
    case Wildcard => true
    case Binding(_) => true
    case StructPat(None, fields) => forall i :: 0 <= i < |fields| ==> IrrefutableField(fields[i])
    case _ => false
  }

  predicate IrrefutableField(p: FieldPat)
    decreases p
  {
    Irrefutable(p.pattern)
  }

  /** Everything below the root accepts every value. */
  predicate IrrefutablePayload(p: Pattern) {
    match p
    case OptionPat(_, payload) => payload.Some? ==> Irrefutable(payload.value)
    case ResultPat(_, payload) => payload.Some? ==> Irrefutable(payload.value)
    case TuplePat(_, elems) => forall i :: 0 <= i < |elems| ==> Irrefutable(elems[i])
    case StructPat(_, fields) => forall i :: 0 <= i < |fields| ==> IrrefutableField(fields[i])
    case _ => true
  }

  lemma {:induction false} IrrefutableMatches(p: Pattern, v: Val)
    requires Irrefutable(p)
    ensures !MatchPattern(p, v).No?
    decreases p
  {
    if p.StructPat? && v.RecordVal? {
      IrrefutableFieldsMatch(p.fields, v.fields);
    }
  }

  lemma {:induction false} IrrefutableFieldsMatch(ps: seq<FieldPat>, fields: seq<FieldVal>)
    requires forall i :: 0 <= i < |ps| ==> IrrefutableField(ps[i])
    ensures !MatchFields(ps, fields).No?
    decreases ps
  {
    if ps != [] {
      var v := FieldOf(fields, ps[0].name);
      if v.Some? {
        IrrefutableMatches(ps[0].pattern, v.value);
      }
      IrrefutableFieldsMatch(ps[1..], fields);
    }
  }

  lemma {:induction false} IrrefutableElementsMatch(ps: seq<Pattern>, vs: seq<Val>)
    requires |ps| <= |vs| && forall i :: 0 <= i < |ps| ==> Irrefutable(ps[i])
    ensures !MatchAll(ps, vs).No?
    decreases ps
  {
    if ps != [] {
      IrrefutableMatches(ps[0], vs[0]);
      IrrefutableElementsMatch(ps[1..], vs[1..]);
    }
  }

  /** With irrefutable payloads only the root decides. */
  lemma RootDecides(p: Pattern, v: Val)
    requires hide *; IrrefutablePayload(p) && !MatchPattern(p, v).IllTyped?
    ensures match RootOf(p)
            case CatchAll => MatchPattern(p, v).Yes?
            case BuiltinRoot(OptionSome) => (v.SomeVal? || v.NoneVal?) && (MatchPattern(p, v).Yes? <==> v.SomeVal?)
            case BuiltinRoot(OptionNone) => (v.SomeVal? || v.NoneVal?) && (MatchPattern(p, v).Yes? <==> v.NoneVal?)
            case BuiltinRoot(ResultOk) => v.ResultVal? && (MatchPattern(p, v).Yes? <==> v.ok)
            case BuiltinRoot(ResultErr) => v.ResultVal? && (MatchPattern(p, v).Yes? <==> !v.ok)
            case BoolRoot(b) => v.BoolVal? && (MatchPattern(p, v).Yes? <==> v.b == b)
            case TagRoot(tag) => TagOf(v).Some? && TagOf(v).value.siblings == tag.siblings && (MatchPattern(p, v).Yes? <==> TagOf(v).value == tag)
            case OtherRoot => true
  {
    match p {
      case OptionPat(_, payload) =>
        if v.SomeVal? && payload.Some? { IrrefutableMatches(payload.value, v.payload); }
      case ResultPat(_, payload) =>
        if v.ResultVal? && payload.Some? { IrrefutableMatches(payload.value, v.payload); }
      case TuplePat(_, elems) =>
        if v.VariantVal? && |elems| <= |v.items| { IrrefutableElementsMatch(elems, v.items); }
      case StructPat(_, fields) =>
        if v.RecordVal? { IrrefutableFieldsMatch(fields, v.fields); }
      case _ =>
    }
  }

  ghost predicate SomeMatches(pats: seq<Pattern>, v: Val) {
    exists i :: 0 <= i < |pats| && MatchPattern(pats[i], v).Yes?
  }

  ghost predicate WellTyped(pats: seq<Pattern>, v: Val) {
    forall i :: 0 <= i < |pats| ==> !MatchPattern(pats[i], v).IllTyped?
  }

  /** When all payloads are irrefutable, a match the check accepts leaves no value out. */
  lemma ExhaustiveIsSound(pats: seq<Pattern>, v: Val)
    requires hide *; ProvenExhaustive(pats) && WellTyped(pats, v)
    requires forall i :: 0 <= i < |pats| ==> IrrefutablePayload(pats[i])
    ensures SomeMatches(pats, v)
  {
    hide MatchPattern, IrrefutablePayload;
    forall i | 0 <= i < |pats|
      ensures match RootOf(pats[i])
            case CatchAll => MatchPattern(pats[i], v).Yes?
            case BuiltinRoot(OptionSome) => (v.SomeVal? || v.NoneVal?) && (MatchPattern(pats[i], v).Yes? <==> v.SomeVal?)
            case BuiltinRoot(OptionNone) => (v.SomeVal? || v.NoneVal?) && (MatchPattern(pats[i], v).Yes? <==> v.NoneVal?)
            case BuiltinRoot(ResultOk) => v.ResultVal? && (MatchPattern(pats[i], v).Yes? <==> v.ok)
            case BuiltinRoot(ResultErr) => v.ResultVal? && (MatchPattern(pats[i], v).Yes? <==> !v.ok)
            case BoolRoot(b) => v.BoolVal? && (MatchPattern(pats[i], v).Yes? <==> v.b == b)
            case TagRoot(tag) => TagOf(v).Some? && TagOf(v).value.siblings == tag.siblings && (MatchPattern(pats[i], v).Yes? <==> TagOf(v).value == tag)
            case OtherRoot => true
    {
      RootDecides(pats[i], v);
    }
    if AllVariantsNamed(pats) && !Conflict(pats) {
      var i :| 0 <= i < |pats| && RootOf(pats[i]).TagRoot? &&
         forall x :: x in RootOf(pats[i]).tag.siblings ==> NamesVariant(pats, x);
      assert NamesVariant(pats, TagOf(v).value.name);
      var j :| 0 <= j < |pats| && RootOf(pats[j]).TagRoot? && RootOf(pats[j]).tag.name == TagOf(v).value.name;
      assert TagOf(v).value == RootOf(pats[j]).tag;
    }
  }

  /** Values that between them have every outside a value of an option, result, boolean or enum type can have. */
  ghost predicate EveryOutside(vs: seq<Val>) {
    || (|vs| == 2 && vs[0].SomeVal? && vs[1].NoneVal?)
    || (|vs| == 2 && vs[0].ResultVal? && vs[1].ResultVal? && vs[0].ok && !vs[1].ok)
    || vs == [BoolVal(true), BoolVal(false)]
    || (vs != [] && TagOf(vs[0]).Some? && (forall v <- vs :: TagOf(v).Some? && TagOf(v).value.siblings == TagOf(vs[0]).value.siblings)
        && forall x :: x in TagOf(vs[0]).value.siblings ==> exists i :: 0 <= i < |vs| && TagOf(vs[i]).value.name == x)
  }

  /** The other direction: when all payloads are irrefutable and no outside is left out, the check accepts the match. */
  lemma CompleteIsExhaustive(pats: seq<Pattern>, vs: seq<Val>)
    requires hide *; EveryOutside(vs) && forall i :: 0 <= i < |pats| ==> IrrefutablePayload(pats[i])
    requires forall v <- vs :: WellTyped(pats, v) && SomeMatches(pats, v)
    ensures ProvenExhaustive(pats)
  {
    hide MatchPattern, IrrefutablePayload, ProvenExhaustive;
    NoTwoEnums(pats, vs[0]);
    if NoTest(pats) {
      if TagOf(vs[0]).Some? {
        AllNamed(pats, vs);
      } else {
        var a := RootFor(pats, vs[0]);
        var b := RootFor(pats, vs[1]);
      }
    } else {
      var k :| 0 <= k < |pats| && RootOf(pats[k]) == CatchAll;
      assert !Conflict(pats[..k]);
    }
    Accepted(pats);
  }

  lemma Accepted(pats: seq<Pattern>)
    ensures (exists k :: 0 <= k < |pats| && RootOf(pats[k]) == CatchAll && !Conflict(pats[..k])) ==> ProvenExhaustive(pats)
    ensures !Conflict(pats) && NoTest(pats) && RootsCover(pats) ==> ProvenExhaustive(pats)
  {
  }

  lemma NoTwoEnums(pats: seq<Pattern>, v: Val)
    requires hide *; WellTyped(pats, v) && forall i :: 0 <= i < |pats| ==> IrrefutablePayload(pats[i])
    ensures !Conflict(pats)
    ensures forall i :: 0 <= i < |pats| && RootOf(pats[i]).TagRoot? ==> TagOf(v).Some? && TagOf(v).value.siblings == RootOf(pats[i]).tag.siblings
  {
    hide MatchPattern, IrrefutablePayload, RootOf;
    forall i | 0 <= i < |pats| && RootOf(pats[i]).TagRoot?
      ensures TagOf(v).Some? && TagOf(v).value.siblings == RootOf(pats[i]).tag.siblings
    {
      RootDecides(pats[i], v);
    }
  }

  /** A pattern that accepts a value of such a type has the root for it. */
  lemma RootFor(pats: seq<Pattern>, v: Val) returns (i: nat)
    requires hide *; WellTyped(pats, v) && SomeMatches(pats, v) && NoTest(pats) && forall i :: 0 <= i < |pats| ==> IrrefutablePayload(pats[i])
    ensures i < |pats| && MatchPattern(pats[i], v).Yes?
    ensures v.SomeVal? ==> HasRoot(pats, BuiltinRoot(OptionSome))
    ensures v.NoneVal? ==> HasRoot(pats, BuiltinRoot(OptionNone))
    ensures v.ResultVal? ==> HasRoot(pats, BuiltinRoot(if v.ok then ResultOk else ResultErr))
    ensures v.BoolVal? ==> HasRoot(pats, BoolRoot(v.b))
    ensures TagOf(v).Some? ==> RootOf(pats[i]) == TagRoot(TagOf(v).value)
  {
    hide IrrefutablePayload;
    i :| 0 <= i < |pats| && MatchPattern(pats[i], v).Yes?;
    RootDecides(pats[i], v);
    if RootOf(pats[i]) == OtherRoot {
      OtherRootMatches(pats[i], v);
    }
  }

  lemma OtherRootMatches(p: Pattern, v: Val)
    requires RootOf(p) == OtherRoot && MatchPattern(p, v).Yes?
    ensures !v.SomeVal? && !v.NoneVal? && !v.ResultVal? && !v.BoolVal? && TagOf(v).None?
  {
  }

  lemma AllNamed(pats: seq<Pattern>, vs: seq<Val>)
    requires hide *; vs != [] && EveryOutside(vs) && TagOf(vs[0]).Some? && NoTest(pats) && forall i :: 0 <= i < |pats| ==> IrrefutablePayload(pats[i])
    requires forall v <- vs :: WellTyped(pats, v) && SomeMatches(pats, v)
    ensures AllVariantsNamed(pats)
  {
    hide MatchPattern, IrrefutablePayload, RootOf;
    assert vs[0] in vs;
    forall i | 0 <= i < |pats| ensures !RootOf(pats[i]).BuiltinRoot? && !RootOf(pats[i]).BoolRoot? {
      RootDecides(pats[i], vs[0]);
    }
    var first := RootFor(pats, vs[0]);
    forall x | x in RootOf(pats[first]).tag.siblings ensures NamesVariant(pats, x) {
      var k :| 0 <= k < |vs| && TagOf(vs[k]).value.name == x;
      var i := RootFor(pats, vs[k]);
    }
  }

  // ---- which arm runs ----

  function Flatten(arms: seq<seq<Pattern>>): seq<Pattern> {
    if arms == [] then [] else Flatten(arms[..|arms| - 1]) + arms[|arms| - 1]
  }

  /** The first arm from i on that accepts the value. */
  function FirstMatch(arms: seq<seq<Pattern>>, v: Val, i: nat): Option<nat>
    requires i <= |arms|
    decreases |arms| - i
  {
    if i == |arms| then None
    else if MatchArm(arms[i], v).Yes? then Some(i)
    else FirstMatch(arms, v, i + 1)
  }

  /** The arm the if/elseif chain runs: the last test is dropped when the match is proven exhaustive. */
  ghost function ChainSelects(arms: seq<seq<Pattern>>, v: Val, i: nat): Option<nat>
    requires hide *; i <= |arms|
    decreases |arms| - i
  {
    hide *;
    if i == |arms| then None
    else if MatchArm(arms[i], v).Yes? || (ProvenExhaustive(Flatten(arms)) && i + 1 == |arms|) then Some(i)
    else ChainSelects(arms, v, i + 1)
  }

  lemma {:induction false} ChainFollowsFirstMatch(arms: seq<seq<Pattern>>, v: Val, i: nat)
    requires hide *; i <= |arms|
    ensures var m := FirstMatch(arms, v, i);
            ChainSelects(arms, v, i) ==
            if m.Some? then m else if ProvenExhaustive(Flatten(arms)) && i < |arms| then Some(|arms| - 1) else None
    decreases |arms| - i
  {
    hide ProvenExhaustive, MatchArm;
    if i < |arms| && !MatchArm(arms[i], v).Yes? {
      ChainFollowsFirstMatch(arms, v, i + 1);
    }
  }

  /** The chain runs the arm it should, or none, exactly unless a match proven exhaustive accepts nothing. */
  lemma ChainIsRightExactly(arms: seq<seq<Pattern>>, v: Val)
    ensures hide *; ChainSelects(arms, v, 0) == FirstMatch(arms, v, 0)
       <==> FirstMatch(arms, v, 0).Some? || !ProvenExhaustive(Flatten(arms)) || arms == []
  {
    hide MatchAny, MatchPattern, ProvenExhaustive;
    ChainFollowsFirstMatch(arms, v, 0);
  }

  lemma {:induction false} FlattenHasArm(arms: seq<seq<Pattern>>, k: nat)
    requires k < |arms|
    ensures forall p :: p in arms[k] ==> p in Flatten(arms)
  {
    if k < |arms| - 1 {
      FlattenHasArm(arms[..|arms| - 1], k);
    }
  }

  lemma {:induction false} FlattenComesFrom(arms: seq<seq<Pattern>>, p: Pattern) returns (k: nat)
    requires p in Flatten(arms)
    ensures k < |arms| && p in arms[k]
  {
    if p in arms[|arms| - 1] {
      k := |arms| - 1;
    } else {
      k := FlattenComesFrom(arms[..|arms| - 1], p);
    }
  }

  lemma {:induction false} AnyFinds(ps: seq<Pattern>, v: Val, i: nat)
    requires i < |ps| && MatchPattern(ps[i], v).Yes? && forall j :: 0 <= j < |ps| ==> !MatchPattern(ps[j], v).IllTyped?
    ensures MatchArm(ps, v).Yes? && MatchAny(ps, v).Yes?
  {
    if i > 0 {
      AnyFinds(ps[1..], v, i - 1);
    }
  }

  lemma {:induction false} MatchIsFound(arms: seq<seq<Pattern>>, v: Val, i: nat, k: nat)
    requires i <= k < |arms| && MatchArm(arms[k], v).Yes?
    ensures FirstMatch(arms, v, i).Some?
    decreases k - i
  {
    hide MatchAny, MatchPattern;
    if i < k {
      MatchIsFound(arms, v, i + 1, k);
    }
  }

  /** Nested refutable patterns aside, dropping the last test never changes which arm runs. */
  lemma DroppingTheLastTestIsSound(arms: seq<seq<Pattern>>, v: Val)
    requires hide *; WellTyped(Flatten(arms), v) && forall p :: p in Flatten(arms) ==> IrrefutablePayload(p)
    ensures ChainSelects(arms, v, 0) == FirstMatch(arms, v, 0)
  {
    hide IrrefutablePayload, MatchPattern, MatchAny, ProvenExhaustive;
    ChainIsRightExactly(arms, v);
    var pats := Flatten(arms);
    if ProvenExhaustive(pats) {
      ExhaustiveIsSound(pats, v);
      var i :| 0 <= i < |pats| && MatchPattern(pats[i], v).Yes?;
      var k := FlattenComesFrom(arms, pats[i]);
      var j :| 0 <= j < |arms[k]| && arms[k][j] == pats[i];
      forall m | 0 <= m < |arms[k]|
        ensures !MatchPattern(arms[k][m], v).IllTyped?
      {
        FlattenHasArm(arms, k);
        assert arms[k][m] in pats;
        var n :| 0 <= n < |pats| && pats[n] == arms[k][m];
      }
      AnyFinds(arms[k], v, j);
      MatchIsFound(arms, v, 0, k);
    }
  }

  lemma TwoHalves(a: Pattern, b: Pattern)
    requires RootOf(a) == BuiltinRoot(OptionSome) && RootOf(b) == BuiltinRoot(OptionNone)
    ensures ProvenExhaustive([a, b])
  {
    assert RootOf([a, b][0]) == BuiltinRoot(OptionSome) && RootOf([a, b][1]) == BuiltinRoot(OptionNone);
    assert HasRoot([a, b], BuiltinRoot(OptionSome)) && HasRoot([a, b], BuiltinRoot(OptionNone));
  }

  /**
   * The smallest failure: `Some(1)` and `None` look exhaustive by their roots, so `Some(2)`, which
   * neither accepts, runs the arm for `None` instead of raising the error.
   */
  lemma RootsAreNotEnough()
    ensures hide *; var arms := [[OptionPat(true, Some(Literal(IntVal(1))))], [OptionPat(false, None)]];
            var v := SomeVal(IntVal(2));
            && FirstMatch(arms, v, 0) == None
            && ChainSelects(arms, v, 0) == Some(1)
  {
    var a, b := OptionPat(true, Some(Literal(IntVal(1)))), OptionPat(false, None);
    var arms := [[a], [b]];
    var v := SomeVal(IntVal(2));
    hide ProvenExhaustive;
    assert ProvenExhaustive([a, b]) by { TwoHalves(a, b); }
    assert arms[..1] == [[a]] && arms[..1][..0] == [];
    assert Flatten([[a]]) == [a];
    assert Flatten(arms) == [a, b];
    assert FirstMatch(arms, v, 2) == None;
    assert FirstMatch(arms, v, 1) == None;
    ChainFollowsFirstMatch(arms, v, 0);
  }
}
