/** How values are represented at run time. */
module Encoding {
  import opened Wrappers
  import R = RuaLang
  import L = LuaRun

  /**
   * `None` and unit are nil, `Some(v)` is v, results are `{ok, payload}`, enum values carry a `tag`;
   * vectors (and tuples) carry their length as `n`.
   */
  function Enc(v: R.Val): L.Value
    decreases v
  {
    match v
    case IntVal(n) => L.IntV(n)
    case BoolVal(b) => L.BoolV(b)
    case StrVal(s) => L.StrV(s)
    case UnitVal => L.NilV
    case NoneVal => L.NilV
    case SomeVal(w) => Enc(w)
    case ResultVal(ok, w) => L.TableV([L.BoolV(ok), Enc(w)], map[])
    case VariantVal(tag, items) => L.TableV(EncAll(items), map["tag" := L.StrV(tag.name)])
    case RecordVal(tag, fields) =>
      L.TableV([], EncFields(fields, if tag.Some? then map["tag" := L.StrV(tag.value.name)] else map[]))
    case VecVal(items) => L.TableV(EncAll(items), map["n" := L.IntV(|items|)])
  }

  function EncAll(vs: seq<R.Val>): (r: seq<L.Value>)
    ensures |r| == |vs| && forall i :: 0 <= i < |vs| ==> r[i] == Enc(vs[i])
    decreases vs
  {
    if vs == [] then [] else [Enc(vs[0])] + EncAll(vs[1..])
  }

  /** The constructor writes the tag first, then the fields in order. */
  function EncFields(fields: seq<R.FieldVal>, start: map<string, L.Value>): map<string, L.Value>
    decreases fields
  {
    if fields == [] then start
    else EncFields(fields[..|fields| - 1], start)[fields[|fields| - 1].name := EncField(fields[|fields| - 1])]
  }

  function EncField(f: R.FieldVal): L.Value
    decreases f
  {
    Enc(f.value)
  }

  /** Represented by nil: unit and `None`, also under any number of `Some`. */
  predicate NilDeep(v: R.Val)
    decreases v
  {
    R.NilLike(v) || (v.SomeVal? && NilDeep(v.payload))
  }

  /** A field called `tag` replaces the tag of its variant, unless it holds that very name. */
  ghost predicate TagSurvives(tag: R.Tag, fields: seq<R.FieldVal>) {
    var v := R.FieldOf(fields, "tag");
    v.Some? ==> Enc(v.value) == L.StrV(tag.name)
  }

  /** What reading the outside of a value needs: a payload that is not nil, a tag that is not replaced. */
  ghost predicate KeptApart(v: R.Val) {
    && (v.SomeVal? ==> !NilDeep(v.payload))
    && (v.RecordVal? && v.rtag.Some? ==> TagSurvives(v.rtag.value, v.fields))
  }

  /** Values kept apart from the others at every level. */
  ghost predicate Expressible(v: R.Val)
    decreases v
  {
    KeptApart(v) &&
    match v
    case SomeVal(w) => Expressible(w)
    case ResultVal(_, w) => Expressible(w)
    case VariantVal(_, items) => forall i :: 0 <= i < |items| ==> Expressible(items[i])
    case VecVal(items) => forall i :: 0 <= i < |items| ==> Expressible(items[i])
    case RecordVal(tag, fields) => forall i :: 0 <= i < |fields| ==> ExpressibleField(fields[i])
    case _ => true
  }

  ghost predicate ExpressibleField(f: R.FieldVal)
    decreases f
  {
    Expressible(f.value)
  }

  lemma {:induction false} NilExactly(v: R.Val)
    ensures Enc(v) == L.NilV <==> NilDeep(v)
  {
    if v.SomeVal? {
      NilExactly(v.payload);
    }
  }

  /** Only unit and `None` are represented by nil. */
  lemma NilOnlyForNilLike(v: R.Val)
    requires Expressible(v)
    ensures Enc(v) == L.NilV <==> R.NilLike(v)
    ensures NilDeep(v) <==> R.NilLike(v)
  {
    NilExactly(v);
  }

  /** `Some(w)` and `None` are two values unless `w` is nil itself, as in `Some(None)`. */
  lemma SomeIsNotNone(w: R.Val)
    ensures Enc(R.SomeVal(w)) != Enc(R.NoneVal) <==> !NilDeep(w)
    ensures Enc(R.SomeVal(R.NoneVal)) == Enc(R.NoneVal)
  {
    NilExactly(w);
  }

  /** What reading the tag of a struct variant gives: its name, unless a field called `tag` holds something else. */
  lemma TagReadExactly(tag: R.Tag, fields: seq<R.FieldVal>)
    ensures var t := Enc(R.RecordVal(Some(tag), fields));
            t.TableV? && "tag" in t.named && (t.named["tag"] == L.StrV(tag.name) <==> TagSurvives(tag, fields))
    ensures (forall i :: 0 <= i < |fields| ==> fields[i].name != "tag") ==> TagSurvives(tag, fields)
  {
    FieldLookup(fields, map["tag" := L.StrV(tag.name)], "tag");
    if forall i :: 0 <= i < |fields| ==> fields[i].name != "tag" {
      NoSuchField(fields, "tag");
    }
  }

  /** Why a field must not be called `tag`: it replaces the tag the patterns test. */
  lemma TagFieldIsLost(tag: R.Tag, v: R.Val)
    ensures TagSurvives(tag, [R.FieldVal("tag", v)]) <==> Enc(v) == L.StrV(tag.name)
  {
    assert R.FieldOf([R.FieldVal("tag", v)], "tag") == Some(v);
  }

  lemma {:induction false} FieldLookup(fields: seq<R.FieldVal>, start: map<string, L.Value>, name: string)
    ensures var m := EncFields(fields, start);
            match R.FieldOf(fields, name)
            case Some(v) => name in m && m[name] == Enc(v)
            case None => (name in m <==> name in start) && (name in start ==> m[name] == start[name])
  {
    if fields != [] {
      FieldLookup(fields[..|fields| - 1], start, name);
    }
  }

  lemma {:induction false} FieldOfExpressible(fields: seq<R.FieldVal>, name: string)
    requires forall i :: 0 <= i < |fields| ==> ExpressibleField(fields[i])
    ensures var v := R.FieldOf(fields, name);
            v.Some? ==> Expressible(v.value) && exists i :: 0 <= i < |fields| && fields[i].name == name
  {
    hide Expressible;
    if fields != [] && fields[|fields| - 1].name != name {
      FieldOfExpressible(fields[..|fields| - 1], name);
    } else if fields != [] {
      assert ExpressibleField(fields[|fields| - 1]);
    }
  }

  lemma {:induction false} NoSuchField(fields: seq<R.FieldVal>, name: string)
    requires forall i :: 0 <= i < |fields| ==> fields[i].name != name
    ensures R.FieldOf(fields, name).None?
  {
    if fields != [] {
      NoSuchField(fields[..|fields| - 1], name);
    }
  }
}
