/** Types of patterns and values: how a value of a type can be built, and which patterns ask for it. */
module PatternTypes {
  import opened Wrappers
  import opened RuaLang

  // ---- types ----

  datatype Ty =
    | IntTy
    | BoolTy
    | StrTy
    | OptionTy(item: Ty)
    | ResultTy(okTy: Ty, errTy: Ty)
    | EnumTy(id: string)
    | StructTy(id: string)
    | OtherTy

  datatype NamedTy = NamedTy(name: string, ty: Ty)

  datatype Variant = TupleVariant(name: string, items: seq<Ty>) | RecordVariant(name: string, fields: seq<NamedTy>)

  datatype Decls = Decls(enums: map<string, seq<Variant>>, structs: map<string, seq<NamedTy>>)

  predicate DistinctFields(fs: seq<NamedTy>) {
    forall i, j :: 0 <= i < j < |fs| ==> fs[i].name != fs[j].name
  }

  predicate DistinctVariants(vs: seq<Variant>) {
    forall i, j :: 0 <= i < j < |vs| ==> vs[i].name != vs[j].name
  }

  /** Variants of an enum, and fields of a struct or variant, have different names. */
  predicate DeclsOk(d: Decls) {
    && (forall id :: id in d.structs ==> DistinctFields(d.structs[id]))
    && (forall id :: id in d.enums ==> DistinctVariants(d.enums[id]) && forall k :: 0 <= k < |d.enums[id]| ==> VariantOk(d.enums[id][k]))
  }

  predicate VariantOk(v: Variant) {
    v.RecordVariant? ==> DistinctFields(v.fields)
  }

  function Siblings(vs: seq<Variant>): set<string> {
    set k | 0 <= k < |vs| :: vs[k].name
  }

  function TagAt(vs: seq<Variant>, k: nat): Tag
    requires k < |vs|
  {
    RawTag(vs[k].name, Siblings(vs))
  }

  /** How a value of a type can be built: a name for the form and the types of its parts. */
  datatype Con =
    | BoolCon(b: bool)
    | NoneCon
    | SomeCon(item: Ty)
    | ResultCon(ok: bool, payload: Ty)
    | TupleCon(tag: Tag, items: seq<Ty>)
    | RecordCon(rtag: Option<Tag>, fields: seq<NamedTy>)
  {
    function Args(): seq<Ty> {
      match this
      case SomeCon(t) => [t]
      case ResultCon(_, t) => [t]
      case TupleCon(_, ts) => ts
      case RecordCon(_, fs) => FieldTypes(fs)
      case _ => []
    }

    predicate Ok() {
      RecordCon? ==> DistinctFields(fields)
    }
  }

  function FieldTypes(fs: seq<NamedTy>): (r: seq<Ty>)
    ensures |r| == |fs| && forall i :: 0 <= i < |fs| ==> r[i] == fs[i].ty
  {
    if fs == [] then [] else [fs[0].ty] + FieldTypes(fs[1..])
  }

  function VariantCon(vs: seq<Variant>, k: nat): Con
    requires k < |vs|
  {
    if vs[k].TupleVariant? then TupleCon(TagAt(vs, k), vs[k].items) else RecordCon(Some(TagAt(vs, k)), vs[k].fields)
  }

  function VariantCons(vs: seq<Variant>, k: nat): (r: seq<Con>)
    requires k <= |vs|
    ensures |r| == k && forall i :: 0 <= i < k ==> r[i] == VariantCon(vs, i)
  {
    if k == 0 then [] else VariantCons(vs, k - 1) + [VariantCon(vs, k - 1)]
  }

  function Cons(ty: Ty, d: Decls): seq<Con> {
    match ty
    case BoolTy => [BoolCon(true), BoolCon(false)]
    case OptionTy(t) => [NoneCon, SomeCon(t)]
    case ResultTy(t, e) => [ResultCon(true, t), ResultCon(false, e)]
    case EnumTy(id) => if id in d.enums then VariantCons(d.enums[id], |d.enums[id]|) else []
    case StructTy(id) => if id in d.structs then [RecordCon(None, d.structs[id])] else []
    case _ => []
  }

  lemma ConsAreOk(ty: Ty, d: Decls, con: Con)
    requires DeclsOk(d) && con in Cons(ty, d)
    ensures con.Ok()
  {
    if ty.EnumTy? {
      var k :| 0 <= k < |d.enums[ty.id]| && con == VariantCon(d.enums[ty.id], k);
      assert VariantOk(d.enums[ty.id][k]);
    }
  }

  // ---- values of a type ----

  function Zip(fs: seq<NamedTy>, vs: seq<Val>): (r: seq<FieldVal>)
    requires |fs| == |vs|
    ensures |r| == |fs| && forall i :: 0 <= i < |fs| ==> r[i] == FieldVal(fs[i].name, vs[i])
  {
    if fs == [] then [] else [FieldVal(fs[0].name, vs[0])] + Zip(fs[1..], vs[1..])
  }

  function Build(con: Con, vs: seq<Val>): Val
    requires |vs| == |con.Args()|
  {
    match con
    case BoolCon(b) => BoolVal(b)
    case NoneCon => NoneVal
    case SomeCon(_) => SomeVal(vs[0])
    case ResultCon(ok, _) => ResultVal(ok, vs[0])
    case TupleCon(tag, _) => VariantVal(tag, vs)
    case RecordCon(tag, fs) => RecordVal(tag, Zip(fs, vs))
  }

  const MAX_INT: int := 0x7fff_ffff_ffff_ffff

  ghost predicate HasType(v: Val, ty: Ty, d: Decls)
    decreases v
  {
    match ty
    case IntTy => v.IntVal? && MIN_INT <= v.n <= MAX_INT
    case BoolTy => v.BoolVal?
    case StrTy => v.StrVal?
    case OptionTy(t) => v.NoneVal? || (v.SomeVal? && HasType(v.payload, t, d))
    case ResultTy(t, e) => v.ResultVal? && HasType(v.payload, if v.ok then t else e, d)
    case EnumTy(id) =>
      id in d.enums && exists k :: 0 <= k < |d.enums[id]| && HasForm(v, VariantCon(d.enums[id], k), d)
    case StructTy(id) => id in d.structs && HasForm(v, RecordCon(None, d.structs[id]), d)
    case OtherTy => v.UnitVal? || v.VecVal?
  }

  ghost predicate HasForm(v: Val, con: Con, d: Decls)
    requires con.TupleCon? || con.RecordCon?
    decreases v, 0
  {
    if con.TupleCon? then
      && v.VariantVal? && v.tag == con.tag && |v.items| == |con.items|
      && forall i :: 0 <= i < |v.items| ==> HasType(v.items[i], con.items[i], d)
    else
      && v.RecordVal? && v.rtag == con.rtag && |v.fields| == |con.fields|
      && forall i :: 0 <= i < |v.fields| ==> v.fields[i].name == con.fields[i].name && FieldHasType(v.fields[i], con.fields[i].ty, d)
  }

  ghost predicate FieldHasType(f: FieldVal, ty: Ty, d: Decls)
    decreases f
  {
    HasType(f.value, ty, d)
  }

  ghost predicate HaveTypes(vs: seq<Val>, tys: seq<Ty>, d: Decls) {
    |vs| == |tys| && forall i :: 0 <= i < |vs| ==> HasType(vs[i], tys[i], d)
  }

  predicate Structured(ty: Ty) {
    !ty.IntTy? && !ty.StrTy? && !ty.OtherTy?
  }

  lemma Compose(con: Con, vs: seq<Val>, ty: Ty, d: Decls)
    requires hide Cons, HasType; con in Cons(ty, d) && HaveTypes(vs, con.Args(), d)
    ensures HasType(Build(con, vs), ty, d)
  {
    if con.TupleCon? || con.RecordCon? {
      FormOfBuilt(con, vs, d);
    }
    if ty.EnumTy? {
      var k :| 0 <= k < |d.enums[ty.id]| && con == VariantCon(d.enums[ty.id], k);
    }
  }

  lemma FormOfBuilt(con: Con, vs: seq<Val>, d: Decls)
    requires hide HasType; (con.TupleCon? || con.RecordCon?) && HaveTypes(vs, con.Args(), d)
    ensures HasForm(Build(con, vs), con, d)
  {
    if con.RecordCon? {
      var fields := Zip(con.fields, vs);
      forall i | 0 <= i < |fields| ensures FieldHasType(fields[i], con.fields[i].ty, d) {
        assert HasType(vs[i], con.Args()[i], d);
      }
    }
  }

  function Parts(v: Val): seq<Val> {
    match v
    case SomeVal(w) => [w]
    case ResultVal(_, w) => [w]
    case VariantVal(_, items) => items
    case RecordVal(_, fields) => FieldValues(fields)
    case _ => []
  }

  function FieldValues(fs: seq<FieldVal>): (r: seq<Val>)
    ensures |r| == |fs| && forall i :: 0 <= i < |fs| ==> r[i] == fs[i].value
  {
    if fs == [] then [] else [fs[0].value] + FieldValues(fs[1..])
  }

  lemma Decompose(v: Val, ty: Ty, d: Decls) returns (con: Con)
    requires hide Cons, HasType; Structured(ty) && HasType(v, ty, d)
    ensures con in Cons(ty, d) && HaveTypes(Parts(v), con.Args(), d) && v == Build(con, Parts(v))
  {
    match ty {
      case BoolTy => con := BoolCon(v.b);
      case OptionTy(t) => con := if v.NoneVal? then NoneCon else SomeCon(t);
      case ResultTy(t, e) => con := ResultCon(v.ok, if v.ok then t else e);
      case EnumTy(id) =>
        var k :| 0 <= k < |d.enums[id]| && HasForm(v, VariantCon(d.enums[id], k), d);
        con := VariantCon(d.enums[id], k);
        assert Cons(ty, d)[k] == con;
        PartsOfForm(v, con, d);
      case StructTy(id) =>
        con := RecordCon(None, d.structs[id]);
        PartsOfForm(v, con, d);
    }
  }

  lemma PartsOfForm(v: Val, con: Con, d: Decls)
    requires hide HasType; (con.TupleCon? || con.RecordCon?) && HasForm(v, con, d)
    ensures HaveTypes(Parts(v), con.Args(), d) && v == Build(con, Parts(v))
  {
    if con.RecordCon? {
      forall i | 0 <= i < |v.fields| ensures HasType(Parts(v)[i], con.Args()[i], d) {
        assert FieldHasType(v.fields[i], con.fields[i].ty, d);
      }
      assert Zip(con.fields, Parts(v)) == v.fields;
    }
  }

  // ---- patterns of a type ----

  predicate Wild(p: Pattern) {
    p.Wildcard? || p.Binding?
  }

  /** The pattern asks for this form. */
  predicate HeadIs(p: Pattern, con: Con) {
    match con
    case BoolCon(b) => p == Literal(BoolVal(b))
    case NoneCon => p.OptionPat? && !p.some
    case SomeCon(_) => p.OptionPat? && p.some
    case ResultCon(ok, _) => p.ResultPat? && p.ok == ok
    case TupleCon(tag, _) => p.TuplePat? && p.tag == tag
    case RecordCon(tag, _) => p.StructPat? && p.variant == tag
  }

  ghost predicate PatTyped(p: Pattern, ty: Ty, d: Decls)
    decreases p
  {
    match p
    case Wildcard => true
    case Binding(_) => true
    case Literal(v) => (ty.IntTy? && v.IntVal?) || (ty.BoolTy? && v.BoolVal?) || (ty.StrTy? && v.StrVal?)
    case Range(_, _, _) => ty.IntTy?
    case OptionPat(some, payload) => ty.OptionTy? && (some && payload.Some? ==> PatTyped(payload.value, ty.item, d))
    case ResultPat(ok, payload) => ty.ResultTy? && (payload.Some? ==> PatTyped(payload.value, if ok then ty.okTy else ty.errTy, d))
    case TuplePat(_, elems) =>
      ty.EnumTy? && exists con :: con in Cons(ty, d) && HeadIs(p, con) && |elems| <= |con.Args()|
                               && forall i :: 0 <= i < |elems| ==> PatTyped(elems[i], con.Args()[i], d)
    case StructPat(variant, fields) =>
      && (ty.EnumTy? || ty.StructTy?)
      && (forall i, j :: 0 <= i < j < |fields| ==> fields[i].name != fields[j].name)
      && exists con :: con in Cons(ty, d) && HeadIs(p, con) && forall i :: 0 <= i < |fields| ==> FieldPatTyped(fields[i], con.fields, d)
  }

  ghost predicate FieldPatTyped(p: FieldPat, fs: seq<NamedTy>, d: Decls)
    decreases p
  {
    hide *;
    exists k :: 0 <= k < |fs| && fs[k].name == p.name && PatTyped(p.pattern, fs[k].ty, d)
  }

  function TagOfCon(con: Con): Option<Tag> {
    match con
    case TupleCon(tag, _) => Some(tag)
    case RecordCon(tag, _) => tag
    case _ => None
  }

  lemma EnumForm(a: Con, id: string, d: Decls) returns (k: nat)
    requires a in Cons(EnumTy(id), d)
    ensures id in d.enums && k < |d.enums[id]| && a == VariantCon(d.enums[id], k) && TagOfCon(a) == Some(TagAt(d.enums[id], k))
  {
    var i :| 0 <= i < |d.enums[id]| && a == VariantCon(d.enums[id], i);
    k := i;
  }

  lemma SameName(vs: seq<Variant>, i: nat, j: nat)
    requires DistinctVariants(vs) && i < |vs| && j < |vs| && TagAt(vs, i) == TagAt(vs, j)
    ensures i == j
  {
    assert vs[i].name == vs[j].name;
  }

  /** Forms of one type have the same family of tags, and different tags. */
  lemma TagsOfCons(a: Con, b: Con, ty: Ty, d: Decls)
    requires DeclsOk(d) && (ty.EnumTy? || ty.StructTy?) && a in Cons(ty, d) && b in Cons(ty, d)
    ensures TagOfCon(a).Some? <==> TagOfCon(b).Some?
    ensures TagOfCon(a).Some? ==> TagOfCon(a).value.siblings == TagOfCon(b).value.siblings
    ensures TagOfCon(a) == TagOfCon(b) ==> a == b
    ensures (a.TupleCon? || a.RecordCon?) && (ty.EnumTy? ==> TagOfCon(a).Some?)
  {
    if ty.EnumTy? {
      hide Cons, VariantOk;
      var i := EnumForm(a, ty.id, d);
      var j := EnumForm(b, ty.id, d);
      if TagOfCon(a) == TagOfCon(b) {
        SameName(d.enums[ty.id], i, j);
      }
    }
  }

  /** Two forms of one type with the same pattern head are the same form. */
  lemma HeadsApart(p: Pattern, ty: Ty, d: Decls, a: Con, b: Con)
    requires DeclsOk(d) && a in Cons(ty, d) && b in Cons(ty, d) && HeadIs(p, a) && HeadIs(p, b)
    ensures a == b
  {
    if ty.EnumTy? || ty.StructTy? {
      TagsOfCons(a, b, ty, d);
      TagsOfCons(b, a, ty, d);
    }
  }
}
