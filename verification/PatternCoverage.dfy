/** A computable test that looks inside nested patterns, and the proof that it is exact. */
module PatternCoverage {
  import opened Wrappers
  import opened RuaLang
  import opened PatternTypes

  // ---- splitting a column of patterns ----

  function OrWild(p: Option<Pattern>): Pattern {
    if p.Some? then p.value else Wildcard
  }

  function Pad(ps: seq<Pattern>, n: nat): (r: seq<Pattern>)
    ensures |r| == n && forall i :: 0 <= i < n ==> r[i] == if i < |ps| then ps[i] else Wildcard
    decreases n
  {
    if n == 0 then []
    else if ps == [] then [Wildcard] + Pad([], n - 1)
    else [ps[0]] + Pad(ps[1..], n - 1)
  }

  function PatFor(ps: seq<FieldPat>, name: string): Pattern {
    if ps == [] then Wildcard else if ps[0].name == name then ps[0].pattern else PatFor(ps[1..], name)
  }

  /** The field patterns in the order in which the fields are declared. */
  function InOrder(ps: seq<FieldPat>, fs: seq<NamedTy>): (r: seq<Pattern>)
    ensures |r| == |fs| && forall i :: 0 <= i < |fs| ==> r[i] == PatFor(ps, fs[i].name)
  {
    if fs == [] then [] else [PatFor(ps, fs[0].name)] + InOrder(ps, fs[1..])
  }

  /** The patterns for the parts of a form that the pattern accepts. */
  function SubPats(p: Pattern, con: Con): (r: seq<Pattern>)
    ensures |r| == |con.Args()|
  {
    match con
    case SomeCon(_) => [if p.OptionPat? then OrWild(p.payload) else Wildcard]
    case ResultCon(_, _) => [if p.ResultPat? then OrWild(p.payload) else Wildcard]
    case TupleCon(_, ts) => Pad(if p.TuplePat? then p.elems else [], |ts|)
    case RecordCon(_, fs) => InOrder(if p.StructPat? then p.fields else [], fs)
    case _ => []
  }

  type Row = seq<Pattern>

  /** The rows that accept the form, with its parts in place of the whole. */
  function Specialize(rows: seq<Row>, con: Con): seq<Row>
    requires forall i :: 0 <= i < |rows| ==> rows[i] != []
  {
    if rows == [] then []
    else
      var rest := Specialize(rows[1..], con);
      var p := rows[0][0];
      if Wild(p) || HeadIs(p, con) then [SubPats(p, con) + rows[0][1..]] + rest else rest
  }

  /** The rows whose first pattern accepts the value, without it. */
  function Keep(rows: seq<Row>, v: Val): seq<Row>
    requires forall i :: 0 <= i < |rows| ==> rows[i] != []
  {
    if rows == [] then []
    else
      var rest := Keep(rows[1..], v);
      if MatchPattern(rows[0][0], v).Yes? then [rows[0][1..]] + rest else rest
  }

  function Tails(rows: seq<Row>): (r: seq<Row>)
    requires forall i :: 0 <= i < |rows| ==> rows[i] != []
    ensures |r| == |rows| && forall i :: 0 <= i < |rows| ==> r[i] == rows[i][1..]
  {
    if rows == [] then [] else [rows[0][1..]] + Tails(rows[1..])
  }

  predicate AllWild(rows: seq<Row>) {
    forall i :: 0 <= i < |rows| ==> rows[i] != [] && Wild(rows[i][0])
  }

  // ---- values to try in a column of integers or strings ----

  /** Where the set of accepted integers starts and where it has ended. */
  function Ends(p: Pattern): seq<int> {
    match p
    case Literal(IntVal(n)) => [n, n + 1]
    case Range(lo, hi, inclusive) => [lo, if inclusive then hi + 1 else hi]
    case _ => []
  }

  /** The smallest integer and every place where some row begins or stops to accept. */
  function Places(rows: seq<Row>): seq<int>
    requires forall i :: 0 <= i < |rows| ==> rows[i] != []
  {
    if rows == [] then [MIN_INT] else InRange(Ends(rows[0][0])) + Places(rows[1..])
  }

  function InRange(ns: seq<int>): (r: seq<int>)
    ensures forall n :: n in r <==> n in ns && MIN_INT <= n <= MAX_INT
  {
    if ns == [] then [] else (if MIN_INT <= ns[0] <= MAX_INT then [ns[0]] else []) + InRange(ns[1..])
  }

  function Strings(rows: seq<Row>): seq<string>
    requires forall i :: 0 <= i < |rows| ==> rows[i] != []
  {
    if rows == [] then []
    else
      var p := rows[0][0];
      (if p.Literal? && p.value.StrVal? then [p.value.s] else []) + Strings(rows[1..])
  }

  /** Longer than all the given strings. */
  function Other(ss: seq<string>): string {
    if ss == [] then "x" else ss[0] + Other(ss[1..])
  }

  function Candidates(rows: seq<Row>, ty: Ty): seq<Val>
    requires forall i :: 0 <= i < |rows| ==> rows[i] != []
  {
    if ty.IntTy? then Ints(Places(rows)) else Strs(Strings(rows) + [Other(Strings(rows))])
  }

  function Ints(ns: seq<int>): (r: seq<Val>)
    ensures |r| == |ns| && forall i :: 0 <= i < |ns| ==> r[i] == IntVal(ns[i])
  {
    if ns == [] then [] else [IntVal(ns[0])] + Ints(ns[1..])
  }

  function Strs(ss: seq<string>): (r: seq<Val>)
    ensures |r| == |ss| && forall i :: 0 <= i < |ss| ==> r[i] == StrVal(ss[i])
  {
    if ss == [] then [] else [StrVal(ss[0])] + Strs(ss[1..])
  }

  // ---- how much there is to look at ----

  function Weight(p: Pattern): nat
    decreases p
  {
    match p
    case Wildcard => 0
    case Binding(_) => 0
    case OptionPat(_, payload) => 1 + if payload.Some? then Weight(payload.value) else 0
    case ResultPat(_, payload) => 1 + if payload.Some? then Weight(payload.value) else 0
    case TuplePat(_, elems) => 1 + WeightAll(elems)
    case StructPat(_, fields) => 1 + WeightFields(fields)
    case _ => 1
  }

  function WeightAll(ps: seq<Pattern>): nat
    decreases ps
  {
    if ps == [] then 0 else Weight(ps[0]) + WeightAll(ps[1..])
  }

  function WeightFields(ps: seq<FieldPat>): nat
    decreases ps
  {
    if ps == [] then 0 else WeightField(ps[0]) + WeightFields(ps[1..])
  }

  function WeightField(p: FieldPat): nat
    decreases p
  {
    Weight(p.pattern)
  }

  function WeightRows(rows: seq<Row>): nat {
    if rows == [] then 0 else WeightAll(rows[0]) + WeightRows(rows[1..])
  }

  lemma {:induction false} WeightConcat(a: seq<Pattern>, b: seq<Pattern>)
    ensures WeightAll(a + b) == WeightAll(a) + WeightAll(b)
  {
    if a == [] {
      assert a + b == b;
    } else {
      WeightConcat(a[1..], b);
      assert (a + b)[1..] == a[1..] + b;
    }
  }

  lemma {:induction false} WeightPad(ps: seq<Pattern>, n: nat)
    ensures WeightAll(Pad(ps, n)) <= WeightAll(ps)
    decreases n
  {
    if n > 0 {
      WeightPad(if ps == [] then [] else ps[1..], n - 1);
      var rest := Pad(if ps == [] then [] else ps[1..], n - 1);
      var first := if ps == [] then Wildcard else ps[0];
      assert Pad(ps, n) == [first] + rest;
      WeightConcat([first], rest);
    }
  }

  lemma {:induction false} NotInOrder(q: FieldPat, rest: seq<FieldPat>, fs: seq<NamedTy>)
    requires forall i :: 0 <= i < |fs| ==> fs[i].name != q.name
    ensures InOrder([q] + rest, fs) == InOrder(rest, fs)
  {
    if fs != [] {
      NotInOrder(q, rest, fs[1..]);
      assert ([q] + rest)[1..] == rest;
    }
  }

  /** Each field pattern is used for at most one field. */
  lemma {:induction false} WeightOneMore(q: FieldPat, rest: seq<FieldPat>, fs: seq<NamedTy>)
    requires DistinctFields(fs)
    ensures WeightAll(InOrder([q] + rest, fs)) <= WeightField(q) + WeightAll(InOrder(rest, fs))
  {
    if fs != [] {
      assert ([q] + rest)[1..] == rest;
      var tail := InOrder([q] + rest, fs[1..]);
      assert InOrder([q] + rest, fs)[1..] == tail && InOrder(rest, fs)[1..] == InOrder(rest, fs[1..]);
      if fs[0].name == q.name {
        NotInOrder(q, rest, fs[1..]);
      } else {
        WeightOneMore(q, rest, fs[1..]);
      }
    }
  }

  lemma {:induction false} WeightNoFields(fs: seq<NamedTy>)
    ensures WeightAll(InOrder([], fs)) == 0
  {
    if fs != [] {
      WeightNoFields(fs[1..]);
      assert InOrder([], fs)[1..] == InOrder([], fs[1..]);
    }
  }

  lemma {:induction false} WeightInOrder(ps: seq<FieldPat>, fs: seq<NamedTy>)
    requires DistinctFields(fs)
    ensures WeightAll(InOrder(ps, fs)) <= WeightFields(ps)
  {
    if ps == [] {
      WeightNoFields(fs);
    } else {
      assert [ps[0]] + ps[1..] == ps;
      WeightOneMore(ps[0], ps[1..], fs);
      WeightInOrder(ps[1..], fs);
    }
  }

  lemma WeightSubPats(p: Pattern, con: Con)
    requires con.Ok()
    ensures Wild(p) ==> WeightAll(SubPats(p, con)) == 0
    ensures HeadIs(p, con) ==> WeightAll(SubPats(p, con)) < Weight(p)
  {
    hide InOrder, FieldTypes;
    match con {
      case TupleCon(_, ts) => WeightPad(if p.TuplePat? then p.elems else [], |ts|);
      case RecordCon(_, fs) => WeightInOrder(if p.StructPat? then p.fields else [], fs);
      case _ =>
    }
  }

  lemma {:induction false} SpecializeIsSmaller(rows: seq<Row>, con: Con)
    requires hide *; con.Ok() && forall i :: 0 <= i < |rows| ==> rows[i] != []
    ensures WeightRows(Specialize(rows, con)) <= WeightRows(rows)
    ensures !AllWild(rows) ==> WeightRows(Specialize(rows, con)) < WeightRows(rows)
  {
    hide Weight, SubPats, HeadIs, Wild;
    if rows != [] {
      SpecializeIsSmaller(rows[1..], con);
      var p := rows[0][0];
      WeightSubPats(p, con);
      WeightConcat(SubPats(p, con), rows[0][1..]);
      WildIsLight(p);
      var rest := Specialize(rows[1..], con);
      if Wild(p) || HeadIs(p, con) {
        assert ([SubPats(p, con) + rows[0][1..]] + rest)[1..] == rest;
      }
    }
  }

  lemma WildIsLight(p: Pattern)
    ensures Wild(p) <==> Weight(p) == 0
  {
  }

  lemma {:induction false} KeepIsSmaller(rows: seq<Row>, v: Val)
    requires forall i :: 0 <= i < |rows| ==> rows[i] != []
    ensures WeightRows(Keep(rows, v)) <= WeightRows(rows)
    ensures !AllWild(rows) ==> WeightRows(Keep(rows, v)) < WeightRows(rows)
  {
    hide Weight, Wild, MatchPattern;
    if rows != [] {
      KeepIsSmaller(rows[1..], v);
      WildIsLight(rows[0][0]);
      var rest := Keep(rows[1..], v);
      assert ([rows[0][1..]] + rest)[1..] == rest;
    }
  }

  lemma {:induction false} TailsAreSmaller(rows: seq<Row>)
    requires forall i :: 0 <= i < |rows| ==> rows[i] != []
    ensures WeightRows(Tails(rows)) <= WeightRows(rows)
  {
    if rows != [] {
      TailsAreSmaller(rows[1..]);
      assert Tails(rows)[1..] == Tails(rows[1..]);
    }
  }

  // ---- the test ----

  predicate Shaped(rows: seq<Row>, n: nat) {
    forall i :: 0 <= i < |rows| ==> |rows[i]| == n
  }

  lemma {:induction false} StillShaped(rows: seq<Row>, con: Con, v: Val, n: nat)
    requires hide MatchPattern, Specialize; Shaped(rows, n + 1)
    ensures Shaped(Specialize(rows, con), |con.Args()| + n) && Shaped(Keep(rows, v), n) && Shaped(Tails(rows), n)
  {
    hide MatchPattern, HeadIs, Wild;
    if rows != [] {
      StillShaped(rows[1..], con, v, n);
    }
  }

  /** Every combination of values of the given types is accepted by some row. */
  predicate Covers(rows: seq<Row>, tys: seq<Ty>, d: Decls)
    requires DeclsOk(d) && Shaped(rows, |tys|)
    decreases WeightRows(rows), |tys|
  {
    if tys == [] then rows != []
    else if AllWild(rows) then
      StillShaped(rows, NoneCon, UnitVal, |tys| - 1);
      TailsAreSmaller(rows);
      Covers(Tails(rows), tys[1..], d)
    else if Structured(tys[0]) then
      forall con | con in Cons(tys[0], d) :: CoversForm(rows, tys, d, con)
    else
      forall v | v in Candidates(rows, tys[0]) :: CoversValue(rows, tys, d, v)
  }

  predicate CoversForm(rows: seq<Row>, tys: seq<Ty>, d: Decls, con: Con)
    requires DeclsOk(d) && tys != [] && Shaped(rows, |tys|) && !AllWild(rows) && con in Cons(tys[0], d)
    decreases WeightRows(rows), 0
  {
    StillShaped(rows, con, UnitVal, |tys| - 1);
    ConsAreOk(tys[0], d, con);
    SpecializeIsSmaller(rows, con);
    Covers(Specialize(rows, con), con.Args() + tys[1..], d)
  }

  predicate CoversValue(rows: seq<Row>, tys: seq<Ty>, d: Decls, v: Val)
    requires DeclsOk(d) && tys != [] && Shaped(rows, |tys|) && !AllWild(rows)
    decreases WeightRows(rows), 0
  {
    StillShaped(rows, NoneCon, v, |tys| - 1);
    KeepIsSmaller(rows, v);
    Covers(Keep(rows, v), tys[1..], d)
  }

  // ---- rows of patterns and rows of values ----

  predicate MatchRow(row: Row, vs: seq<Val>)
    requires |row| == |vs|
  {
    forall i :: 0 <= i < |row| ==> MatchPattern(row[i], vs[i]).Yes?
  }

  predicate SomeRow(rows: seq<Row>, vs: seq<Val>)
    requires Shaped(rows, |vs|)
  {
    rows != [] && (MatchRow(rows[0], vs) || SomeRow(rows[1..], vs))
  }

  lemma MatchRowConcat(a: Row, b: Row, us: seq<Val>, vs: seq<Val>)
    requires |a| == |us| && |b| == |vs|
    ensures MatchRow(a + b, us + vs) <==> MatchRow(a, us) && MatchRow(b, vs)
  {
    hide MatchPattern;
    if MatchRow(a + b, us + vs) {
      forall i | 0 <= i < |a| ensures MatchPattern(a[i], us[i]).Yes? {
        assert (a + b)[i] == a[i] && (us + vs)[i] == us[i];
      }
      forall i | 0 <= i < |b| ensures MatchPattern(b[i], vs[i]).Yes? {
        assert (a + b)[|a| + i] == b[i] && (us + vs)[|a| + i] == vs[i];
      }
    }
  }

  lemma MatchRowHead(row: Row, v: Val, vs: seq<Val>)
    requires |row| == 1 + |vs|
    ensures MatchRow(row, [v] + vs) <==> MatchPattern(row[0], v).Yes? && MatchRow(row[1..], vs)
  {
    hide MatchPattern;
    assert [row[0]] + row[1..] == row;
    MatchRowConcat([row[0]], row[1..], [v], vs);
    assert MatchRow([row[0]], [v]) <==> MatchPattern([row[0]][0], [v][0]).Yes?;
  }

  // ---- a form is accepted when its parts are ----

  lemma {:induction false} AllYes(ps: seq<Pattern>, vs: seq<Val>)
    requires |ps| <= |vs|
    ensures MatchAll(ps, vs).Yes? <==> forall i :: 0 <= i < |ps| ==> MatchPattern(ps[i], vs[i]).Yes?
  {
    hide MatchPattern;
    if ps != [] {
      AllYes(ps[1..], vs[1..]);
      if MatchAll(ps, vs).Yes? {
        forall i | 0 <= i < |ps| ensures MatchPattern(ps[i], vs[i]).Yes? {
          assert i > 0 ==> ps[i] == ps[1..][i - 1] && vs[i] == vs[1..][i - 1];
        }
      }
    }
  }

  lemma PadYes(ps: seq<Pattern>, vs: seq<Val>)
    requires hide *; |ps| <= |vs|
    ensures MatchAll(ps, vs).Yes? <==> MatchRow(Pad(ps, |vs|), vs)
  {
    hide MatchPattern;
    AllYes(ps, vs);
    var row := Pad(ps, |vs|);
    forall i | |ps| <= i < |vs| ensures MatchPattern(row[i], vs[i]).Yes? {
      WildYes(row[i], vs[i]);
    }
    if MatchRow(row, vs) {
      forall i | 0 <= i < |ps| ensures MatchPattern(ps[i], vs[i]).Yes? {
        assert row[i] == ps[i];
      }
    }
  }

  lemma WildYes(p: Pattern, v: Val)
    requires Wild(p)
    ensures MatchPattern(p, v).Yes?
  {
  }

  lemma {:induction false} DistinctLookup(fields: seq<FieldVal>, k: nat)
    requires (forall i, j :: 0 <= i < j < |fields| ==> fields[i].name != fields[j].name) && k < |fields|
    ensures FieldOf(fields, fields[k].name) == Some(fields[k].value)
  {
    if k < |fields| - 1 {
      DistinctLookup(fields[..|fields| - 1], k);
    }
  }

  lemma ZipLookup(fs: seq<NamedTy>, vs: seq<Val>, k: nat)
    requires |fs| == |vs| && DistinctFields(fs) && k < |fs|
    ensures FieldOf(Zip(fs, vs), fs[k].name) == Some(vs[k])
  {
    DistinctLookup(Zip(fs, vs), k);
  }

  ghost predicate DistinctPats(ps: seq<FieldPat>) {
    forall i, j :: 0 <= i < j < |ps| ==> ps[i].name != ps[j].name
  }

  predicate IsField(name: string, fs: seq<NamedTy>) {
    exists k :: 0 <= k < |fs| && fs[k].name == name
  }

  ghost predicate Declared(ps: seq<FieldPat>, fs: seq<NamedTy>) {
    forall i :: 0 <= i < |ps| ==> IsField(ps[i].name, fs)
  }

  lemma {:induction false} NoPatFor(ps: seq<FieldPat>, name: string)
    requires forall i :: 0 <= i < |ps| ==> ps[i].name != name
    ensures PatFor(ps, name) == Wildcard
  {
    if ps != [] {
      NoPatFor(ps[1..], name);
    }
  }

  /** Rows that differ in one place, where the second has a wildcard. */
  lemma OnePlace(row: Row, rest: Row, vs: seq<Val>, k: nat)
    requires |row| == |rest| == |vs| && k < |row| && rest[k] == Wildcard && forall i :: 0 <= i < |row| && i != k ==> row[i] == rest[i]
    ensures MatchRow(row, vs) <==> MatchPattern(row[k], vs[k]).Yes? && MatchRow(rest, vs)
  {
    hide MatchPattern;
    WildYes(rest[k], vs[k]);
    if MatchRow(row, vs) {
      forall i | 0 <= i < |vs| ensures MatchPattern(rest[i], vs[i]).Yes? {
        assert MatchPattern(row[i], vs[i]).Yes?;
      }
    }
    if MatchRow(rest, vs) && MatchPattern(row[k], vs[k]).Yes? {
      forall i | 0 <= i < |vs| ensures MatchPattern(row[i], vs[i]).Yes? {
        assert MatchPattern(rest[i], vs[i]).Yes?;
      }
    }
  }

  lemma FirstField(ps: seq<FieldPat>, fields: seq<FieldVal>, v: Val)
    requires ps != [] && FieldOf(fields, ps[0].name) == Some(v)
    ensures MatchFields(ps, fields).Yes? <==> MatchPattern(ps[0].pattern, v).Yes? && MatchFields(ps[1..], fields).Yes?
  {
    hide MatchPattern, FieldOf;
  }

  lemma WildRow(row: Row, vs: seq<Val>)
    requires |row| == |vs| && forall i :: 0 <= i < |row| ==> Wild(row[i])
    ensures MatchRow(row, vs)
  {
    hide MatchPattern;
    forall i | 0 <= i < |row| ensures MatchPattern(row[i], vs[i]).Yes? {
      WildYes(row[i], vs[i]);
    }
  }

  lemma {:induction false} FieldsYes(ps: seq<FieldPat>, fs: seq<NamedTy>, vs: seq<Val>)
    requires hide *; |fs| == |vs| && DistinctFields(fs) && DistinctPats(ps) && Declared(ps, fs)
    ensures MatchFields(ps, Zip(fs, vs)).Yes? <==> MatchRow(InOrder(ps, fs), vs)
  {
    hide MatchPattern, MatchRow, MatchFields, FieldOf, InOrder, Zip, DistinctFields, DistinctPats, Declared;
    var row := InOrder(ps, fs);
    if ps == [] {
      WildRow(row, vs);
      assert MatchFields([], Zip(fs, vs)) == Yes([]) by { NoFields(Zip(fs, vs)); }
    } else {
      var rest := InOrder(ps[1..], fs);
      SmallerLists(ps, fs);
      FieldsYes(ps[1..], fs, vs);
      var k :| 0 <= k < |fs| && fs[k].name == ps[0].name;
      ZipLookup(fs, vs, k);
      FirstField(ps, Zip(fs, vs), vs[k]);
      InOrderFirst(ps, fs, k);
      OnePlace(row, rest, vs, k);
    }
  }

  lemma InOrderFirst(ps: seq<FieldPat>, fs: seq<NamedTy>, k: nat)
    requires ps != [] && DistinctFields(fs) && DistinctPats(ps) && k < |fs| && fs[k].name == ps[0].name
    ensures var row, rest := InOrder(ps, fs), InOrder(ps[1..], fs);
            && row[k] == ps[0].pattern && rest[k] == Wildcard
            && forall i :: 0 <= i < |fs| && i != k ==> row[i] == rest[i]
  {
    NoPatFor(ps[1..], ps[0].name);
    var row, rest := InOrder(ps, fs), InOrder(ps[1..], fs);
    forall i | 0 <= i < |fs| && i != k ensures row[i] == rest[i] {
      assert fs[i].name != ps[0].name;
    }
  }

  lemma SmallerLists(ps: seq<FieldPat>, fs: seq<NamedTy>)
    requires ps != [] && DistinctPats(ps) && Declared(ps, fs)
    ensures DistinctPats(ps[1..]) && Declared(ps[1..], fs) && IsField(ps[0].name, fs)
  {
  }

  lemma NoFields(fields: seq<FieldVal>)
    ensures MatchFields([], fields) == Yes([])
  {
  }

  /** A typed pattern accepts a form exactly when it asks for that form or for none, and accepts the parts. */
  lemma FormYes(p: Pattern, con: Con, us: seq<Val>, ty: Ty, d: Decls)
    requires hide *; DeclsOk(d) && PatTyped(p, ty, d) && con in Cons(ty, d) && |us| == |con.Args()|
    ensures MatchPattern(p, Build(con, us)).Yes? <==> (Wild(p) || HeadIs(p, con)) && MatchRow(SubPats(p, con), us)
  {
    hide MatchPattern, MatchRow, PatTyped, Cons, SubPats, DeclsOk, Build;
    ConsAreOk(ty, d, con);
    if Wild(p) {
      WildParts(p, con, us);
      WildYes(p, Build(con, us));
    } else if !HeadIs(p, con) {
      OtherHead(p, con, us);
    } else if con.TupleCon? {
      TuplePartsTyped(p, con, ty, d);
      TupleYes(p, con, us);
    } else if con.RecordCon? {
      RecordPartsTyped(p, con, ty, d);
      RecordYes(p, con, us);
    } else {
      SmallYes(p, con, us);
    }
  }

  lemma TupleYes(p: Pattern, con: Con, us: seq<Val>)
    requires hide MatchPattern; con.TupleCon? && HeadIs(p, con) && |us| == |con.Args()| && |p.elems| <= |us|
    ensures MatchPattern(p, Build(con, us)).Yes? <==> MatchRow(SubPats(p, con), us)
  {
    hide MatchRow, MatchAll;
    PadYes(p.elems, us);
  }

  lemma RecordYes(p: Pattern, con: Con, us: seq<Val>)
    requires hide MatchPattern;
             con.RecordCon? && con.Ok() && HeadIs(p, con) && |us| == |con.Args()| && DistinctPats(p.fields) && Declared(p.fields, con.fields)
    ensures MatchPattern(p, Build(con, us)).Yes? <==> MatchRow(SubPats(p, con), us)
  {
    hide MatchRow, MatchFields, Zip, InOrder, DistinctPats, Declared, DistinctFields;
    FieldsYes(p.fields, con.fields, us);
  }

  lemma SmallYes(p: Pattern, con: Con, us: seq<Val>)
    requires hide *; !con.TupleCon? && !con.RecordCon? && HeadIs(p, con) && |us| == |con.Args()|
    ensures MatchPattern(p, Build(con, us)).Yes? <==> MatchRow(SubPats(p, con), us)
  {
    if con.SomeCon? || con.ResultCon? {
      OnePart(p.payload, us);
    }
  }

  lemma OnePart(payload: Option<Pattern>, us: seq<Val>)
    requires |us| == 1
    ensures MatchRow([OrWild(payload)], us) <==> (payload.Some? ==> MatchPattern(payload.value, us[0]).Yes?)
  {
    hide MatchPattern;
    WildYes(Wildcard, us[0]);
    assert MatchRow([OrWild(payload)], us) <==> MatchPattern([OrWild(payload)][0], us[0]).Yes?;
  }

  lemma WildParts(p: Pattern, con: Con, us: seq<Val>)
    requires hide *; Wild(p) && |us| == |con.Args()|
    ensures MatchRow(SubPats(p, con), us)
  {
    hide MatchPattern;
    var row := SubPats(p, con);
    forall i | 0 <= i < |row| ensures MatchPattern(row[i], us[i]).Yes? {
      WildYes(row[i], us[i]);
    }
  }

  lemma TuplePartsTyped(p: Pattern, con: Con, ty: Ty, d: Decls)
    requires hide Cons, PatTyped; DeclsOk(d) && PatTyped(p, ty, d) && con in Cons(ty, d) && con.TupleCon? && HeadIs(p, con)
    ensures |p.elems| <= |con.items| && forall i :: 0 <= i < |p.elems| ==> PatTyped(p.elems[i], con.items[i], d)
  {
    var a :| a in Cons(ty, d) && HeadIs(p, a) && |p.elems| <= |a.Args()|
                               && forall i :: 0 <= i < |p.elems| ==> PatTyped(p.elems[i], a.Args()[i], d);
    HeadsApart(p, ty, d, a, con);
  }

  lemma RecordPartsTyped(p: Pattern, con: Con, ty: Ty, d: Decls)
    requires hide Cons, PatTyped; DeclsOk(d) && PatTyped(p, ty, d) && con in Cons(ty, d) && con.RecordCon? && HeadIs(p, con)
    ensures DistinctPats(p.fields) && Declared(p.fields, con.fields)
    ensures forall i :: 0 <= i < |p.fields| ==> FieldPatTyped(p.fields[i], con.fields, d)
  {
    hide VariantCons, FieldTypes, Cons;
    var a :| a in Cons(ty, d) && HeadIs(p, a) && forall i :: 0 <= i < |p.fields| ==> FieldPatTyped(p.fields[i], a.fields, d);
    HeadsApart(p, ty, d, a, con);
    forall i | 0 <= i < |p.fields| ensures IsField(p.fields[i].name, con.fields) {
      assert FieldPatTyped(p.fields[i], con.fields, d);
    }
  }

  lemma OtherHead(p: Pattern, con: Con, us: seq<Val>)
    requires hide *; |us| == |con.Args()| && !Wild(p) && !HeadIs(p, con)
    ensures !MatchPattern(p, Build(con, us)).Yes?
  {
    hide MatchAll, MatchFields, Zip;
  }

  // ---- the three ways to split, on all rows ----

  lemma {:induction false} SpecializeYes(rows: seq<Row>, con: Con, us: seq<Val>, vs: seq<Val>, ty: Ty, d: Decls)
    requires hide Cons, PatTyped, SomeRow, Specialize; DeclsOk(d) && con in Cons(ty, d) && |us| == |con.Args()| && Shaped(rows, 1 + |vs|)
    requires forall i :: 0 <= i < |rows| ==> PatTyped(rows[i][0], ty, d)
    ensures Shaped(Specialize(rows, con), |us + vs|)
    ensures SomeRow(Specialize(rows, con), us + vs) <==> SomeRow(rows, [Build(con, us)] + vs)
  {
    hide MatchPattern, PatTyped, HeadIs, Wild, MatchRow, SubPats, Cons;
    StillShaped(rows, con, UnitVal, |vs|);
    if rows != [] {
      var p := rows[0][0];
      SpecializeYes(rows[1..], con, us, vs, ty, d);
      FormYes(p, con, us, ty, d);
      MatchRowHead(rows[0], Build(con, us), vs);
      MatchRowConcat(SubPats(p, con), rows[0][1..], us, vs);
      var rest := Specialize(rows[1..], con);
      assert ([SubPats(p, con) + rows[0][1..]] + rest)[1..] == rest;
    }
  }

  lemma {:induction false} KeepYes(rows: seq<Row>, v: Val, vs: seq<Val>)
    requires Shaped(rows, 1 + |vs|)
    ensures Shaped(Keep(rows, v), |vs|)
    ensures SomeRow(Keep(rows, v), vs) <==> SomeRow(rows, [v] + vs)
  {
    hide MatchPattern, MatchRow;
    StillShaped(rows, NoneCon, v, |vs|);
    if rows != [] {
      KeepYes(rows[1..], v, vs);
      MatchRowHead(rows[0], v, vs);
      var rest := Keep(rows[1..], v);
      assert ([rows[0][1..]] + rest)[1..] == rest;
    }
  }

  lemma {:induction false} TailsYes(rows: seq<Row>, v: Val, vs: seq<Val>)
    requires hide SomeRow; AllWild(rows) && Shaped(rows, 1 + |vs|)
    ensures Shaped(Tails(rows), |vs|)
    ensures SomeRow(Tails(rows), vs) <==> SomeRow(rows, [v] + vs)
  {
    hide MatchPattern, MatchRow, Wild;
    StillShaped(rows, NoneCon, v, |vs|);
    if rows != [] {
      TailsYes(rows[1..], v, vs);
      MatchRowHead(rows[0], v, vs);
      WildYes(rows[0][0], v);
      assert Tails(rows)[1..] == Tails(rows[1..]);
    }
  }

  // ---- splitting keeps the types ----

  ghost predicate RowTyped(row: Row, tys: seq<Ty>, d: Decls) {
    hide *;
    |row| == |tys| && forall i :: 0 <= i < |row| ==> PatTyped(row[i], tys[i], d)
  }

  ghost predicate RowsTyped(rows: seq<Row>, tys: seq<Ty>, d: Decls) {
    hide *;
    forall i :: 0 <= i < |rows| ==> RowTyped(rows[i], tys, d)
  }

  lemma RowTypedConcat(a: Row, b: Row, us: seq<Ty>, ts: seq<Ty>, d: Decls)
    requires RowTyped(a, us, d) && RowTyped(b, ts, d)
    ensures RowTyped(a + b, us + ts, d)
  {
    hide PatTyped;
  }

  lemma RowTypedTail(row: Row, tys: seq<Ty>, d: Decls)
    requires hide PatTyped; tys != [] && RowTyped(row, tys, d)
    ensures PatTyped(row[0], tys[0], d) && RowTyped(row[1..], tys[1..], d)
  {
    hide PatTyped;
  }

  lemma {:induction false} PatForTyped(ps: seq<FieldPat>, fs: seq<NamedTy>, k: nat, d: Decls)
    requires hide *; DistinctFields(fs) && k < |fs| && forall i :: 0 <= i < |ps| ==> FieldPatTyped(ps[i], fs, d)
    ensures PatTyped(PatFor(ps, fs[k].name), fs[k].ty, d)
  {
    hide PatTyped;
    if ps != [] {
      if ps[0].name == fs[k].name {
        assert FieldPatTyped(ps[0], fs, d);
      } else {
        PatForTyped(ps[1..], fs, k, d);
      }
    } else {
      WildTyped(Wildcard, fs[k].ty, d);
    }
  }

  lemma WildTyped(p: Pattern, ty: Ty, d: Decls)
    requires Wild(p)
    ensures PatTyped(p, ty, d)
  {
  }

  lemma SubPatsTyped(p: Pattern, con: Con, ty: Ty, d: Decls)
    requires DeclsOk(d) && PatTyped(p, ty, d) && con in Cons(ty, d) && (Wild(p) || HeadIs(p, con))
    ensures RowTyped(SubPats(p, con), con.Args(), d)
  {
    hide Cons;
    var row := SubPats(p, con);
    ConsAreOk(ty, d, con);
    if Wild(p) || con.NoneCon? || con.BoolCon? {
      forall i | 0 <= i < |row| ensures PatTyped(row[i], con.Args()[i], d) { WildSubPat(p, con, i); WildTyped(row[i], con.Args()[i], d); }
    } else if con.TupleCon? {
      TuplePartsTyped(p, con, ty, d);
    } else if con.RecordCon? {
      RecordPartsTyped(p, con, ty, d);
      forall i | 0 <= i < |row| ensures PatTyped(row[i], con.Args()[i], d) { PatForTyped(p.fields, con.fields, i, d); }
    } else {
      PayloadTy(ty, con, d);
    }
  }

  lemma WildSubPat(p: Pattern, con: Con, i: nat)
    requires Wild(p) && i < |con.Args()|
    ensures Wild(SubPats(p, con)[i])
  {
  }

  lemma PayloadTy(ty: Ty, con: Con, d: Decls)
    requires con in Cons(ty, d) && (con.SomeCon? || con.ResultCon?)
    ensures con.SomeCon? ==> ty.OptionTy? && con.item == ty.item
    ensures con.ResultCon? ==> ty.ResultTy? && con.payload == if con.ok then ty.okTy else ty.errTy
  {
  }

  lemma {:induction false} SplitTyped(rows: seq<Row>, con: Con, v: Val, tys: seq<Ty>, d: Decls)
    requires hide MatchPattern, Cons, PatTyped, Specialize; DeclsOk(d) && tys != [] && RowsTyped(rows, tys, d)
    ensures Shaped(rows, |tys|)
    ensures con in Cons(tys[0], d) ==> RowsTyped(Specialize(rows, con), con.Args() + tys[1..], d)
    ensures RowsTyped(Keep(rows, v), tys[1..], d) && RowsTyped(Tails(rows), tys[1..], d)
  {
    hide PatTyped, MatchPattern, HeadIs, Wild, SubPats, Cons;
    if rows != [] {
      assert RowTyped(rows[0], tys, d);
      RowTypedTail(rows[0], tys, d);
      SplitTyped(rows[1..], con, v, tys, d);
      var p := rows[0][0];
      if con in Cons(tys[0], d) && (Wild(p) || HeadIs(p, con)) {
        SubPatsTyped(p, con, tys[0], d);
        RowTypedConcat(SubPats(p, con), rows[0][1..], con.Args(), tys[1..], d);
      }
    }
  }

  // ---- a column of integers or strings needs only the candidates ----

  lemma {:induction false} Best(ns: seq<int>, n: int) returns (r: int)
    requires ns != [] && ns[|ns| - 1] <= n
    ensures r in ns && r <= n && forall b :: b in ns && b <= n ==> b <= r
  {
    if |ns| == 1 {
      r := ns[0];
    } else {
      r := Best(ns[1..], n);
      assert ns == [ns[0]] + ns[1..];
      if r < ns[0] <= n { r := ns[0]; }
    }
  }

  lemma {:induction false} PlacesHave(rows: seq<Row>, i: nat)
    requires i < |rows| && forall i :: 0 <= i < |rows| ==> rows[i] != []
    ensures forall b :: b in Ends(rows[i][0]) && MIN_INT <= b <= MAX_INT ==> b in Places(rows)
  {
    if i > 0 {
      PlacesHave(rows[1..], i - 1);
    }
  }

  lemma {:induction false} PlacesInRange(rows: seq<Row>)
    requires forall i :: 0 <= i < |rows| ==> rows[i] != []
    ensures Places(rows) != [] && Places(rows)[|Places(rows)| - 1] == MIN_INT
    ensures forall b :: b in Places(rows) ==> MIN_INT <= b <= MAX_INT
  {
    if rows != [] {
      PlacesInRange(rows[1..]);
    }
  }

  /** No row begins or stops to accept between two integers, so the same rows accept both. */
  lemma SameInts(p: Pattern, n: int, r: int, d: Decls)
    requires PatTyped(p, IntTy, d) && MIN_INT <= r <= n <= MAX_INT
    requires forall b :: b in Ends(p) && MIN_INT <= b <= n ==> b <= r
    ensures MatchPattern(p, IntVal(n)).Yes? <==> MatchPattern(p, IntVal(r)).Yes?
  {
    match p {
      case Literal(v) => assert v.n in Ends(p) && v.n + 1 in Ends(p);
      case Range(lo, hi, inclusive) => assert lo in Ends(p) && (if inclusive then hi + 1 else hi) in Ends(p);
      case _ =>
    }
  }

  lemma {:induction false} SameKept(rows: seq<Row>, v: Val, r: Val)
    requires forall i :: 0 <= i < |rows| ==> rows[i] != [] && (MatchPattern(rows[i][0], v).Yes? <==> MatchPattern(rows[i][0], r).Yes?)
    ensures Keep(rows, v) == Keep(rows, r)
  {
    hide MatchPattern;
    if rows != [] {
      SameKept(rows[1..], v, r);
    }
  }

  lemma {:induction false} OtherIsLonger(ss: seq<string>, s: string)
    requires s in ss
    ensures |s| < |Other(ss)|
  {
    OtherNotEmpty(ss);
    if s != ss[0] {
      OtherIsLonger(ss[1..], s);
    } else {
      OtherNotEmpty(ss[1..]);
    }
  }

  lemma {:induction false} OtherNotEmpty(ss: seq<string>)
    ensures |Other(ss)| > 0
  {
    if ss != [] {
      OtherNotEmpty(ss[1..]);
    }
  }

  lemma {:induction false} StringsHave(rows: seq<Row>, i: nat)
    requires i < |rows| && forall i :: 0 <= i < |rows| ==> rows[i] != []
    ensures var p := rows[i][0]; p.Literal? && p.value.StrVal? ==> p.value.s in Strings(rows)
  {
    if i > 0 {
      StringsHave(rows[1..], i - 1);
    }
  }

  lemma Represented(rows: seq<Row>, v: Val, ty: Ty, d: Decls) returns (r: Val)
    requires hide *; (ty.IntTy? || ty.StrTy?) && HasType(v, ty, d)
    requires forall i :: 0 <= i < |rows| ==> rows[i] != [] && PatTyped(rows[i][0], ty, d)
    ensures r in Candidates(rows, ty) && Keep(rows, r) == Keep(rows, v)
  {
    hide MatchPattern, PatTyped, Keep, Strings, Strs, Places, Ints;
    if ty.IntTy? {
      PlacesInRange(rows);
      var n := Best(Places(rows), v.n);
      r := IntVal(n);
      var k :| 0 <= k < |Places(rows)| && Places(rows)[k] == n;
      assert Candidates(rows, ty)[k] == r;
      forall i | 0 <= i < |rows| ensures MatchPattern(rows[i][0], v).Yes? <==> MatchPattern(rows[i][0], r).Yes? {
        PlacesHave(rows, i);
        SameInts(rows[i][0], v.n, n, d);
      }
    } else {
      var ss := Strings(rows);
      var all := ss + [Other(ss)];
      var s := if v.s in ss then v.s else Other(ss);
      r := StrVal(s);
      assert s in all by { assert all[|ss|] == Other(ss); }
      var k :| 0 <= k < |all| && all[k] == s;
      assert Candidates(rows, ty)[k] == r;
      forall i | 0 <= i < |rows| ensures MatchPattern(rows[i][0], v).Yes? <==> MatchPattern(rows[i][0], r).Yes? {
        StringsHave(rows, i);
        SameStrings(rows[i][0], ss, v.s, s, d);
      }
    }
    SameKept(rows, v, r);
  }

  lemma SameStrings(p: Pattern, ss: seq<string>, s: string, r: string, d: Decls)
    requires hide *; PatTyped(p, StrTy, d) && (p.Literal? && p.value.StrVal? ==> p.value.s in ss)
    requires r == if s in ss then s else Other(ss)
    ensures MatchPattern(p, StrVal(s)).Yes? <==> MatchPattern(p, StrVal(r)).Yes?
  {
    if p.Literal? && s !in ss {
      OtherIsLonger(ss, p.value.s);
    }
  }

  lemma CandidatesTyped(rows: seq<Row>, ty: Ty, r: Val, d: Decls)
    requires hide *; (ty.IntTy? || ty.StrTy?) && (forall i :: 0 <= i < |rows| ==> rows[i] != []) && r in Candidates(rows, ty)
    ensures HasType(r, ty, d)
  {
    PlacesInRange(rows);
    var k :| 0 <= k < |Candidates(rows, ty)| && Candidates(rows, ty)[k] == r;
    if ty.IntTy? {
      assert Places(rows)[k] in Places(rows);
    }
  }

  // ---- the test is exact ----

  predicate Known(ty: Ty, d: Decls) {
    match ty
    case OptionTy(t) => Known(t, d)
    case ResultTy(t, e) => Known(t, d) && Known(e, d)
    case EnumTy(id) => id in d.enums
    case StructTy(id) => id in d.structs
    case _ => true
  }

  predicate AllKnown(tys: seq<Ty>, d: Decls) {
    forall i :: 0 <= i < |tys| ==> Known(tys[i], d)
  }

  /** Types mentioned in declarations are declared. */
  predicate Closed(d: Decls) {
    && (forall id :: id in d.structs ==> AllKnown(FieldTypes(d.structs[id]), d))
    && (forall id :: id in d.enums ==> forall k :: 0 <= k < |d.enums[id]| ==> AllKnown(VariantCon(d.enums[id], k).Args(), d))
  }

  /** Every declared type has a value. */
  ghost predicate Inhabited(sample: Ty -> Val, d: Decls) {
    forall ty :: Known(ty, d) ==> HasType(sample(ty), ty, d)
  }

  lemma ArgsKnown(ty: Ty, con: Con, d: Decls)
    requires Closed(d) && Known(ty, d) && con in Cons(ty, d)
    ensures AllKnown(con.Args(), d)
  {
    if ty.EnumTy? {
      var k :| 0 <= k < |d.enums[ty.id]| && con == VariantCon(d.enums[ty.id], k);
    }
  }

  lemma HaveTypesSplit(v: Val, vs: seq<Val>, ty: Ty, tys: seq<Ty>, us: seq<Val>, ts: seq<Ty>, d: Decls)
    requires HaveTypes(vs, tys, d)
    ensures HasType(v, ty, d) ==> HaveTypes([v] + vs, [ty] + tys, d)
    ensures HaveTypes(us, ts, d) ==> HaveTypes(us + vs, ts + tys, d)
  {
    hide HasType;
  }

  lemma {:induction false} CoversSound(rows: seq<Row>, tys: seq<Ty>, d: Decls, vs: seq<Val>)
    requires hide HasType, PatTyped, Covers, SomeRow;
             DeclsOk(d) && RowsTyped(rows, tys, d) && HaveTypes(vs, tys, d) && Shaped(rows, |tys|) && Covers(rows, tys, d)
    ensures SomeRow(rows, vs)
    decreases WeightRows(rows), |tys|
  {
    hide PatTyped, HasType, MatchPattern, Cons, Candidates, WeightRows, MatchRow, Keep, Tails, FieldTypes, Specialize;
    if tys == [] {
      EmptyRow(rows[0], vs);
    } else {
      var v, rest, ty := vs[0], vs[1..], tys[0];
      assert [v] + rest == vs;
      SplitTyped(rows, NoneCon, v, tys, d);
      HeadsTyped(rows, tys, d);
      if AllWild(rows) {
        StillShaped(rows, NoneCon, v, |tys| - 1);
        TailsAreSmaller(rows);
        CoversSound(Tails(rows), tys[1..], d, rest);
        TailsYes(rows, v, rest);
      } else if Structured(ty) {
        var con := Decompose(v, ty, d);
        FormSound(rows, tys, d, vs, con);
      } else {
        NotOther(rows, tys, d);
        var r := Represented(rows, v, ty, d);
        assert CoversValue(rows, tys, d, r);
        StillShaped(rows, NoneCon, r, |tys| - 1);
        SplitTyped(rows, NoneCon, r, tys, d);
        KeepIsSmaller(rows, r);
        CoversSound(Keep(rows, r), tys[1..], d, rest);
        KeepYes(rows, v, rest);
      }
    }
  }

  lemma EmptyRow(row: Row, vs: seq<Val>)
    requires |row| == |vs| == 0
    ensures MatchRow(row, vs)
  {
  }

  lemma HeadsTyped(rows: seq<Row>, tys: seq<Ty>, d: Decls)
    requires hide *; tys != [] && RowsTyped(rows, tys, d)
    ensures forall i :: 0 <= i < |rows| ==> rows[i] != [] && PatTyped(rows[i][0], tys[0], d)
  {
    hide PatTyped;
    forall i | 0 <= i < |rows| ensures rows[i] != [] && PatTyped(rows[i][0], tys[0], d) {
      assert RowTyped(rows[i], tys, d);
    }
  }

  lemma NotOther(rows: seq<Row>, tys: seq<Ty>, d: Decls)
    requires hide *; tys != [] && RowsTyped(rows, tys, d) && !AllWild(rows)
    ensures !tys[0].OtherTy?
  {
    HeadsTyped(rows, tys, d);
  }

  lemma {:induction false} FormSound(rows: seq<Row>, tys: seq<Ty>, d: Decls, vs: seq<Val>, con: Con)
    requires hide Cons, HasType, PatTyped, Covers, SomeRow, Specialize;
             DeclsOk(d) && tys != [] && RowsTyped(rows, tys, d) && HaveTypes(vs, tys, d) && Shaped(rows, |tys|) && !AllWild(rows)
    requires con in Cons(tys[0], d) && HaveTypes(Parts(vs[0]), con.Args(), d) && vs[0] == Build(con, Parts(vs[0]))
    requires CoversForm(rows, tys, d, con)
    ensures SomeRow(rows, vs)
    decreases WeightRows(rows), 0
  {
    hide PatTyped, HasType, MatchPattern, Cons, WeightRows, Build, Parts, Covers, SomeRow, Specialize;
    var us, rest := Parts(vs[0]), vs[1..];
    assert [vs[0]] + rest == vs;
    ConsAreOk(tys[0], d, con);
    StillShaped(rows, con, UnitVal, |tys| - 1);
    SplitTyped(rows, con, UnitVal, tys, d);
    SpecializeIsSmaller(rows, con);
    HaveTypesSplit(vs[0], rest, tys[0], tys[1..], us, con.Args(), d);
    CoversSound(Specialize(rows, con), con.Args() + tys[1..], d, us + rest);
    HeadsTyped(rows, tys, d);
    SpecializeYes(rows, con, us, rest, tys[0], d);
  }

  /** When the test fails, some values of the types are accepted by no row. */
  lemma {:induction false} CoversComplete(rows: seq<Row>, tys: seq<Ty>, d: Decls, sample: Ty -> Val) returns (vs: seq<Val>)
    requires hide HasType, PatTyped, Covers, SomeRow; DeclsOk(d) && Closed(d) && Inhabited(sample, d) && AllKnown(tys, d)
    requires RowsTyped(rows, tys, d) && Shaped(rows, |tys|) && !Covers(rows, tys, d)
    ensures HaveTypes(vs, tys, d) && !SomeRow(rows, vs)
    decreases WeightRows(rows), |tys|
  {
    hide PatTyped, HasType, MatchPattern, Cons, Candidates, WeightRows, MatchRow, Closed, Tails, Known, FieldTypes, Keep, Specialize;
    if tys == [] {
      vs := [];
    } else {
      var ty := tys[0];
      assert [ty] + tys[1..] == tys;
      SplitTyped(rows, NoneCon, UnitVal, tys, d);
      if AllWild(rows) {
        StillShaped(rows, NoneCon, UnitVal, |tys| - 1);
        TailsAreSmaller(rows);
        var rest := CoversComplete(Tails(rows), tys[1..], d, sample);
        var v := sample(ty);
        TailsYes(rows, v, rest);
        HaveTypesSplit(v, rest, ty, tys[1..], [], [], d);
        vs := [v] + rest;
      } else if Structured(ty) {
        var con :| con in Cons(ty, d) && !CoversForm(rows, tys, d, con);
        vs := FormComplete(rows, tys, d, sample, con);
      } else {
        NotOther(rows, tys, d);
        HeadsTyped(rows, tys, d);
        var r :| r in Candidates(rows, ty) && !CoversValue(rows, tys, d, r);
        CandidatesTyped(rows, ty, r, d);
        StillShaped(rows, NoneCon, r, |tys| - 1);
        SplitTyped(rows, NoneCon, r, tys, d);
        KeepIsSmaller(rows, r);
        var rest := CoversComplete(Keep(rows, r), tys[1..], d, sample);
        KeepYes(rows, r, rest);
        HaveTypesSplit(r, rest, ty, tys[1..], [], [], d);
        vs := [r] + rest;
      }
    }
  }

  lemma {:induction false} FormComplete(rows: seq<Row>, tys: seq<Ty>, d: Decls, sample: Ty -> Val, con: Con) returns (vs: seq<Val>)
    requires hide Cons, HasType, PatTyped, Covers, SomeRow, Specialize;
             DeclsOk(d) && Closed(d) && Inhabited(sample, d) && AllKnown(tys, d) && tys != []
    requires RowsTyped(rows, tys, d) && Shaped(rows, |tys|) && !AllWild(rows) && con in Cons(tys[0], d) && !CoversForm(rows, tys, d, con)
    ensures HaveTypes(vs, tys, d) && !SomeRow(rows, vs)
    decreases WeightRows(rows), 0
  {
    hide PatTyped, HasType, MatchPattern, Cons, WeightRows, Closed, DeclsOk, Inhabited, Specialize, SomeRow, RowTyped, Covers;
    assert [tys[0]] + tys[1..] == tys;
    ConsAreOk(tys[0], d, con);
    ArgsKnown(tys[0], con, d);
    StillShaped(rows, con, UnitVal, |tys| - 1);
    SplitTyped(rows, con, UnitVal, tys, d);
    SpecializeIsSmaller(rows, con);
    var parts := CoversComplete(Specialize(rows, con), con.Args() + tys[1..], d, sample);
    vs := Rebuild(rows, tys, d, con, parts);
  }

  /** Values for the parts that no specialized row accepts make a value that no row accepts. */
  lemma Rebuild(rows: seq<Row>, tys: seq<Ty>, d: Decls, con: Con, parts: seq<Val>) returns (vs: seq<Val>)
    requires hide Cons, HasType, PatTyped, SomeRow, Specialize;
             DeclsOk(d) && tys != [] && RowsTyped(rows, tys, d) && Shaped(rows, |tys|) && con in Cons(tys[0], d)
    requires HaveTypes(parts, con.Args() + tys[1..], d) && Shaped(Specialize(rows, con), |parts|) && !SomeRow(Specialize(rows, con), parts)
    ensures HaveTypes(vs, tys, d) && !SomeRow(rows, vs)
  {
    hide PatTyped, HasType, Cons, Build, DeclsOk, Specialize, SomeRow, RowTyped;
    var k := |con.Args()|;
    var us, rest := parts[..k], parts[k..];
    assert us + rest == parts;
    assert [tys[0]] + tys[1..] == tys;
    TypesApart(parts, con.Args(), tys[1..], d);
    Compose(con, us, tys[0], d);
    HeadsTyped(rows, tys, d);
    SpecializeYes(rows, con, us, rest, tys[0], d);
    HaveTypesSplit(Build(con, us), rest, tys[0], tys[1..], us, con.Args(), d);
    vs := [Build(con, us)] + rest;
  }

  lemma TypesApart(vs: seq<Val>, ts: seq<Ty>, us: seq<Ty>, d: Decls)
    requires hide HasType; HaveTypes(vs, ts + us, d)
    ensures HaveTypes(vs[..|ts|], ts, d) && HaveTypes(vs[|ts|..], us, d)
  {
    hide HasType;
    forall i | 0 <= i < |ts| ensures HasType(vs[..|ts|][i], ts[i], d) {
      assert HasType(vs[i], (ts + us)[i], d);
    }
    forall i | 0 <= i < |us| ensures HasType(vs[|ts|..][i], us[i], d) {
      assert HasType(vs[|ts| + i], (ts + us)[|ts| + i], d);
    }
  }
}
