/** Which printed tokens touch, and when touching makes Lua's scanner read something else. */
module LuaSpacing {
  import opened LuaIr
  import opened LuaTokens
  import opened LuaPrinter

  predicate IsNumber(t: Token) { t.IntTok? || t.NumTok? }

  predicate IsWord(t: Token) {
    t.KwNil? || t.KwTrue? || t.KwFalse? || t.KwNot? || t.NameTok? || IsNumber(t) || t == OpTok(And) || t == OpTok(Or)
  }

  /** The token begins with `=`. */
  predicate BeginsEqual(t: Token) { t.Assign? || t == OpTok(Eq) }

  /**
   * Written without a space between them, t and u may not be scanned as t and then u. The flag says
   * whether two minus signs count: they are the only such pair that printed text can contain.
   */
  predicate Fuses(t: Token, u: Token, dashes: bool) {
    || (dashes && t == Minus && u == Minus)
    || (IsWord(t) && IsWord(u))
    || (IsNumber(t) && (u.Dot? || u == OpTok(Concat)))
    || ((t.Dot? || t == OpTok(Concat)) && (u.Dot? || u == OpTok(Concat) || IsNumber(u)))
    || ((t.Assign? || t == OpTok(Lt) || t == OpTok(Gt) || t.LBracket?) && BeginsEqual(u))
    || (t.LBracket? && u.LBracket?)
    || (t.Colon? && u.Colon?)
    || (t == OpTok(Lt) && (u == OpTok(Lt) || u == OpTok(Le)))
    || (t == OpTok(Gt) && (u == OpTok(Gt) || u == OpTok(Ge)))
    || (t == OpTok(Div) && u == OpTok(Div))
  }

  predicate Touch(a: Piece, b: Piece, dashes: bool) {
    a.Tok? && b.Tok? && Fuses(a.token, b.token, dashes)
  }

  /** No two touching tokens fuse. */
  predicate Scannable(ps: seq<Piece>, dashes: bool) {
    forall i :: 0 <= i < |ps| - 1 ==> !Touch(ps[i], ps[i + 1], dashes)
  }

  // ---- minus directly under minus ----

  predicate BeginsMinus(e: Expr) {
    (e.Unary? && e.uop == Neg) || (e.Integer? && e.n < 0)
  }

  /** Somewhere a negation is applied directly to a negation or to a negative literal. */
  predicate DoubleMinus(e: Expr)
    decreases e, 1
  {
    match e
    case Nil | Bool(_) | Integer(_) | Number(_) | Str(_) | Name(_) => false
    case Field(base, _) => DoubleMinus(base)
    case Index(base, index) => DoubleMinus(base) || DoubleMinus(index)
    case Call(callee, args) => DoubleMinus(callee) || AnyDoubleMinus(args)
    case MethodCall(receiver, _, args) => DoubleMinus(receiver) || AnyDoubleMinus(args)
    case Unary(op, operand) => (op == Neg && BeginsMinus(operand)) || DoubleMinus(operand)
    case Binary(left, _, right) => DoubleMinus(left) || DoubleMinus(right)
    case Table(fields) => FieldsDoubleMinus(fields)
    case Parenthesized(inner) => DoubleMinus(inner)
  }

  predicate AnyDoubleMinus(es: seq<Expr>)
    decreases es, 0
  {
    es != [] && (DoubleMinus(es[0]) || AnyDoubleMinus(es[1..]))
  }

  predicate FieldDoubleMinus(f: TableField)
    decreases f, 0
  {
    match f
    case Named(_, value) => DoubleMinus(value)
    case Indexed(index, value) => DoubleMinus(index) || DoubleMinus(value)
    case Value(value) => DoubleMinus(value)
  }

  predicate FieldsDoubleMinus(fs: seq<TableField>)
    decreases fs, 0
  {
    fs != [] && (FieldDoubleMinus(fs[0]) || FieldsDoubleMinus(fs[1..]))
  }

  // ---- the ends of printed text ----

  predicate CanBegin(p: Piece) {
    p.Tok? && (p.token.KwNil? || p.token.KwTrue? || p.token.KwFalse? || IsNumber(p.token) || p.token.StrTok? || p.token.NameTok?
      || p.token == Minus || p.token.KwNot? || p.token.Hash? || p.token.LBrace? || p.token.LParen?)
  }

  predicate CanEnd(p: Piece) {
    p.Tok? && (p.token.KwNil? || p.token.KwTrue? || p.token.KwFalse? || IsNumber(p.token) || p.token.StrTok? || p.token.NameTok?
      || p.token.RBracket? || p.token.RParen? || p.token.RBrace?)
  }

  predicate CanEndPrefix(p: Piece) {
    p.Tok? && (p.token.NameTok? || p.token.RBracket? || p.token.RParen?)
  }

  predicate Ends(ps: seq<Piece>) {
    ps != [] && CanBegin(ps[0]) && CanEnd(ps[|ps| - 1])
  }

  lemma Joined(a: seq<Piece>, b: seq<Piece>, dashes: bool)
    requires a != [] && b != []
    ensures Scannable(a + b, dashes) <==> Scannable(a, dashes) && Scannable(b, dashes) && !Touch(a[|a| - 1], b[0], dashes)
  {
    var c := a + b;
    if Scannable(c, dashes) {
      forall i | 0 <= i < |a| - 1 ensures !Touch(a[i], a[i + 1], dashes) { assert c[i] == a[i] && c[i + 1] == a[i + 1]; }
      forall i | 0 <= i < |b| - 1 ensures !Touch(b[i], b[i + 1], dashes) { assert c[|a| + i] == b[i] && c[|a| + i + 1] == b[i + 1]; }
      assert c[|a| - 1] == a[|a| - 1] && c[|a|] == b[0] && !Touch(c[|a| - 1], c[|a| - 1 + 1], dashes);
    }
  }

  lemma Wrapped(open: Piece, ps: seq<Piece>, close: Piece, dashes: bool)
    requires ps != []
    ensures Scannable([open] + ps + [close], dashes) <==> Scannable(ps, dashes) && !Touch(open, ps[0], dashes) && !Touch(ps[|ps| - 1], close, dashes)
  {
    Joined([open] + ps, [close], dashes);
    Joined([open], ps, dashes);
  }

  /** The first piece is `-` exactly for a negation or negative literal, once operators are set aside. */
  ghost predicate EndsAsPrinted(e: Expr, p: nat, right: bool, ps: seq<Piece>) {
    && Ends(ps)
    && (!e.Binary? && (e.Unary? ==> p <= UNARY_PRECEDENCE) ==> (ps[0] == Tok(Minus) <==> BeginsMinus(e)))
    && (e.Binary? && NeedsParens(e.op, p, right) ==> ps[0] == Tok(LParen))
    && (IsPrefix(e) ==> CanEndPrefix(ps[|ps| - 1]))
  }

  lemma {:induction false} PrintedEnds(e: Expr, p: nat, right: bool)
    ensures EndsAsPrinted(e, p, right, PrintAt(e, p, right))
    decreases e, 1
  {
    hide PrintAt, EndsAsPrinted;
    match e {
      case Field(_, _) => SpineEnds(e, p, right);
      case Index(_, _) => SpineEnds(e, p, right);
      case Call(_, _) => SpineEnds(e, p, right);
      case MethodCall(_, _, _) => SpineEnds(e, p, right);
      case Unary(_, _) => UnaryEnds(e, p, right);
      case Binary(_, _, _) => BinaryEnds(e, p, right);
      case _ => OtherEnds(e, p, right);
    }
  }

  lemma OtherEnds(e: Expr, p: nat, right: bool)
    requires !e.Field? && !e.Index? && !e.Call? && !e.MethodCall? && !e.Unary? && !e.Binary?
    ensures EndsAsPrinted(e, p, right, PrintAt(e, p, right))
  {
    hide PrintFields, NeedsParens;
  }

  lemma {:induction false} SpineEnds(e: Expr, p: nat, right: bool)
    requires e.Field? || e.Index? || e.Call? || e.MethodCall?
    ensures EndsAsPrinted(e, p, right, PrintAt(e, p, right))
    decreases e, 0
  {
    hide PrintList, PrintPrefix, NeedsParens;
    match e {
      case Field(base, _) => PrefixEnds(base);
      case Index(base, _) => PrefixEnds(base);
      case Call(callee, _) => PrefixEnds(callee);
      case MethodCall(receiver, _, _) => PrefixEnds(receiver);
    }
  }

  lemma {:induction false} UnaryEnds(e: Expr, p: nat, right: bool)
    requires e.Unary?
    ensures EndsAsPrinted(e, p, right, PrintAt(e, p, right))
    decreases e, 0
  {
    hide EndsAsPrinted;
    var inner := PrintAt(e.operand, UNARY_PRECEDENCE, false);
    PrintedEnds(e.operand, UNARY_PRECEDENCE, false);
    PrefixedEnds(e, p, right, inner);
  }

  lemma PrefixedEnds(e: Expr, p: nat, right: bool, inner: seq<Piece>)
    requires e.Unary? && EndsAsPrinted(e.operand, UNARY_PRECEDENCE, false, inner)
    ensures EndsAsPrinted(e, p, right, if UNARY_PRECEDENCE < p then InParens(PrintUnaryOp(e.uop) + inner) else PrintUnaryOp(e.uop) + inner)
  {
    hide NeedsParens;
    assert (PrintUnaryOp(e.uop) + inner)[|PrintUnaryOp(e.uop)| + |inner| - 1] == inner[|inner| - 1];
  }

  lemma {:induction false} BinaryEnds(e: Expr, p: nat, right: bool)
    requires e.Binary?
    ensures EndsAsPrinted(e, p, right, PrintAt(e, p, right))
    decreases e, 0
  {
    hide NeedsParens, Precedence;
    PrintedEnds(e.left, Precedence(e.op), false);
    PrintedEnds(e.right, Precedence(e.op), true);
  }

  lemma {:induction false} PrefixEnds(e: Expr)
    ensures hide PrintPrefix; Ends(PrintPrefix(e)) && CanEndPrefix(PrintPrefix(e)[|PrintPrefix(e)| - 1])
    ensures PrintPrefix(e)[0] != Tok(Minus)
    decreases e, 2
  {
    hide PrintAt;
    PrintedEnds(e, 0, false);
  }

  // ---- the exact condition ----

  lemma Suffixed(a: seq<Piece>, b: seq<Piece>, dashes: bool)
    requires a != [] && CanEndPrefix(a[|a| - 1]) && b != [] && b[0].Tok?
    requires b[0].token.Dot? || b[0].token.LBracket? || b[0].token.LParen? || b[0].token.Colon?
    ensures Scannable(a + b, dashes) <==> Scannable(a, dashes) && Scannable(b, dashes)
  {
    Joined(a, b, dashes);
  }

  lemma {:induction false} ScannableExactly(e: Expr, p: nat, right: bool, dashes: bool)
    requires p <= UNARY_PRECEDENCE
    ensures Scannable(PrintAt(e, p, right), dashes) <==> !(dashes && DoubleMinus(e))
    decreases e, 1
  {
    hide Scannable, PrintAt, DoubleMinus;
    match e {
      case Nil | Bool(_) | Number(_) | Str(_) | Name(_) | Integer(_) => AtomScannable(e, p, right, dashes);
      case Field(_, _) => ScannableFieldAccess(e, p, right, dashes);
      case Index(_, _) => ScannableIndex(e, p, right, dashes);
      case Call(_, _) => ScannableCall(e, p, right, dashes);
      case MethodCall(_, _, _) => ScannableMethodCall(e, p, right, dashes);
      case Unary(_, _) => ScannableUnary(e, p, right, dashes);
      case Binary(_, _, _) => ScannableBinary(e, p, right, dashes);
      case Table(fields) => ScannableTable(e, p, right, dashes);
      case Parenthesized(_) => ScannableParenthesized(e, p, right, dashes);
    }
  }

  lemma {:induction false} ScannableFieldAccess(e: Expr, p: nat, right: bool, dashes: bool)
    requires e.Field?
    ensures Scannable(PrintAt(e, p, right), dashes) <==> !(dashes && DoubleMinus(e))
    decreases e, 0
  {
    hide Scannable, PrintPrefix;
    ScannablePrefix(e.base, dashes);
    PrefixEnds(e.base);
    Suffixed(PrintPrefix(e.base), [Tok(Dot), Tok(NameTok(e.name))], dashes);
    ShortTails(e.name, dashes);
  }

  lemma IndexJoins(a: seq<Piece>, i: seq<Piece>, dashes: bool)
    requires a != [] && CanEndPrefix(a[|a| - 1]) && Ends(i)
    ensures Scannable(a + [Tok(LBracket)] + i + [Tok(RBracket)], dashes) <==> Scannable(a, dashes) && Scannable(i, dashes)
  {
    hide Scannable;
    Wrapped(Tok(LBracket), i, Tok(RBracket), dashes);
    Suffixed(a, [Tok(LBracket)] + i + [Tok(RBracket)], dashes);
    assert a + [Tok(LBracket)] + i + [Tok(RBracket)] == a + ([Tok(LBracket)] + i + [Tok(RBracket)]);
  }

  lemma {:induction false} ScannableIndex(e: Expr, p: nat, right: bool, dashes: bool)
    requires e.Index?
    ensures Scannable(PrintAt(e, p, right), dashes) <==> !(dashes && DoubleMinus(e))
    decreases e, 0
  {
    hide Scannable, PrintPrefix;
    ScannablePrefix(e.base, dashes);
    PrefixEnds(e.base);
    ScannableExactly(e.index, 0, false, dashes);
    PrintedEnds(e.index, 0, false);
    IndexJoins(PrintPrefix(e.base), PrintAt(e.index, 0, false), dashes);
  }

  lemma {:induction false} ScannableCall(e: Expr, p: nat, right: bool, dashes: bool)
    requires e.Call?
    ensures Scannable(PrintAt(e, p, right), dashes) <==> !(dashes && DoubleMinus(e))
    decreases e, 0
  {
    hide Scannable, PrintPrefix, PrintList, AnyDoubleMinus;
    var Call(callee, args) := e;
    ScannablePrefix(callee, dashes);
    PrefixEnds(callee);
    ScannableArguments(args, dashes);
    Suffixed(PrintPrefix(callee), [Tok(LParen)] + PrintList(args) + [Tok(RParen)], dashes);
    assert PrintAt(e, p, right) == PrintPrefix(callee) + ([Tok(LParen)] + PrintList(args) + [Tok(RParen)]);
  }

  lemma {:induction false} ScannableMethodCall(e: Expr, p: nat, right: bool, dashes: bool)
    requires e.MethodCall?
    ensures Scannable(PrintAt(e, p, right), dashes) <==> !(dashes && DoubleMinus(e))
    decreases e, 0
  {
    hide Scannable, PrintPrefix, PrintList, AnyDoubleMinus;
    var MethodCall(receiver, m, args) := e;
    ScannablePrefix(receiver, dashes);
    PrefixEnds(receiver);
    ScannableArguments(args, dashes);
    ShortTails(m, dashes);
    var list := [Tok(LParen)] + PrintList(args) + [Tok(RParen)];
    Joined([Tok(Colon), Tok(NameTok(m))], list, dashes);
    Suffixed(PrintPrefix(receiver), [Tok(Colon), Tok(NameTok(m))] + list, dashes);
    assert PrintAt(e, p, right) == PrintPrefix(receiver) + ([Tok(Colon), Tok(NameTok(m))] + list);
  }

  lemma {:induction false} ScannableParenthesized(e: Expr, p: nat, right: bool, dashes: bool)
    requires e.Parenthesized?
    ensures Scannable(PrintAt(e, p, right), dashes) <==> !(dashes && DoubleMinus(e))
    decreases e, 0
  {
    hide Scannable;
    ScannableExactly(e.inner, 0, false, dashes);
    PrintedEnds(e.inner, 0, false);
    Wrapped(Tok(LParen), PrintAt(e.inner, 0, false), Tok(RParen), dashes);
  }

  lemma AtomScannable(e: Expr, p: nat, right: bool, dashes: bool)
    requires e.Nil? || e.Bool? || e.Number? || e.Str? || e.Name? || e.Integer?
    ensures Scannable(PrintAt(e, p, right), dashes) && !DoubleMinus(e)
  {
  }

  lemma ShortTails(name: string, dashes: bool)
    ensures Scannable([Tok(Dot), Tok(NameTok(name))], dashes) && Scannable([Tok(Colon), Tok(NameTok(name))], dashes)
  {
  }

  lemma {:induction false} ScannableUnary(e: Expr, p: nat, right: bool, dashes: bool)
    requires e.Unary? && p <= UNARY_PRECEDENCE
    ensures Scannable(PrintAt(e, p, right), dashes) <==> !(dashes && DoubleMinus(e))
    decreases e, 0
  {
    hide Scannable, NeedsParens;
    var Unary(op, operand) := e;
    var inner := PrintAt(operand, UNARY_PRECEDENCE, false);
    ScannableExactly(operand, UNARY_PRECEDENCE, false, dashes);
    PrintedEnds(operand, UNARY_PRECEDENCE, false);
    if operand.Binary? {
      AlwaysWrapped(operand.op);
    }
    Joined(PrintUnaryOp(op), inner, dashes);
    OperatorScannable(op, dashes);
  }

  lemma AlwaysWrapped(op: BinaryOp)
    ensures NeedsParens(op, UNARY_PRECEDENCE, false)
  {
  }

  lemma OperatorScannable(op: UnaryOp, dashes: bool)
    ensures Scannable(PrintUnaryOp(op), dashes)
  {
  }

  lemma {:induction false} ScannableBinary(e: Expr, p: nat, right: bool, dashes: bool)
    requires e.Binary?
    ensures Scannable(PrintAt(e, p, right), dashes) <==> !(dashes && DoubleMinus(e))
    decreases e, 0
  {
    hide Scannable, NeedsParens, Ends, Precedence;
    var Binary(left, op, r) := e;
    PrecedenceBound(op);
    var a, b := PrintAt(left, Precedence(op), false), PrintAt(r, Precedence(op), true);
    ScannableExactly(left, Precedence(op), false, dashes);
    ScannableExactly(r, Precedence(op), true, dashes);
    PrintedEnds(left, Precedence(op), false);
    PrintedEnds(r, Precedence(op), true);
    OperatorJoins(a, op, b, dashes);
  }

  lemma PrecedenceBound(op: BinaryOp)
    ensures Precedence(op) <= UNARY_PRECEDENCE
  {
  }

  lemma ParensNeverTouch(p: Piece, dashes: bool)
    ensures !Touch(Tok(LParen), p, dashes) && !Touch(p, Tok(RParen), dashes) && !Touch(p, Space, dashes) && !Touch(Space, p, dashes)
  {
  }

  lemma OperatorJoins(a: seq<Piece>, op: BinaryOp, b: seq<Piece>, dashes: bool)
    requires Ends(a) && Ends(b)
    ensures Scannable(a + [Space, Tok(OpTok(op)), Space] + b, dashes) <==> Scannable(a, dashes) && Scannable(b, dashes)
    ensures Scannable(InParens(a + [Space, Tok(OpTok(op)), Space] + b), dashes) <==> Scannable(a, dashes) && Scannable(b, dashes)
  {
    hide Scannable, Fuses, CanBegin, CanEnd;
    var m := [Space, Tok(OpTok(op)), Space];
    SpacedScannable(OpTok(op), dashes);
    Joined(a + m, b, dashes);
    Joined(a, m, dashes);
    ParensNeverTouch(a[0], dashes);
    ParensNeverTouch(a[|a| - 1], dashes);
    ParensNeverTouch(b[0], dashes);
    ParensNeverTouch(b[|b| - 1], dashes);
    Wrapped(Tok(LParen), a + m + b, Tok(RParen), dashes);
  }

  lemma SpacedScannable(t: Token, dashes: bool)
    ensures Scannable([Space, Tok(t), Space], dashes)
  {
  }

  lemma {:induction false} ScannablePrefix(e: Expr, dashes: bool)
    ensures Scannable(PrintPrefix(e), dashes) <==> !(dashes && DoubleMinus(e))
    decreases e, 2
  {
    hide Scannable, PrintAt, DoubleMinus;
    ScannableExactly(e, 0, false, dashes);
    PrintedEnds(e, 0, false);
    Wrapped(Tok(LParen), PrintAt(e, 0, false), Tok(RParen), dashes);
  }

  lemma {:induction false} ListEnds(es: seq<Expr>)
    requires es != []
    ensures Ends(PrintList(es))
    decreases es, 0
  {
    hide PrintAt;
    PrintedEnds(es[0], 0, false);
    if |es| > 1 {
      ListEnds(es[1..]);
    }
  }

  lemma CommaJoins(a: seq<Piece>, b: seq<Piece>, dashes: bool)
    requires Ends(a) && Ends(b)
    ensures Scannable(a + [Tok(Comma), Space] + b, dashes) <==> Scannable(a, dashes) && Scannable(b, dashes)
  {
    Joined(a + [Tok(Comma), Space], b, dashes);
    Joined(a, [Tok(Comma), Space], dashes);
    assert Scannable([Tok(Comma), Space], dashes);
  }

  lemma {:induction false} ScannableList(es: seq<Expr>, dashes: bool)
    requires es != []
    ensures Scannable(PrintList(es), dashes) <==> !(dashes && AnyDoubleMinus(es))
    decreases es, 0
  {
    hide PrintAt, Scannable, DoubleMinus;
    ScannableExactly(es[0], 0, false, dashes);
    if |es| > 1 {
      ScannableList(es[1..], dashes);
      PrintedEnds(es[0], 0, false);
      ListEnds(es[1..]);
      CommaJoins(PrintAt(es[0], 0, false), PrintList(es[1..]), dashes);
    } else {
      assert !AnyDoubleMinus(es[1..]);
    }
  }

  lemma {:induction false} ScannableArguments(es: seq<Expr>, dashes: bool)
    ensures Scannable([Tok(LParen)] + PrintList(es) + [Tok(RParen)], dashes) <==> !(dashes && AnyDoubleMinus(es))
    decreases es, 1
  {
    hide PrintAt, DoubleMinus, PrintField;
    if es == [] {
      assert [Tok(LParen)] + PrintList(es) + [Tok(RParen)] == [Tok(LParen), Tok(RParen)];
    } else {
      ScannableList(es, dashes);
      ListEnds(es);
      Wrapped(Tok(LParen), PrintList(es), Tok(RParen), dashes);
    }
  }

  /** A field begins and ends like an expression, or begins with a bracket. */
  predicate FieldEnds(ps: seq<Piece>) {
    ps != [] && (CanBegin(ps[0]) || ps[0] == Tok(LBracket)) && CanEnd(ps[|ps| - 1])
  }

  lemma AssignJoins(k: seq<Piece>, v: seq<Piece>, dashes: bool)
    requires k != [] && Ends(v)
    ensures Scannable(k + [Space, Tok(Assign), Space] + v, dashes) <==> Scannable(k, dashes) && Scannable(v, dashes)
  {
    SpacedScannable(Assign, dashes);
    Joined(k + [Space, Tok(Assign), Space], v, dashes);
    Joined(k, [Space, Tok(Assign), Space], dashes);
  }

  lemma {:induction false} ScannableField(f: TableField, dashes: bool)
    ensures Scannable(PrintField(f), dashes) <==> !(dashes && FieldDoubleMinus(f))
    ensures FieldEnds(PrintField(f))
    decreases f, 0
  {
    hide PrintAt, Scannable, DoubleMinus, IsLuaIdentifier;
    match f {
      case Named(name, value) =>
        ScannableExactly(value, 0, false, dashes);
        PrintedEnds(value, 0, false);
        NamedJoins(name, PrintAt(value, 0, false), dashes);
      case Indexed(index, value) =>
        ScannableExactly(index, 0, false, dashes);
        PrintedEnds(index, 0, false);
        ScannableExactly(value, 0, false, dashes);
        PrintedEnds(value, 0, false);
        IndexedJoins(PrintAt(index, 0, false), PrintAt(value, 0, false), dashes);
      case Value(value) =>
        ScannableExactly(value, 0, false, dashes);
        PrintedEnds(value, 0, false);
    }
  }

  lemma NamedJoins(name: string, v: seq<Piece>, dashes: bool)
    requires Ends(v)
    ensures Scannable([Tok(NameTok(name))] + [Space, Tok(Assign), Space] + v, dashes) <==> Scannable(v, dashes)
    ensures Scannable([Tok(LBracket), Tok(StrTok(name)), Tok(RBracket)] + [Space, Tok(Assign), Space] + v, dashes) <==> Scannable(v, dashes)
  {
    KeysScannable(name, dashes);
    AssignJoins([Tok(NameTok(name))], v, dashes);
    AssignJoins([Tok(LBracket), Tok(StrTok(name)), Tok(RBracket)], v, dashes);
  }

  lemma IndexedJoins(i: seq<Piece>, v: seq<Piece>, dashes: bool)
    requires Ends(i) && Ends(v)
    ensures Scannable([Tok(LBracket)] + i + [Tok(RBracket), Space, Tok(Assign), Space] + v, dashes) <==> Scannable(i, dashes) && Scannable(v, dashes)
  {
    hide Scannable;
    Wrapped(Tok(LBracket), i, Tok(RBracket), dashes);
    AssignJoins([Tok(LBracket)] + i + [Tok(RBracket)], v, dashes);
    assert [Tok(LBracket)] + i + [Tok(RBracket), Space, Tok(Assign), Space] + v
        == [Tok(LBracket)] + i + [Tok(RBracket)] + [Space, Tok(Assign), Space] + v;
  }

  lemma KeysScannable(name: string, dashes: bool)
    ensures Scannable([Tok(NameTok(name))], dashes) && Scannable([Tok(LBracket), Tok(StrTok(name)), Tok(RBracket)], dashes)
  {
  }

  lemma FieldCommaJoins(a: seq<Piece>, b: seq<Piece>, dashes: bool)
    requires FieldEnds(a) && FieldEnds(b)
    ensures Scannable(a + [Tok(Comma), Space] + b, dashes) <==> Scannable(a, dashes) && Scannable(b, dashes)
  {
    Joined(a + [Tok(Comma), Space], b, dashes);
    Joined(a, [Tok(Comma), Space], dashes);
    assert Scannable([Tok(Comma), Space], dashes);
  }

  lemma {:induction false} ScannableFields(fs: seq<TableField>, dashes: bool)
    requires fs != []
    ensures Scannable(PrintFields(fs), dashes) <==> !(dashes && FieldsDoubleMinus(fs))
    ensures FieldEnds(PrintFields(fs))
    decreases fs, 0
  {
    hide PrintField, Scannable, FieldDoubleMinus;
    ScannableField(fs[0], dashes);
    if |fs| > 1 {
      ScannableFields(fs[1..], dashes);
      FieldCommaJoins(PrintField(fs[0]), PrintFields(fs[1..]), dashes);
    } else {
      assert !FieldsDoubleMinus(fs[1..]);
    }
  }

  lemma {:induction false} ScannableTable(e: Expr, p: nat, right: bool, dashes: bool)
    requires e.Table?
    ensures Scannable(PrintAt(e, p, right), dashes) <==> !(dashes && DoubleMinus(e))
    decreases e, 0
  {
    if e.fields != [] {
      ScannableFields(e.fields, dashes);
      var ps := PrintFields(e.fields);
      var a, z := [Tok(LBrace), Space], [Space, Tok(RBrace)];
      assert Scannable(a, dashes) && Scannable(z, dashes);
      Joined(a + ps, z, dashes);
      Joined(a, ps, dashes);
    }
  }

  /** Two minus signs touch exactly when a minus stands directly under a minus, and no other tokens that fuse ever touch. */
  lemma PrintedTextTouches(e: Expr, dashes: bool)
    ensures Scannable(Print(e), dashes) <==> !(dashes && DoubleMinus(e))
  {
    hide PrintAt;
    ScannableExactly(e, 0, false, dashes);
  }
}
