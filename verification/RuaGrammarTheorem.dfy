/** The parser accepts exactly the well-formed trees, and a text has at most one of them. */
module RuaGrammarTheorem {
  import opened Wrappers
  import opened RuaGrammar

  // ---- how deep the parser must go ----

  function Max(a: nat, b: nat): nat {
    if a < b then b else a
  }

  function NeedPostfix(t: Tree): nat
    decreases t, 0
  {
    match t
    case Paren(inner) => NeedExpr(inner)
    case VecLit(elements, _) => NeedList(elements)
    case StructLit(_, fields, _) => NeedFields(fields)
    case Try(base) => NeedPostfix(base)
    case Field(base, _, _) => NeedPostfix(base)
    case MethodCall(base, _, _, args, _) => Max(NeedPostfix(base), NeedList(args))
    case Call(base, args, _) => Max(NeedPostfix(base), NeedList(args))
    case Index(base, index) => Max(NeedPostfix(base), NeedExpr(index))
    case _ => 0
  }

  function NeedUnary(t: Tree): nat
    decreases t, 1
  {
    1 + if t.Unary? then NeedUnary(t.operand) else NeedPostfix(t)
  }

  /** A left operand is parsed in the same call, a right operand in one of its own. */
  function NeedBin(t: Tree): nat
    decreases t, 2
  {
    if t.Binary? || t.Range? then Max(NeedBin(t.lhs), 1 + NeedBin(t.rhs)) else 1 + NeedUnary(t)
  }

  function NeedExpr(t: Tree): nat
    decreases t, 3
  {
    1 + if t.Assign? then Max(NeedBin(t.target), NeedExpr(t.value)) else NeedBin(t)
  }

  function NeedList(ts: seq<Tree>): nat
    decreases ts, 0
  {
    if ts == [] then 0 else Max(NeedExpr(ts[0]), NeedList(ts[1..]))
  }

  function NeedFields(fs: seq<FieldTree>): nat
    decreases fs, 0
  {
    if fs == [] then 0 else Max(NeedField(fs[0]), NeedFields(fs[1..]))
  }

  function NeedField(f: FieldTree): nat
    decreases f, 0
  {
    if f.value.Some? then NeedExpr(f.value.value) else 0
  }

  predicate Fits(m: Mode, need: nat) {
    m.depth + need <= m.max
  }

  // ---- what may come after ----

  predicate NoSuffix(rest: seq<Token>) {
    rest == [] || (rest[0] != LParen && !rest[0].Dot? && rest[0] != Question && rest[0] != LBracket)
  }

  predicate NoBrace(rest: seq<Token>, m: Mode) {
    !m.noStruct ==> !At(rest, LBrace)
  }

  /** The next token does not continue the tree. */
  predicate Stops(t: Tree, rest: seq<Token>, m: Mode) {
    && NoSuffix(rest) && NoBrace(rest, m)
    && (rest != [] && InfixPower(rest[0]).Some? ==> InfixPower(rest[0]).value <= Level(t))
  }

  /** The next token does not continue any expression. */
  predicate Ended(rest: seq<Token>) {
    NoSuffix(rest) && (rest != [] ==> InfixPower(rest[0]).None? && !rest[0].AssignTok?)
  }

  predicate Starts(t: Token) {
    t.Literal? || t.Word? || t == LParen || t == LBracket || t == OpTok(Sub) || t == Bang
  }

  lemma {:induction false} FirstToken(t: Tree)
    ensures Starts(Yield(t)[0])
    ensures Level(t) == 8 && WellSpine(t) ==> Yield(t)[0] != OpTok(Sub) && Yield(t)[0] != Bang
    decreases t
  {
    hide FieldsYield, ListYield;
    match t {
      case Try(base) => FirstToken(base);
      case Field(base, _, _) => FirstToken(base);
      case MethodCall(base, _, _, _, _) => FirstToken(base);
      case Call(base, _, _) => FirstToken(base);
      case Index(base, _) => FirstToken(base);
      case Binary(_, lhs, _) => FirstToken(lhs);
      case Range(_, lhs, _) => FirstToken(lhs);
      case Assign(_, target, _) => FirstToken(target);
      case _ =>
    }
  }

  /** Suffixes only on what suffixes may follow. */
  predicate WellSpine(t: Tree)
    decreases t
  {
    match t
    case Try(base) => Level(base) == 8 && WellSpine(base)
    case Field(base, _, _) => Level(base) == 8 && WellSpine(base)
    case MethodCall(base, _, _, _, _) => Level(base) == 8 && WellSpine(base)
    case Call(base, _, _) => Level(base) == 8 && WellSpine(base)
    case Index(base, _) => Level(base) == 8 && WellSpine(base)
    case _ => true
  }

  lemma {:induction false} WellHasSpine(t: Tree, noStruct: bool)
    requires Well(t, noStruct)
    ensures WellSpine(t)
    decreases t
  {
    match t {
      case Try(base) => WellHasSpine(base, noStruct);
      case Field(base, _, _) => WellHasSpine(base, noStruct);
      case MethodCall(base, _, _, _, _) => WellHasSpine(base, noStruct);
      case Call(base, _, _) => WellHasSpine(base, noStruct);
      case Index(base, _) => WellHasSpine(base, noStruct);
      case _ =>
    }
  }

  function OrTooDeep<T>(fits: bool, r: Parsed<T>): Parsed<T> {
    if fits then r else Err(BudgetExceeded)
  }

  // ---- one step of the parser ----

  lemma LiteralStep(text: string, rest: seq<Token>, m: Mode)
    ensures ParsePostfix([Literal(text)] + rest, m) == Suffixes(Lit(text), rest, m)
  {
    assert ([Literal(text)] + rest)[1..] == rest;
  }

  lemma PathStep(name: string, rest: seq<Token>, m: Mode)
    requires NoBrace(rest, m)
    ensures ParsePostfix([Word(name)] + rest, m) == Suffixes(Path(name), rest, m)
  {
    assert ([Word(name)] + rest)[1..] == rest;
  }

  lemma ParenStep(inside: seq<Token>, inner: Tree, rest: seq<Token>, m: Mode)
    ensures var r := ParseExpr(inside, m.Open());
            && (r == Ok(inner, [RParen] + rest) ==> ParsePostfix([LParen] + inside, m) == Suffixes(Paren(inner), rest, m))
            && (r.Err? ==> ParsePostfix([LParen] + inside, m) == r)
  {
    hide Infix;
    assert ([LParen] + inside)[1..] == inside;
    assert ([RParen] + rest)[1..] == rest;
  }

  lemma VecStep(inside: seq<Token>, m: Mode)
    ensures hide *; var r := ParseList(inside, RBracket, m);
            ParsePostfix([LBracket] + inside, m) == if r.Err? then Err(r.error) else Suffixes(VecLit(r.value.0, r.value.1), r.rest, m)
  {
    hide Infix;
    assert ([LBracket] + inside)[1..] == inside;
  }

  lemma StructStep(name: string, inside: seq<Token>, m: Mode)
    requires hide *; !m.noStruct
    ensures var r := ParseFields(inside, m);
            ParsePostfix([Word(name)] + ([LBrace] + inside), m) == if r.Err? then Err(r.error) else Suffixes(StructLit(name, r.value.0, r.value.1), r.rest, m)
  {
    var ts := [Word(name)] + ([LBrace] + inside);
    assert ts[1..] == [LBrace] + inside && ts[2..] == inside;
  }

  lemma TryStep(base: Tree, rest: seq<Token>, m: Mode)
    ensures Suffixes(base, [Question] + rest, m) == Suffixes(Try(base), rest, m)
  {
    assert ([Question] + rest)[1..] == rest;
  }

  lemma FieldStep(base: Tree, optional: bool, name: string, rest: seq<Token>, m: Mode)
    requires !At(rest, LParen)
    ensures Suffixes(base, [Dot(optional), Word(name)] + rest, m) == Suffixes(Field(base, optional, name), rest, m)
  {
    assert ([Dot(optional), Word(name)] + rest)[2..] == rest;
  }

  lemma MethodStep(base: Tree, optional: bool, name: string, inside: seq<Token>, m: Mode)
    ensures hide *; var r := ParseList(inside, RParen, m);
            Suffixes(base, [Dot(optional), Word(name)] + ([LParen] + inside), m) ==
            if r.Err? then Err(r.error) else Suffixes(MethodCall(base, optional, name, r.value.0, r.value.1), r.rest, m)
  {
    var ts := [Dot(optional), Word(name)] + ([LParen] + inside);
    assert ts[2..] == [LParen] + inside && ts[3..] == inside;
  }

  lemma CallStep(base: Tree, inside: seq<Token>, m: Mode)
    ensures hide *; var r := ParseList(inside, RParen, m);
            Suffixes(base, [LParen] + inside, m) == if r.Err? then Err(r.error) else Suffixes(Call(base, r.value.0, r.value.1), r.rest, m)
  {
    assert ([LParen] + inside)[1..] == inside;
  }

  lemma IndexStep(base: Tree, inside: seq<Token>, index: Tree, rest: seq<Token>, m: Mode)
    ensures var r := ParseExpr(inside, m.Open());
            && (r == Ok(index, [RBracket] + rest) ==> Suffixes(base, [LBracket] + inside, m) == Suffixes(Index(base, index), rest, m))
            && (r.Err? ==> Suffixes(base, [LBracket] + inside, m) == r)
  {
    assert ([LBracket] + inside)[1..] == inside;
    assert ([RBracket] + rest)[1..] == rest;
  }

  lemma SuffixesEnd(base: Tree, rest: seq<Token>, m: Mode)
    requires NoSuffix(rest)
    ensures Suffixes(base, rest, m) == Ok(base, rest)
  {
  }

  lemma InfixStep(lhs: Tree, op: Token, more: seq<Token>, min: nat, m: Mode)
    requires hide *; InfixPower(op).Some? && InfixPower(op).value >= min
    ensures var r := ParseBin(more, InfixPower(op).value + 1, m);
            Infix(lhs, [op] + more, min, m) == if r.Err? then r else Infix(Join(op, lhs, r.value), r.rest, min, m)
  {
    assert ([op] + more)[1..] == more;
  }

  lemma InfixEnd(lhs: Tree, rest: seq<Token>, min: nat, m: Mode)
    requires hide *; rest != [] && InfixPower(rest[0]).Some? ==> InfixPower(rest[0]).value < min
    ensures Infix(lhs, rest, min, m) == Ok(lhs, rest)
  {
  }

  lemma AssignStep(ts: seq<Token>, target: Tree, op: Option<BinOp>, more: seq<Token>, m: Mode)
    requires hide *; m.depth < m.max && ParseBin(ts, 0, m.Deeper()) == Ok(target, [AssignTok(op)] + more)
    ensures var r := ParseExpr(more, m.Deeper());
            ParseExpr(ts, m) == if r.Err? then r else Ok(Assign(op, target, r.value), r.rest)
  {
    assert ([AssignTok(op)] + more)[1..] == more;
  }

  lemma NoMore(ts: seq<Token>, close: Token, rest: seq<Token>, m: Mode)
    requires ts == [close] + rest
    ensures ParseList(ts, close, m) == Ok(([], false), rest)
  {
  }

  lemma LastElement(ts: seq<Token>, t: Tree, close: Token, rest: seq<Token>, m: Mode)
    requires !At(ts, close) && close != Comma && ParseExpr(ts, m.Open()) == Ok(t, [close] + rest)
    ensures ParseList(ts, close, m) == Ok(([t], false), rest)
  {
    assert ([close] + rest)[1..] == rest;
  }

  lemma NextElement(ts: seq<Token>, t: Tree, more: seq<Token>, close: Token, m: Mode)
    requires hide *; !At(ts, close) && ParseExpr(ts, m.Open()) == Ok(t, [Comma] + more)
    ensures var r := ParseList(more, close, m);
            ParseList(ts, close, m) == if r.Err? then r else Ok(([t] + r.value.0, r.value.0 == [] || r.value.1), r.rest)
  {
    assert ([Comma] + more)[1..] == more;
  }

  lemma FailedElement(ts: seq<Token>, close: Token, m: Mode)
    requires hide *; !At(ts, close) && ts != [] && ParseExpr(ts, m.Open()).Err?
    ensures ParseList(ts, close, m) == Err(ParseExpr(ts, m.Open()).error)
  {
  }

  lemma LastFieldStep(ts: seq<Token>, f: FieldTree, rest: seq<Token>, m: Mode)
    requires !At(ts, RBrace) && ParseField(ts, m) == Ok(f, [RBrace] + rest)
    ensures ParseFields(ts, m) == Ok(([f], false), rest)
  {
    assert ([RBrace] + rest)[1..] == rest;
  }

  lemma NextFieldStep(ts: seq<Token>, f: FieldTree, more: seq<Token>, m: Mode)
    requires hide *; !At(ts, RBrace) && ParseField(ts, m) == Ok(f, [Comma] + more)
    ensures var r := ParseFields(more, m);
            ParseFields(ts, m) == if r.Err? then r else Ok(([f] + r.value.0, r.value.0 == [] || r.value.1), r.rest)
  {
    assert ([Comma] + more)[1..] == more;
  }

  // ---- every well-formed tree is parsed ----

  lemma {:induction false} ParsesPostfix(t: Tree, rest: seq<Token>, m: Mode)
    requires Well(t, m.noStruct) && Level(t) == 8 && NoBrace(rest, m) && (t.Field? ==> !At(rest, LParen)) && m.depth <= m.max
    ensures ParsePostfix(Yield(t) + rest, m) == OrTooDeep(Fits(m, NeedPostfix(t)), Suffixes(t, rest, m))
    decreases t, 1
  {
    hide ParsePostfix, Suffixes, NeedExpr, NeedList, NeedFields;
    match t {
      case Lit(text) => LiteralStep(text, rest, m);
      case Path(name) => PathStep(name, rest, m);
      case Try(base) =>
        ParsesPostfix(base, [Question] + rest, m);
        assert Yield(t) + rest == Yield(base) + ([Question] + rest);
        TryStep(base, rest, m);
      case Field(base, optional, name) =>
        var more := [Dot(optional), Word(name)] + rest;
        ParsesPostfix(base, more, m);
        assert Yield(t) + rest == Yield(base) + more;
        FieldStep(base, optional, name, rest, m);
      case Paren(_) => ParsesParen(t, rest, m);
      case VecLit(_, _) => ParsesVec(t, rest, m);
      case StructLit(_, _, _) => ParsesStruct(t, rest, m);
      case MethodCall(_, _, _, _, _) => ParsesMethodCall(t, rest, m);
      case Call(_, _, _) => ParsesCall(t, rest, m);
      case Index(_, _) => ParsesIndex(t, rest, m);
    }
  }

  /** What follows the first delimiter of a tree. */
  function Inside(t: Tree, rest: seq<Token>): seq<Token>
    requires t.Paren? || t.VecLit? || t.StructLit? || t.MethodCall? || t.Call? || t.Index?
  {
    match t
    case Paren(inner) => Yield(inner) + ([RParen] + rest)
    case VecLit(elements, trailing) => ListYield(elements) + (Ending(trailing) + ([RBracket] + rest))
    case StructLit(_, fields, trailing) => FieldsYield(fields) + (Ending(trailing) + ([RBrace] + rest))
    case Index(_, index) => Yield(index) + ([RBracket] + rest)
    case _ => ListYield(t.args) + (Ending(t.trailing) + ([RParen] + rest))
  }

  lemma Assoc(x: seq<Token>, y: seq<Token>, z: seq<Token>)
    ensures (x + y) + z == x + (y + z)
  {
  }

  lemma DelimitedYield(t: Tree, rest: seq<Token>)
    requires t.Paren? || t.VecLit? || t.StructLit?
    ensures Yield(t) + rest == (if t.Paren? then [LParen] + Inside(t, rest) else if t.VecLit? then [LBracket] + Inside(t, rest)
                                else [Word(t.name)] + ([LBrace] + Inside(t, rest)))
  {
    hide ListYield, FieldsYield, Ending;
    match t {
      case Paren(inner) =>
        Assoc([LParen], Yield(inner) + [RParen], rest);
        Assoc(Yield(inner), [RParen], rest);
      case VecLit(elements, trailing) =>
        Assoc([LBracket], ListYield(elements) + (Ending(trailing) + [RBracket]), rest);
        ListRest(ListYield(elements), trailing, RBracket, rest);
      case StructLit(name, fields, trailing) =>
        var body := FieldsYield(fields) + (Ending(trailing) + [RBrace]);
        Assoc([Word(name)], [LBrace] + body, rest);
        Assoc([LBrace], body, rest);
        ListRest(FieldsYield(fields), trailing, RBrace, rest);
    }
  }

  lemma ListRest(list: seq<Token>, trailing: bool, close: Token, rest: seq<Token>)
    ensures (list + (Ending(trailing) + [close])) + rest == list + (Ending(trailing) + ([close] + rest))
  {
    hide Ending;
    Assoc(list, Ending(trailing) + [close], rest);
    Assoc(Ending(trailing), [close], rest);
  }

  lemma AppliedYield(t: Tree, rest: seq<Token>)
    requires t.MethodCall? || t.Call? || t.Index?
    ensures Yield(t) + rest == Yield(t.base) + (if t.Index? then [LBracket] + Inside(t, rest) else if t.Call? then [LParen] + Inside(t, rest)
                                                else [Dot(t.optional), Word(t.name)] + ([LParen] + Inside(t, rest)))
  {
    hide ListYield, Ending;
    match t {
      case Index(base, index) =>
        Assoc(Yield(base), [LBracket] + (Yield(index) + [RBracket]), rest);
        Assoc([LBracket], Yield(index) + [RBracket], rest);
        Assoc(Yield(index), [RBracket], rest);
      case Call(base, args, trailing) =>
        var body := ListYield(args) + (Ending(trailing) + [RParen]);
        Assoc(Yield(base), [LParen] + body, rest);
        Assoc([LParen], body, rest);
        ListRest(ListYield(args), trailing, RParen, rest);
      case MethodCall(base, optional, name, args, trailing) =>
        var body := ListYield(args) + (Ending(trailing) + [RParen]);
        var dot := [Dot(optional), Word(name)];
        Assoc(Yield(base), dot + ([LParen] + body), rest);
        Assoc(dot, [LParen] + body, rest);
        Assoc([LParen], body, rest);
        ListRest(ListYield(args), trailing, RParen, rest);
    }
  }

  lemma {:induction false} ParsesParen(t: Tree, rest: seq<Token>, m: Mode)
    requires t.Paren? && Well(t, m.noStruct) && m.depth <= m.max
    ensures ParsePostfix(Yield(t) + rest, m) == OrTooDeep(Fits(m, NeedPostfix(t)), Suffixes(t, rest, m))
    decreases t, 0
  {
    hide ParsePostfix, Suffixes, ParseExpr, NeedExpr, NeedList, NeedFields, ListYield, FieldsYield, Yield;
    ParsesExpr(t.inner, [RParen] + rest, m.Open());
    DelimitedYield(t, rest);
    ParenStep(Inside(t, rest), t.inner, rest, m);
  }

  lemma {:induction false} ParsesVec(t: Tree, rest: seq<Token>, m: Mode)
    requires t.VecLit? && Well(t, m.noStruct) && m.depth <= m.max
    ensures ParsePostfix(Yield(t) + rest, m) == OrTooDeep(Fits(m, NeedPostfix(t)), Suffixes(t, rest, m))
    decreases t, 0
  {
    hide ParsePostfix, Suffixes, ParseList, NeedExpr, NeedList, NeedFields, ListYield, FieldsYield, Yield;
    ParsesList(t.elements, t.trailing, RBracket, rest, m);
    DelimitedYield(t, rest);
    VecStep(Inside(t, rest), m);
  }

  lemma {:induction false} ParsesStruct(t: Tree, rest: seq<Token>, m: Mode)
    requires t.StructLit? && Well(t, m.noStruct) && m.depth <= m.max
    ensures ParsePostfix(Yield(t) + rest, m) == OrTooDeep(Fits(m, NeedPostfix(t)), Suffixes(t, rest, m))
    decreases t, 0
  {
    hide ParsePostfix, Suffixes, ParseFields, NeedExpr, NeedList, NeedFields, ListYield, FieldsYield, Yield;
    ParsesFields(t.fields, t.trailing, rest, m);
    DelimitedYield(t, rest);
    StructStep(t.name, Inside(t, rest), m);
  }

  lemma {:induction false} ParsesMethodCall(t: Tree, rest: seq<Token>, m: Mode)
    requires t.MethodCall? && Well(t, m.noStruct) && m.depth <= m.max
    ensures ParsePostfix(Yield(t) + rest, m) == OrTooDeep(Fits(m, NeedPostfix(t)), Suffixes(t, rest, m))
    decreases t, 0
  {
    hide ParsePostfix, Suffixes, ParseList, NeedExpr, NeedList, NeedFields, ListYield, FieldsYield, Yield;
    var more := [LParen] + Inside(t, rest);
    ParsesPostfix(t.base, [Dot(t.optional), Word(t.name)] + more, m);
    ParsesList(t.args, t.trailing, RParen, rest, m);
    AppliedYield(t, rest);
    MethodStep(t.base, t.optional, t.name, Inside(t, rest), m);
  }

  lemma {:induction false} ParsesCall(t: Tree, rest: seq<Token>, m: Mode)
    requires t.Call? && Well(t, m.noStruct) && m.depth <= m.max
    ensures ParsePostfix(Yield(t) + rest, m) == OrTooDeep(Fits(m, NeedPostfix(t)), Suffixes(t, rest, m))
    decreases t, 0
  {
    hide ParsePostfix, Suffixes, ParseList, NeedExpr, NeedList, NeedFields, ListYield, FieldsYield, Yield;
    ParsesPostfix(t.base, [LParen] + Inside(t, rest), m);
    ParsesList(t.args, t.trailing, RParen, rest, m);
    AppliedYield(t, rest);
    CallStep(t.base, Inside(t, rest), m);
  }

  lemma {:induction false} ParsesIndex(t: Tree, rest: seq<Token>, m: Mode)
    requires t.Index? && Well(t, m.noStruct) && m.depth <= m.max
    ensures ParsePostfix(Yield(t) + rest, m) == OrTooDeep(Fits(m, NeedPostfix(t)), Suffixes(t, rest, m))
    decreases t, 0
  {
    hide ParsePostfix, Suffixes, ParseExpr, NeedExpr, NeedList, NeedFields, ListYield, FieldsYield, Yield;
    ParsesPostfix(t.base, [LBracket] + Inside(t, rest), m);
    ParsesExpr(t.index, [RBracket] + rest, m.Open());
    AppliedYield(t, rest);
    IndexStep(t.base, Inside(t, rest), t.index, rest, m);
  }

  lemma PrefixStep(op: UnOp, more: seq<Token>, m: Mode)
    requires hide *; m.depth < m.max
    ensures var r := ParseUnary(more, m.Deeper());
            ParseUnary([UnaryToken(op)] + more, m) == if r.Err? then r else Ok(Unary(op, r.value), r.rest)
  {
    assert ([UnaryToken(op)] + more)[1..] == more;
  }

  lemma NoPrefix(ts: seq<Token>, m: Mode)
    requires m.depth < m.max && !At(ts, OpTok(Sub)) && !At(ts, Bang)
    ensures ParseUnary(ts, m) == ParsePostfix(ts, m.Deeper())
  {
  }

  lemma TooDeep(ts: seq<Token>, min: nat, m: Mode)
    requires m.depth >= m.max
    ensures ParseUnary(ts, m) == Err(BudgetExceeded) && ParseBin(ts, min, m) == Err(BudgetExceeded)
  {
  }

  lemma {:induction false} ParsesUnary(t: Tree, rest: seq<Token>, m: Mode)
    requires Well(t, m.noStruct) && Level(t) >= 7 && NoSuffix(rest) && NoBrace(rest, m)
    ensures ParseUnary(Yield(t) + rest, m) == OrTooDeep(Fits(m, NeedUnary(t)), Ok(t, rest))
    decreases t, 2
  {
    hide ParseUnary, ParsePostfix, Suffixes, NeedPostfix, FieldsYield, ListYield;
    if m.depth >= m.max {
      TooDeep(Yield(t) + rest, 0, m);
    } else if t.Unary? {
      ParsesUnary(t.operand, rest, m.Deeper());
      Assoc([UnaryToken(t.uop)], Yield(t.operand), rest);
      PrefixStep(t.uop, Yield(t.operand) + rest, m);
    } else {
      hide Yield;
      WellHasSpine(t, m.noStruct);
      FirstToken(t);
      assert (Yield(t) + rest)[0] == Yield(t)[0];
      NoPrefix(Yield(t) + rest, m);
      ParsesPostfix(t, rest, m.Deeper());
      SuffixesEnd(t, rest, m.Deeper());
    }
  }

  lemma {:induction false} ParsesBin(t: Tree, rest: seq<Token>, min: nat, m: Mode)
    requires Well(t, m.noStruct) && Level(t) >= min && Stops(t, rest, m)
    ensures ParseBin(Yield(t) + rest, min, m) == OrTooDeep(Fits(m, NeedBin(t)), Infix(t, rest, min, m.Deeper()))
    decreases t, 4
  {
    hide Infix, ParseUnary, NeedUnary, Yield;
    if t.Binary? || t.Range? {
      ParsesInfix(t, rest, min, m);
    } else {
      ParsesUnary(t, rest, m.Deeper());
    }
  }

  function Operator(t: Tree): Token
    requires t.Binary? || t.Range?
  {
    if t.Binary? then OpTok(t.op) else DotDot(t.inclusive)
  }

  lemma InfixYield(t: Tree, rest: seq<Token>)
    requires t.Binary? || t.Range?
    ensures Yield(t) + rest == Yield(t.lhs) + ([Operator(t)] + (Yield(t.rhs) + rest))
  {
    var all := [Operator(t)] + (Yield(t.rhs) + rest);
    assert Yield(t) + rest == Yield(t.lhs) + all;
  }

  lemma {:induction false} ParsesInfix(t: Tree, rest: seq<Token>, min: nat, m: Mode)
    requires (t.Binary? || t.Range?) && Well(t, m.noStruct) && Level(t) >= min && Stops(t, rest, m)
    ensures ParseBin(Yield(t) + rest, min, m) == OrTooDeep(Fits(m, NeedBin(t)), Infix(t, rest, min, m.Deeper()))
    decreases t, 3
  {
    hide Infix, ParseBin, Yield;
    var op, more := Operator(t), Yield(t.rhs) + rest;
    var p := InfixPower(op).value;
    InfixYield(t, rest);
    assert Stops(t.lhs, [op] + more, m);
    ParsesBin(t.lhs, [op] + more, min, m);
    ParsesBin(t.rhs, rest, p + 1, m.Deeper());
    InfixStep(t.lhs, op, more, min, m.Deeper());
    InfixEnd(t.rhs, rest, p + 1, m.Deeper().Deeper());
  }

  lemma {:induction false} ParsesExpr(t: Tree, rest: seq<Token>, m: Mode)
    requires Well(t, m.noStruct) && Ended(rest) && NoBrace(rest, m)
    ensures ParseExpr(Yield(t) + rest, m) == OrTooDeep(Fits(m, NeedExpr(t)), Ok(t, rest))
    decreases t, 5
  {
    hide Infix, ParseBin, NeedBin;
    if t.Assign? {
      var more := Yield(t.value) + rest;
      assert Yield(t) + rest == Yield(t.target) + ([AssignTok(t.op_)] + more);
      ParsesBin(t.target, [AssignTok(t.op_)] + more, 0, m.Deeper());
      InfixEnd(t.target, [AssignTok(t.op_)] + more, 0, m.Deeper().Deeper());
      ParsesExpr(t.value, rest, m.Deeper());
      if Fits(m, 1 + NeedBin(t.target)) {
        AssignStep(Yield(t) + rest, t.target, t.op_, more, m);
      }
    } else {
      ParsesBin(t, rest, 0, m.Deeper());
      InfixEnd(t, rest, 0, m.Deeper().Deeper());
    }
  }

  lemma {:induction false} ParsesList(ts: seq<Tree>, trailing: bool, close: Token, rest: seq<Token>, m: Mode)
    requires AllWell(ts) && (trailing ==> ts != []) && (close == RParen || close == RBracket) && m.depth <= m.max
    ensures ParseList(ListYield(ts) + (Ending(trailing) + ([close] + rest)), close, m) == OrTooDeep(Fits(m, NeedList(ts)), Ok((ts, trailing), rest))
    decreases ts, 6
  {
    hide ParseExpr, ParseList, NeedExpr, Yield;
    var tail := Ending(trailing) + ([close] + rest);
    var all := ListYield(ts) + tail;
    if ts == [] {
      assert all == [close] + rest;
      NoMore(all, close, rest, m);
    } else {
      FirstToken(ts[0]);
      var more := if |ts| == 1 then [close] + rest else ListYield(ts[1..]) + tail;
      var after := if |ts| == 1 && !trailing then [close] + rest else [Comma] + more;
      assert all == Yield(ts[0]) + after;
      assert all[0] == Yield(ts[0])[0];
      ParsesExpr(ts[0], after, m.Open());
      assert [ts[0]] + ts[1..] == ts;
      if !Fits(m, NeedExpr(ts[0])) {
        FailedElement(all, close, m);
      } else if |ts| == 1 && !trailing {
        assert ts[1..] == [] && [ts[0]] == ts;
        LastElement(all, ts[0], close, rest, m);
      } else {
        NextElement(all, ts[0], more, close, m);
        if |ts| == 1 {
          assert ts[1..] == [];
          NoMore(more, close, rest, m);
        } else {
          ParsesList(ts[1..], trailing, close, rest, m);
        }
      }
    }
  }

  lemma {:induction false} ParsesField(f: FieldTree, rest: seq<Token>, m: Mode)
    requires WellField(f) && Ended(rest) && !At(rest, LBrace) && !At(rest, Colon) && m.depth <= m.max
    ensures ParseField(FieldYield(f) + rest, m) == OrTooDeep(Fits(m, NeedField(f)), Ok(f, rest))
    decreases f, 6
  {
    hide ParseExpr, NeedExpr, Yield, Well;
    var ts := FieldYield(f) + rest;
    if f.value.Some? {
      ParsesExpr(f.value.value, rest, m.Open());
      assert ts[2..] == Yield(f.value.value) + rest;
    } else {
      assert ts[1..] == rest;
    }
  }

  lemma {:induction false} ParsesFields(fs: seq<FieldTree>, trailing: bool, rest: seq<Token>, m: Mode)
    requires AllWellFields(fs) && (trailing ==> fs != []) && m.depth <= m.max
    ensures ParseFields(FieldsYield(fs) + (Ending(trailing) + ([RBrace] + rest)), m) == OrTooDeep(Fits(m, NeedFields(fs)), Ok((fs, trailing), rest))
    decreases fs, 7
  {
    hide ParseField, ParseFields, NeedField, FieldYield, Well;
    var tail := Ending(trailing) + ([RBrace] + rest);
    var all := FieldsYield(fs) + tail;
    if fs == [] {
      assert all == [RBrace] + rest;
      NoMoreFields(all, rest, m);
    } else {
      FieldBegins(fs[0]);
      var more := if |fs| == 1 then [RBrace] + rest else FieldsYield(fs[1..]) + tail;
      var after := if |fs| == 1 && !trailing then [RBrace] + rest else [Comma] + more;
      assert all == FieldYield(fs[0]) + after;
      assert all[0] == FieldYield(fs[0])[0];
      ParsesField(fs[0], after, m);
      assert [fs[0]] + fs[1..] == fs;
      if !Fits(m, NeedField(fs[0])) {
        FailedField(all, m);
      } else if |fs| == 1 && !trailing {
        assert fs[1..] == [] && [fs[0]] == fs;
        LastFieldStep(all, fs[0], rest, m);
      } else {
        NextFieldStep(all, fs[0], more, m);
        if |fs| == 1 {
          assert fs[1..] == [];
          NoMoreFields(more, rest, m);
        } else {
          ParsesFields(fs[1..], trailing, rest, m);
        }
      }
    }
  }

  lemma FieldBegins(f: FieldTree)
    ensures FieldYield(f) != [] && FieldYield(f)[0] == Word(f.name)
  {
  }

  lemma NoMoreFields(ts: seq<Token>, rest: seq<Token>, m: Mode)
    requires ts == [RBrace] + rest
    ensures ParseFields(ts, m) == Ok(([], false), rest)
  {
  }

  lemma FailedField(ts: seq<Token>, m: Mode)
    requires hide *; !At(ts, RBrace) && ParseField(ts, m).Err?
    ensures ParseFields(ts, m) == Err(ParseField(ts, m).error)
  {
  }

  // ---- what is parsed is a well-formed tree of the tokens consumed ----

  ghost predicate Sound(ts: seq<Token>, r: Parsed<Tree>, m: Mode, level: int) {
    hide *;
    r.Ok? ==> ts == Yield(r.value) + r.rest && Well(r.value, m.noStruct) && Level(r.value) >= level && NoSuffix(r.rest)
  }

  /** The next token is no infix operator as tight as min. */
  predicate Looser(rest: seq<Token>, min: nat) {
    rest != [] && InfixPower(rest[0]).Some? ==> InfixPower(rest[0]).value < min
  }

  lemma {:induction false} ExprSound(ts: seq<Token>, m: Mode)
    ensures hide *; var r := ParseExpr(ts, m); Sound(ts, r, m, -1) && (r.Ok? ==> Ended(r.rest))
    decreases |ts|, 5
  {
    hide ParseBin, Well, Yield;
    if m.depth < m.max {
      BinSound(ts, 0, m.Deeper());
      var lhs := ParseBin(ts, 0, m.Deeper());
      if lhs.Ok? && lhs.rest != [] && lhs.rest[0].AssignTok? {
        ExprSound(lhs.rest[1..], m.Deeper());
        var value := ParseExpr(lhs.rest[1..], m.Deeper());
        if value.Ok? {
          var op := lhs.rest[0].op_;
          assert lhs.rest == [AssignTok(op)] + lhs.rest[1..];
          AssignSound(op, lhs.value, value.value, m, value.rest);
        }
      }
    }
  }

  lemma AssignSound(op: Option<BinOp>, target: Tree, value: Tree, m: Mode, rest: seq<Token>)
    requires Well(target, m.noStruct) && Level(target) >= 0 && Well(value, m.noStruct)
    ensures Well(Assign(op, target, value), m.noStruct)
    ensures Yield(Assign(op, target, value)) + rest == Yield(target) + ([AssignTok(op)] + (Yield(value) + rest))
  {
    Assoc(Yield(target), [AssignTok(op)] + Yield(value), rest);
    Assoc([AssignTok(op)], Yield(value), rest);
  }

  lemma {:induction false} BinSound(ts: seq<Token>, min: nat, m: Mode)
    requires hide *; min <= 7
    ensures var r := ParseBin(ts, min, m); Sound(ts, r, m, min) && (r.Ok? ==> Looser(r.rest, min))
    decreases |ts|, 4
  {
    hide ParseUnary, Infix, Well, Yield;
    if m.depth < m.max {
      UnarySound(ts, m.Deeper());
      var lhs := ParseUnary(ts, m.Deeper());
      if lhs.Ok? {
        InfixSound(lhs.value, lhs.rest, min, m.Deeper());
      }
    }
  }

  lemma {:induction false} InfixSound(lhs: Tree, ts: seq<Token>, min: nat, m: Mode)
    requires hide *; Well(lhs, m.noStruct) && Level(lhs) >= min && NoSuffix(ts) && min <= 7
    requires ts != [] && InfixPower(ts[0]).Some? ==> InfixPower(ts[0]).value <= Level(lhs)
    ensures var r := Infix(lhs, ts, min, m); Sound(Yield(lhs) + ts, r, m, min) && (r.Ok? ==> Looser(r.rest, min))
    decreases |ts|, 3
  {
    hide ParseBin, Well, Yield;
    if ts != [] && InfixPower(ts[0]).Some? && InfixPower(ts[0]).value >= min {
      var p := InfixPower(ts[0]).value;
      BinSound(ts[1..], p + 1, m);
      var rhs := ParseBin(ts[1..], p + 1, m);
      if rhs.Ok? {
        assert ts == [ts[0]] + ts[1..];
        JoinSound(ts[0], lhs, rhs.value, m, rhs.rest);
        InfixSound(Join(ts[0], lhs, rhs.value), rhs.rest, min, m);
      }
    }
  }

  lemma JoinSound(op: Token, lhs: Tree, rhs: Tree, m: Mode, rest: seq<Token>)
    requires InfixPower(op).Some? && Well(lhs, m.noStruct) && Well(rhs, m.noStruct)
    requires Level(lhs) >= InfixPower(op).value && Level(rhs) > InfixPower(op).value
    ensures Well(Join(op, lhs, rhs), m.noStruct) && Level(Join(op, lhs, rhs)) == InfixPower(op).value
    ensures Yield(Join(op, lhs, rhs)) + rest == Yield(lhs) + ([op] + (Yield(rhs) + rest))
  {
    hide Yield;
    InfixYield(Join(op, lhs, rhs), rest);
  }

  lemma UnaryWell(op: UnOp, operand: Tree, m: Mode, rest: seq<Token>)
    requires Well(operand, m.noStruct) && Level(operand) >= 7
    ensures Well(Unary(op, operand), m.noStruct) && Yield(Unary(op, operand)) + rest == [UnaryToken(op)] + (Yield(operand) + rest)
  {
    Assoc([UnaryToken(op)], Yield(operand), rest);
  }

  lemma {:induction false} UnarySound(ts: seq<Token>, m: Mode)
    ensures Sound(ts, ParseUnary(ts, m), m, 7)
    decreases |ts|, 2
  {
    hide ParsePostfix, Well, Yield;
    if m.depth < m.max {
      if At(ts, OpTok(Sub)) || At(ts, Bang) {
        UnarySound(ts[1..], m.Deeper());
        assert ts == [ts[0]] + ts[1..];
        var operand := ParseUnary(ts[1..], m.Deeper());
        if operand.Ok? {
          UnaryWell(if ts[0] == Bang then Not else Neg, operand.value, m, operand.rest);
        }
      } else {
        PostfixSound(ts, m.Deeper());
      }
    }
  }

  lemma {:induction false} PostfixSound(ts: seq<Token>, m: Mode)
    ensures Sound(ts, ParsePostfix(ts, m), m, 8)
    decreases |ts|, 1
  {
    hide ParsePrimary, Suffixes, Well, Yield;
    PrimarySound(ts, m);
    var base := ParsePrimary(ts, m);
    if base.Ok? {
      SuffixesSound(base.value, base.rest, m);
    }
  }

  lemma {:induction false} SuffixesSound(base: Tree, ts: seq<Token>, m: Mode)
    requires Well(base, m.noStruct) && Level(base) == 8 && (base.Field? ==> !At(ts, LParen))
    ensures Sound(Yield(base) + ts, Suffixes(base, ts, m), m, 8)
    decreases |ts|, 0
  {
    hide ParseExpr, ParseList, Well, Yield;
    if ts != [] {
      match ts[0] {
        case LParen => CallSound(base, ts, m);
        case Dot(_) => DotSound(base, ts, m);
        case Question =>
          TryWell(base, m, ts[1..]);
          assert ts == [Question] + ts[1..];
          SuffixesSound(Try(base), ts[1..], m);
        case LBracket => IndexSound(base, ts, m);
        case _ =>
      }
    }
  }

  lemma TryWell(base: Tree, m: Mode, rest: seq<Token>)
    requires Well(base, m.noStruct) && Level(base) == 8
    ensures Well(Try(base), m.noStruct) && Yield(Try(base)) + rest == Yield(base) + ([Question] + rest)
  {
    Assoc(Yield(base), [Question], rest);
  }

  lemma {:induction false} CallSound(base: Tree, ts: seq<Token>, m: Mode)
    requires Well(base, m.noStruct) && Level(base) == 8 && !base.Field? && At(ts, LParen)
    ensures Sound(Yield(base) + ts, Suffixes(base, ts, m), m, 8)
    decreases |ts| - 1, 9
  {
    hide ParseExpr, ParseList, Well, Yield;
    var args := ParseList(ts[1..], RParen, m);
    ListSound(ts[1..], RParen, m);
    if args.Ok? {
      var t := Call(base, args.value.0, args.value.1);
      assert ts == [LParen] + ts[1..];
      AppliedYield(t, args.rest);
      CallWell(base, args.value.0, args.value.1, m);
      SuffixesSound(t, args.rest, m);
    }
  }

  lemma CallWell(base: Tree, args: seq<Tree>, trailing: bool, m: Mode)
    requires Well(base, m.noStruct) && Level(base) == 8 && AllWell(args) && (trailing ==> args != [])
    ensures !base.Field? ==> Well(Call(base, args, trailing), m.noStruct)
    ensures forall optional, name :: Well(MethodCall(base, optional, name, args, trailing), m.noStruct)
  {
  }

  lemma {:induction false} DotSound(base: Tree, ts: seq<Token>, m: Mode)
    requires hide *; Well(base, m.noStruct) && Level(base) == 8 && ts != [] && ts[0].Dot?
    ensures Sound(Yield(base) + ts, Suffixes(base, ts, m), m, 8)
    decreases |ts| - 1, 9
  {
    hide ParseExpr, ParseList, Well, Yield;
    if |ts| >= 2 && ts[1].Word? {
      var optional, name := ts[0].optional, ts[1].text;
      assert ts == [Dot(optional), Word(name)] + ts[2..];
      if At(ts[2..], LParen) {
        var args := ParseList(ts[3..], RParen, m);
        ListSound(ts[3..], RParen, m);
        if args.Ok? {
          var t := MethodCall(base, optional, name, args.value.0, args.value.1);
          assert ts[2..] == [LParen] + ts[3..];
          AppliedYield(t, args.rest);
          CallWell(base, args.value.0, args.value.1, m);
          SuffixesSound(t, args.rest, m);
        }
      } else {
        FieldWell(base, optional, name, m, ts[2..]);
        SuffixesSound(Field(base, optional, name), ts[2..], m);
      }
    }
  }

  lemma FieldWell(base: Tree, optional: bool, name: string, m: Mode, rest: seq<Token>)
    requires Well(base, m.noStruct) && Level(base) == 8
    ensures var t := Field(base, optional, name);
            Well(t, m.noStruct) && Yield(t) + rest == Yield(base) + ([Dot(optional), Word(name)] + rest)
  {
    Assoc(Yield(base), [Dot(optional), Word(name)], rest);
  }

  lemma {:induction false} IndexSound(base: Tree, ts: seq<Token>, m: Mode)
    requires Well(base, m.noStruct) && Level(base) == 8 && At(ts, LBracket)
    ensures Sound(Yield(base) + ts, Suffixes(base, ts, m), m, 8)
    decreases |ts| - 1, 9
  {
    hide ParseExpr, ParseList, Well, Yield;
    var index := ParseExpr(ts[1..], m.Open());
    ExprSound(ts[1..], m.Open());
    if index.Ok? && At(index.rest, RBracket) {
      var t := Index(base, index.value);
      assert ts == [LBracket] + ts[1..];
      assert index.rest == [RBracket] + index.rest[1..];
      AppliedYield(t, index.rest[1..]);
      IndexWell(base, index.value, m);
      SuffixesSound(t, index.rest[1..], m);
    }
  }

  lemma IndexWell(base: Tree, index: Tree, m: Mode)
    requires Well(base, m.noStruct) && Level(base) == 8 && Well(index, false)
    ensures Well(Index(base, index), m.noStruct)
  {
  }

  ghost predicate PrimaryIsSound(ts: seq<Token>, m: Mode) {
    hide *;
    var r := ParsePrimary(ts, m);
    r.Ok? ==> ts == Yield(r.value) + r.rest && Well(r.value, m.noStruct) && Level(r.value) == 8 && !r.value.Field?
  }

  lemma {:induction false} PrimarySound(ts: seq<Token>, m: Mode)
    ensures PrimaryIsSound(ts, m)
    decreases |ts|, 0
  {
    hide ParsePrimary, PrimaryIsSound;
    if At(ts, LParen) {
      ParenSound(ts, m);
    } else if At(ts, LBracket) {
      VecSound(ts, m);
    } else if ts != [] && ts[0].Word? && !m.noStruct && At(ts[1..], LBrace) {
      StructSound(ts, m);
    } else {
      AtomSound(ts, m);
    }
  }

  lemma AtomSound(ts: seq<Token>, m: Mode)
    requires hide *; !At(ts, LParen) && !At(ts, LBracket) && !(ts != [] && ts[0].Word? && !m.noStruct && At(ts[1..], LBrace))
    ensures PrimaryIsSound(ts, m)
  {
    if ts != [] {
      assert ts == [ts[0]] + ts[1..];
    }
  }

  lemma {:induction false} StructSound(ts: seq<Token>, m: Mode)
    requires ts != [] && ts[0].Word? && !m.noStruct && At(ts[1..], LBrace)
    ensures PrimaryIsSound(ts, m)
    decreases |ts| - 1, 9
  {
    hide ParseFields, FieldsYield, Yield;
    FieldsSound(ts[2..], m);
    var fields := ParseFields(ts[2..], m);
    if fields.Ok? {
      assert ts == [ts[0]] + ([LBrace] + ts[2..]);
      DelimitedYield(StructLit(ts[0].text, fields.value.0, fields.value.1), fields.rest);
    }
  }

  lemma {:induction false} ParenSound(ts: seq<Token>, m: Mode)
    requires At(ts, LParen)
    ensures PrimaryIsSound(ts, m)
    decreases |ts| - 1, 9
  {
    hide ParseExpr, Yield, ParseFields;
    assert ts == [LParen] + ts[1..];
    ExprSound(ts[1..], m.Open());
    var inner := ParseExpr(ts[1..], m.Open());
    if inner.Ok? && At(inner.rest, RParen) {
      assert inner.rest == [RParen] + inner.rest[1..];
      DelimitedYield(Paren(inner.value), inner.rest[1..]);
    }
  }

  lemma {:induction false} VecSound(ts: seq<Token>, m: Mode)
    requires At(ts, LBracket)
    ensures PrimaryIsSound(ts, m)
    decreases |ts| - 1, 9
  {
    hide ParseList, ListYield, Yield;
    assert ts == [LBracket] + ts[1..];
    ListSound(ts[1..], RBracket, m);
    var elements := ParseList(ts[1..], RBracket, m);
    if elements.Ok? {
      DelimitedYield(VecLit(elements.value.0, elements.value.1), elements.rest);
    }
  }

  lemma {:induction false} ListSound(ts: seq<Token>, close: Token, m: Mode)
    ensures var r := ParseList(ts, close, m);
            r.Ok? ==> && ts == ListYield(r.value.0) + (Ending(r.value.1) + ([close] + r.rest))
                      && AllWell(r.value.0) && (r.value.1 ==> r.value.0 != [])
    decreases |ts|, 6
  {
    hide ParseExpr, Yield, Well;
    if At(ts, close) {
      assert ts == [close] + ts[1..];
      EmptyList([close] + ts[1..]);
    } else {
      ExprSound(ts, m.Open());
      var first := ParseExpr(ts, m.Open());
      if first.Ok? && At(first.rest, Comma) {
        assert first.rest == [Comma] + first.rest[1..];
        ListSound(first.rest[1..], close, m);
        var more := ParseList(first.rest[1..], close, m);
        if more.Ok? {
          ConsYield(first.value, more.value.0, more.value.1, close, more.rest);
          AllWellCons(first.value, more.value.0);
        }
      } else if first.Ok? && At(first.rest, close) {
        assert first.rest == [close] + first.rest[1..];
        AllWellCons(first.value, []);
        EmptyList([close] + first.rest[1..]);
        OneYield(first.value);
      }
    }
  }

  lemma EmptyList(rest: seq<Token>)
    ensures ListYield([]) + (Ending(false) + rest) == rest && FieldsYield([]) + (Ending(false) + rest) == rest && Ending(false) + rest == rest
    ensures AllWell([]) && AllWellFields([])
  {
  }

  lemma OneYield(t: Tree)
    ensures ListYield([t]) == Yield(t)
  {
  }

  lemma AllWellCons(t: Tree, ts: seq<Tree>)
    requires Well(t, false) && AllWell(ts)
    ensures AllWell([t] + ts) && ([] + [t] == [t]) && ([t] + [] == [t])
  {
    assert ([t] + ts)[1..] == ts;
  }

  /** One more element before a list. */
  lemma ConsYield(t: Tree, ts: seq<Tree>, trailing: bool, close: Token, rest: seq<Token>)
    requires trailing ==> ts != []
    ensures Yield(t) + ([Comma] + (ListYield(ts) + (Ending(trailing) + ([close] + rest))))
         == ListYield([t] + ts) + (Ending(ts == [] || trailing) + ([close] + rest))
  {
    var tail := Ending(trailing) + ([close] + rest);
    assert ([t] + ts)[1..] == ts && ([t] + ts)[0] == t;
    if ts == [] {
      assert [t] + ts == [t];
      OneYield(t);
      EmptyList([close] + rest);
    } else {
      assert ListYield([t] + ts) == Yield(t) + ([Comma] + ListYield(ts));
      Assoc(Yield(t), [Comma] + ListYield(ts), tail);
      Assoc([Comma], ListYield(ts), tail);
    }
  }

  lemma {:induction false} FieldSound(ts: seq<Token>, m: Mode)
    ensures hide *; var r := ParseField(ts, m); r.Ok? ==> ts == FieldYield(r.value) + r.rest && WellField(r.value)
    decreases |ts|, 6
  {
    hide ParseExpr, Yield, Well;
    if ts != [] && ts[0].Word? {
      assert ts == [ts[0]] + ts[1..];
      if At(ts[1..], Colon) {
        assert ts[1..] == [Colon] + ts[2..];
        ExprSound(ts[2..], m.Open());
      }
    }
  }

  lemma {:induction false} FieldsSound(ts: seq<Token>, m: Mode)
    ensures hide *; var r := ParseFields(ts, m);
            r.Ok? ==> && ts == FieldsYield(r.value.0) + (Ending(r.value.1) + ([RBrace] + r.rest))
                      && AllWellFields(r.value.0) && (r.value.1 ==> r.value.0 != [])
    decreases |ts|, 7
  {
    hide ParseField, FieldYield, WellField;
    if At(ts, RBrace) {
      assert ts == [RBrace] + ts[1..];
      EmptyList([RBrace] + ts[1..]);
    } else {
      FieldSound(ts, m);
      var first := ParseField(ts, m);
      if first.Ok? && At(first.rest, Comma) {
        assert first.rest == [Comma] + first.rest[1..];
        FieldsSound(first.rest[1..], m);
        var more := ParseFields(first.rest[1..], m);
        if more.Ok? {
          ConsFieldsYield(first.value, more.value.0, more.value.1, more.rest);
          AllWellFieldsCons(first.value, more.value.0);
        }
      } else if first.Ok? && At(first.rest, RBrace) {
        assert first.rest == [RBrace] + first.rest[1..];
        AllWellFieldsCons(first.value, []);
        EmptyList([RBrace] + first.rest[1..]);
        OneFieldYield(first.value);
      }
    }
  }

  lemma OneFieldYield(f: FieldTree)
    ensures FieldsYield([f]) == FieldYield(f)
  {
  }

  lemma AllWellFieldsCons(f: FieldTree, fs: seq<FieldTree>)
    requires WellField(f) && AllWellFields(fs)
    ensures AllWellFields([f] + fs) && [f] + [] == [f]
  {
    assert ([f] + fs)[1..] == fs;
  }

  lemma ConsFieldsYield(f: FieldTree, fs: seq<FieldTree>, trailing: bool, rest: seq<Token>)
    requires trailing ==> fs != []
    ensures FieldYield(f) + ([Comma] + (FieldsYield(fs) + (Ending(trailing) + ([RBrace] + rest))))
         == FieldsYield([f] + fs) + (Ending(fs == [] || trailing) + ([RBrace] + rest))
  {
    var tail := Ending(trailing) + ([RBrace] + rest);
    assert ([f] + fs)[1..] == fs && ([f] + fs)[0] == f;
    if fs == [] {
      assert [f] + fs == [f];
      OneFieldYield(f);
      EmptyList([RBrace] + rest);
    } else {
      assert FieldsYield([f] + fs) == FieldYield(f) + ([Comma] + FieldsYield(fs));
      Assoc(FieldYield(f), [Comma] + FieldsYield(fs), tail);
      Assoc([Comma], FieldsYield(fs), tail);
    }
  }

  // ---- main results ----

  /**
   * Parsing consumes exactly the tokens of the tree it returns, and the tree obeys precedence and
   * associativity.
   */
  lemma ParsedTreeIsRight(ts: seq<Token>, m: Mode)
    ensures hide *; var r := ParseExpr(ts, m); r.Ok? ==> ts == Yield(r.value) + r.rest && Well(r.value, m.noStruct) && Ended(r.rest)
  {
    ExprSound(ts, m);
  }

  /** A well-formed tree is parsed back from its tokens, exactly when the nesting budget allows it. */
  lemma EveryTreeIsParsed(t: Tree, rest: seq<Token>, m: Mode)
    requires Well(t, m.noStruct) && Ended(rest) && NoBrace(rest, m)
    ensures ParseExpr(Yield(t) + rest, m) == if m.depth + NeedExpr(t) <= m.max then Ok(t, rest) else Err(BudgetExceeded)
  {
    ParsesExpr(t, rest, m);
  }

  /** No other well-formed tree has the same tokens. */
  lemma OneTreePerText(t: Tree, u: Tree, noStruct: bool)
    requires Well(t, noStruct) && Well(u, noStruct) && Yield(t) == Yield(u)
    ensures t == u
  {
    hide Well, Yield, NeedPostfix, FieldsYield, ListYield;
    var m := Mode(noStruct, 0, NeedExpr(t) + NeedExpr(u));
    ParsesExpr(t, [], m);
    ParsesExpr(u, [], m);
  }
}
