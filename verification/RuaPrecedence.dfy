/** How operators group, from a list of operator classes alone, and the proof that the parser groups them like that. */
module RuaPrecedence {
  import opened Wrappers
  import opened RuaGrammar
  import opened RuaGrammarTheorem

  // ---- the classes ----

  datatype Sign = Assignment | Operator(op: BinOp) | Dots | Prefix

  /** The classes of operators, loosest first; field access, calls and the like bind tighter than any of them. */
  const CLASSES: seq<set<Sign>> := [
    {Assignment},
    {Operator(Coalesce)},
    {Operator(Or)},
    {Operator(And)},
    {Operator(Eq), Operator(Ne), Operator(Lt), Operator(Le), Operator(Gt), Operator(Ge), Operator(Contains)},
    {Dots},
    {Operator(Add), Operator(Sub)},
    {Operator(Mul), Operator(Div), Operator(Rem)},
    {Prefix}
  ]

  /** The first is in a looser class than the second. */
  ghost predicate Looser(a: Sign, b: Sign) {
    exists i, j :: 0 <= i < j < |CLASSES| && a in CLASSES[i] && b in CLASSES[j]
  }

  /** The operator at the top of a tree. */
  function Top(t: Tree): Option<Sign> {
    match t
    case Assign(_, _, _) => Some(Assignment)
    case Binary(op, _, _) => Some(Operator(op))
    case Range(_, _, _) => Some(Dots)
    case Unary(_, _) => Some(Prefix)
    case _ => None
  }

  ghost predicate Tighter(t: Tree, s: Sign) {
    Top(t).Some? ==> Looser(s, Top(t).value)
  }

  ghost predicate NotLooser(t: Tree, s: Sign) {
    Top(t).Some? ==> !Looser(Top(t).value, s)
  }

  /**
   * Left operands are of no looser class than their operator and right ones of a tighter class; only assignment
   * takes anything on its right; suffixes stand on trees without an operator at the top; and a struct literal is
   * not seen in a condition (noStruct) unless something encloses it.
   */
  ghost predicate Grouped(t: Tree, noStruct: bool)
    decreases t
  {
    hide *;
    match t
    case Lit(_) => true
    case Path(_) => true
    case Paren(inner) => Grouped(inner, false)
    case VecLit(elements, trailing) => (forall e <- elements :: Grouped(e, false)) && (trailing ==> elements != [])
    case StructLit(_, fields, trailing) =>
      !noStruct && (forall f <- fields :: f.value.Some? ==> Grouped(f.value.value, false)) && (trailing ==> fields != [])
    case Try(base) => Top(base) == None && Grouped(base, noStruct)
    case Field(base, _, _) => Top(base) == None && Grouped(base, noStruct)
    case MethodCall(base, _, _, args, trailing) =>
      Top(base) == None && Grouped(base, noStruct) && (forall e <- args :: Grouped(e, false)) && (trailing ==> args != [])
    case Call(base, args, trailing) =>
      Top(base) == None && !base.Field? && Grouped(base, noStruct) && (forall e <- args :: Grouped(e, false)) && (trailing ==> args != [])
    case Index(base, index) => Top(base) == None && Grouped(base, noStruct) && Grouped(index, false)
    case Unary(_, operand) => NotLooser(operand, Prefix) && Grouped(operand, noStruct)
    case Binary(op, lhs, rhs) =>
      NotLooser(lhs, Operator(op)) && Tighter(rhs, Operator(op)) && Grouped(lhs, noStruct) && Grouped(rhs, noStruct)
    case Range(_, lhs, rhs) => NotLooser(lhs, Dots) && Tighter(rhs, Dots) && Grouped(lhs, noStruct) && Grouped(rhs, noStruct)
    case Assign(_, target, value) => Tighter(target, Assignment) && Grouped(target, noStruct) && Grouped(value, noStruct)
  }

  // ---- the classes and the parser's numbers ----

  /** The parser's number for an operator at the top of a tree. */
  function LevelOf(s: Sign): int {
    match s
    case Assignment => -1
    case Operator(op) => Power(op)
    case Dots => RANGE_POWER
    case Prefix => 7
  }

  /** The place of an operator in the list. */
  function Place(s: Sign): nat {
    match s
    case Assignment => 0
    case Operator(op) =>
      (match op
       case Coalesce => 1
       case Or => 2
       case And => 3
       case Eq | Ne | Lt | Le | Gt | Ge | Contains => 4
       case Add | Sub => 6
       case Mul | Div | Rem => 7)
    case Dots => 5
    case Prefix => 8
  }

  lemma PlaceInList(s: Sign, i: nat)
    requires i < |CLASSES|
    ensures s in CLASSES[i] <==> i == Place(s)
  {
  }

  /** The numbers of the parser order the operators as the list does. */
  lemma NumbersFollowTheList(a: Sign, b: Sign)
    ensures Looser(a, b) <==> LevelOf(a) < LevelOf(b)
  {
    PlaceInList(a, Place(a));
    PlaceInList(b, Place(b));
    forall i, j | 0 <= i < j < |CLASSES| && a in CLASSES[i] && b in CLASSES[j] ensures Place(a) < Place(b) {
      PlaceInList(a, i);
      PlaceInList(b, j);
    }
    hide CLASSES;
    assert Place(a) < Place(b) <==> LevelOf(a) < LevelOf(b);
  }

  lemma TopLevel(t: Tree)
    ensures Level(t) == if Top(t).Some? then LevelOf(Top(t).value) else 8
  {
  }

  lemma Compared(t: Tree, s: Sign)
    ensures Tighter(t, s) <==> Level(t) > LevelOf(s)
    ensures NotLooser(t, s) <==> Level(t) >= LevelOf(s)
  {
    hide Looser;
    TopLevel(t);
    if Top(t).Some? {
      NumbersFollowTheList(s, Top(t).value);
      NumbersFollowTheList(Top(t).value, s);
    }
  }

  /** The trees grouped by the list are those of the parser's grammar. */
  lemma {:induction false} GroupedIsWell(t: Tree, noStruct: bool)
    ensures Grouped(t, noStruct) <==> Well(t, noStruct)
    decreases t, 0
  {
    hide Tighter, NotLooser, Level;
    match t {
      case Lit(_) =>
      case Path(_) =>
      case Paren(inner) => GroupedIsWell(inner, false);
      case VecLit(elements, _) => AllGrouped(elements);
      case StructLit(_, fields, _) => AllFieldsGrouped(fields);
      case Try(base) => BaseGrouped(base, noStruct);
      case Field(base, _, _) => BaseGrouped(base, noStruct);
      case MethodCall(base, _, _, args, _) =>
        BaseGrouped(base, noStruct);
        AllGrouped(args);
      case Call(base, args, _) =>
        BaseGrouped(base, noStruct);
        AllGrouped(args);
      case Index(base, index) =>
        BaseGrouped(base, noStruct);
        GroupedIsWell(index, false);
      case Unary(_, operand) =>
        Compared(operand, Prefix);
        GroupedIsWell(operand, noStruct);
      case Binary(op, lhs, rhs) =>
        Compared(lhs, Operator(op));
        Compared(rhs, Operator(op));
        GroupedIsWell(lhs, noStruct);
        GroupedIsWell(rhs, noStruct);
      case Range(_, lhs, rhs) =>
        Compared(lhs, Dots);
        Compared(rhs, Dots);
        GroupedIsWell(lhs, noStruct);
        GroupedIsWell(rhs, noStruct);
      case Assign(_, target, value) =>
        Compared(target, Assignment);
        GroupedIsWell(target, noStruct);
        GroupedIsWell(value, noStruct);
    }
  }

  lemma {:induction false} BaseGrouped(base: Tree, noStruct: bool)
    ensures Grouped(base, noStruct) <==> Well(base, noStruct)
    ensures Top(base) == None <==> Level(base) == 8
    decreases base, 1
  {
    hide Grouped, Well;
    GroupedIsWell(base, noStruct);
    TopLevel(base);
  }

  lemma {:induction false} AllGrouped(ts: seq<Tree>)
    ensures (forall t <- ts :: Grouped(t, false)) <==> AllWell(ts)
    decreases ts
  {
    hide Grouped, Well;
    if ts != [] {
      GroupedIsWell(ts[0], false);
      AllGrouped(ts[1..]);
      assert ts == [ts[0]] + ts[1..];
    }
  }

  lemma {:induction false} AllFieldsGrouped(fs: seq<FieldTree>)
    ensures (forall f <- fs :: f.value.Some? ==> Grouped(f.value.value, false)) <==> AllWellFields(fs)
    decreases fs
  {
    hide Grouped, Well;
    if fs != [] {
      if fs[0].value.Some? {
        GroupedIsWell(fs[0].value.value, false);
      }
      AllFieldsGrouped(fs[1..]);
      assert fs == [fs[0]] + fs[1..];
    }
  }

  // ---- main results ----

  /** Parsing consumes exactly the tokens of the tree it returns, which groups as the classes say. */
  lemma ParsedTreeIsGrouped(ts: seq<Token>, m: Mode)
    ensures var r := ParseExpr(ts, m); r.Ok? ==> ts == Yield(r.value) + r.rest && Grouped(r.value, m.noStruct) && Ended(r.rest)
  {
    hide Grouped, Well, Yield, ParseExpr;
    ParsedTreeIsRight(ts, m);
    var r := ParseExpr(ts, m);
    if r.Ok? {
      GroupedIsWell(r.value, m.noStruct);
    }
  }

  /** A tree that groups as the classes say is parsed back from its tokens, exactly when the nesting budget allows it. */
  lemma EveryGroupedTreeIsParsed(t: Tree, rest: seq<Token>, m: Mode)
    requires Grouped(t, m.noStruct) && Ended(rest) && NoBrace(rest, m)
    ensures ParseExpr(Yield(t) + rest, m) == if m.depth + NeedExpr(t) <= m.max then Ok(t, rest) else Err(BudgetExceeded)
  {
    hide Grouped, Well, Yield, ParseExpr;
    GroupedIsWell(t, m.noStruct);
    EveryTreeIsParsed(t, rest, m);
  }

  /** An infix operator as it is written, and the tree it makes. */
  datatype Infix = Op(op: BinOp) | Span(inclusive: bool)
  {
    function Written(): Token { if Op? then OpTok(op) else DotDot(inclusive) }

    function Class(): Sign { if Op? then Operator(op) else Dots }

    function Of(lhs: Tree, rhs: Tree): Tree { if Op? then Binary(op, lhs, rhs) else Range(inclusive, lhs, rhs) }
  }

  /** An operand without an infix operator or assignment at its top. */
  predicate Operand(t: Tree) {
    !t.Assign? && !t.Binary? && !t.Range?
  }

  lemma OperandIsTight(t: Tree, p: Infix)
    requires Operand(t)
    ensures Tighter(t, p.Class()) && NotLooser(t, p.Class())
  {
    hide Tighter, NotLooser, Looser, Power;
    Compared(t, p.Class());
    PowersInRange(p);
  }

  lemma PowersInRange(p: Infix)
    ensures 0 <= LevelOf(p.Class()) <= 6
  {
  }

  /** How two infix operators in a row group. */
  function Two(a: Tree, p: Infix, b: Tree, q: Infix, c: Tree, right: bool): Tree {
    if right then p.Of(a, q.Of(b, c)) else q.Of(p.Of(a, b), c)
  }

  /**
   * `a p b q c` is read as `a p (b q c)` if q is in a tighter class than p, and as `(a p b) q c` otherwise, also
   * when both are in the same class.
   */
  lemma TwoOperators(a: Tree, p: Infix, b: Tree, q: Infix, c: Tree, rest: seq<Token>, m: Mode)
    requires Operand(a) && Operand(b) && Operand(c) && Grouped(a, m.noStruct) && Grouped(b, m.noStruct) && Grouped(c, m.noStruct)
    requires Ended(rest) && NoBrace(rest, m)
    ensures var t := Two(a, p, b, q, c, Looser(p.Class(), q.Class()));
            ParseExpr(Yield(a) + ([p.Written()] + (Yield(b) + ([q.Written()] + (Yield(c) + rest)))), m)
            == if m.depth + NeedExpr(t) <= m.max then Ok(t, rest) else Err(BudgetExceeded)
  {
    hide Grouped, Yield, Suffixes, ParseList, ParseFields, NeedPostfix, ParseExpr;
    var right := Looser(p.Class(), q.Class());
    var t := Two(a, p, b, q, c, right);
    TwoAreGrouped(a, p, b, q, c, m.noStruct);
    TwoYield(a, p, b, q, c, right, rest);
    hide *;
    EveryGroupedTreeIsParsed(t, rest, m);
  }

  lemma TwoAreGrouped(a: Tree, p: Infix, b: Tree, q: Infix, c: Tree, noStruct: bool)
    requires Operand(a) && Operand(b) && Operand(c) && Grouped(a, noStruct) && Grouped(b, noStruct) && Grouped(c, noStruct)
    ensures Grouped(Two(a, p, b, q, c, Looser(p.Class(), q.Class())), noStruct)
  {
    hide Looser, Grouped, Tighter, NotLooser;
    OperandIsTight(a, p);
    OperandIsTight(b, p);
    OperandIsTight(b, q);
    OperandIsTight(c, q);
    if Looser(p.Class(), q.Class()) {
      JoinedGrouped(b, q, c, noStruct);
      assert Tighter(q.Of(b, c), p.Class()) by { JoinedTop(b, q, c, p); }
      JoinedGrouped(a, p, q.Of(b, c), noStruct);
    } else {
      JoinedGrouped(a, p, b, noStruct);
      assert NotLooser(p.Of(a, b), q.Class()) by { JoinedTop(a, p, b, q); }
      JoinedGrouped(p.Of(a, b), q, c, noStruct);
    }
  }

  lemma JoinedGrouped(a: Tree, p: Infix, b: Tree, noStruct: bool)
    requires NotLooser(a, p.Class()) && Tighter(b, p.Class()) && Grouped(a, noStruct) && Grouped(b, noStruct)
    ensures Grouped(p.Of(a, b), noStruct)
  {
    if p.Op? {
      BinaryGrouped(p.op, a, b, noStruct);
    } else {
      RangeGrouped(p.inclusive, a, b, noStruct);
    }
    hide *;
  }

  lemma BinaryGrouped(op: BinOp, a: Tree, b: Tree, noStruct: bool)
    ensures Grouped(Binary(op, a, b), noStruct) <==>
              NotLooser(a, Operator(op)) && Tighter(b, Operator(op)) && Grouped(a, noStruct) && Grouped(b, noStruct)
  {
    hide Looser, Tighter, NotLooser;
  }

  lemma RangeGrouped(inclusive: bool, a: Tree, b: Tree, noStruct: bool)
    ensures Grouped(Range(inclusive, a, b), noStruct) <==>
              NotLooser(a, Dots) && Tighter(b, Dots) && Grouped(a, noStruct) && Grouped(b, noStruct)
  {
    hide Looser, Tighter, NotLooser;
  }

  lemma JoinedTop(a: Tree, p: Infix, b: Tree, q: Infix)
    ensures Tighter(p.Of(a, b), q.Class()) <==> Looser(q.Class(), p.Class())
    ensures NotLooser(p.Of(a, b), q.Class()) <==> !Looser(p.Class(), q.Class())
  {
    hide Looser;
  }

  lemma TwoYield(a: Tree, p: Infix, b: Tree, q: Infix, c: Tree, right: bool, rest: seq<Token>)
    ensures Yield(Two(a, p, b, q, c, right)) + rest == Yield(a) + ([p.Written()] + (Yield(b) + ([q.Written()] + (Yield(c) + rest))))
  {
    OneYields(b, q, c);
    OneYields(a, p, b);
    OneYields(a, p, q.Of(b, c));
    OneYields(p.Of(a, b), q, c);
    hide Yield;
  }

  lemma OneYields(a: Tree, p: Infix, b: Tree)
    ensures Yield(p.Of(a, b)) == Yield(a) + ([p.Written()] + Yield(b))
  {
    hide ListYield, FieldsYield;
    var t := p.Of(a, b);
    if p.Op? {
      assert t == Binary(p.op, a, b);
    } else {
      assert t == Range(p.inclusive, a, b);
    }
  }

  /** A prefix operator takes only its operand: `! a p b` is read as `(! a) p b`. */
  lemma PrefixThenInfix(u: UnOp, a: Tree, p: Infix, b: Tree, rest: seq<Token>, m: Mode)
    requires Operand(a) && Operand(b) && Grouped(a, m.noStruct) && Grouped(b, m.noStruct) && Ended(rest) && NoBrace(rest, m)
    ensures var t := p.Of(Unary(u, a), b);
            ParseExpr([UnaryToken(u)] + (Yield(a) + ([p.Written()] + (Yield(b) + rest))), m)
            == if m.depth + NeedExpr(t) <= m.max then Ok(t, rest) else Err(BudgetExceeded)
  {
    hide Grouped, Yield, Tighter, NotLooser, ParseExpr, Ended, NoBrace, NeedExpr;
    var t := p.Of(Unary(u, a), b);
    PrefixGrouped(u, a, m.noStruct);
    OperandIsTight(Unary(u, a), p);
    OperandIsTight(b, p);
    JoinedGrouped(Unary(u, a), p, b, m.noStruct);
    OneYields(Unary(u, a), p, b);
    PrefixYields(u, a);
    hide *;
    assert Yield(t) + rest == [UnaryToken(u)] + (Yield(a) + ([p.Written()] + (Yield(b) + rest)));
    EveryGroupedTreeIsParsed(t, rest, m);
  }

  lemma PrefixYields(u: UnOp, a: Tree)
    ensures Yield(Unary(u, a)) == [UnaryToken(u)] + Yield(a)
  {
    hide ListYield, FieldsYield;
  }

  lemma PrefixGrouped(u: UnOp, a: Tree, noStruct: bool)
    requires Operand(a) && Grouped(a, noStruct)
    ensures Grouped(Unary(u, a), noStruct)
  {
    hide Tighter, NotLooser, Looser;
    Compared(a, Prefix);
  }

  /** An assignment takes everything: `a p b = c q d` is read as `(a p b) = (c q d)`, and `a = b = c` from the right. */
  lemma AssignmentTakesAll(target: Tree, op: Option<BinOp>, value: Tree, rest: seq<Token>, m: Mode)
    requires !target.Assign? && Grouped(target, m.noStruct) && Grouped(value, m.noStruct) && Ended(rest) && NoBrace(rest, m)
    ensures var t := Assign(op, target, value);
            ParseExpr(Yield(target) + ([AssignTok(op)] + (Yield(value) + rest)), m)
            == if m.depth + NeedExpr(t) <= m.max then Ok(t, rest) else Err(BudgetExceeded)
  {
    hide Grouped, Yield, ParseExpr, Ended, NoBrace, NeedExpr;
    var t := Assign(op, target, value);
    TargetGrouped(target, op, value, m.noStruct);
    AssignYields(target, op, value);
    hide *;
    assert Yield(t) + rest == Yield(target) + ([AssignTok(op)] + (Yield(value) + rest));
    EveryGroupedTreeIsParsed(t, rest, m);
  }

  lemma AssignYields(target: Tree, op: Option<BinOp>, value: Tree)
    ensures Yield(Assign(op, target, value)) == Yield(target) + ([AssignTok(op)] + Yield(value))
  {
    hide ListYield, FieldsYield;
  }

  lemma TargetGrouped(target: Tree, op: Option<BinOp>, value: Tree, noStruct: bool)
    requires !target.Assign? && Grouped(target, noStruct) && Grouped(value, noStruct)
    ensures Grouped(Assign(op, target, value), noStruct)
  {
    hide Tighter, NotLooser, Looser;
    Compared(target, Assignment);
  }

  // ---- how nesting is counted ----

  /** So many prefix operators before a tree. */
  function Prefixed(n: nat, t: Tree): Tree {
    if n == 0 then t else Unary(Neg, Prefixed(n - 1, t))
  }

  /** So many parentheses around a tree. */
  function Enclosed(n: nat, t: Tree): Tree {
    if n == 0 then t else Paren(Enclosed(n - 1, t))
  }

  /** A literal behind n prefix operators takes n + 3 levels of the budget. */
  lemma PrefixesAreCounted(n: nat, text: string, m: Mode)
    ensures ParseExpr(Yield(Prefixed(n, Lit(text))), m).Ok? <==> m.depth + n + 3 <= m.max
  {
    hide ParseExpr, Yield, Ended, NoBrace;
    var t := Prefixed(n, Lit(text));
    PrefixedNeeds(n, text, m.noStruct);
    ParsedAlone(t, m);
  }

  lemma {:induction false} PrefixedNeeds(n: nat, text: string, noStruct: bool)
    ensures var t := Prefixed(n, Lit(text)); Grouped(t, noStruct) && Operand(t) && NeedUnary(t) == n + 1 && NeedExpr(t) == n + 3
  {
    hide Looser, Tighter, NotLooser;
    if n > 0 {
      PrefixedNeeds(n - 1, text, noStruct);
      PrefixGrouped(Neg, Prefixed(n - 1, Lit(text)), noStruct);
    }
  }

  /** A literal in n parentheses takes 3 n + 3 levels. */
  lemma ParenthesesAreCounted(n: nat, text: string, m: Mode)
    ensures ParseExpr(Yield(Enclosed(n, Lit(text))), m).Ok? <==> m.depth + 3 * n + 3 <= m.max
  {
    hide ParseExpr, Yield, Ended, NoBrace;
    var t := Enclosed(n, Lit(text));
    EnclosedNeeds(n, text, m.noStruct);
    ParsedAlone(t, m);
  }

  lemma {:induction false} EnclosedNeeds(n: nat, text: string, noStruct: bool)
    ensures var t := Enclosed(n, Lit(text)); Grouped(t, noStruct) && NeedExpr(t) == 3 * n + 3
  {
    hide Looser, Tighter, NotLooser;
    var t := Enclosed(n, Lit(text));
    assert NeedUnary(t) == 1 + NeedPostfix(t) && NeedBin(t) == 1 + NeedUnary(t) && NeedExpr(t) == 1 + NeedBin(t);
    if n > 0 {
      EnclosedNeeds(n - 1, text, false);
      assert NeedPostfix(t) == NeedExpr(Enclosed(n - 1, Lit(text)));
    } else {
      assert NeedPostfix(t) == 0;
    }
  }

  lemma ParsedAlone(t: Tree, m: Mode)
    requires Grouped(t, m.noStruct)
    ensures ParseExpr(Yield(t), m).Ok? <==> m.depth + NeedExpr(t) <= m.max
  {
    hide Grouped, ParseExpr, Yield, NeedExpr;
    assert Yield(t) + [] == Yield(t);
    EveryGroupedTreeIsParsed(t, [], m);
  }
}
