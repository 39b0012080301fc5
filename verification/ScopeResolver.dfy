/** Resolving names in function bodies: a stack of scopes against a functional environment. */
module ScopeResolver {
  import opened Wrappers

  type LocalId = nat

  /** Names are resolved the same way under every form that binds nothing; such a form is its parts, in order. */
  datatype Expr =
    | Path(id: nat, segments: seq<string>)
    | Parts(parts: seq<Expr>)
    | Select(base: Expr, parts: seq<Expr>)
    | Closure(params: seq<string>, body: Expr)
    | BlockExpr(block: Block)
    | If(cond: Expr, thn: Block, els: Option<Expr>)
    | IfLet(pat: Pattern, subject: Expr, thn: Block, els: Option<Expr>)
    | Match(scrut: Expr, arms: seq<Arm>)
    | Assign(target: Expr, value: Expr)

  datatype Arm = Arm(pats: seq<Pattern>, guard: Option<Expr>, body: Expr)

  datatype Pattern = Binding(name: string) | Constant(value: Expr) | Variant(elems: seq<Pattern>)

  datatype Block = Block(stmts: seq<Stmt>, tail: Option<Expr>)

  datatype Stmt =
    | Let(name: string, mutable: bool, init: Expr)
    | Run(e: Option<Expr>)
    | While(cond: Expr, body: Block)
    | Loop(body: Block)
    | For(name: string, iter: Expr, body: Block)
    | WhileLet(pat: Pattern, subject: Expr, body: Block)

  datatype LocalData = LocalData(name: string, mutable: bool)

  /** A local, or whatever the path names outside the body. */
  datatype Target = Local(id: LocalId) | Outside(segments: seq<string>)

  /** What resolution records: the locals, the targets of paths, and the locals assigned although not `mut`. */
  datatype Record = Record(locals: seq<LocalData>, targets: map<nat, Target>, rejected: seq<LocalId>)

  // ---- with a functional environment ----

  type Env = map<string, LocalId>

  datatype Bound = Bound(env: Env, r: Record)

  function Bind(name: string, mutable: bool, env: Env, r: Record): Bound {
    Bound(env[name := |r.locals|], r.(locals := r.locals + [LocalData(name, mutable)]))
  }

  function BindAll(names: seq<string>, env: Env, r: Record): Bound
    decreases |names|
  {
    if names == [] then Bound(env, r)
    else
      var b := Bind(names[0], false, env, r);
      BindAll(names[1..], b.env, b.r)
  }

  function TargetOf(segments: seq<string>, env: Env): Target {
    if |segments| == 1 && segments[0] in env then Local(env[segments[0]]) else Outside(segments)
  }

  /** The local at the root of an assignment's target. */
  function RootLocal(e: Expr, targets: map<nat, Target>): Option<LocalId>
    decreases e
  {
    match e
    case Path(id, _) => if id in targets && targets[id].Local? then Some(targets[id].id) else None
    case Select(base, _) => RootLocal(base, targets)
    case _ => None
  }

  /** An assignment to a local that is not `mut` is reported. */
  function CheckAssignment(target: Expr, r: Record): Record {
    var root := RootLocal(target, r.targets);
    if root.Some? && root.value < |r.locals| && !r.locals[root.value].mutable then r.(rejected := r.rejected + [root.value]) else r
  }

  function ResolveExpr(e: Expr, env: Env, r: Record): Record
    decreases e, 1
  {
    hide *;
    match e
    case Path(id, segments) => r.(targets := r.targets[id := TargetOf(segments, env)])
    case Parts(parts) => ResolveAll(parts, env, r)
    case Select(base, parts) => ResolveAll(parts, env, ResolveExpr(base, env, r))
    case Closure(params, body) =>
      var b := BindAll(params, env, r);
      ResolveExpr(body, b.env, b.r)
    case BlockExpr(block) => ResolveBlock(block, env, r)
    case If(cond, thn, els) => ResolveOption(els, env, ResolveBlock(thn, env, ResolveExpr(cond, env, r)))
    case IfLet(pat, subject, thn, els) =>
      var b := ResolvePattern(pat, env, ResolveExpr(subject, env, r));
      ResolveOption(els, env, ResolveBlock(thn, b.env, b.r))
    case Match(scrut, arms) => ResolveArms(arms, env, ResolveExpr(scrut, env, r))
    case Assign(target, value) => ResolveExpr(value, env, CheckAssignment(target, ResolveExpr(target, env, r)))
  }

  function ResolveAll(es: seq<Expr>, env: Env, r: Record): Record
    decreases es, 0
  {
    hide *;
    if es == [] then r else ResolveAll(es[1..], env, ResolveExpr(es[0], env, r))
  }

  function ResolveOption(e: Option<Expr>, env: Env, r: Record): Record
    decreases e, 0
  {
    if e.Some? then ResolveExpr(e.value, env, r) else r
  }

  function ResolveArms(arms: seq<Arm>, env: Env, r: Record): Record
    decreases arms, 0
  {
    if arms == [] then r else ResolveArms(arms[1..], env, ResolveArm(arms[0], env, r))
  }

  /** The variables of an arm's patterns are visible in its guard and body and nowhere else. */
  function ResolveArm(arm: Arm, env: Env, r: Record): Record
    decreases arm, 0
  {
    hide *;
    var b := ResolvePatterns(arm.pats, env, r);
    ResolveExpr(arm.body, b.env, ResolveOption(arm.guard, b.env, b.r))
  }

  function ResolvePattern(p: Pattern, env: Env, r: Record): Bound
    decreases p, 0
  {
    match p
    case Binding(name) => Bind(name, false, env, r)
    case Constant(value) => Bound(env, ResolveExpr(value, env, r))
    case Variant(elems) => ResolvePatterns(elems, env, r)
  }

  function ResolvePatterns(ps: seq<Pattern>, env: Env, r: Record): Bound
    decreases ps, 0
  {
    hide *;
    if ps == [] then Bound(env, r)
    else
      var b := ResolvePattern(ps[0], env, r);
      ResolvePatterns(ps[1..], b.env, b.r)
  }

  function ResolveBlock(b: Block, env: Env, r: Record): Record
    decreases b, 0
  {
    var inner := ResolveStmts(b.stmts, env, r);
    ResolveOption(b.tail, inner.env, inner.r)
  }

  function ResolveStmts(stmts: seq<Stmt>, env: Env, r: Record): Bound
    decreases stmts, 0
  {
    hide *;
    if stmts == [] then Bound(env, r)
    else
      var b := ResolveStmt(stmts[0], env, r);
      ResolveStmts(stmts[1..], b.env, b.r)
  }

  /** Only `let` changes what later statements see, and its initializer does not see it. */
  function ResolveStmt(s: Stmt, env: Env, r: Record): Bound
    decreases s, 0
  {
    hide *;
    match s
    case Let(name, mutable, init) => Bind(name, mutable, env, ResolveExpr(init, env, r))
    case Run(e) => Bound(env, ResolveOption(e, env, r))
    case While(cond, body) => Bound(env, ResolveBlock(body, env, ResolveExpr(cond, env, r)))
    case Loop(body) => Bound(env, ResolveBlock(body, env, r))
    case For(name, iter, body) =>
      var b := Bind(name, false, env, ResolveExpr(iter, env, r));
      Bound(env, ResolveBlock(body, b.env, b.r))
    case WhileLet(pat, subject, body) =>
      var b := ResolvePattern(pat, env, ResolveExpr(subject, env, r));
      Bound(env, ResolveBlock(body, b.env, b.r))
  }

  // ---- with a stack of scopes ----

  type Scope = map<string, LocalId>

  /** What a stack of scopes means: inner scopes hide outer ones. */
  function Flatten(scopes: seq<Scope>): Env {
    if scopes == [] then map[] else Flatten(scopes[..|scopes| - 1]) + scopes[|scopes| - 1]
  }

  function Extended(scope: Scope, name: string, id: LocalId): Scope {
    scope[name := id]
  }

  lemma FlattenPush(scopes: seq<Scope>)
    ensures Flatten(scopes + [map[]]) == Flatten(scopes)
  {
    assert (scopes + [map[]])[..|scopes|] == scopes;
  }

  lemma FlattenBind(scopes: seq<Scope>, name: string, id: LocalId)
    requires scopes != []
    ensures var last := |scopes| - 1;
            Flatten(scopes[last := Extended(scopes[last], name, id)]) == Flatten(scopes)[name := id]
  {
    var last := |scopes| - 1;
    assert scopes[last := Extended(scopes[last], name, id)][..last] == scopes[..last];
  }

  class BodyResolver {
    var scopes: seq<Scope>
    var record: Record

    constructor ()
      ensures scopes == [] && record == Record([], map[], [])
    {
      scopes, record := [], Record([], map[], []);
    }

    method Push()
      modifies this`scopes
      ensures scopes == old(scopes) + [map[]] && Flatten(scopes) == Flatten(old(scopes))
    {
      FlattenPush(scopes);
      scopes := scopes + [map[]];
    }

    method Pop()
      requires scopes != []
      modifies this`scopes
      ensures scopes == old(scopes)[..|old(scopes)| - 1]
    {
      scopes := scopes[..|scopes| - 1];
    }

    method BindLocal(name: string, mutable: bool) returns (id: LocalId)
      requires scopes != []
      modifies this
      ensures id == |old(record).locals|
      ensures |scopes| == |old(scopes)| && scopes[..|scopes| - 1] == old(scopes)[..|scopes| - 1]
      ensures Bound(Flatten(scopes), record) == Bind(name, mutable, Flatten(old(scopes)), old(record))
    {
      id := |record.locals|;
      record := record.(locals := record.locals + [LocalData(name, mutable)]);
      var last := |scopes| - 1;
      FlattenBind(scopes, name, id);
      scopes := scopes[last := Extended(scopes[last], name, id)];
    }

    /** The innermost scope that has the name decides. */
    method FindLocal(name: string) returns (id: Option<LocalId>)
      ensures id == if name in Flatten(scopes) then Some(Flatten(scopes)[name]) else None
    {
      assert scopes[..|scopes|] == scopes;
      for i := |scopes| downto 0
        invariant name in Flatten(scopes) <==> name in Flatten(scopes[..i])
        invariant name in Flatten(scopes) ==> Flatten(scopes)[name] == Flatten(scopes[..i])[name]
      {
        assert scopes[..i + 1][..i] == scopes[..i];
        if name in scopes[i] {
          return Some(scopes[i][name]);
        }
      }
      return None;
    }

    method Expression(e: Expr)
      modifies this
      ensures scopes == old(scopes) && record == ResolveExpr(e, Flatten(scopes), old(record))
      decreases e, 1
    {
      match e {
        case Path(id, segments) =>
          var target := Outside(segments);
          if |segments| == 1 {
            var local := FindLocal(segments[0]);
            if local.Some? {
              target := Local(local.value);
            }
          }
          record := record.(targets := record.targets[id := target]);
        case Parts(parts) => Expressions(parts);
        case Select(base, parts) =>
          Expression(base);
          Expressions(parts);
        case Closure(params, body) =>
          Push();
          ghost var inner := BindAll(params, Flatten(scopes), record);
          for i := 0 to |params|
            invariant |scopes| == |old(scopes)| + 1 && scopes[..|old(scopes)|] == old(scopes)
            invariant inner == BindAll(params[i..], Flatten(scopes), record)
          {
            assert params[i..][0] == params[i] && params[i..][1..] == params[i + 1..];
            var _ := BindLocal(params[i], false);
          }
          Expression(body);
          Pop();
        case BlockExpr(block) => BlockBody(block);
        case If(cond, thn, els) =>
          Expression(cond);
          BlockBody(thn);
          ElseBranch(els);
        case IfLet(pat, subject, thn, els) =>
          Expression(subject);
          Push();
          BindPattern(pat);
          BlockBody(thn);
          Pop();
          ElseBranch(els);
        case Match(scrut, arms) =>
          Expression(scrut);
          ghost var whole := ResolveArms(arms, Flatten(scopes), record);
          for i := 0 to |arms|
            invariant scopes == old(scopes) && whole == ResolveArms(arms[i..], Flatten(scopes), record)
          {
            assert arms[i..][0] == arms[i] && arms[i..][1..] == arms[i + 1..];
            Push();
            BindPatterns(arms[i].pats);
            ElseBranch(arms[i].guard);
            Expression(arms[i].body);
            Pop();
          }
        case Assign(target, value) =>
          Expression(target);
          var root := RootLocal(target, record.targets);
          if root.Some? && root.value < |record.locals| && !record.locals[root.value].mutable {
            record := record.(rejected := record.rejected + [root.value]);
          }
          Expression(value);
      }
    }

    method Expressions(es: seq<Expr>)
      modifies this
      ensures scopes == old(scopes) && record == ResolveAll(es, Flatten(scopes), old(record))
      decreases es, 0
    {
      for i := 0 to |es|
        invariant scopes == old(scopes) && ResolveAll(es[i..], Flatten(scopes), record) == ResolveAll(es, Flatten(scopes), old(record))
      {
        assert es[i..][0] == es[i] && es[i..][1..] == es[i + 1..];
        Expression(es[i]);
      }
    }

    method ElseBranch(e: Option<Expr>)
      modifies this
      ensures scopes == old(scopes) && record == ResolveOption(e, Flatten(scopes), old(record))
      decreases e, 0
    {
      if e.Some? {
        Expression(e.value);
      }
    }

    method BindPattern(p: Pattern)
      requires scopes != []
      modifies this
      ensures |scopes| == |old(scopes)| && scopes[..|scopes| - 1] == old(scopes)[..|scopes| - 1]
      ensures Bound(Flatten(scopes), record) == ResolvePattern(p, Flatten(old(scopes)), old(record))
      decreases p, 0
    {
      match p {
        case Binding(name) => var _ := BindLocal(name, false);
        case Constant(value) => Expression(value);
        case Variant(elems) => BindPatterns(elems);
      }
    }

    method BindPatterns(ps: seq<Pattern>)
      requires scopes != []
      modifies this
      ensures |scopes| == |old(scopes)| && scopes[..|scopes| - 1] == old(scopes)[..|scopes| - 1]
      ensures Bound(Flatten(scopes), record) == ResolvePatterns(ps, Flatten(old(scopes)), old(record))
      decreases ps, 0
    {
      ghost var whole := ResolvePatterns(ps, Flatten(scopes), record);
      for i := 0 to |ps|
        invariant |scopes| == |old(scopes)| && scopes[..|scopes| - 1] == old(scopes)[..|scopes| - 1]
        invariant whole == ResolvePatterns(ps[i..], Flatten(scopes), record)
      {
        assert ps[i..][0] == ps[i] && ps[i..][1..] == ps[i + 1..];
        BindPattern(ps[i]);
      }
    }

    method BlockBody(b: Block)
      modifies this
      ensures scopes == old(scopes) && record == ResolveBlock(b, Flatten(scopes), old(record))
      decreases b, 0
    {
      Push();
      ghost var whole := ResolveStmts(b.stmts, Flatten(scopes), record);
      for i := 0 to |b.stmts|
        invariant |scopes| == |old(scopes)| + 1 && scopes[..|old(scopes)|] == old(scopes)
        invariant whole == ResolveStmts(b.stmts[i..], Flatten(scopes), record)
      {
        assert b.stmts[i..][0] == b.stmts[i] && b.stmts[i..][1..] == b.stmts[i + 1..];
        Statement(b.stmts[i]);
      }
      ElseBranch(b.tail);
      Pop();
    }

    method Statement(s: Stmt)
      requires scopes != []
      modifies this
      ensures |scopes| == |old(scopes)| && scopes[..|scopes| - 1] == old(scopes)[..|scopes| - 1]
      ensures Bound(Flatten(scopes), record) == ResolveStmt(s, Flatten(old(scopes)), old(record))
      decreases s, 0
    {
      match s {
        case Let(name, mutable, init) =>
          Expression(init);
          var _ := BindLocal(name, mutable);
        case Run(e) => ElseBranch(e);
        case While(cond, body) =>
          Expression(cond);
          BlockBody(body);
        case Loop(body) => BlockBody(body);
        case For(name, iter, body) =>
          Expression(iter);
          Push();
          var _ := BindLocal(name, false);
          BlockBody(body);
          Pop();
        case WhileLet(pat, subject, body) =>
          Expression(subject);
          Push();
          BindPattern(pat);
          BlockBody(body);
          Pop();
      }
    }
  }

  // ---- what the environment guarantees ----

  /** Every name in scope is bound to a local of that name. */
  predicate EnvOk(env: Env, r: Record) {
    forall x :: x in env ==> env[x] < |r.locals| && r.locals[env[x]].name == x
  }

  /** Locals are only added, so an identity keeps its meaning. */
  predicate Grows(r: Record, t: Record) {
    |r.locals| <= |t.locals| && t.locals[..|r.locals|] == r.locals
  }

  lemma EnvLater(env: Env, r: Record, t: Record)
    requires EnvOk(env, r) && Grows(r, t)
    ensures EnvOk(env, t)
  {
    forall x | x in env ensures env[x] < |t.locals| && t.locals[env[x]].name == x {
      assert t.locals[..|r.locals|][env[x]] == r.locals[env[x]];
    }
  }

  lemma GrowsThen(r: Record, t: Record, u: Record)
    requires Grows(r, t) && Grows(t, u)
    ensures Grows(r, u)
  {
    assert u.locals[..|t.locals|][..|r.locals|] == u.locals[..|r.locals|];
  }

  /** Recorded targets are locals that exist, and only locals without `mut` are reported. */
  ghost predicate RecordOk(r: Record) {
    && (forall id :: id in r.targets && r.targets[id].Local? ==> r.targets[id].id < |r.locals|)
    && (forall i :: 0 <= i < |r.rejected| ==> r.rejected[i] < |r.locals| && !r.locals[r.rejected[i]].mutable)
  }

  /** A later record in which the names in scope still denote locals of that name. */
  ghost predicate Later(env: Env, r: Record, t: Record) {
    Grows(r, t) && RecordOk(t) && EnvOk(env, t)
  }

  lemma LaterThen(env: Env, r: Record, t: Record, u: Record)
    requires Later(env, r, t) && Later(env, t, u)
    ensures Later(env, r, u)
  {
    GrowsThen(r, t, u);
  }

  lemma BindIsLater(name: string, mutable: bool, env: Env, r: Record)
    requires EnvOk(env, r) && RecordOk(r)
    ensures var b := Bind(name, mutable, env, r); Later(env, r, b.r) && EnvOk(b.env, b.r)
    ensures forall x :: x in env ==> Bind(name, mutable, env, r).env[name] != env[x]
  {
    var b := Bind(name, mutable, env, r);
    EnvLater(env, r, b.r);
  }

  lemma {:induction false} BindAllIsLater(names: seq<string>, env: Env, r: Record)
    requires EnvOk(env, r) && RecordOk(r)
    ensures var b := BindAll(names, env, r); Later(env, r, b.r) && EnvOk(b.env, b.r)
    decreases |names|
  {
    if names != [] {
      var b := Bind(names[0], false, env, r);
      BindIsLater(names[0], false, env, r);
      BindAllIsLater(names[1..], b.env, b.r);
      var t := BindAll(names[1..], b.env, b.r).r;
      GrowsThen(r, b.r, t);
      EnvLater(env, r, t);
    }
  }

  /**
   * Resolving an expression records only existing locals, and in its scope every name still denotes the
   * local it denoted before, which has that name.
   */
  lemma {:induction false} ExprIsLater(e: Expr, env: Env, r: Record)
    requires EnvOk(env, r) && RecordOk(r)
    ensures Later(env, r, ResolveExpr(e, env, r))
    decreases e, 1
  {
    match e {
      case Path(_, _) =>
      case Parts(parts) => AllIsLater(parts, env, r);
      case Select(base, parts) =>
        ExprIsLater(base, env, r);
        AllIsLater(parts, env, ResolveExpr(base, env, r));
        LaterThen(env, r, ResolveExpr(base, env, r), ResolveExpr(e, env, r));
      case Closure(params, body) =>
        BindAllIsLater(params, env, r);
        var b := BindAll(params, env, r);
        ExprIsLater(body, b.env, b.r);
        Inside(env, b, r, ResolveExpr(e, env, r));
      case BlockExpr(block) => BlockIsLater(block, env, r);
      case If(cond, thn, els) =>
        var x := ResolveExpr(cond, env, r);
        ExprIsLater(cond, env, r);
        BlockIsLater(thn, env, x);
        OptionIsLater(els, env, ResolveBlock(thn, env, x));
        LaterThen(env, r, x, ResolveBlock(thn, env, x));
        LaterThen(env, r, ResolveBlock(thn, env, x), ResolveExpr(e, env, r));
      case IfLet(pat, subject, thn, els) =>
        var x := ResolveExpr(subject, env, r);
        ExprIsLater(subject, env, r);
        PatternIsLater(pat, env, x);
        var b := ResolvePattern(pat, env, x);
        BlockIsLater(thn, b.env, b.r);
        var y := ResolveBlock(thn, b.env, b.r);
        Inside(env, b, x, y);
        OptionIsLater(els, env, y);
        LaterThen(env, r, x, y);
        LaterThen(env, r, y, ResolveExpr(e, env, r));
      case Match(scrut, arms) =>
        ExprIsLater(scrut, env, r);
        ArmsIsLater(arms, env, ResolveExpr(scrut, env, r));
        LaterThen(env, r, ResolveExpr(scrut, env, r), ResolveExpr(e, env, r));
      case Assign(target, value) =>
        var x := ResolveExpr(target, env, r);
        ExprIsLater(target, env, r);
        var y := CheckAssignment(target, x);
        assert Later(env, r, y);
        ExprIsLater(value, env, y);
        LaterThen(env, r, y, ResolveExpr(e, env, r));
    }
  }

  /** From a record inside a scope back to the names outside it. */
  lemma Inside(env: Env, b: Bound, r: Record, t: Record)
    requires EnvOk(env, r) && Later(env, r, b.r) && Later(b.env, b.r, t)
    ensures Later(env, r, t)
  {
    GrowsThen(r, b.r, t);
    EnvLater(env, r, t);
  }

  lemma {:induction false} AllIsLater(es: seq<Expr>, env: Env, r: Record)
    requires EnvOk(env, r) && RecordOk(r)
    ensures Later(env, r, ResolveAll(es, env, r))
    decreases es, 0
  {
    if es != [] {
      ExprIsLater(es[0], env, r);
      AllIsLater(es[1..], env, ResolveExpr(es[0], env, r));
      LaterThen(env, r, ResolveExpr(es[0], env, r), ResolveAll(es, env, r));
    }
  }

  lemma {:induction false} OptionIsLater(e: Option<Expr>, env: Env, r: Record)
    requires EnvOk(env, r) && RecordOk(r)
    ensures Later(env, r, ResolveOption(e, env, r))
    decreases e, 0
  {
    if e.Some? {
      ExprIsLater(e.value, env, r);
    }
  }

  lemma {:induction false} ArmsIsLater(arms: seq<Arm>, env: Env, r: Record)
    requires EnvOk(env, r) && RecordOk(r)
    ensures Later(env, r, ResolveArms(arms, env, r))
    decreases arms, 0
  {
    if arms != [] {
      ArmIsLater(arms[0], env, r);
      ArmsIsLater(arms[1..], env, ResolveArm(arms[0], env, r));
      LaterThen(env, r, ResolveArm(arms[0], env, r), ResolveArms(arms, env, r));
    }
  }

  lemma {:induction false} ArmIsLater(arm: Arm, env: Env, r: Record)
    requires EnvOk(env, r) && RecordOk(r)
    ensures Later(env, r, ResolveArm(arm, env, r))
    decreases arm, 0
  {
    var b := ResolvePatterns(arm.pats, env, r);
    PatternsIsLater(arm.pats, env, r);
    var x := ResolveOption(arm.guard, b.env, b.r);
    OptionIsLater(arm.guard, b.env, b.r);
    ExprIsLater(arm.body, b.env, x);
    LaterThen(b.env, b.r, x, ResolveArm(arm, env, r));
    Inside(env, b, r, ResolveArm(arm, env, r));
  }

  lemma {:induction false} PatternIsLater(p: Pattern, env: Env, r: Record)
    requires EnvOk(env, r) && RecordOk(r)
    ensures var b := ResolvePattern(p, env, r); Later(env, r, b.r) && EnvOk(b.env, b.r)
    decreases p, 0
  {
    match p {
      case Binding(name) => BindIsLater(name, false, env, r);
      case Constant(value) => ExprIsLater(value, env, r);
      case Variant(elems) => PatternsIsLater(elems, env, r);
    }
  }

  lemma {:induction false} PatternsIsLater(ps: seq<Pattern>, env: Env, r: Record)
    requires EnvOk(env, r) && RecordOk(r)
    ensures var b := ResolvePatterns(ps, env, r); Later(env, r, b.r) && EnvOk(b.env, b.r)
    decreases ps, 0
  {
    if ps != [] {
      PatternIsLater(ps[0], env, r);
      var b := ResolvePattern(ps[0], env, r);
      PatternsIsLater(ps[1..], b.env, b.r);
      Inside(env, b, r, ResolvePatterns(ps, env, r).r);
    }
  }

  lemma {:induction false} BlockIsLater(b: Block, env: Env, r: Record)
    requires EnvOk(env, r) && RecordOk(r)
    ensures Later(env, r, ResolveBlock(b, env, r))
    decreases b, 0
  {
    StmtsIsLater(b.stmts, env, r);
    var inner := ResolveStmts(b.stmts, env, r);
    OptionIsLater(b.tail, inner.env, inner.r);
    Inside(env, inner, r, ResolveBlock(b, env, r));
  }

  lemma {:induction false} StmtsIsLater(stmts: seq<Stmt>, env: Env, r: Record)
    requires EnvOk(env, r) && RecordOk(r)
    ensures var b := ResolveStmts(stmts, env, r); Later(env, r, b.r) && EnvOk(b.env, b.r)
    decreases stmts, 0
  {
    if stmts != [] {
      StmtIsLater(stmts[0], env, r);
      var b := ResolveStmt(stmts[0], env, r);
      StmtsIsLater(stmts[1..], b.env, b.r);
      Inside(env, b, r, ResolveStmts(stmts, env, r).r);
    }
  }

  lemma {:induction false} StmtIsLater(s: Stmt, env: Env, r: Record)
    requires EnvOk(env, r) && RecordOk(r)
    ensures var b := ResolveStmt(s, env, r); Later(env, r, b.r) && EnvOk(b.env, b.r)
    decreases s, 0
  {
    match s {
      case Let(name, mutable, init) =>
        var x := ResolveExpr(init, env, r);
        ExprIsLater(init, env, r);
        BindIsLater(name, mutable, env, x);
        LaterThen(env, r, x, ResolveStmt(s, env, r).r);
      case Run(e) => OptionIsLater(e, env, r);
      case While(cond, body) =>
        var x := ResolveExpr(cond, env, r);
        ExprIsLater(cond, env, r);
        BlockIsLater(body, env, x);
        LaterThen(env, r, x, ResolveBlock(body, env, x));
      case Loop(body) => BlockIsLater(body, env, r);
      case For(name, iter, body) =>
        var x := ResolveExpr(iter, env, r);
        ExprIsLater(iter, env, r);
        BindIsLater(name, false, env, x);
        var b := Bind(name, false, env, x);
        BlockIsLater(body, b.env, b.r);
        Inside(env, b, x, ResolveBlock(body, b.env, b.r));
        LaterThen(env, r, x, ResolveBlock(body, b.env, b.r));
      case WhileLet(pat, subject, body) =>
        var x := ResolveExpr(subject, env, r);
        ExprIsLater(subject, env, r);
        PatternIsLater(pat, env, x);
        var b := ResolvePattern(pat, env, x);
        BlockIsLater(body, b.env, b.r);
        Inside(env, b, x, ResolveBlock(body, b.env, b.r));
        LaterThen(env, r, x, ResolveBlock(body, b.env, b.r));
    }
  }

  /** A path resolves to the innermost local of its name, if there is one, and that local has the path's name. */
  lemma PathsFindTheirBinder(id: nat, x: string, env: Env, r: Record)
    requires EnvOk(env, r) && RecordOk(r)
    ensures var t := ResolveExpr(Path(id, [x]), env, r);
            && (t.targets[id].Local? <==> x in env)
            && (x in env ==> t.targets[id] == Local(env[x]) && t.locals[env[x]].name == x)
  {
  }

  /** A whole function body, from its parameters. */
  method ResolveBody(params: seq<string>, body: Block) returns (r: Record)
    ensures var b := BindAll(params, map[], Record([], map[], []));
            r == ResolveBlock(body, b.env, b.r) && RecordOk(r) && Grows(b.r, r)
  {
    var resolver := new BodyResolver();
    resolver.Push();
    ghost var start := BindAll(params, map[], Record([], map[], []));
    assert Flatten(resolver.scopes) == map[];
    for i := 0 to |params|
      invariant fresh(resolver) && |resolver.scopes| == 1
      invariant start == BindAll(params[i..], Flatten(resolver.scopes), resolver.record)
    {
      assert params[i..][0] == params[i] && params[i..][1..] == params[i + 1..];
      var _ := resolver.BindLocal(params[i], false);
    }
    BindAllIsLater(params, map[], Record([], map[], []));
    BlockIsLater(body, start.env, start.r);
    resolver.BlockBody(body);
    r := resolver.record;
  }
}
