/** What running Lua statements can change, read off the statements. */
module LuaFrame {
  import opened Wrappers
  import opened LuaIr
  import opened LuaRun

  // ---- variables ----

  lemma LookupAppend(s: Store, b: Binding, z: string)
    ensures Lookup(s + [b], z) == if b.name == z then Some(b.value) else Lookup(s, z)
  {
    assert (s + [b])[..|s|] == s;
  }

  lemma {:induction false} LookupUpdate(s: Store, x: string, v: Value, z: string)
    requires Bound(s, x)
    ensures Lookup(Update(s, x, v), z) == if z == x then Some(v) else Lookup(s, z)
  {
    hide Bound;
    assert Lookup(s, x).Some?;
    var n := |s| - 1;
    var init := s[..n];
    assert s == init + [s[n]];
    LookupAppend(init, s[n], z);
    LookupAppend(init, s[n], x);
    if s[n].name == x {
      LookupAppend(init, Binding(x, v), z);
    } else {
      LookupUpdate(init, x, v, z);
      LookupAppend(Update(init, x, v), s[n], z);
    }
  }

  lemma {:induction false} LookupPrefix(s: Store, k: nat, z: string)
    requires k <= |s| && forall i :: k <= i < |s| ==> s[i].name != z
    ensures Lookup(s[..k], z) == Lookup(s, z)
  {
    if k < |s| {
      LookupPrefix(s[..|s| - 1], k, z);
      assert s[..|s| - 1][..k] == s[..k];
    } else {
      assert s[..k] == s;
    }
  }

  /** The same locals, and perhaps more declared after them. */
  ghost predicate Extends(s: Store, t: Store) {
    |s| <= |t| && forall i :: 0 <= i < |s| ==> t[i].name == s[i].name
  }

  lemma ExtendsBound(s: Store, t: Store, z: string)
    requires Extends(s, t) && Bound(s, z)
    ensures Bound(t, z)
  {
    var i :| 0 <= i < |s| && s[i].name == z;
    assert t[i].name == z;
  }

  // ---- what statements write ----

  /**
   * Declared: a local that outlives the statement. Written: stored to when the statement completes.
   * Breaking: stored to when the statement completes or breaks out of the loop around it.
   */
  datatype Mark = Declared | Written | Breaking

  ghost predicate HasBreak(stmts: seq<Stmt>) {
    exists i :: 0 <= i < |stmts| && stmts[i].Break?
  }

  ghost predicate Stores(target: Expr, z: string) {
    match target
    case Name(x) => x == z
    case Field(base, _) => base == Name(z)
    case Index(base, _) => base == Name(z)
    case _ => false
  }

  /** A statement list that breaks never completes, so then nothing counts as written. */
  ghost predicate Marks(stmts: seq<Stmt>, z: string, k: Mark)
    decreases stmts, 2
  {
    !(k == Written && HasBreak(stmts)) && SomeMarks(stmts, z, k)
  }

  ghost predicate SomeMarks(stmts: seq<Stmt>, z: string, k: Mark)
    decreases stmts, 1
  {
    stmts != [] && (StmtMarks(stmts[0], z, k) || SomeMarks(stmts[1..], z, k))
  }

  ghost predicate StmtMarks(st: Stmt, z: string, k: Mark)
    decreases st, 0
  {
    match st
    case Local(x, _) => x == z
    case Assign(target, _) => k != Declared && Stores(target, z)
    case Do(body) => k != Declared && Marks(body, z, k)
    case While(_, body) => k != Declared && Marks(body, z, Breaking)
    case For(x, _, _, _, body) => k != Declared && (x == z || Marks(body, z, Breaking))
    case If(branches, els) => k != Declared && (Marks(els, z, k) || BranchesMark(branches, z, k))
    case _ => false
  }

  ghost predicate BranchesMark(branches: seq<Branch>, z: string, k: Mark)
    decreases branches, 1
  {
    branches != [] && (BranchMarks(branches[0], z, k) || BranchesMark(branches[1..], z, k))
  }

  ghost predicate BranchMarks(b: Branch, z: string, k: Mark)
    decreases b, 0
  {
    Marks(b.body, z, k)
  }

  lemma {:induction false} SomeMarksConcat(a: seq<Stmt>, b: seq<Stmt>, z: string, k: Mark)
    ensures SomeMarks(a + b, z, k) == (SomeMarks(a, z, k) || SomeMarks(b, z, k))
  {
    hide StmtMarks;
    if a == [] {
      assert a + b == b;
    } else {
      assert (a + b)[0] == a[0] && (a + b)[1..] == a[1..] + b;
      SomeMarksConcat(a[1..], b, z, k);
    }
  }

  lemma MarksConcat(a: seq<Stmt>, b: seq<Stmt>, z: string, k: Mark)
    ensures Marks(a + b, z, k) ==> Marks(a, z, k) || Marks(b, z, k)
  {
    hide SomeMarks;
    SomeMarksConcat(a, b, z, k);
    if k == Written && !HasBreak(a + b) {
      forall j | 0 <= j < |a| ensures !a[j].Break? { assert (a + b)[j] == a[j]; }
      forall j | 0 <= j < |b| ensures !b[j].Break? { assert (a + b)[|a| + j] == b[j]; }
    }
  }

  lemma MarksOne(st: Stmt, z: string, k: Mark)
    ensures SomeMarks([st], z, k) == StmtMarks(st, z, k)
    ensures Marks([st], z, k) ==> StmtMarks(st, z, k)
  {
    hide StmtMarks;
    assert [st][1..] == [];
  }

  lemma {:induction false} WrittenIsBreaking(stmts: seq<Stmt>, z: string)
    ensures SomeMarks(stmts, z, Written) ==> SomeMarks(stmts, z, Breaking)
    decreases stmts, 1
  {
    if SomeMarks(stmts, z, Written) {
      StmtWrittenIsBreaking(stmts[0], z);
      WrittenIsBreaking(stmts[1..], z);
      assert StmtMarks(stmts[0], z, Breaking) || SomeMarks(stmts[1..], z, Breaking);
    }
  }

  lemma {:induction false} StmtWrittenIsBreaking(st: Stmt, z: string)
    ensures StmtMarks(st, z, Written) ==> StmtMarks(st, z, Breaking)
    decreases st, 0
  {
    if StmtMarks(st, z, Written) {
      match st {
        case Do(body) =>
          assert Marks(body, z, Written);
          WrittenIsBreaking(body, z);
          assert Marks(body, z, Breaking);
        case If(branches, els) =>
          WrittenIsBreaking(els, z);
          BranchesWrittenIsBreaking(branches, z);
          assert Marks(els, z, Written) ==> Marks(els, z, Breaking);
          assert BranchesMark(branches, z, Written) || Marks(els, z, Written);
        case _ =>
      }
    }
  }

  lemma {:induction false} BranchesWrittenIsBreaking(branches: seq<Branch>, z: string)
    ensures BranchesMark(branches, z, Written) ==> BranchesMark(branches, z, Breaking)
    decreases branches, 0
  {
    if BranchesMark(branches, z, Written) {
      WrittenIsBreaking(branches[0].body, z);
      BranchesWrittenIsBreaking(branches[1..], z);
      assert Marks(branches[0].body, z, Written) ==> Marks(branches[0].body, z, Breaking);
      assert BranchMarks(branches[0], z, Written) || BranchesMark(branches[1..], z, Written);
      assert BranchMarks(branches[0], z, Breaking) || BranchesMark(branches[1..], z, Breaking);
    }
  }

  lemma {:induction false} BranchOf(branches: seq<Branch>, i: nat, z: string, k: Mark)
    requires i < |branches| && Marks(branches[i].body, z, k)
    ensures BranchesMark(branches, z, k)
  {
    hide Marks;
    if i > 0 {
      BranchOf(branches[1..], i - 1, z, k);
    }
  }

  lemma {:induction false} DeclaredIsWritten(stmts: seq<Stmt>, z: string)
    ensures SomeMarks(stmts, z, Declared) ==> SomeMarks(stmts, z, Written) && SomeMarks(stmts, z, Breaking)
  {
    if SomeMarks(stmts, z, Declared) {
      if StmtMarks(stmts[0], z, Declared) {
        assert StmtMarks(stmts[0], z, Written) && StmtMarks(stmts[0], z, Breaking);
      } else {
        DeclaredIsWritten(stmts[1..], z);
        assert SomeMarks(stmts[1..], z, Written) && SomeMarks(stmts[1..], z, Breaking);
      }
    }
  }

  // the marks of each kind of statement

  lemma LocalMarks(x: string, init: Option<Expr>, z: string, k: Mark)
    ensures Marks([Local(x, init)], z, k) ==> x == z
  {
    MarksOne(Local(x, init), z, k);
  }

  lemma AssignMarks(x: string, v: Expr, z: string, k: Mark)
    ensures Marks([Assign(Name(x), v)], z, k) ==> k != Declared && x == z
  {
    MarksOne(Assign(Name(x), v), z, k);
  }

  lemma ChainMarks(branches: seq<Branch>, els: seq<Stmt>, z: string, k: Mark)
    ensures Marks([If(branches, els)], z, k) ==> k != Declared && (Marks(els, z, k) || BranchesMark(branches, z, k))
  {
    MarksOne(If(branches, els), z, k);
  }

  lemma BranchesMarkSplit(b: Branch, rest: seq<Branch>, z: string, k: Mark)
    ensures BranchesMark([b] + rest, z, k) ==> Marks(b.body, z, k) || BranchesMark(rest, z, k)
    ensures !BranchesMark([], z, k)
  {
    assert ([b] + rest)[0] == b && ([b] + rest)[1..] == rest;
    if BranchesMark([b] + rest, z, k) && BranchMarks(b, z, k) {
      assert Marks(b.body, z, k);
    }
  }

  lemma IfMarks(cond: Expr, body: seq<Stmt>, els: seq<Stmt>, z: string, k: Mark)
    ensures Marks([If([Branch(cond, body)], els)], z, k) ==> k != Declared && (Marks(body, z, k) || Marks(els, z, k))
  {
    ChainMarks([Branch(cond, body)], els, z, k);
    BranchesMarkSplit(Branch(cond, body), [], z, k);
    assert [Branch(cond, body)] + [] == [Branch(cond, body)];
  }

  lemma WhileMarks(cond: Expr, body: seq<Stmt>, z: string, k: Mark)
    ensures Marks([While(cond, body)], z, k) ==> k != Declared && Marks(body, z, Breaking)
  {
    MarksOne(While(cond, body), z, k);
  }

  lemma DoMarks(body: seq<Stmt>, z: string, k: Mark)
    ensures Marks([Do(body)], z, k) ==> k != Declared && Marks(body, z, k)
  {
    MarksOne(Do(body), z, k);
  }

  lemma PlainMarks(st: Stmt, z: string, k: Mark)
    requires st.Expression? || st.Return? || st.Break?
    ensures !Marks([st], z, k) && !Marks([], z, k)
  {
    MarksOne(st, z, k);
  }

  lemma BreakMarks(stmts: seq<Stmt>, z: string, k: Mark)
    ensures Marks(stmts + [Break], z, k) ==> k != Written && Marks(stmts, z, k)
  {
    assert (stmts + [Break])[|stmts|].Break?;
    MarksConcat(stmts, [Break], z, k);
    PlainMarks(Break, z, k);
  }

  // ---- running keeps what is not marked ----

  ghost predicate Finished(r: Outcome) {
    r.Normal? || r.Broke?
  }

  /** Only declared locals are new, and nothing unmarked changes. */
  ghost predicate Keeps(s: Store, r: Outcome, declared: bool, written: bool, breaking: bool, z: string) {
    && (Finished(r) ==> Extends(s, r.store) && (!declared ==> forall i :: |s| <= i < |r.store| ==> r.store[i].name != z))
    && (r.Normal? && !written ==> Lookup(r.store, z) == Lookup(s, z))
    && (r.Broke? && !breaking ==> Lookup(r.store, z) == Lookup(s, z))
  }

  ghost predicate RunKeepsAt(stmts: seq<Stmt>, s: Store, r: Outcome, z: string) {
    Keeps(s, r, SomeMarks(stmts, z, Declared), Marks(stmts, z, Written), SomeMarks(stmts, z, Breaking), z)
  }

  ghost predicate StepKeepsAt(st: Stmt, s: Store, r: Outcome, z: string) {
    Keeps(s, r, StmtMarks(st, z, Declared), StmtMarks(st, z, Written), StmtMarks(st, z, Breaking), z)
  }

  lemma {:induction false} RunKeeps(stmts: seq<Stmt>, s: Store, f: Functions, fuel: nat, z: string)
    ensures RunKeepsAt(stmts, s, Run(stmts, s, f, fuel), z)
    decreases fuel, stmts, 0
  {
    hide StmtMarks, Step, Keeps;
    if stmts == [] {
      KeepsSelf(s, z);
    } else {
      var r := Step(stmts[0], s, f, fuel);
      StepKeeps(stmts[0], s, f, fuel, z);
      if r.Normal? {
        RunKeeps(stmts[1..], r.store, f, fuel, z);
        StmtWrittenIsBreaking(stmts[0], z);
        NormalHasNoBreak(stmts, s, f, fuel);
        KeepsThen(stmts, s, r, Run(stmts[1..], r.store, f, fuel), z);
      } else {
        KeepsFirst(stmts, s, r, z);
      }
    }
  }

  lemma KeepsSelf(s: Store, z: string)
    ensures RunKeepsAt([], s, Normal(s), z)
  {
    hide Lookup, Marks, SomeMarks;
  }

  lemma KeepsFirst(stmts: seq<Stmt>, s: Store, r: Outcome, z: string)
    requires hide *; stmts != [] && StepKeepsAt(stmts[0], s, r, z) && !r.Normal?
    ensures RunKeepsAt(stmts, s, r, z)
  {
    hide StmtMarks, Lookup;
  }

  lemma KeepsThen(stmts: seq<Stmt>, s: Store, r: Outcome, q: Outcome, z: string)
    requires hide *; stmts != [] && StepKeepsAt(stmts[0], s, r, z) && r.Normal? && RunKeepsAt(stmts[1..], r.store, q, z)
    requires StmtMarks(stmts[0], z, Written) ==> StmtMarks(stmts[0], z, Breaking)
    requires q.Normal? ==> !HasBreak(stmts)
    ensures RunKeepsAt(stmts, s, q, z)
  {
    hide Lookup;
    assert forall k: Mark :: SomeMarks(stmts, z, k) == (StmtMarks(stmts[0], z, k) || SomeMarks(stmts[1..], z, k));
    if q.Normal? {
      assert !HasBreak(stmts[1..]) by {
        forall i | 0 <= i < |stmts[1..]| ensures !stmts[1..][i].Break? { assert stmts[i + 1] == stmts[1..][i]; }
      }
    }
  }

  lemma {:induction false} NormalHasNoBreak(stmts: seq<Stmt>, s: Store, f: Functions, fuel: nat)
    ensures Run(stmts, s, f, fuel).Normal? ==> !HasBreak(stmts)
  {
    if stmts != [] {
      var r := Step(stmts[0], s, f, fuel);
      if r.Normal? {
        NormalHasNoBreak(stmts[1..], r.store, f, fuel);
        if HasBreak(stmts) {
          var i :| 0 <= i < |stmts| && stmts[i].Break?;
          assert i > 0 ==> stmts[1..][i - 1] == stmts[i];
        }
      }
    }
  }

  /** Leaving a block keeps what was there before it. */
  lemma LeaveKeeps(s: Store, r: Outcome, d: bool, w: bool, b: bool, z: string)
    requires Keeps(s, r, d, w, b, z) && (d ==> w && b)
    ensures Keeps(s, Leave(r, |s|), false, w, b, z)
  {
    if Finished(r) && !d {
      LookupPrefix(r.store, |s|, z);
    }
  }

  lemma KeepsWeaken(s: Store, r: Outcome, w: bool, b: bool, w1: bool, b1: bool, z: string)
    requires Keeps(s, r, false, w, b, z) && (w ==> w1) && (b ==> b1)
    ensures Keeps(s, r, false, w1, b1, z)
  {
  }

  lemma {:induction false} BlockKeeps(body: seq<Stmt>, s: Store, f: Functions, fuel: nat, z: string)
    ensures hide *; Keeps(s, Leave(Run(body, s, f, fuel), |s|), false, Marks(body, z, Written), SomeMarks(body, z, Breaking), z)
    decreases fuel, body, 1
  {
    hide Keeps, StmtMarks, Run, Leave;
    var r := Run(body, s, f, fuel);
    RunKeeps(body, s, f, fuel, z);
    DeclaredIsWritten(body, z);
    if HasBreak(body) {
      NormalHasNoBreak(body, s, f, fuel);
      LeaveKeepsBroken(s, r, SomeMarks(body, z, Declared), Marks(body, z, Written), SomeMarks(body, z, Breaking), z);
    } else {
      LeaveKeeps(s, r, SomeMarks(body, z, Declared), Marks(body, z, Written), SomeMarks(body, z, Breaking), z);
    }
  }

  lemma LeaveKeepsBroken(s: Store, r: Outcome, d: bool, w: bool, b: bool, z: string)
    requires Keeps(s, r, d, w, b, z) && (d ==> b) && !r.Normal?
    ensures Keeps(s, Leave(r, |s|), false, w, b, z)
  {
    hide Lookup;
    if Finished(r) && !d {
      LookupPrefix(r.store, |s|, z);
    }
  }

  lemma {:induction false} StepKeeps(st: Stmt, s: Store, f: Functions, fuel: nat, z: string)
    ensures StepKeepsAt(st, s, Step(st, s, f, fuel), z)
    decreases fuel, st, 2
  {
    hide Eval, Marks, SomeMarks, Run, RunWhile, RunFor, RunIf, ForValues, Store1, Lookup;
    match st {
      case Local(x, init) =>
        if init.None? {
          LookupAppend(s, Binding(x, NilV), z);
        } else if Eval(init.value, s, f).Some? {
          LookupAppend(s, Binding(x, Eval(init.value, s, f).value), z);
        }
      case Assign(target, value) =>
        if Eval(value, s, f).Some? {
          StoreKeeps(target, Eval(value, s, f).value, s, f, z);
        }
      case Do(body) => BlockKeeps(body, s, f, fuel, z); MarksBreaking(body, z);
      case While(cond, body) => WhileKeeps(cond, body, s, f, fuel, z);
      case For(x, start, stop, step, body) =>
        var a, b := Eval(start, s, f), Eval(stop, s, f);
        if a.Some? && a.value.IntV? && b.Some? && b.value.IntV? && step != 0 {
          ForKeeps(x, ForValues(a.value.n, b.value.n, step), body, s, f, fuel, z);
        }
      case If(_, _) => IfKeeps(st, 0, s, f, fuel, z);
      case _ =>
    }
  }

  lemma StoreKeeps(target: Expr, v: Value, s: Store, f: Functions, z: string)
    ensures hide *; var r := Store1(target, v, s, f);
            r.Some? ==> |r.value| == |s| && Extends(s, r.value) && (!Stores(target, z) ==> Lookup(r.value, z) == Lookup(s, z))
  {
    hide Eval, Update, SetElement, Lookup;
    var r := Store1(target, v, s, f);
    if r.Some? {
      match target {
        case Name(x) => LookupUpdate(s, x, v, z);
        case Field(base, name) =>
          var t := Lookup(s, base.id).value;
          LookupUpdate(s, base.id, t.(named := t.named[name := v]), z);
        case Index(base, index) =>
          LookupUpdate(s, base.id, SetElement(Lookup(s, base.id).value, Eval(index, s, f).value, v).value, z);
        case _ =>
      }
    }
  }

  lemma {:induction false} IfKeeps(st: Stmt, k: nat, s: Store, f: Functions, fuel: nat, z: string)
    requires hide *; st.If? && k <= |st.branches|
    ensures StepKeepsAt(st, s, RunIf(st, k, s, f, fuel), z)
    decreases fuel, st, 1, |st.branches| - k
  {
    hide Eval, Keeps, Lookup;
    if k == |st.branches| {
      BlockKeeps(st.els, s, f, fuel, z);
      MarksBreaking(st.els, z);
      KeepsWeaken(s, RunIf(st, k, s, f, fuel), Marks(st.els, z, Written), SomeMarks(st.els, z, Breaking), StmtMarks(st, z, Written), StmtMarks(st, z, Breaking), z);
    } else {
      var c := Eval(st.branches[k].cond, s, f);
      if c.None? {
        KeepsFailed(s, StmtMarks(st, z, Declared), StmtMarks(st, z, Written), StmtMarks(st, z, Breaking), z);
      } else if Truthy(c.value) {
        var b := st.branches[k];
        BlockKeeps(b.body, s, f, fuel, z);
        MarksBreaking(b.body, z);
        assert RunIf(st, k, s, f, fuel) == RunBranch(b, s, f, fuel) == Leave(Run(b.body, s, f, fuel), |s|);
        if Marks(b.body, z, Written) { BranchOf(st.branches, k, z, Written); }
        if Marks(b.body, z, Breaking) { BranchOf(st.branches, k, z, Breaking); }
        KeepsWeaken(s, RunIf(st, k, s, f, fuel), Marks(b.body, z, Written), SomeMarks(b.body, z, Breaking), StmtMarks(st, z, Written), StmtMarks(st, z, Breaking), z);
      } else {
        IfKeeps(st, k + 1, s, f, fuel, z);
      }
    }
  }

  lemma KeepsFailed(s: Store, d: bool, w: bool, b: bool, z: string)
    ensures Keeps(s, Failed, d, w, b, z) && Keeps(s, OutOfFuel, d, w, b, z)
  {
  }

  lemma MarksBreaking(stmts: seq<Stmt>, z: string)
    ensures Marks(stmts, z, Breaking) == SomeMarks(stmts, z, Breaking)
    ensures Marks(stmts, z, Written) ==> SomeMarks(stmts, z, Breaking)
    ensures Marks(stmts, z, Declared) == SomeMarks(stmts, z, Declared)
  {
    WrittenIsBreaking(stmts, z);
  }

  lemma {:induction false} WhileKeeps(cond: Expr, body: seq<Stmt>, s: Store, f: Functions, fuel: nat, z: string)
    ensures var m := Marks(body, z, Breaking); Keeps(s, RunWhile(cond, body, s, f, fuel), false, m, m, z)
    decreases fuel, body, 2
  {
    hide Eval, Marks, SomeMarks, Run, Leave, Lookup;
    if fuel > 0 && Eval(cond, s, f).Some? && Truthy(Eval(cond, s, f).value) {
      BlockKeeps(body, s, f, fuel - 1, z);
      MarksBreaking(body, z);
      var r := Leave(Run(body, s, f, fuel - 1), |s|);
      if r.Normal? {
        WhileKeeps(cond, body, r.store, f, fuel - 1, z);
      }
    }
  }

  lemma {:induction false} ForKeeps(x: string, values: seq<int>, body: seq<Stmt>, s: Store, f: Functions, fuel: nat, z: string)
    ensures var m := x == z || Marks(body, z, Breaking); Keeps(s, RunFor(x, values, body, s, f, fuel), false, m, m, z)
    decreases fuel, body, 2, |values|
  {
    hide Eval, Marks, SomeMarks, Run, Lookup;
    if values != [] {
      var t := s + [Binding(x, IntV(values[0]))];
      RunKeeps(body, t, f, fuel, z);
      DeclaredIsWritten(body, z);
      MarksBreaking(body, z);
      LookupAppend(s, Binding(x, IntV(values[0])), z);
      var r := Run(body, t, f, fuel);
      if Finished(r) && x != z && !SomeMarks(body, z, Declared) {
        LookupPrefix(r.store, |s|, z);
      }
      var l := Leave(r, |s|);
      if l.Normal? {
        ForKeeps(x, values[1..], body, l.store, f, fuel, z);
      }
    }
  }

  // ---- running one list after another ----

  lemma {:induction false} RunAppend(a: seq<Stmt>, b: seq<Stmt>, s: Store, f: Functions, fuel: nat)
    ensures hide *; var r := Run(a, s, f, fuel);
            Run(a + b, s, f, fuel) == if r.Normal? then Run(b, r.store, f, fuel) else r
    decreases a
  {
    hide Step;
    if a == [] {
      assert a + b == b;
    } else {
      assert (a + b)[0] == a[0] && (a + b)[1..] == a[1..] + b;
      var r := Step(a[0], s, f, fuel);
      if r.Normal? {
        RunAppend(a[1..], b, r.store, f, fuel);
      }
    }
  }

  lemma RunOne(st: Stmt, s: Store, f: Functions, fuel: nat)
    ensures Run([st], s, f, fuel) == Step(st, s, f, fuel)
  {
    hide Step;
    var r := Step(st, s, f, fuel);
    if r.Normal? {
      assert [st][1..] == [] && Run([], r.store, f, fuel) == r;
    }
  }

  // ---- what expressions read ----

  ghost predicate Reads(e: Expr, z: string)
    decreases e
  {
    match e
    case Name(x) => x == z
    case Field(base, _) => Reads(base, z)
    case Index(base, index) => Reads(base, z) || Reads(index, z)
    case Call(_, args) => exists i :: 0 <= i < |args| && Reads(args[i], z)
    case Unary(_, operand) => Reads(operand, z)
    case Binary(left, _, right) => Reads(left, z) || Reads(right, z)
    case Table(fields) => exists i :: 0 <= i < |fields| && FieldReads(fields[i], z)
    case Parenthesized(inner) => Reads(inner, z)
    case _ => false
  }

  ghost predicate FieldReads(field: TableField, z: string)
    decreases field
  {
    match field
    case Named(_, value) => Reads(value, z)
    case Value(value) => Reads(value, z)
    case Indexed(index, value) => Reads(index, z) || Reads(value, z)
  }

  ghost predicate SameFor(e: Expr, s: Store, t: Store) {
    forall z :: Reads(e, z) ==> Lookup(s, z) == Lookup(t, z)
  }

  lemma {:induction false} EvalReads(e: Expr, s: Store, t: Store, f: Functions)
    requires SameFor(e, s, t)
    ensures Eval(e, s, f) == Eval(e, t, f)
    decreases e
  {
    hide Lookup, EvalUnary, EvalBinary, GetField, GetIndex;
    match e {
      case Name(x) => assert Reads(e, x);
      case Field(base, _) => SubSame(e, base, s, t); EvalReads(base, s, t, f);
      case Index(base, index) =>
        SubSame(e, base, s, t);
        SubSame(e, index, s, t);
        EvalReads(base, s, t, f);
        EvalReads(index, s, t, f);
      case Call(_, args) =>
        forall i | 0 <= i < |args| ensures SameFor(args[i], s, t) {
          SubSame(e, args[i], s, t);
        }
        EvalAllReads(args, s, t, f);
      case Unary(_, operand) => SubSame(e, operand, s, t); EvalReads(operand, s, t, f);
      case Binary(left, op, right) =>
        SubSame(e, left, s, t);
        SubSame(e, right, s, t);
        EvalReads(left, s, t, f);
        EvalReads(right, s, t, f);
      case Table(fields) =>
        forall i | 0 <= i < |fields| ensures forall z :: FieldReads(fields[i], z) ==> Lookup(s, z) == Lookup(t, z) {
          forall z | FieldReads(fields[i], z) ensures Lookup(s, z) == Lookup(t, z) {
            assert Reads(e, z);
          }
        }
        EvalFieldsRead(fields, s, t, f);
      case Parenthesized(inner) => SubSame(e, inner, s, t); EvalReads(inner, s, t, f);
      case _ =>
    }
  }

  lemma SubSame(e: Expr, sub: Expr, s: Store, t: Store)
    requires SameFor(e, s, t) && forall z :: Reads(sub, z) ==> Reads(e, z)
    ensures SameFor(sub, s, t)
  {
  }

  lemma {:induction false} EvalAllReads(es: seq<Expr>, s: Store, t: Store, f: Functions)
    requires hide *; forall i :: 0 <= i < |es| ==> SameFor(es[i], s, t)
    ensures EvalAll(es, s, f) == EvalAll(es, t, f)
    decreases es
  {
    hide Reads, Eval, SameFor;
    if es != [] {
      EvalReads(es[0], s, t, f);
      EvalAllReads(es[1..], s, t, f);
    }
  }

  lemma {:induction false} EvalFieldsRead(fs: seq<TableField>, s: Store, t: Store, f: Functions)
    requires hide *; forall i, z :: 0 <= i < |fs| && FieldReads(fs[i], z) ==> Lookup(s, z) == Lookup(t, z)
    ensures EvalFields(fs, s, f) == EvalFields(fs, t, f)
    decreases fs
  {
    hide Lookup;
    if fs != [] {
      var last := fs[|fs| - 1];
      EvalFieldsRead(fs[..|fs| - 1], s, t, f);
      var rest := EvalFields(fs[..|fs| - 1], s, f);
      if rest.Some? {
        AddFieldReads(rest.value, last, s, t, f);
      }
    }
  }

  lemma {:induction false} AddFieldReads(v: Value, field: TableField, s: Store, t: Store, f: Functions)
    requires forall z :: FieldReads(field, z) ==> Lookup(s, z) == Lookup(t, z)
    ensures AddField(v, field, s, f) == AddField(v, field, t, f)
    decreases field
  {
    hide Lookup;
    match field {
      case Named(_, value) => EvalReads(value, s, t, f);
      case Value(value) => EvalReads(value, s, t, f);
      case Indexed(_, _) =>
    }
  }
}
