/** Iterator chains: running adapter after adapter over lists, and running all of them in one loop. */
module IterChains {
  import opened Wrappers
  import opened RuaLang

  /** A pure closure; None where it is not defined. */
  type Fn = Val -> Option<Val>

  datatype Stage =
    | Map(f: Fn)
    | Filter(f: Fn)
    | FilterMap(f: Fn)
    | Enumerate
    | Skip(limit: int)
    | Take(limit: int)
    | Rev

  datatype Sink =
    | Collect
    | Fold(init: Val, g: (Val, Val) -> Option<Val>)
    | Count
    | Any(f: Fn)
    | All(f: Fn)
    | Find(f: Fn)
    | Next

  // ---- list by list ----

  function MapAll(f: Fn, items: seq<Val>): Option<seq<Val>> {
    if items == [] then Some([])
    else
      var v := f(items[0]);
      var rest := MapAll(f, items[1..]);
      if v.None? || rest.None? then None else Some([v.value] + rest.value)
  }

  function FilterAll(f: Fn, items: seq<Val>): Option<seq<Val>> {
    if items == [] then Some([])
    else
      var v := f(items[0]);
      var rest := FilterAll(f, items[1..]);
      if v.None? || !v.value.BoolVal? || rest.None? then None
      else Some(if v.value.b then [items[0]] + rest.value else rest.value)
  }

  function FilterMapAll(f: Fn, items: seq<Val>): Option<seq<Val>> {
    if items == [] then Some([])
    else
      var v := f(items[0]);
      var rest := FilterMapAll(f, items[1..]);
      if v.None? || rest.None? then None
      else match v.value
        case SomeVal(w) => Some([w] + rest.value)
        case NoneVal => rest
        case _ => None
  }

  function Pairs(items: seq<Val>, from: int): seq<Val> {
    if items == [] then [] else [VecVal([IntVal(from), items[0]])] + Pairs(items[1..], from + 1)
  }

  function Clamp(k: int, n: nat): (r: nat)
    ensures r <= n
  {
    if k <= 0 then 0 else if k >= n then n else k
  }

  function Reverse<T>(items: seq<T>): (r: seq<T>)
    ensures |r| == |items| && forall i :: 0 <= i < |items| ==> r[i] == items[|items| - 1 - i]
  {
    if items == [] then [] else Reverse(items[1..]) + [items[0]]
  }

  function Apply(stage: Stage, items: seq<Val>): Option<seq<Val>> {
    match stage
    case Map(f) => MapAll(f, items)
    case Filter(f) => FilterAll(f, items)
    case FilterMap(f) => FilterMapAll(f, items)
    case Enumerate => Some(Pairs(items, 0))
    case Skip(k) => Some(items[Clamp(k, |items|)..])
    case Take(k) => Some(items[..Clamp(k, |items|)])
    case Rev => Some(Reverse(items))
  }

  function ApplyAll(stages: seq<Stage>, items: seq<Val>): Option<seq<Val>> {
    if stages == [] then Some(items)
    else
      var next := Apply(stages[0], items);
      if next.None? then None else ApplyAll(stages[1..], next.value)
  }

  function FoldAll(g: (Val, Val) -> Option<Val>, acc: Val, items: seq<Val>): Option<Val>
    decreases |items|
  {
    if items == [] then Some(acc)
    else
      var next := g(acc, items[0]);
      if next.None? then None else FoldAll(g, next.value, items[1..])
  }

  /** The first item the closure accepts; items after it are not looked at. */
  function FirstOf(f: Fn, items: seq<Val>): Option<Option<Val>> {
    if items == [] then Some(None)
    else
      var v := f(items[0]);
      if v.None? || !v.value.BoolVal? then None
      else if v.value.b then Some(Some(items[0]))
      else FirstOf(f, items[1..])
  }

  /** The first item the closure refuses. */
  function FirstNot(f: Fn, items: seq<Val>): Option<Option<Val>> {
    if items == [] then Some(None)
    else
      var v := f(items[0]);
      if v.None? || !v.value.BoolVal? then None
      else if !v.value.b then Some(Some(items[0]))
      else FirstNot(f, items[1..])
  }

  /** `Some` of an item that is not itself nil. */
  function Present(v: Option<Val>): Option<Val> {
    if v.None? then Some(NoneVal) else if NilLike(v.value) then None else Some(SomeVal(v.value))
  }

  function Consume(sink: Sink, items: seq<Val>): Option<Val> {
    match sink
    case Collect => Some(VecVal(items))
    case Fold(init, g) => FoldAll(g, init, items)
    case Count => Some(IntVal(|items|))
    case Any(f) =>
      var r := FirstOf(f, items);
      if r.None? then None else Some(BoolVal(r.value.Some?))
    case All(f) =>
      var r := FirstNot(f, items);
      if r.None? then None else Some(BoolVal(r.value.None?))
    case Find(f) =>
      var r := FirstOf(f, items);
      if r.None? then None else Present(r.value)
    case Next => Present(if items == [] then None else Some(items[0]))
  }

  // ---- one loop ----

  /** What the loop body does with an item: hand it to the consumer, drop it, or break. */
  datatype Pushed = Passed(v: Val, counts: seq<int>) | Dropped(counts: seq<int>) | Stopped | Undefined

  function Prepend(count: int, p: Pushed): Pushed {
    match p
    case Passed(v, counts) => Passed(v, [count] + counts)
    case Dropped(counts) => Dropped([count] + counts)
    case _ => p
  }

  /** An item goes through all stages; each stage keeps one counter. */
  function Push(stages: seq<Stage>, counts: seq<int>, v: Val): Pushed
    requires |counts| == |stages|
    decreases |stages|
  {
    if stages == [] then Passed(v, [])
    else
      var n := counts[0];
      match stages[0]
      case Map(f) =>
        var w := f(v);
        if w.None? then Undefined else Prepend(n, Push(stages[1..], counts[1..], w.value))
      case Filter(f) =>
        var w := f(v);
        if w.None? || !w.value.BoolVal? then Undefined
        else if w.value.b then Prepend(n, Push(stages[1..], counts[1..], v))
        else Dropped(counts)
      case FilterMap(f) =>
        (match f(v)
         case Some(SomeVal(w)) => Prepend(n, Push(stages[1..], counts[1..], w))
         case Some(NoneVal) => Dropped(counts)
         case _ => Undefined)
      case Enumerate => Prepend(n + 1, Push(stages[1..], counts[1..], VecVal([IntVal(n), v])))
      case Skip(k) => if n < k then Dropped([n + 1] + counts[1..]) else Prepend(n, Push(stages[1..], counts[1..], v))
      case Take(k) => if n >= k then Stopped else Prepend(n + 1, Push(stages[1..], counts[1..], v))
      case Rev => Prepend(n, Push(stages[1..], counts[1..], v))
  }

  /** The test after the body: some `take` has had all its items. */
  predicate Exhausted(stages: seq<Stage>, counts: seq<int>)
    requires |counts| == |stages|
  {
    stages != [] && ((stages[0].Take? && counts[0] >= stages[0].limit) || Exhausted(stages[1..], counts[1..]))
  }

  /** What the consumer has before the first item. */
  function Init(sink: Sink): Val {
    match sink
    case Collect => VecVal([])
    case Fold(init, _) => init
    case Count => IntVal(0)
    case Any(_) => BoolVal(false)
    case All(_) => BoolVal(true)
    case Find(_) => NoneVal
    case Next => NoneVal
  }

  datatype Taken = Taken(acc: Val, stop: bool)

  /** One item reaches the consumer. */
  function Sinks(sink: Sink, acc: Val, v: Val): Option<Taken> {
    match sink
    case Collect => if acc.VecVal? then Some(Taken(VecVal(acc.elems + [v]), false)) else None
    case Fold(_, g) =>
      var next := g(acc, v);
      if next.None? then None else Some(Taken(next.value, false))
    case Count => if acc.IntVal? then Some(Taken(IntVal(acc.n + 1), false)) else None
    case Any(f) =>
      var b := f(v);
      if b.None? || !b.value.BoolVal? then None else Some(if b.value.b then Taken(BoolVal(true), true) else Taken(acc, false))
    case All(f) =>
      var b := f(v);
      if b.None? || !b.value.BoolVal? then None else Some(if b.value.b then Taken(acc, false) else Taken(BoolVal(false), true))
    case Find(f) =>
      var b := f(v);
      if b.None? || !b.value.BoolVal? then None
      else if !b.value.b then Some(Taken(acc, false))
      else if NilLike(v) then None
      else Some(Taken(SomeVal(v), true))
    case Next => if NilLike(v) then None else Some(Taken(SomeVal(v), true))
  }

  /** One round of the loop: the counters and the result afterwards, and whether it breaks. */
  datatype Round = Round(counts: seq<int>, acc: Val, stop: bool)

  function OneRound(stages: seq<Stage>, counts: seq<int>, sink: Sink, acc: Val, v: Val): Option<Round>
    requires |counts| == |stages|
  {
    match Push(stages, counts, v)
    case Undefined => None
    case Stopped => Some(Round(counts, acc, true))
    case Dropped(next) => if |next| != |stages| then None else Some(Round(next, acc, Exhausted(stages, next)))
    case Passed(w, next) =>
      var t := Sinks(sink, acc, w);
      if t.None? || |next| != |stages| then None
      else Some(Round(next, t.value.acc, t.value.stop || Exhausted(stages, next)))
  }

  function Rounds(stages: seq<Stage>, counts: seq<int>, sink: Sink, acc: Val, items: seq<Val>): Option<Val>
    requires |counts| == |stages|
    decreases |items|
  {
    if items == [] then Some(acc)
    else
      var r := OneRound(stages, counts, sink, acc, items[0]);
      if r.None? || |r.value.counts| != |stages| then None
      else if r.value.stop then Some(r.value.acc)
      else Rounds(stages, r.value.counts, sink, r.value.acc, items[1..])
  }

  function Zeros(n: nat): (r: seq<int>)
    ensures |r| == n && forall i :: 0 <= i < n ==> r[i] == 0
  {
    if n == 0 then [] else [0] + Zeros(n - 1)
  }

  function RevCount(stages: seq<Stage>): nat {
    if stages == [] then 0 else (if stages[0].Rev? then 1 else 0) + RevCount(stages[1..])
  }

  /** The order in which the loop visits the source: an odd number of reversals runs it backwards. */
  function Visits<T>(stages: seq<Stage>, items: seq<T>): seq<T> {
    if RevCount(stages) % 2 == 1 then Reverse(items) else items
  }

  function FusedRun(stages: seq<Stage>, sink: Sink, items: seq<Val>): Option<Val> {
    Rounds(stages, Zeros(|stages|), sink, Init(sink), Visits(stages, items))
  }

  /** Chains are fused only when nothing comes before a reversal but other reversals. */
  ghost predicate Accepted(stages: seq<Stage>) {
    forall i, j :: 0 <= i < j < |stages| && stages[j].Rev? ==> stages[i].Rev?
  }

  // ---- what remains of the list semantics in the middle of the loop ----

  function From(stage: Stage, count: int, items: seq<Val>): Option<seq<Val>> {
    match stage
    case Enumerate => Some(Pairs(items, count))
    case Skip(k) => Some(items[Clamp(k - count, |items|)..])
    case Take(k) => Some(items[..Clamp(k - count, |items|)])
    case Rev => Some(items)
    case _ => Apply(stage, items)
  }

  function FromAll(stages: seq<Stage>, counts: seq<int>, items: seq<Val>): Option<seq<Val>>
    requires |counts| == |stages|
    decreases |stages|
  {
    if stages == [] then Some(items)
    else
      var next := From(stages[0], counts[0], items);
      if next.None? then None else FromAll(stages[1..], counts[1..], next.value)
  }

  /** An item at the head of the source does to the rest of the list semantics what it does in the loop. */
  ghost predicate PushAgrees(p: Pushed, before: Option<seq<Val>>, stages: seq<Stage>, items: seq<Val>) {
    before.Some? ==>
      match p
      case Undefined => false
      case Stopped => before.value == []
      case Dropped(next) => |next| == |stages| && FromAll(stages, next, items) == before
      case Passed(w, next) =>
        && |next| == |stages| && before.value != [] && before.value[0] == w
        && FromAll(stages, next, items) == Some(before.value[1..])
  }

  lemma {:induction false} PushStep(stages: seq<Stage>, counts: seq<int>, v: Val, items: seq<Val>)
    requires |counts| == |stages|
    ensures PushAgrees(Push(stages, counts, v), FromAll(stages, counts, [v] + items), stages, items)
    decreases |stages|
  {
    var all := [v] + items;
    if stages == [] {
      assert all[0] == v && all[1..] == items;
    } else {
      StageStep(stages, counts, v, items);
    }
  }

  /** The first stage turns the head into at most one item for the next. */
  lemma {:induction false} StageStep(stages: seq<Stage>, counts: seq<int>, v: Val, items: seq<Val>)
    requires |counts| == |stages| && stages != []
    ensures PushAgrees(Push(stages, counts, v), FromAll(stages, counts, [v] + items), stages, items)
    decreases |stages|, 0
  {
    var n := counts[0];
    match stages[0] {
      case Map(f) =>
        HeadOf(v, items);
        if f(v).Some? { PassOn(stages, counts, n, v, f(v).value, items); }
      case Filter(f) =>
        HeadOf(v, items);
        if f(v).Some? && f(v).value == BoolVal(true) {
          PassOn(stages, counts, n, v, v, items);
        } else if f(v).Some? && f(v).value == BoolVal(false) {
          DropHere(stages, counts, n, v, items);
        }
      case FilterMap(f) =>
        HeadOf(v, items);
        if f(v).Some? && f(v).value.SomeVal? {
          PassOn(stages, counts, n, v, f(v).value.payload, items);
        } else if f(v).Some? && f(v).value.NoneVal? {
          DropHere(stages, counts, n, v, items);
        }
      case Enumerate =>
        HeadOf(v, items);
        PassOn(stages, counts, n + 1, v, VecVal([IntVal(n), v]), items);
      case Skip(_) => SkipStep(stages, counts, v, items);
      case Take(_) => TakeStep(stages, counts, v, items);
      case Rev => PassOn(stages, counts, n, v, v, items);
    }
  }

  lemma {:induction false} SkipStep(stages: seq<Stage>, counts: seq<int>, v: Val, items: seq<Val>)
    requires |counts| == |stages| && stages != [] && stages[0].Skip?
    ensures PushAgrees(Push(stages, counts, v), FromAll(stages, counts, [v] + items), stages, items)
    decreases |stages|, 0, 1
  {
    var n := counts[0];
    if n < stages[0].limit {
      var m := Clamp(stages[0].limit - n - 1, |items|);
      assert Clamp(stages[0].limit - n, |items| + 1) == m + 1;
      assert ([v] + items)[m + 1..] == items[m..];
      DropHere(stages, counts, n + 1, v, items);
    } else {
      assert ([v] + items)[0..] == [v] + items && items[0..] == items;
      PassOn(stages, counts, n, v, v, items);
    }
  }

  lemma {:induction false} TakeStep(stages: seq<Stage>, counts: seq<int>, v: Val, items: seq<Val>)
    requires |counts| == |stages| && stages != [] && stages[0].Take?
    ensures PushAgrees(Push(stages, counts, v), FromAll(stages, counts, [v] + items), stages, items)
    decreases |stages|, 0, 1
  {
    var n, k := counts[0], stages[0].limit;
    if n < k {
      var m := Clamp(k - n - 1, |items|);
      assert Clamp(k - n, |items| + 1) == m + 1;
      assert ([v] + items)[..m + 1] == [v] + items[..m];
      PassOn(stages, counts, n + 1, v, v, items);
    } else {
      NothingLeft(stages[1..], counts[1..]);
      assert ([v] + items)[..0] == [];
    }
  }

  lemma HeadOf(v: Val, items: seq<Val>)
    ensures ([v] + items)[0] == v && ([v] + items)[1..] == items
  {
  }

  lemma {:induction false} NothingLeft(stages: seq<Stage>, counts: seq<int>)
    requires |counts| == |stages|
    ensures FromAll(stages, counts, []) == Some([])
  {
    if stages != [] {
      NothingLeft(stages[1..], counts[1..]);
    }
  }

  /** The stage drops the item and may count it. */
  lemma DropHere(stages: seq<Stage>, counts: seq<int>, n: int, v: Val, items: seq<Val>)
    requires |counts| == |stages| && stages != []
    requires From(stages[0], counts[0], [v] + items).Some? ==> From(stages[0], n, items) == From(stages[0], counts[0], [v] + items)
    ensures var next := [n] + counts[1..];
            |next| == |stages| &&
            (FromAll(stages, counts, [v] + items).Some? ==> FromAll(stages, next, items) == FromAll(stages, counts, [v] + items))
    ensures n == counts[0] ==> [n] + counts[1..] == counts
  {
    var next := [n] + counts[1..];
    assert next[0] == n && next[1..] == counts[1..];
  }

  /** The stage hands w on to the other stages, which is the claim for them. */
  lemma {:induction false} PassOn(stages: seq<Stage>, counts: seq<int>, n: int, v: Val, w: Val, items: seq<Val>)
    requires |counts| == |stages| && stages != []
    requires var before, after := From(stages[0], counts[0], [v] + items), From(stages[0], n, items);
             before.Some? ==> after.Some? && before.value == [w] + after.value
    ensures PushAgrees(Prepend(n, Push(stages[1..], counts[1..], w)), FromAll(stages, counts, [v] + items), stages, items)
    decreases |stages|, 0, 0
  {
    var before, after := From(stages[0], counts[0], [v] + items), From(stages[0], n, items);
    if before.Some? {
      var p := Push(stages[1..], counts[1..], w);
      PushStep(stages[1..], counts[1..], w, after.value);
      match p {
        case Passed(_, next) => assert ([n] + next)[0] == n && ([n] + next)[1..] == next;
        case Dropped(next) => assert ([n] + next)[0] == n && ([n] + next)[1..] == next;
        case _ =>
      }
    }
  }

  lemma {:induction false} ExhaustedIsEmpty(stages: seq<Stage>, counts: seq<int>, items: seq<Val>)
    requires |counts| == |stages| && Exhausted(stages, counts)
    ensures var r := FromAll(stages, counts, items); r.Some? ==> r.value == []
    decreases |stages|
  {
    var next := From(stages[0], counts[0], items);
    if stages[0].Take? && counts[0] >= stages[0].limit {
      NothingLeft(stages[1..], counts[1..]);
      assert items[..0] == [];
    } else if next.Some? {
      ExhaustedIsEmpty(stages[1..], counts[1..], next.value);
    }
  }

  // ---- the consumer ----

  /** What the consumer makes of the rest of the list when it already holds acc. */
  function ConsumeFrom(sink: Sink, acc: Val, items: seq<Val>): Option<Val>
    decreases |items|
  {
    if items == [] then Some(acc)
    else
      var t := Sinks(sink, acc, items[0]);
      if t.None? then None else if t.value.stop then Some(t.value.acc) else ConsumeFrom(sink, t.value.acc, items[1..])
  }

  lemma {:induction false} ConsumerStarts(sink: Sink, items: seq<Val>)
    ensures Consume(sink, items).Some? ==> ConsumeFrom(sink, Init(sink), items) == Consume(sink, items)
  {
    match sink {
      case Collect => CollectRest([], items); assert [] + items == items;
      case Fold(init, g) => FoldRest(sink, init, items);
      case Count => CountRest(0, items);
      case Any(f) => FirstRest(sink, f, items);
      case All(f) => FirstNotRest(f, items);
      case Find(f) => FirstRest(sink, f, items);
      case Next =>
    }
  }

  lemma {:induction false} CollectRest(done: seq<Val>, items: seq<Val>)
    ensures ConsumeFrom(Collect, VecVal(done), items) == Some(VecVal(done + items))
    decreases |items|
  {
    if items == [] {
      assert done + items == done;
    } else {
      CollectRest(done + [items[0]], items[1..]);
      assert done + [items[0]] + items[1..] == done + items;
    }
  }

  lemma {:induction false} FoldRest(sink: Sink, acc: Val, items: seq<Val>)
    requires sink.Fold?
    ensures ConsumeFrom(sink, acc, items) == FoldAll(sink.g, acc, items)
    decreases |items|
  {
    if items != [] && sink.g(acc, items[0]).Some? {
      FoldRest(sink, sink.g(acc, items[0]).value, items[1..]);
    }
  }

  lemma {:induction false} CountRest(n: int, items: seq<Val>)
    ensures ConsumeFrom(Count, IntVal(n), items) == Some(IntVal(n + |items|))
    decreases |items|
  {
    if items != [] {
      CountRest(n + 1, items[1..]);
    }
  }

  lemma {:induction false} FirstRest(sink: Sink, f: Fn, items: seq<Val>)
    requires sink == Any(f) || sink == Find(f)
    ensures Consume(sink, items).Some? ==> ConsumeFrom(sink, Init(sink), items) == Consume(sink, items)
    decreases |items|
  {
    if items != [] {
      FirstRest(sink, f, items[1..]);
    }
  }

  lemma {:induction false} FirstNotRest(f: Fn, items: seq<Val>)
    ensures Consume(All(f), items).Some? ==> ConsumeFrom(All(f), Init(All(f)), items) == Consume(All(f), items)
    decreases |items|
  {
    if items != [] {
      FirstNotRest(f, items[1..]);
    }
  }

  // ---- the loop computes the list semantics ----

  lemma {:induction false} RoundsCorrect(stages: seq<Stage>, counts: seq<int>, sink: Sink, acc: Val, items: seq<Val>)
    requires |counts| == |stages|
    requires var ys := FromAll(stages, counts, items); ys.Some? && ConsumeFrom(sink, acc, ys.value).Some?
    ensures Rounds(stages, counts, sink, acc, items) == ConsumeFrom(sink, acc, FromAll(stages, counts, items).value)
    decreases |items|
  {
    hide Push, FromAll, Sinks, Exhausted;
    var ys := FromAll(stages, counts, items).value;
    if items == [] {
      assert ys == [] by { NothingLeft(stages, counts); }
    } else {
      assert items == [items[0]] + items[1..];
      PushStep(stages, counts, items[0], items[1..]);
      match Push(stages, counts, items[0]) {
        case Undefined =>
        case Stopped =>
        case Dropped(next) =>
          if Exhausted(stages, next) {
            ExhaustedIsEmpty(stages, next, items[1..]);
          } else {
            RoundsCorrect(stages, next, sink, acc, items[1..]);
          }
        case Passed(w, next) => PassedRound(stages, counts, sink, acc, items, w, next);
      }
    }
  }

  /** The round in which an item reaches the consumer. */
  lemma {:induction false} PassedRound(stages: seq<Stage>, counts: seq<int>, sink: Sink, acc: Val, items: seq<Val>, w: Val, next: seq<int>)
    requires |counts| == |stages| && items != [] && Push(stages, counts, items[0]) == Passed(w, next)
    requires var ys := FromAll(stages, counts, items); ys.Some? && ConsumeFrom(sink, acc, ys.value).Some?
    requires PushAgrees(Push(stages, counts, items[0]), FromAll(stages, counts, items), stages, items[1..])
    ensures Rounds(stages, counts, sink, acc, items) == ConsumeFrom(sink, acc, FromAll(stages, counts, items).value)
    decreases |items|, 0
  {
    hide Push, FromAll, Sinks, Exhausted;
    var t := Sinks(sink, acc, w).value;
    if !t.stop && Exhausted(stages, next) {
      ExhaustedIsEmpty(stages, next, items[1..]);
    } else if !t.stop {
      RoundsCorrect(stages, next, sink, t.acc, items[1..]);
    }
  }

  // ---- reversals ----

  lemma ReverseTwice<T>(items: seq<T>)
    ensures Reverse(Reverse(items)) == items
  {
  }

  lemma {:induction false} NoRevLeft(stages: seq<Stage>, items: seq<Val>)
    requires RevCount(stages) == 0
    ensures FromAll(stages, Zeros(|stages|), items) == ApplyAll(stages, items)
    decreases |stages|
  {
    if stages != [] {
      var next := Apply(stages[0], items);
      assert Zeros(|stages|)[1..] == Zeros(|stages| - 1);
      assert From(stages[0], 0, items) == next;
      if next.Some? {
        NoRevLeft(stages[1..], next.value);
      }
    }
  }

  lemma {:induction false} RevFirstMeansNone(stages: seq<Stage>)
    requires Accepted(stages) && stages != [] && !stages[0].Rev?
    ensures RevCount(stages) == 0
  {
    assert forall j :: 0 < j < |stages| ==> !stages[j].Rev?;
    NoRevCount(stages[1..]);
  }

  lemma {:induction false} NoRevCount(stages: seq<Stage>)
    requires forall j :: 0 <= j < |stages| ==> !stages[j].Rev?
    ensures RevCount(stages) == 0
  {
    if stages != [] {
      NoRevCount(stages[1..]);
    }
  }

  lemma AcceptedRest(stages: seq<Stage>)
    requires Accepted(stages) && stages != []
    ensures Accepted(stages[1..])
  {
    forall i, j | 0 <= i < j < |stages[1..]| && stages[1..][j].Rev? ensures stages[1..][i].Rev? {
      assert stages[j + 1].Rev? && stages[1..][i] == stages[i + 1];
    }
  }

  lemma OneReversal(stages: seq<Stage>, items: seq<Val>, visited: seq<Val>)
    requires stages != [] && stages[0].Rev?
    ensures ApplyAll(stages, items) == ApplyAll(stages[1..], Reverse(items))
    ensures FromAll(stages, Zeros(|stages|), visited) == FromAll(stages[1..], Zeros(|stages| - 1), visited)
  {
    hide Reverse, RevCount;
    assert Zeros(|stages|)[1..] == Zeros(|stages| - 1);
  }

  lemma OneReversalVisits(stages: seq<Stage>, items: seq<Val>)
    requires stages != [] && stages[0].Rev?
    ensures Visits(stages, items) == Visits(stages[1..], Reverse(items))
  {
    hide Reverse, RevCount;
    OneMoreReversal(stages);
    ReverseTwice(items);
  }

  lemma OneMoreReversal(stages: seq<Stage>)
    requires stages != [] && stages[0].Rev?
    ensures RevCount(stages) % 2 == 1 <==> RevCount(stages[1..]) % 2 != 1
  {
  }

  /** Leading reversals only decide the direction in which the source is visited. */
  lemma {:induction false} LeadingReversals(stages: seq<Stage>, items: seq<Val>)
    requires Accepted(stages)
    ensures FromAll(stages, Zeros(|stages|), Visits(stages, items)) == ApplyAll(stages, items)
    decreases |stages|
  {
    hide FromAll, ApplyAll, Accepted, Zeros, Reverse;
    if stages == [] {
      NoRevLeft(stages, items);
    } else if !stages[0].Rev? {
      RevFirstMeansNone(stages);
      NoRevLeft(stages, items);
    } else {
      AcceptedRest(stages);
      OneReversal(stages, items, Visits(stages, items));
      OneReversalVisits(stages, items);
      LeadingReversals(stages[1..], Reverse(items));
    }
  }

  /**
   * Fusion is right: one loop with counters, guards and breaks computes what running the adapters and
   * then the consumer list by list computes. In particular no break loses an item that is still wanted.
   */
  lemma FusionIsRight(stages: seq<Stage>, sink: Sink, items: seq<Val>)
    requires Accepted(stages)
    requires var ys := ApplyAll(stages, items); ys.Some? && Consume(sink, ys.value).Some?
    ensures FusedRun(stages, sink, items) == Consume(sink, ApplyAll(stages, items).value)
  {
    var ys := ApplyAll(stages, items).value;
    LeadingReversals(stages, items);
    ConsumerStarts(sink, ys);
    RoundsCorrect(stages, Zeros(|stages|), sink, Init(sink), Visits(stages, items));
  }

  /** Why a reversal after another adapter is not fused: `take(1).rev()` would take from the wrong end. */
  lemma ReversalsMustComeFirst()
    ensures var items := [IntVal(1), IntVal(2)];
            && ApplyAll([Take(1), Rev], items) == Some([IntVal(1)])
            && FusedRun([Take(1), Rev], Collect, items) == Some(VecVal([IntVal(2)]))
  {
    hide ApplyAll, Rounds, Reverse, RevCount;
    TakeThenReverse();
    TakeFromTheEnd();
    TwoBackwards([Take(1), Rev]);
    assert Zeros(2) == [0, 0];
  }

  lemma TwoBackwards(stages: seq<Stage>)
    requires stages == [Take(1), Rev]
    ensures RevCount(stages) == 1 && Reverse([IntVal(1), IntVal(2)]) == [IntVal(2), IntVal(1)]
  {
    assert stages[1..] == [Rev] && stages[1..][1..] == [];
    assert RevCount(stages[1..]) == 1;
  }

  lemma TakeThenReverse()
    ensures ApplyAll([Take(1), Rev], [IntVal(1), IntVal(2)]) == Some([IntVal(1)])
  {
    var items := [IntVal(1), IntVal(2)];
    assert items[..1] == [IntVal(1)] && [Take(1), Rev][1..] == [Rev] && [Rev][1..] == [];
    assert Reverse([IntVal(1)]) == [IntVal(1)];
    assert ApplyAll([Rev], [IntVal(1)]) == Some([IntVal(1)]);
  }

  lemma TakeFromTheEnd()
    ensures Rounds([Take(1), Rev], [0, 0], Collect, VecVal([]), [IntVal(2), IntVal(1)]) == Some(VecVal([IntVal(2)]))
  {
    var stages, v := [Take(1), Rev], IntVal(2);
    assert stages[1..] == [Rev] && [Rev][1..] == [] && [0, 0][1..] == [0] && [0][1..] == [];
    assert Push([], [], v) == Passed(v, []);
    assert Push([Rev], [0], v) == Passed(v, [0]);
    assert Push(stages, [0, 0], v) == Passed(v, [1] + [0]);
    assert Exhausted(stages, [1] + [0]);
    assert [] + [v] == [v];
    hide Push, Exhausted;
    assert OneRound(stages, [0, 0], Collect, VecVal([]), v) == Some(Round([1] + [0], VecVal([v]), true));
  }

  // ---- exclusive ranges ----

  const MAX_INT: int := 0x7fff_ffff_ffff_ffff

  function Ints(start: int, end: int): seq<int>
    decreases end - start
  {
    if start >= end then [] else [start] + Ints(start + 1, end)
  }

  /** The loop over an exclusive range stops at `end - 1`, computed in 64 bits. */
  function Loops(start: int, end: int): seq<int> {
    Ints(start, Wrap(end - 1) + 1)
  }

  /** It visits the range, and nothing else, unless the end is the smallest integer. */
  lemma ExclusiveEndIsExact(start: int, end: int)
    requires MIN_INT <= start <= MAX_INT && MIN_INT <= end <= MAX_INT
    ensures Loops(start, end) == Ints(start, end) <==> end != MIN_INT
  {
    if end == MIN_INT {
      assert Wrap(end - 1) == MAX_INT;
    } else {
      assert Wrap(end - 1) == end - 1;
    }
  }
}
