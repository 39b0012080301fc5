/** Conditional compilation: conditions, `cfg_attr`, and the worklist that expands attributes. */
module CfgAttributes {
  datatype MetaValue = StringValue(s: string) | BoolValue(b: bool) | OtherValue(text: string)

  datatype MetaItem =
    | Word(name: string)
    | NameValue(name: string, value: MetaValue)
    | List(name: string, items: seq<MetaItem>)
    | Literal(value: MetaValue)

  datatype Attribute = Attribute(name: string, items: seq<MetaItem>)

  datatype CfgExpr =
    | Bool(value: bool)
    | Flag(name: string)
    | KeyValue(key: string, text: string)
    | All(exprs: seq<CfgExpr>)
    | Any(exprs: seq<CfgExpr>)
    | Not(expr: CfgExpr)

  datatype CfgError =
    | ExpansionLimit
    | CfgTakesOneCondition
    | CfgAttrTakesConditionAndAttribute
    | NotTakesOneCondition
    | UnsupportedPredicate(name: string)
    | NotACondition
    | NotAnAttribute

  datatype Result<+T> = Ok(value: T) | Err(error: CfgError)

  datatype CfgOptions = CfgOptions(flags: set<string>, values: map<string, set<string>>)
  {
    predicate Matches(e: CfgExpr)
      decreases e
    {
      match e
      case Bool(value) => value
      case Flag(name) => name in flags
      case KeyValue(key, text) => key in values && text in values[key]
      case All(exprs) => forall i :: 0 <= i < |exprs| ==> Matches(exprs[i])
      case Any(exprs) => exists i :: 0 <= i < |exprs| && Matches(exprs[i])
      case Not(expr) => !Matches(expr)
    }
  }

  // ---- conditions ----

  function Condition(item: MetaItem): Result<CfgExpr>
    decreases item
  {
    match item
    case Literal(BoolValue(b)) => Ok(Bool(b))
    case Word(name) => Ok(Flag(name))
    case NameValue(name, StringValue(s)) => Ok(KeyValue(name, s))
    case NameValue(name, BoolValue(b)) => Ok(if b then Flag(name) else Not(Flag(name)))
    case List(name, items) =>
      if name == "all" then
        var es := Conditions(items);
        if es.Err? then Err(es.error) else Ok(All(es.value))
      else if name == "any" then
        var es := Conditions(items);
        if es.Err? then Err(es.error) else Ok(Any(es.value))
      else if name == "not" then
        if |items| != 1 then Err(NotTakesOneCondition)
        else
          var e := Condition(items[0]);
          if e.Err? then e else Ok(Not(e.value))
      else Err(UnsupportedPredicate(name))
    case _ => Err(NotACondition)
  }

  function Conditions(items: seq<MetaItem>): (r: Result<seq<CfgExpr>>)
    ensures r.Ok? ==> |r.value| == |items|
    decreases items
  {
    if items == [] then Ok([])
    else
      var first := Condition(items[0]);
      if first.Err? then Err(first.error)
      else
        var rest := Conditions(items[1..]);
        if rest.Err? then rest else Ok([first.value] + rest.value)
  }

  function SingleCondition(a: Attribute): Result<CfgExpr> {
    if |a.items| != 1 then Err(CfgTakesOneCondition) else Condition(a.items[0])
  }

  function AttributeFromMeta(item: MetaItem): Result<Attribute> {
    match item
    case Word(name) => Ok(Attribute(name, []))
    case List(name, items) => Ok(Attribute(name, items))
    case NameValue(name, _) => Ok(Attribute(name, [item]))
    case Literal(_) => Err(NotAnAttribute)
  }

  function AttributesFromMeta(items: seq<MetaItem>): (r: Result<seq<Attribute>>)
    ensures r.Ok? ==> |r.value| == |items|
  {
    if items == [] then Ok([])
    else
      var first := AttributeFromMeta(items[0]);
      var rest := AttributesFromMeta(items[1..]);
      if first.Err? then Err(first.error) else if rest.Err? then rest else Ok([first.value] + rest.value)
  }

  // ---- the recursive meaning ----

  /** How many attributes can come out of one, itself included. */
  function Work(name: string, items: seq<MetaItem>): (n: nat)
    ensures n > 0
    decreases items, 1
  {
    if name == "cfg_attr" && items != [] then 1 + WorkAll(items[1..]) else 1
  }

  function WorkItem(item: MetaItem): (n: nat)
    ensures n > 0
    decreases item, 0
  {
    if item.List? then Work(item.name, item.items) else 1
  }

  function WorkAll(items: seq<MetaItem>): nat
    decreases items, 0
  {
    if items == [] then 0 else WorkItem(items[0]) + WorkAll(items[1..])
  }

  function Total(attributes: seq<Attribute>): nat {
    if attributes == [] then 0 else Work(attributes[0].name, attributes[0].items) + Total(attributes[1..])
  }

  lemma {:induction false} NestedWork(items: seq<MetaItem>)
    requires AttributesFromMeta(items).Ok?
    ensures Total(AttributesFromMeta(items).value) == WorkAll(items)
  {
    if items != [] {
      NestedWork(items[1..]);
      var all := AttributesFromMeta(items).value;
      assert all[1..] == AttributesFromMeta(items[1..]).value;
      OneWork(items[0]);
      assert all == [AttributeFromMeta(items[0]).value] + AttributesFromMeta(items[1..]).value;
    }
  }

  lemma OneWork(item: MetaItem)
    requires AttributeFromMeta(item).Ok?
    ensures var a := AttributeFromMeta(item).value; Work(a.name, a.items) == WorkItem(item)
  {
    assert [item][1..] == [];
    assert WorkAll([]) == 0;
  }

  datatype Expanded = Expanded(active: bool, attributes: seq<Attribute>)

  /** What one attribute stands for, before looking inside what it expands to. */
  datatype One = Failed(e: CfgError) | Switch(on: bool) | Keep(a: Attribute) | Nested(attributes: seq<Attribute>)

  function Look(a: Attribute, o: CfgOptions): (one: One)
    ensures hide *; one.Keep? ==> one.a == a
  {
    hide *;
    if a.name == "cfg" then
      var c := SingleCondition(a);
      if c.Err? then Failed(c.error) else Switch(o.Matches(c.value))
    else if a.name == "cfg_attr" then
      if |a.items| < 2 then Failed(CfgAttrTakesConditionAndAttribute)
      else
        var c := Condition(a.items[0]);
        if c.Err? then Failed(c.error)
        else if !o.Matches(c.value) then Nested([])
        else
          var nested := AttributesFromMeta(a.items[1..]);
          if nested.Err? then Failed(nested.error) else Nested(nested.value)
    else Keep(a)
  }

  lemma NestedIsLess(a: Attribute, o: CfgOptions)
    ensures hide *; Look(a, o).Nested? ==> Total(Look(a, o).attributes) < Work(a.name, a.items)
  {
    if Look(a, o).Nested? && Look(a, o).attributes != [] {
      NestedWork(a.items[1..]);
    }
  }

  /** The recursive expansion, left to right, with the number of attributes it looked at. */
  datatype Trace = Trace(result: Result<Expanded>, steps: nat)

  function Both(first: Trace, rest: Trace): Trace {
    if first.result.Err? then first
    else if rest.result.Err? then Trace(rest.result, first.steps + rest.steps)
    else Trace(Ok(Expanded(first.result.value.active && rest.result.value.active, first.result.value.attributes + rest.result.value.attributes)),
               first.steps + rest.steps)
  }

  function Expand(attributes: seq<Attribute>, o: CfgOptions): Trace
    decreases Total(attributes), |attributes|
  {
    if attributes == [] then Trace(Ok(Expanded(true, [])), 0)
    else
      Both(ExpandOne(attributes[0], o), Expand(attributes[1..], o))
  }

  function ExpandOne(a: Attribute, o: CfgOptions): Trace
    decreases Work(a.name, a.items), 0
  {
    hide *;
    match Look(a, o)
    case Failed(e) => Trace(Err(e), 1)
    case Switch(on) => Trace(Ok(Expanded(on, [])), 1)
    case Keep(_) => Trace(Ok(Expanded(true, [a])), 1)
    case Nested(attributes) =>
      NestedIsLess(a, o);
      var inner := Expand(attributes, o);
      Trace(inner.result, inner.steps + 1)
  }

  lemma {:induction false} ExpandAppend(a: seq<Attribute>, b: seq<Attribute>, o: CfgOptions)
    ensures Expand(a + b, o) == Both(Expand(a, o), Expand(b, o))
    decreases |a|
  {
    hide ExpandOne;
    if a == [] {
      assert a + b == b;
      NothingBefore(Expand(b, o));
    } else {
      assert (a + b)[0] == a[0] && (a + b)[1..] == a[1..] + b;
      ExpandAppend(a[1..], b, o);
      BothAssociates(ExpandOne(a[0], o), Expand(a[1..], o), Expand(b, o));
    }
  }

  lemma NothingBefore(t: Trace)
    ensures Both(Trace(Ok(Expanded(true, [])), 0), t) == t
  {
    if t.result.Ok? {
      assert [] + t.result.value.attributes == t.result.value.attributes;
    }
  }

  lemma BothAssociates(x: Trace, y: Trace, z: Trace)
    ensures Both(Both(x, y), z) == Both(x, Both(y, z))
  {
    if x.result.Ok? && y.result.Ok? && z.result.Ok? {
      var p, q, r := x.result.value.attributes, y.result.value.attributes, z.result.value.attributes;
      assert (p + q) + r == p + (q + r);
    }
  }

  // ---- the worklist ----

  const MAX_EXPANSIONS: nat := 256

  /** The recursive meaning, cut off by the limit on the number of attributes looked at. */
  function Limited(t: Trace): Result<Expanded> {
    if t.steps > MAX_EXPANSIONS then Err(ExpansionLimit) else t.result
  }

  /** Progress of the loop as a trace of its own. */
  function SoFar(active: bool, retained: seq<Attribute>, expansions: nat): Trace {
    Trace(Ok(Expanded(active, retained)), expansions)
  }

  /** What is still to be done after one step, as a trace. */
  function After(one: One, active: bool, retained: seq<Attribute>, expansions: nat, rest: seq<Attribute>, o: CfgOptions): Result<Expanded> {
    match one
    case Failed(e) => Err(e)
    case Switch(on) => Limited(Both(SoFar(active && on, retained, expansions + 1), Expand(rest, o)))
    case Keep(a) => Limited(Both(SoFar(active, retained + [a], expansions + 1), Expand(rest, o)))
    case Nested(attributes) => Limited(Both(SoFar(active, retained, expansions + 1), Expand(attributes + rest, o)))
  }

  lemma OneMore(active: bool, retained: seq<Attribute>, expansions: nat, queue: seq<Attribute>, o: CfgOptions)
    requires hide *; queue != [] && expansions < MAX_EXPANSIONS
    ensures Limited(Both(SoFar(active, retained, expansions), Expand(queue, o)))
         == After(Look(queue[0], o), active, retained, expansions, queue[1..], o)
  {
    hide Expand, Look;
    var rest := Expand(queue[1..], o);
    var first := ExpandOne(queue[0], o);
    ExpandFirst(queue, o);
    var before := SoFar(active, retained, expansions);
    BothAssociates(before, first, rest);
    var one := Look(queue[0], o);
    if one.Switch? {
      assert retained + [] == retained;
    } else if one.Nested? {
      var inner := Expand(one.attributes, o);
      ExpandAppend(one.attributes, queue[1..], o);
      BothAssociates(SoFar(active, retained, expansions + 1), inner, rest);
      assert Both(before, first) == Both(SoFar(active, retained, expansions + 1), inner);
    }
  }

  lemma ExpandFirst(queue: seq<Attribute>, o: CfgOptions)
    requires hide *; queue != []
    ensures Expand(queue, o) == Both(ExpandOne(queue[0], o), Expand(queue[1..], o))
  {
  }

  /** At the limit, whatever is left is refused. */
  lemma LimitReached(active: bool, retained: seq<Attribute>, queue: seq<Attribute>, o: CfgOptions)
    requires queue != []
    ensures Limited(Both(SoFar(active, retained, MAX_EXPANSIONS), Expand(queue, o))) == Err(ExpansionLimit)
  {
    ExpandFirst(queue, o);
    hide Expand;
    assert ExpandOne(queue[0], o).steps >= 1;
  }

  /**
   * The queue-based expansion gives what the recursive one gives, with the same first error, unless the
   * recursive one looks at more than 256 attributes.
   */
  method ExpandCfgAttributes(attributes: seq<Attribute>, o: CfgOptions) returns (r: Result<Expanded>)
    ensures r == Limited(Expand(attributes, o))
    ensures !EachFine(attributes, o) ==> r.Err?
    ensures EachFine(attributes, o) && LookedAtOf(attributes, o) > MAX_EXPANSIONS ==> r == Err(ExpansionLimit)
    ensures EachFine(attributes, o) && LookedAtOf(attributes, o) <= MAX_EXPANSIONS ==>
              r.Ok? && r.value.attributes == KeptOf(attributes, o) && (r.value.active <==> EachOn(attributes, o))
  {
    LimitedMeans(attributes, o);
    hide Expand, Look, ExpandOne, Both, Limited, AttributesFromMeta, Work, EachFine, EachOn, KeptOf, LookedAtOf;
    var queue := attributes;
    var retained: seq<Attribute> := [];
    var active := true;
    var expansions: nat := 0;
    NothingBefore(Expand(attributes, o));
    while queue != []
      invariant expansions <= MAX_EXPANSIONS
      invariant Limited(Expand(attributes, o)) == Limited(Both(SoFar(active, retained, expansions), Expand(queue, o)))
      decreases Total(queue)
    {
      var attribute := queue[0];
      if expansions == MAX_EXPANSIONS {
        LimitReached(active, retained, queue, o);
        return Err(ExpansionLimit);
      }
      OneMore(active, retained, expansions, queue, o);
      LookAt(attribute, o);
      NestedIsLess(attribute, o);
      queue := queue[1..];
      expansions := expansions + 1;
      if attribute.name == "cfg" {
        var condition := SingleCondition(attribute);
        if condition.Err? {
          return Err(condition.error);
        }
        active := active && o.Matches(condition.value);
      } else if attribute.name == "cfg_attr" {
        if |attribute.items| < 2 {
          return Err(CfgAttrTakesConditionAndAttribute);
        }
        var condition := Condition(attribute.items[0]);
        if condition.Err? {
          return Err(condition.error);
        }
        if o.Matches(condition.value) {
          ghost var nested := AttributesFromMeta(attribute.items[1..]);
          var longer := PushFront(attribute.items[1..], queue);
          if longer.Err? {
            return Err(longer.error);
          }
          TotalAppend(nested.value, queue);
          queue := longer.value;
        } else {
          assert [] + queue == queue;
        }
      } else {
        retained := retained + [attribute];
      }
    }
    DoneQueue(active, retained, expansions, o);
    return Ok(Expanded(active, retained));
  }

  /** The attributes of a `cfg_attr` come before everything else in the queue; they are pushed last first. */
  method PushFront(nested: seq<MetaItem>, rest: seq<Attribute>) returns (r: Result<seq<Attribute>>)
    ensures var all := AttributesFromMeta(nested); r == if all.Err? then Err(all.error) else Ok(all.value + rest)
  {
    var queue := rest;
    assert [] + rest == rest;
    for i := |nested| downto 0
      invariant AttributesFromMeta(nested[i..]).Ok? && queue == AttributesFromMeta(nested[i..]).value + rest
    {
      var item := AttributeFromMeta(nested[i]);
      assert nested[i..][0] == nested[i] && nested[i..][1..] == nested[i + 1..];
      if item.Err? {
        ErrorInside(nested, i);
        return Err(item.error);
      }
      queue := [item.value] + queue;
    }
    assert nested[0..] == nested;
    return Ok(queue);
  }

  lemma LookAt(a: Attribute, o: CfgOptions)
    ensures hide *; a.name == "cfg" ==> Look(a, o) == (if SingleCondition(a).Err? then Failed(SingleCondition(a).error) else Switch(o.Matches(SingleCondition(a).value)))
    ensures a.name != "cfg" && a.name != "cfg_attr" ==> Look(a, o) == Keep(a)
    ensures a.name == "cfg_attr" && |a.items| < 2 ==> Look(a, o) == Failed(CfgAttrTakesConditionAndAttribute)
    ensures a.name == "cfg_attr" && |a.items| >= 2 ==>
              var c := Condition(a.items[0]);
              var nested := AttributesFromMeta(a.items[1..]);
              Look(a, o) == if c.Err? then Failed(c.error) else if !o.Matches(c.value) then Nested([])
                            else if nested.Err? then Failed(nested.error) else Nested(nested.value)
  {
  }

  lemma DoneQueue(active: bool, retained: seq<Attribute>, expansions: nat, o: CfgOptions)
    requires expansions <= MAX_EXPANSIONS
    ensures Limited(Both(SoFar(active, retained, expansions), Expand([], o))) == Ok(Expanded(active, retained))
  {
    assert retained + [] == retained;
  }

  lemma {:induction false} TotalAppend(a: seq<Attribute>, b: seq<Attribute>)
    ensures Total(a + b) == Total(a) + Total(b)
  {
    if a == [] {
      assert a + b == b;
    } else {
      assert (a + b)[0] == a[0] && (a + b)[1..] == a[1..] + b;
      TotalAppend(a[1..], b);
    }
  }

  /** The only error of a conversion is the same wherever it occurs. */
  lemma {:induction false} ErrorInside(items: seq<MetaItem>, i: nat)
    requires i < |items| && AttributeFromMeta(items[i]).Err?
    ensures AttributesFromMeta(items) == Err(AttributeFromMeta(items[i]).error)
  {
    if i > 0 {
      ErrorInside(items[1..], i - 1);
    }
  }

  // ---- what is written, and what it means ----

  /** A written condition: a flag, a key with a value, a boolean, or `all`, `any`, `not` of conditions. */
  predicate Readable(item: MetaItem)
    decreases item
  {
    match item
    case Word(_) => true
    case Literal(value) => value.BoolValue?
    case NameValue(_, value) => !value.OtherValue?
    case List(name, items) =>
      && (name == "all" || name == "any" || (name == "not" && |items| == 1))
      && forall i :: 0 <= i < |items| ==> Readable(items[i])
  }

  /** A readable condition is true. */
  predicate Holds(item: MetaItem, o: CfgOptions)
    requires Readable(item)
    decreases item
  {
    match item
    case Word(name) => name in o.flags
    case Literal(value) => value.b
    case NameValue(name, StringValue(text)) => name in o.values && text in o.values[name]
    case NameValue(name, BoolValue(b)) => (name in o.flags) == b
    case List(name, items) =>
      if name == "not" then !Holds(items[0], o)
      else if name == "any" then exists i :: 0 <= i < |items| && Holds(items[i], o)
      else forall i :: 0 <= i < |items| ==> Holds(items[i], o)
  }

  /** A condition is understood exactly if it is readable, and then it matches exactly if it is true. */
  lemma {:induction false} ConditionMeans(item: MetaItem, o: CfgOptions)
    ensures Condition(item).Ok? <==> Readable(item)
    ensures Readable(item) ==> (o.Matches(Condition(item).value) <==> Holds(item, o))
    decreases item
  {
    if item.List? {
      ConditionsMean(item.items, o);
      if item.name == "not" && |item.items| == 1 {
        ConditionMeans(item.items[0], o);
      }
      MembersMean(item, o);
    }
  }

  /** The list forms, given their members. */
  lemma MembersMean(item: MetaItem, o: CfgOptions)
    requires hide *; item.List?
    requires Conditions(item.items).Ok? <==> forall i :: 0 <= i < |item.items| ==> Readable(item.items[i])
    requires Conditions(item.items).Ok? ==>
               forall i :: 0 <= i < |item.items| ==> (o.Matches(Conditions(item.items).value[i]) <==> Holds(item.items[i], o))
    requires item.name == "not" && |item.items| == 1 ==>
               (Condition(item.items[0]).Ok? <==> Readable(item.items[0]))
               && (Readable(item.items[0]) ==> (o.Matches(Condition(item.items[0]).value) <==> Holds(item.items[0], o)))
    ensures Condition(item).Ok? <==> Readable(item)
    ensures Readable(item) ==> (o.Matches(Condition(item).value) <==> Holds(item, o))
  {
    hide Conditions;
  }

  lemma {:induction false} ConditionsMean(items: seq<MetaItem>, o: CfgOptions)
    ensures hide *; Conditions(items).Ok? <==> forall i :: 0 <= i < |items| ==> Readable(items[i])
    ensures Conditions(items).Ok? ==> forall i :: 0 <= i < |items| ==> (o.Matches(Conditions(items).value[i]) <==> Holds(items[i], o))
    decreases items
  {
    hide Condition, Readable, Holds;
    if items != [] {
      ConditionMeans(items[0], o);
      ConditionsMean(items[1..], o);
      assert forall i :: 0 < i < |items| ==> items[i] == items[1..][i - 1];
    }
  }

  /** What is wrong with a condition that is not readable; in a list, the first member that is not. */
  lemma RefusedConditions(item: MetaItem)
    requires !Readable(item)
    ensures !item.List? ==> Condition(item) == Err(NotACondition)
    ensures item.List? && item.name == "not" && |item.items| != 1 ==> Condition(item) == Err(NotTakesOneCondition)
    ensures item.List? && item.name != "all" && item.name != "any" && item.name != "not" ==> Condition(item) == Err(UnsupportedPredicate(item.name))
    ensures item.List? && (item.name == "all" || item.name == "any" || (item.name == "not" && |item.items| == 1)) ==>
              exists i :: 0 <= i < |item.items| && Condition(item) == Condition(item.items[i]) && !Readable(item.items[i])
                          && forall j :: 0 <= j < i ==> Readable(item.items[j])
  {
    var o := CfgOptions({}, map[]);
    ConditionMeans(item, o);
    if item.List? && (item.name == "all" || item.name == "any" || (item.name == "not" && |item.items| == 1)) {
      ConditionsMean(item.items, o);
      if item.name == "not" {
        ConditionMeans(item.items[0], o);
      } else {
        var i := FirstRefused(item.items);
      }
    }
  }

  lemma {:induction false} FirstRefused(items: seq<MetaItem>) returns (i: nat)
    requires Conditions(items).Err?
    ensures i < |items| && !Readable(items[i]) && Condition(items[i]) == Err(Conditions(items).error)
    ensures forall j :: 0 <= j < i ==> Readable(items[j])
  {
    hide Condition, Readable;
    ConditionMeans(items[0], CfgOptions({}, map[]));
    if Condition(items[0]).Err? {
      i := 0;
    } else {
      i := FirstRefused(items[1..]);
      assert forall j :: 0 < j < |items| ==> items[j] == items[1..][j - 1];
      i := i + 1;
    }
  }

  /** An attribute and everything it stands for is well written; what a false `cfg_attr` would add does not count. */
  predicate Fine(name: string, items: seq<MetaItem>, o: CfgOptions)
    decreases items, 1
  {
    if name == "cfg" then |items| == 1 && Readable(items[0])
    else if name == "cfg_attr" then |items| >= 2 && Readable(items[0]) && (Holds(items[0], o) ==> AllFine(items[1..], o))
    else true
  }

  predicate AllFine(items: seq<MetaItem>, o: CfgOptions)
    decreases items, 0
  {
    items == [] || (FineItem(items[0], o) && AllFine(items[1..], o))
  }

  predicate FineItem(item: MetaItem, o: CfgOptions)
    decreases item, 0
  {
    match item
    case List(name, items) => Fine(name, items, o)
    case NameValue(name, _) => name != "cfg_attr" && (name == "cfg" ==> Readable(item))
    case Word(name) => name != "cfg" && name != "cfg_attr"
    case Literal(_) => false
  }

  /** The attributes that stay: those that are no conditions, and what a true `cfg_attr` adds, in order. */
  function Kept(name: string, items: seq<MetaItem>, o: CfgOptions): seq<Attribute>
    requires Fine(name, items, o)
    decreases items, 1
  {
    if name == "cfg" then []
    else if name == "cfg_attr" then (if Holds(items[0], o) then AllKept(items[1..], o) else [])
    else [Attribute(name, items)]
  }

  function AllKept(items: seq<MetaItem>, o: CfgOptions): seq<Attribute>
    requires AllFine(items, o)
    decreases items, 0
  {
    if items == [] then [] else KeptItem(items[0], o) + AllKept(items[1..], o)
  }

  function KeptItem(item: MetaItem, o: CfgOptions): seq<Attribute>
    requires FineItem(item, o)
    decreases item, 0
  {
    match item
    case List(name, items) => Kept(name, items, o)
    case NameValue(name, _) => if name == "cfg" then [] else [Attribute(name, [item])]
    case Word(name) => [Attribute(name, [])]
  }

  /** Every condition holds, also those that a true `cfg_attr` adds. */
  predicate IsOn(name: string, items: seq<MetaItem>, o: CfgOptions)
    requires Fine(name, items, o)
    decreases items, 1
  {
    if name == "cfg" then Holds(items[0], o)
    else if name == "cfg_attr" then Holds(items[0], o) ==> AllOn(items[1..], o)
    else true
  }

  predicate AllOn(items: seq<MetaItem>, o: CfgOptions)
    requires AllFine(items, o)
    decreases items, 0
  {
    items == [] || (ItemOn(items[0], o) && AllOn(items[1..], o))
  }

  predicate ItemOn(item: MetaItem, o: CfgOptions)
    requires FineItem(item, o)
    decreases item, 0
  {
    match item
    case List(name, items) => IsOn(name, items, o)
    case NameValue(name, _) => name == "cfg" ==> Holds(item, o)
    case Word(_) => true
  }

  /** How many attributes are looked at: every one once, and what a true `cfg_attr` adds. */
  function LookedAt(name: string, items: seq<MetaItem>, o: CfgOptions): nat
    requires Fine(name, items, o)
    decreases items, 1
  {
    1 + if name == "cfg_attr" && Holds(items[0], o) then AllLookedAt(items[1..], o) else 0
  }

  function AllLookedAt(items: seq<MetaItem>, o: CfgOptions): nat
    requires AllFine(items, o)
    decreases items, 0
  {
    if items == [] then 0
    else ItemLookedAt(items[0], o) + AllLookedAt(items[1..], o)
  }

  function ItemLookedAt(item: MetaItem, o: CfgOptions): nat
    requires FineItem(item, o)
    decreases item, 0
  {
    if item.List? then LookedAt(item.name, item.items, o) else 1
  }

  /** A trace of written attributes: it succeeds exactly if they are fine, and then with what they mean. */
  ghost predicate Means(t: Trace, fine: bool, kept: seq<Attribute>, active: bool, looked: nat) {
    (t.result.Ok? <==> fine) && (fine ==> t.result.value == Expanded(active, kept) && t.steps == looked)
  }

  lemma {:induction false} OneMeans(a: Attribute, o: CfgOptions)
    ensures hide *; var fine := Fine(a.name, a.items, o);
            Means(ExpandOne(a, o), fine, if fine then Kept(a.name, a.items, o) else [], fine && IsOn(a.name, a.items, o),
                  if fine then LookedAt(a.name, a.items, o) else 0)
    decreases a.items, 1
  {
    hide Condition, Readable, Holds, Expand;
    LookAt(a, o);
    if a.items != [] {
      ConditionMeans(a.items[0], o);
    }
    if a.name == "cfg_attr" && |a.items| >= 2 && Readable(a.items[0]) && Holds(a.items[0], o) {
      WrittenMean(a.items[1..], o);
    }
    NothingToDo(o);
  }

  lemma NothingToDo(o: CfgOptions)
    ensures hide *; Expand([], o) == Trace(Ok(Expanded(true, [])), 0)
  {
  }

  /** What a true `cfg_attr` adds. */
  lemma {:induction false} WrittenMean(items: seq<MetaItem>, o: CfgOptions)
    ensures hide *; AllFine(items, o) ==> AttributesFromMeta(items).Ok?
    ensures AttributesFromMeta(items).Ok? ==>
              var fine := AllFine(items, o);
              Means(Expand(AttributesFromMeta(items).value, o), fine, if fine then AllKept(items, o) else [], fine && AllOn(items, o),
                    if fine then AllLookedAt(items, o) else 0)
    decreases items, 0
  {
    hide Condition, Readable, Holds, ExpandOne;
    if items != [] {
      var first, rest := AttributeFromMeta(items[0]), AttributesFromMeta(items[1..]);
      WrittenMean(items[1..], o);
      ItemMeans(items[0], o);
      if first.Ok? && rest.Ok? {
        var all := [first.value] + rest.value;
        assert all[0] == first.value && all[1..] == rest.value;
        ExpandFirst(all, o);
      }
    }
  }

  lemma {:induction false} ItemMeans(item: MetaItem, o: CfgOptions)
    ensures hide *; FineItem(item, o) ==> AttributeFromMeta(item).Ok?
    ensures AttributeFromMeta(item).Ok? ==>
              var fine := FineItem(item, o);
              Means(ExpandOne(AttributeFromMeta(item).value, o), fine, if fine then KeptItem(item, o) else [], fine && ItemOn(item, o),
                    if fine then ItemLookedAt(item, o) else 0)
    decreases item, 0
  {
    hide Condition, Holds;
    if item.List? {
      OneMeans(Attribute(item.name, item.items), o);
    } else if AttributeFromMeta(item).Ok? {
      var a := AttributeFromMeta(item).value;
      LookAt(a, o);
      ConditionMeans(item, o);
    }
  }

  // ---- attributes of an item ----

  ghost predicate EachFine(attributes: seq<Attribute>, o: CfgOptions) {
    forall i :: 0 <= i < |attributes| ==> Fine(attributes[i].name, attributes[i].items, o)
  }

  function KeptOf(attributes: seq<Attribute>, o: CfgOptions): seq<Attribute>
    requires EachFine(attributes, o)
  {
    if attributes == [] then [] else Kept(attributes[0].name, attributes[0].items, o) + KeptOf(attributes[1..], o)
  }

  ghost predicate EachOn(attributes: seq<Attribute>, o: CfgOptions)
    requires EachFine(attributes, o)
  {
    forall i :: 0 <= i < |attributes| ==> IsOn(attributes[i].name, attributes[i].items, o)
  }

  function LookedAtOf(attributes: seq<Attribute>, o: CfgOptions): nat
    requires EachFine(attributes, o)
  {
    if attributes == [] then 0 else LookedAt(attributes[0].name, attributes[0].items, o) + LookedAtOf(attributes[1..], o)
  }

  /**
   * An expansion succeeds exactly if everything is well written. It then keeps the attributes that are no
   * conditions, with what the true `cfg_attr` add, in order, and is active exactly if every condition holds.
   */
  lemma {:induction false} ExpansionMeansLeaves(attributes: seq<Attribute>, o: CfgOptions)
    ensures hide *; Expand(attributes, o).result.Ok? <==> EachFine(attributes, o)
    ensures EachFine(attributes, o) ==>
              var t := Expand(attributes, o);
              && t.result.value.attributes == KeptOf(attributes, o)
              && (t.result.value.active <==> EachOn(attributes, o))
              && t.steps == LookedAtOf(attributes, o)
    decreases |attributes|
  {
    hide Fine, Kept, IsOn, LookedAt, ExpandOne;
    if attributes != [] {
      OneMeans(attributes[0], o);
      ExpansionMeansLeaves(attributes[1..], o);
      assert forall i :: 0 < i < |attributes| ==> attributes[i] == attributes[1..][i - 1];
    }
  }

  lemma LimitedMeans(attributes: seq<Attribute>, o: CfgOptions)
    ensures hide *; var r := Limited(Expand(attributes, o));
            && (!EachFine(attributes, o) ==> r.Err?)
            && (EachFine(attributes, o) && LookedAtOf(attributes, o) > MAX_EXPANSIONS ==> r == Err(ExpansionLimit))
            && (EachFine(attributes, o) && LookedAtOf(attributes, o) <= MAX_EXPANSIONS ==>
                  r.Ok? && r.value.attributes == KeptOf(attributes, o) && (r.value.active <==> EachOn(attributes, o)))
  {
    hide EachFine, EachOn, KeptOf, LookedAtOf, Expand;
    ExpansionMeansLeaves(attributes, o);
  }
}
