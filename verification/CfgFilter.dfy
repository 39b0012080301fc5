/** Removing inactive items from a scope, with the source order renumbered to the items that stay. */
module CfgFilter {
  import opened Wrappers
  import opened CfgAttributes

  /** A field, variant, method or foreign function. */
  datatype Member = Member(name: string, attributes: seq<Attribute>, fields: seq<Member>)

  /** What an item contains: members, a nested scope, or nothing that is filtered. */
  datatype Content = Members(members: seq<Member>) | Module(scope: Scope) | Plain

  datatype Item = Item(name: string, attributes: seq<Attribute>, content: Content)

  datatype ChunkEntry = ItemAt(index: nat) | StatementAt(index: nat)

  datatype Scope = Scope(items: seq<Item>, order: seq<ChunkEntry>)

  // ---- which items stay ----

  function ExpandLimited(attributes: seq<Attribute>, o: CfgOptions): Result<Expanded> {
    Limited(Expand(attributes, o))
  }

  predicate Active(attributes: seq<Attribute>, o: CfgOptions) {
    var r := ExpandLimited(attributes, o);
    r.Ok? && r.value.active
  }

  /** Members that are active, with their remaining attributes; a variant's fields are filtered too. */
  function KeptMembers(members: seq<Member>, o: CfgOptions): Result<seq<Member>>
    decreases members
  {
    hide *;
    if members == [] then Ok([])
    else
      var first := KeptMember(members[0], o);
      if first.Err? then Err(first.error)
      else
        var rest := KeptMembers(members[1..], o);
        if rest.Err? then rest else Ok(first.value + rest.value)
  }

  /** The member itself, or nothing. */
  function KeptMember(m: Member, o: CfgOptions): Result<seq<Member>>
    decreases m
  {
    hide *;
    var r := ExpandLimited(m.attributes, o);
    if r.Err? then Err(r.error)
    else if !r.value.active then Ok([])
    else
      var fields := KeptMembers(m.fields, o);
      if fields.Err? then fields else Ok([Member(m.name, r.value.attributes, fields.value)])
  }

  function KeptContent(c: Content, o: CfgOptions): Result<Content>
    decreases c
  {
    hide *;
    match c
    case Members(members) =>
      var r := KeptMembers(members, o);
      if r.Err? then Err(r.error) else Ok(Members(r.value))
    case Module(scope) =>
      var r := Filtered(scope, o);
      if r.Err? then Err(r.error) else Ok(Module(r.value))
    case Plain => Ok(Plain)
  }

  function KeptItem(item: Item, o: CfgOptions): (r: Result<seq<Item>>)
    ensures r.Ok? ==> r.value == [] || (|r.value| == 1 && r.value[0].name == item.name)
    ensures r.Ok? ==> (r.value != [] <==> Active(item.attributes, o))
    decreases item
  {
    var r := ExpandLimited(item.attributes, o);
    if r.Err? then Err(r.error)
    else if !r.value.active then Ok([])
    else
      var content := KeptContent(item.content, o);
      if content.Err? then Err(content.error) else Ok([Item(item.name, r.value.attributes, content.value)])
  }

  function KeptItems(items: seq<Item>, o: CfgOptions): Result<seq<Item>>
    decreases items
  {
    hide *;
    if items == [] then Ok([])
    else
      var first := KeptItem(items[0], o);
      if first.Err? then Err(first.error)
      else
        var rest := KeptItems(items[1..], o);
        if rest.Err? then rest else Ok(first.value + rest.value)
  }

  /** How many of the first k items stay. */
  function NewIndex(items: seq<Item>, k: nat, o: CfgOptions): nat
    requires hide *; k <= |items|
  {
    hide *;
    if k == 0 then 0 else NewIndex(items, k - 1, o) + if Active(items[k - 1].attributes, o) then 1 else 0
  }

  /** An entry of the source order, renumbered; entries of items that are gone, or never were, disappear. */
  function Renumbered(e: ChunkEntry, items: seq<Item>, o: CfgOptions): seq<ChunkEntry> {
    hide *;
    match e
    case StatementAt(_) => [e]
    case ItemAt(i) => if i < |items| && Active(items[i].attributes, o) then [ItemAt(NewIndex(items, i, o))] else []
  }

  function NewOrder(order: seq<ChunkEntry>, items: seq<Item>, o: CfgOptions): seq<ChunkEntry> {
    hide *;
    if order == [] then [] else Renumbered(order[0], items, o) + NewOrder(order[1..], items, o)
  }

  function Filtered(s: Scope, o: CfgOptions): Result<Scope>
    decreases s
  {
    hide *;
    var items := KeptItems(s.items, o);
    if items.Err? then Err(items.error) else Ok(Scope(items.value, NewOrder(s.order, s.items, o)))
  }

  // ---- the filter ----

  lemma {:induction false} KeptAppend(a: seq<Item>, b: seq<Item>, o: CfgOptions)
    ensures KeptItems(a + b, o) ==
            (var x, y := KeptItems(a, o), KeptItems(b, o); if x.Err? then x else if y.Err? then y else Ok(x.value + y.value))
  {
    hide KeptItem;
    if a == [] {
      assert a + b == b;
      if KeptItems(b, o).Ok? {
        assert [] + KeptItems(b, o).value == KeptItems(b, o).value;
      }
    } else {
      assert (a + b)[0] == a[0] && (a + b)[1..] == a[1..] + b;
      KeptAppend(a[1..], b, o);
      var x, y := KeptItems(a[1..], o), KeptItems(b, o);
      if KeptItem(a[0], o).Ok? && x.Ok? && y.Ok? {
        assert KeptItem(a[0], o).value + (x.value + y.value) == KeptItem(a[0], o).value + x.value + y.value;
      }
    }
  }

  lemma KeptNext(items: seq<Item>, k: nat, o: CfgOptions)
    requires k < |items| && KeptItems(items[..k], o).Ok?
    ensures var r := KeptItem(items[k], o);
            KeptItems(items[..k + 1], o) == if r.Err? then Err(r.error) else Ok(KeptItems(items[..k], o).value + r.value)
  {
    hide KeptItem;
    assert items[..k + 1] == items[..k] + [items[k]];
    KeptAppend(items[..k], [items[k]], o);
    assert [items[k]][1..] == [];
    if KeptItem(items[k], o).Ok? {
      assert KeptItem(items[k], o).value + [] == KeptItem(items[k], o).value;
    }
  }

  lemma {:induction false} KeptError(items: seq<Item>, k: nat, o: CfgOptions)
    requires k <= |items| && KeptItems(items[..k], o).Err?
    ensures KeptItems(items, o) == KeptItems(items[..k], o)
  {
    assert items == items[..k] + items[k..];
    KeptAppend(items[..k], items[k..], o);
  }

  lemma {:induction false} OrderAppend(a: seq<ChunkEntry>, b: seq<ChunkEntry>, items: seq<Item>, o: CfgOptions)
    ensures NewOrder(a + b, items, o) == NewOrder(a, items, o) + NewOrder(b, items, o)
  {
    hide Renumbered;
    if a == [] {
      assert a + b == b;
    } else {
      assert (a + b)[0] == a[0] && (a + b)[1..] == a[1..] + b;
      OrderAppend(a[1..], b, items, o);
    }
  }

  lemma {:induction false} NewIndexCounts(items: seq<Item>, k: nat, o: CfgOptions)
    requires k <= |items| && KeptItems(items[..k], o).Ok?
    ensures |KeptItems(items[..k], o).value| == NewIndex(items, k, o)
  {
    if k > 0 {
      if KeptItems(items[..k - 1], o).Ok? {
        KeptNext(items, k - 1, o);
        NewIndexCounts(items, k - 1, o);
      } else {
        assert items[..k][..k - 1] == items[..k - 1];
        KeptError(items[..k], k - 1, o);
      }
    }
  }

  /** The table of new positions while items are being moved over. */
  ghost predicate Mapped(table: seq<Option<nat>>, items: seq<Item>, k: nat, o: CfgOptions)
    requires hide *; |table| == |items| && k <= |items|
  {
    hide *;
    forall i :: 0 <= i < |items| ==>
      table[i] == if i < k && Active(items[i].attributes, o) then Some(NewIndex(items, i, o)) else None
  }

  method FilterScope(scope: Scope, o: CfgOptions) returns (r: Result<Scope>)
    ensures r == Filtered(scope, o)
    decreases scope
  {
    hide KeptItem, Renumbered, NewIndex, KeptItems, ExpandLimited;
    var old_ := scope.items;
    var items: seq<Item> := [];
    var table := new Option<nat>[|old_|](_ => None);
    NothingKept(o);
    for k := 0 to |old_|
      invariant KeptItems(old_[..k], o) == Ok(items)
      invariant Mapped(table[..], old_, k, o)
    {
      KeptNext(old_, k, o);
      NewIndexCounts(old_, k, o);
      WholeOrError(old_, k + 1, o);
      KeptItemIs(old_[k], o);
      ghost var before := table[..];
      var expanded := ExpandCfgAttributes(old_[k].attributes, o);
      assert expanded == ExpandLimited(old_[k].attributes, o) by { LimitedIs(old_[k].attributes, o); }
      if expanded.Err? {
        return Err(expanded.error);
      }
      if !expanded.value.active {
        assert items + [] == items;
        continue;
      }
      var content := FilterItemMembers(old_[k].content, o);
      if content.Err? {
        return Err(content.error);
      }
      table[k] := Some(|items|);
      items := items + [Item(old_[k].name, expanded.value.attributes, content.value)];
    }
    assert old_[..|old_|] == old_;
    var order: seq<ChunkEntry> := [];
    for j := 0 to |scope.order|
      invariant Mapped(table[..], old_, |old_|, o)
      invariant order == NewOrder(scope.order[..j], old_, o)
    {
      assert scope.order[..j + 1] == scope.order[..j] + [scope.order[j]];
      OrderAppend(scope.order[..j], [scope.order[j]], old_, o);
      OneEntry(scope.order[j], old_, o);
      match scope.order[j] {
        case ItemAt(index) =>
          assert index < |old_| ==> table[..][index] == table[index];
          if index < table.Length && table[index].Some? {
            order := order + [ItemAt(table[index].value)];
          } else {
            assert order + [] == order;
          }
        case StatementAt(_) => order := order + [scope.order[j]];
      }
    }
    assert scope.order[..|scope.order|] == scope.order;
    return Ok(Scope(items, order));
  }

  lemma NothingKept(o: CfgOptions)
    ensures KeptItems([], o) == Ok([])
  {
  }

  lemma LimitedIs(attributes: seq<Attribute>, o: CfgOptions)
    ensures ExpandLimited(attributes, o) == Limited(Expand(attributes, o))
  {
  }

  lemma WholeOrError(items: seq<Item>, k: nat, o: CfgOptions)
    requires k <= |items|
    ensures KeptItems(items[..k], o).Err? ==> KeptItems(items, o) == KeptItems(items[..k], o)
  {
    if KeptItems(items[..k], o).Err? {
      KeptError(items, k, o);
    }
  }

  lemma KeptItemIs(item: Item, o: CfgOptions)
    ensures var r := ExpandLimited(item.attributes, o);
            && (r.Err? ==> KeptItem(item, o) == Err(r.error) && !Active(item.attributes, o))
            && (r.Ok? ==> (Active(item.attributes, o) <==> r.value.active))
            && (r.Ok? && !r.value.active ==> KeptItem(item, o) == Ok([]))
            && (r.Ok? && r.value.active ==>
                  var content := KeptContent(item.content, o);
                  KeptItem(item, o) == if content.Err? then Err(content.error) else Ok([Item(item.name, r.value.attributes, content.value)]))
  {
    hide ExpandLimited;
  }

  lemma OneEntry(e: ChunkEntry, items: seq<Item>, o: CfgOptions)
    ensures NewOrder([e], items, o) ==
            if e.StatementAt? then [e]
            else if e.index < |items| && Active(items[e.index].attributes, o) then [ItemAt(NewIndex(items, e.index, o))] else []
  {
    assert [e][1..] == [];
    assert Renumbered(e, items, o) + [] == Renumbered(e, items, o);
  }

  method FilterItemMembers(content: Content, o: CfgOptions) returns (r: Result<Content>)
    ensures r == KeptContent(content, o)
    decreases content
  {
    match content {
      case Members(members) =>
        var kept := FilterMembers(members, o);
        if kept.Err? {
          return Err(kept.error);
        }
        return Ok(Members(kept.value));
      case Module(scope) =>
        var kept := FilterScope(scope, o);
        if kept.Err? {
          return Err(kept.error);
        }
        return Ok(Module(kept.value));
      case Plain => return Ok(Plain);
    }
  }

  lemma {:induction false} MembersAppend(a: seq<Member>, b: seq<Member>, o: CfgOptions)
    ensures KeptMembers(a + b, o) ==
            (var x, y := KeptMembers(a, o), KeptMembers(b, o); if x.Err? then x else if y.Err? then y else Ok(x.value + y.value))
  {
    hide KeptMember;
    if a == [] {
      assert a + b == b;
      if KeptMembers(b, o).Ok? {
        assert [] + KeptMembers(b, o).value == KeptMembers(b, o).value;
      }
    } else {
      assert (a + b)[0] == a[0] && (a + b)[1..] == a[1..] + b;
      MembersAppend(a[1..], b, o);
      var x, y := KeptMembers(a[1..], o), KeptMembers(b, o);
      if KeptMember(a[0], o).Ok? && x.Ok? && y.Ok? {
        assert KeptMember(a[0], o).value + (x.value + y.value) == KeptMember(a[0], o).value + x.value + y.value;
      }
    }
  }

  lemma MembersNext(members: seq<Member>, k: nat, o: CfgOptions)
    requires k < |members| && KeptMembers(members[..k], o).Ok?
    ensures var r := KeptMember(members[k], o);
            && (r.Err? ==> KeptMembers(members, o) == Err(r.error))
            && (r.Ok? ==> KeptMembers(members[..k + 1], o) == Ok(KeptMembers(members[..k], o).value + r.value))
  {
    hide KeptMember;
    var one := [members[k]];
    assert one[1..] == [] && members[..k + 1] == members[..k] + one && members == members[..k + 1] + members[k + 1..];
    MembersAppend(members[..k], one, o);
    MembersAppend(members[..k + 1], members[k + 1..], o);
    if KeptMember(members[k], o).Ok? {
      assert KeptMember(members[k], o).value + [] == KeptMember(members[k], o).value;
    }
  }

  method FilterMembers(members: seq<Member>, o: CfgOptions) returns (r: Result<seq<Member>>)
    ensures r == KeptMembers(members, o)
    decreases members
  {
    hide KeptMembers, ExpandLimited;
    var kept: seq<Member> := [];
    NoMembers(o);
    for k := 0 to |members|
      invariant KeptMembers(members[..k], o) == Ok(kept)
    {
      MembersNext(members, k, o);
      var expanded := ExpandCfgAttributes(members[k].attributes, o);
      assert expanded == ExpandLimited(members[k].attributes, o) by { LimitedIs(members[k].attributes, o); }
      if expanded.Err? {
        return Err(expanded.error);
      }
      if !expanded.value.active {
        assert kept + [] == kept;
        continue;
      }
      var fields := FilterMembers(members[k].fields, o);
      if fields.Err? {
        return fields;
      }
      kept := kept + [Member(members[k].name, expanded.value.attributes, fields.value)];
    }
    assert members[..|members|] == members;
    return Ok(kept);
  }

  lemma NoMembers(o: CfgOptions)
    ensures KeptMembers([], o) == Ok([])
  {
  }

  // ---- what the result is ----

  /**
   * After a successful filter, every active item is at its new position with its own name, the positions
   * keep the order of the items, and there are no other items.
   */
  lemma ItemsKeepTheirPlaces(items: seq<Item>, o: CfgOptions, i: nat)
    requires i < |items| && KeptItems(items, o).Ok? && Active(items[i].attributes, o)
    ensures var kept := KeptItems(items, o).value;
            var j := NewIndex(items, i, o);
            && |kept| == NewIndex(items, |items|, o)
            && j < |kept| && KeptItem(items[i], o) == Ok([kept[j]])
  {
    hide KeptItem, KeptItems, NewIndex, ExpandLimited;
    assert items[..|items|] == items;
    NewIndexCounts(items, |items|, o);
    assert items == items[..i + 1] + items[i + 1..];
    KeptAppend(items[..i + 1], items[i + 1..], o);
    WholeOrError(items, i, o);
    KeptNext(items, i, o);
    NewIndexCounts(items, i, o);
    KeptItemIs(items[i], o);
  }

  lemma {:induction false} NewIndexGrows(items: seq<Item>, i: nat, j: nat, o: CfgOptions)
    requires i < j <= |items|
    ensures NewIndex(items, i, o) + (if Active(items[i].attributes, o) then 1 else 0) <= NewIndex(items, j, o)
  {
    if j > i + 1 {
      NewIndexGrows(items, i, j - 1, o);
    }
  }

  /** Two active items never get the same position. */
  lemma PositionsAreDistinct(items: seq<Item>, i: nat, j: nat, o: CfgOptions)
    requires i < j < |items| && Active(items[i].attributes, o) && Active(items[j].attributes, o)
    ensures NewIndex(items, i, o) < NewIndex(items, j, o)
  {
    NewIndexGrows(items, i, j, o);
  }

  /** Every entry that is left points at the filtered form of the item it pointed at before. */
  lemma {:induction false} EntriesFollowTheirItems(s: Scope, o: CfgOptions, e: ChunkEntry)
    requires Filtered(s, o).Ok? && e in Filtered(s, o).value.order && e.ItemAt?
    ensures var t := Filtered(s, o).value;
            exists i: nat :: i < |s.items| && ItemAt(i) in s.order && e.index < |t.items| && KeptItem(s.items[i], o) == Ok([t.items[e.index]])
  {
    hide KeptItem;
    var i := OldEntry(s.order, s.items, o, e);
    ItemsKeepTheirPlaces(s.items, o, i);
  }

  lemma {:induction false} OldEntry(order: seq<ChunkEntry>, items: seq<Item>, o: CfgOptions, e: ChunkEntry) returns (i: nat)
    requires e in NewOrder(order, items, o) && e.ItemAt?
    ensures ItemAt(i) in order && i < |items| && Active(items[i].attributes, o) && e.index == NewIndex(items, i, o)
  {
    if e in Renumbered(order[0], items, o) {
      i := order[0].index;
    } else {
      i := OldEntry(order[1..], items, o, e);
    }
  }
}
