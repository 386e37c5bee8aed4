/** The traversal as the program runs it, and what one more required field does to the cost. */
module SchemaTraversal {
  import opened Options
  import opened Json
  import opened SchemaMeasure

  // ----- The loops -----

  method Traverse(node0: Json, root: Json, level: nat, ancestors0: set<string>, inherited: seq<Entry>)
    returns (cost: Cost)
    requires InScope(node0, inherited, root)
    ensures cost == Measure(node0, root, level, ancestors0, inherited)
    decreases Unused(root, ancestors0), Weight(Size(node0), inherited), Size(node0), 1
  {
    var node, ancestors := node0, ancestors0;
    while ReferenceAt(node).Some?
      invariant InScope(node, inherited, root)
      invariant Measure(node, root, level, ancestors, inherited) == Measure(node0, root, level, ancestors0, inherited)
      invariant (node == node0 && ancestors == ancestors0) || Unused(root, ancestors) < Unused(root, ancestors0)
      decreases Unused(root, ancestors)
    {
      var reference := ReferenceAt(node).value;
      if reference in ancestors {
        return NOTHING;
      }
      assert reference in Refs(root) by { RefsOfValue(node, "$ref"); }
      UnusedShrinks(Refs(root), ancestors, reference);
      PointerInScope(root, reference);
      ancestors := ancestors + {reference};
      node := Pointer(root, reference);
    }
    if !node.Obj? {
      return NOTHING;
    }
    if !IsObject(node) && ObjectAt(node, "items") {
      RefsOfValue(node, "items");
      GetIsSmaller(node, "items");
      cost := Traverse(Get(node, "items").value, root, level, ancestors, []);
      return;
    }
    cost := TraverseObject(node, root, level, ancestors, inherited);
  }

  method TraverseObject(node: Json, root: Json, level: nat, ancestors: set<string>, inherited: seq<Entry>)
    returns (cost: Cost)
    requires InScope(node, inherited, root) && node.Obj?
    ensures cost == MeasureObject(node, root, level, ancestors, inherited)
    decreases Unused(root, ancestors), Weight(Size(node), inherited), Size(node), 0
  {
    var properties := PropertiesAt(node) + inherited;
    NodeFits(node, inherited, root);
    var base := Cost(0, if IsObject(node) then 1 else 0, 0);
    var fields := TraverseRequired(ListAt(node, "required"), root, level, ancestors, properties);
    var all := TraverseEach(ListAt(node, "allOf"), root, level, ancestors, properties);
    var one := TraverseEach(ListAt(node, "oneOf"), root, level, ancestors, properties);
    var any := TraverseEach(ListAt(node, "anyOf"), root, level, ancestors, properties);
    var negated := TraverseEach(NegationAt(node), root, level, ancestors, properties);
    cost := Combined(base, fields, Summed(all), UnionCost(ListAt(node, "oneOf"), one),
                     UnionCost(ListAt(node, "anyOf"), any), negated);
  }

  method TraverseRequired(names: seq<Json>, root: Json, level: nat, ancestors: set<string>, properties: seq<Entry>)
    returns (cost: Cost)
    requires RefsOfEntries(properties) <= Refs(root)
    ensures cost == MeasureRequired(names, root, level, ancestors, properties)
    decreases Unused(root, ancestors), Weight(0, properties), SizeOfItems(names)
  {
    cost := NOTHING;
    ghost var total := MeasureRequired(names, root, level, ancestors, properties);
    PlusNothing(total);
    assert names[0..] == names;
    for i := 0 to |names|
      invariant Plus(cost, MeasureRequired(names[i..], root, level, ancestors, properties)) == total
    {
      ItemIsSmaller(names, i);
      var one := TraverseName(names[i], root, level, ancestors, properties);
      RequiredStep(names, i, cost, root, level, ancestors, properties);
      cost := Plus(cost, one);
    }
    RequiredEnd(names, cost, root, level, ancestors, properties);
  }

  lemma PlusNothing(cost: Cost)
    ensures Plus(NOTHING, cost) == cost
  {
  }

  lemma RequiredStep(names: seq<Json>, i: nat, cost: Cost, root: Json, level: nat, ancestors: set<string>,
                     properties: seq<Entry>)
    requires RefsOfEntries(properties) <= Refs(root) && i < |names|
    ensures var one := MeasureName(names[i], root, level, ancestors, properties);
            Plus(Plus(cost, one), MeasureRequired(names[i + 1..], root, level, ancestors, properties))
            == Plus(cost, MeasureRequired(names[i..], root, level, ancestors, properties))
  {
    assert names[i..][0] == names[i] && names[i..][1..] == names[i + 1..];
  }

  lemma RequiredEnd(names: seq<Json>, cost: Cost, root: Json, level: nat, ancestors: set<string>,
                    properties: seq<Entry>)
    requires RefsOfEntries(properties) <= Refs(root)
    ensures Plus(cost, MeasureRequired(names[|names|..], root, level, ancestors, properties)) == cost
  {
    assert names[|names|..] == [];
  }

  method TraverseName(name: Json, root: Json, level: nat, ancestors: set<string>, properties: seq<Entry>)
    returns (cost: Cost)
    requires RefsOfEntries(properties) <= Refs(root)
    ensures cost == MeasureName(name, root, level, ancestors, properties)
    decreases Unused(root, ancestors), Weight(0, properties), Size(name), 2
  {
    if !name.Str? || level >= MAXIMUM_SCHEMA_LEVEL {
      return if name.Str? then Cost(1, 0, 0) else NOTHING;
    }
    ChildFits(properties, name.s, root);
    var child := Traverse(PropertySchema(properties, name.s), root, level + 1, ancestors, []);
    cost := ForField(child);
  }

  method TraverseEach(branches: seq<Json>, root: Json, level: nat, ancestors: set<string>, properties: seq<Entry>)
    returns (costs: seq<Cost>)
    requires RefsOfItems(branches) <= Refs(root) && RefsOfEntries(properties) <= Refs(root)
    ensures costs == MeasureEach(branches, root, level, ancestors, properties)
    decreases Unused(root, ancestors), Weight(SizeOfItems(branches), properties), SizeOfItems(branches)
  {
    costs := [];
    ghost var total := MeasureEach(branches, root, level, ancestors, properties);
    assert branches[0..] == branches && [] + total == total;
    for i := 0 to |branches|
      invariant RefsOfItems(branches[i..]) <= Refs(root)
      invariant costs + MeasureEach(branches[i..], root, level, ancestors, properties) == total
    {
      ItemIsSmaller(branches, i);
      EachStep(branches, i, costs, root, level, ancestors, properties);
      var cost := Traverse(branches[i], root, level, ancestors, properties);
      costs := costs + [cost];
    }
    assert branches[|branches|..] == [];
  }

  lemma EachStep(branches: seq<Json>, i: nat, costs: seq<Cost>, root: Json, level: nat, ancestors: set<string>,
                 properties: seq<Entry>)
    requires i < |branches| && RefsOfItems(branches[i..]) <= Refs(root) && RefsOfEntries(properties) <= Refs(root)
    ensures Refs(branches[i]) <= Refs(root) && RefsOfItems(branches[i + 1..]) <= Refs(root)
    ensures (costs + [Measure(branches[i], root, level, ancestors, properties)])
              + MeasureEach(branches[i + 1..], root, level, ancestors, properties)
         == costs + MeasureEach(branches[i..], root, level, ancestors, properties)
  {
    assert branches[i..][0] == branches[i] && branches[i..][1..] == branches[i + 1..];
    var one := [Measure(branches[i], root, level, ancestors, properties)];
    assert (costs + one) + MeasureEach(branches[i + 1..], root, level, ancestors, properties)
        == costs + (one + MeasureEach(branches[i + 1..], root, level, ancestors, properties));
  }

  // ----- One more required field -----

  predicate Leq(a: Cost, b: Cost) {
    a.count <= b.count && a.depth <= b.depth && a.unions <= b.unions
  }

  predicate AllLeq(a: seq<Cost>, b: seq<Cost>) {
    |a| == |b| && forall i :: 0 <= i < |a| ==> Leq(a[i], b[i])
  }

  function Assign(entries: seq<Entry>, key: string, value: Json): seq<Entry> {
    if entries == [] then []
    else if entries[0].key == key then [Entry(key, value)] + entries[1..]
    else [entries[0]] + Assign(entries[1..], key, value)
  }

  /** A root object that lists what it requires and is not itself a reference. */
  predicate Extensible(root: Json) {
    root.Obj? && ReferenceAt(root).None? && Get(root, "required").Some? && Get(root, "required").value.Arr?
  }

  /** The root with one more name at the end of its required list. */
  function Extended(root: Json, name: string): Json
    requires Extensible(root)
  {
    Obj(Assign(root.entries, "required", Arr(ListAt(root, "required") + [Str(name)])))
  }

  lemma {:induction false} LookupAssigned(entries: seq<Entry>, key: string, value: Json, asked: string)
    requires Lookup(entries, key).Some?
    ensures Lookup(Assign(entries, key, value), asked) == if asked == key then Some(value) else Lookup(entries, asked)
  {
    if entries[0].key != key { LookupAssigned(entries[1..], key, value, asked); }
  }

  lemma {:induction false} RefsAssigned(entries: seq<Entry>, key: string, value: Json)
    requires Lookup(entries, key).Some? && key != "$ref" && Refs(value) == Refs(Lookup(entries, key).value)
    ensures RefsOfEntries(Assign(entries, key, value)) == RefsOfEntries(entries)
  {
    var new_entries := Assign(entries, key, value);
    if entries[0].key != key {
      assert new_entries[1..] == Assign(entries[1..], key, value);
      RefsAssigned(entries[1..], key, value);
    } else {
      assert new_entries[1..] == entries[1..];
    }
  }

  lemma {:induction false} RefsAppended(items: seq<Json>, last: string)
    ensures RefsOfItems(items + [Str(last)]) == RefsOfItems(items)
  {
    if items == [] {
      assert RefsOfItems([Str(last)]) == Refs(Str(last)) + RefsOfItems([Str(last)][1..]);
    } else {
      assert (items + [Str(last)])[1..] == items[1..] + [Str(last)];
      RefsAppended(items[1..], last);
    }
  }

  lemma ExtendedKeeps(root: Json, name: string)
    requires Extensible(root)
    ensures Refs(Extended(root, name)) == Refs(root)
    ensures forall key :: Get(Extended(root, name), key) ==
                          if key == "required" then Some(Arr(ListAt(root, "required") + [Str(name)]))
                              else Get(root, key)
  {
    var value := Arr(ListAt(root, "required") + [Str(name)]);
    RefsAppended(ListAt(root, "required"), name);
    RefsAssigned(root.entries, "required", value);
    forall key ensures Get(Extended(root, name), key) == if key == "required" then Some(value) else Get(root, key) {
      LookupAssigned(root.entries, "required", value, key);
    }
  }

  /** What a place in the root holds before and after the extension. */
  predicate Corresponds(node: Json, node': Json, root: Json, root': Json) {
    node == node' || (node == root && node' == root') || (!node.Obj? && !node'.Obj?)
  }

  lemma PointersCorrespond(root: Json, name: string, reference: string)
    requires Extensible(root)
    ensures Corresponds(Pointer(root, reference), Pointer(Extended(root, name), reference), root, Extended(root, name))
  {
    var root' := Extended(root, name);
    ExtendedKeeps(root, name);
    if reference != [] && reference[0] == '#' && reference != "#" {
      var parts := Split(reference[1..], '/')[1..];
      if parts != [] {
        var part := Unescape(Unescape(parts[0], "~1", '/'), "~0", '~');
        if part == "required" {
          DescendIntoList(ListAt(root, "required"), name, parts[1..]);
        }
      }
    }
  }

  lemma DescendIntoList(items: seq<Json>, last: string, parts: seq<string>)
    ensures var a, b := Descend(Arr(items), parts), Descend(Arr(items + [Str(last)]), parts);
            a == b || (!a.Obj? && !b.Obj?)
  {
    if parts != [] {
      var part := Unescape(Unescape(parts[0], "~1", '/'), "~0", '~');
      if IsDigits(part) && ToNat(part) == |items| {
        assert !Descend(Str(last), parts[1..]).Obj?;
      }
    }
  }

  lemma {:induction false} AllLeqCombine(a: seq<Cost>, b: seq<Cost>)
    requires AllLeq(a, b)
    ensures Leq(Summed(a), Summed(b)) && Leq(Widest(a), Widest(b))
  {
    if a != [] { AllLeqCombine(a[1..], b[1..]); }
  }

  /** Wherever the traversal is, it finds at least as much in the extended root as in the root. */
  lemma {:induction false} Grows(node: Json, node': Json, root: Json, name: string, level: nat, ancestors: set<string>,
                                 inherited: seq<Entry>)
    requires Extensible(root) && Corresponds(node, node', root, Extended(root, name))
    requires InScope(node, inherited, root) && InScope(node', inherited, Extended(root, name))
    ensures Leq(Measure(node, root, level, ancestors, inherited),
                Measure(node', Extended(root, name), level, ancestors, inherited))
    decreases Unused(root, ancestors), Weight(Size(node), inherited), Size(node), 1
  {
    var root' := Extended(root, name);
    ExtendedKeeps(root, name);
    if ReferenceAt(node).Some? {
      var reference := ReferenceAt(node).value;
      if reference !in ancestors {
        assert reference in Refs(root) by { RefsOfValue(node, "$ref"); }
        UnusedShrinks(Refs(root), ancestors, reference);
        PointerInScope(root, reference);
        PointerInScope(root', reference);
        PointersCorrespond(root, name, reference);
        Grows(Pointer(root, reference), Pointer(root', reference), root, name, level, ancestors +
            {reference}, inherited);
      }
    } else if node.Obj? {
      if !IsObject(node) && ObjectAt(node, "items") {
        assert node == node';
        RefsOfValue(node, "items");
        GetIsSmaller(node, "items");
        var items := Get(node, "items").value;
        Grows(items, items, root, name, level, ancestors, []);
      } else {
        assert ReferenceAt(node').None? && IsObject(node') == IsObject(node);
        GrowsObject(node, node', root, name, level, ancestors, inherited);
      }
    }
  }

  lemma SameParts(node: Json, node': Json, root: Json, name: string)
    requires Extensible(root) && node.Obj? && node'.Obj?
    requires node == node' || (node == root && node' == Extended(root, name))
    ensures IsObject(node') == IsObject(node)
    ensures PropertiesAt(node') == PropertiesAt(node) && NegationAt(node') == NegationAt(node)
    ensures ListAt(node', "allOf") == ListAt(node, "allOf")
    ensures ListAt(node', "oneOf") == ListAt(node, "oneOf") && ListAt(node', "anyOf") == ListAt(node, "anyOf")
    ensures ListAt(node', "required") == ListAt(node, "required") + if node == node' then [] else [Str(name)]
    ensures node == root ==> node' != node || Extended(root, name) != root
  {
    ExtendedKeeps(root, name);
    if node == node' {
      assert ListAt(node, "required") + [] == ListAt(node, "required");
    }
    assert |ListAt(Extended(root, name), "required")| == |ListAt(root, "required")| + 1;
  }

  lemma CombinedGrows(base: Cost, fields: Cost, fields': Cost, all: seq<Cost>, all': seq<Cost>,
                      ones: seq<Json>, one: seq<Cost>, one': seq<Cost>, anys: seq<Json>, any: seq<Cost>,
                          any': seq<Cost>,
                      negated: seq<Cost>, negated': seq<Cost>)
    requires Leq(fields, fields') && AllLeq(all, all') && AllLeq(one, one') && AllLeq(any, any')
    requires AllLeq(negated, negated')
    ensures var less := Combined(base, fields, Summed(all), UnionCost(ones, one), UnionCost(anys, any), negated);
            var more := Combined(base, fields', Summed(all'), UnionCost(ones, one'), UnionCost(anys, any'), negated');
            Leq(less, more) && (fields.count + 1 <= fields'.count ==> less.count + 1 <= more.count)
  {
    AllLeqCombine(all, all');
    AllLeqCombine(one, one');
    AllLeqCombine(any, any');
    AllLeqCombine(negated, negated');
  }

  lemma {:induction false} GrowsObject(node: Json, node': Json, root: Json, name: string, level: nat,
                                       ancestors: set<string>, inherited: seq<Entry>)
    requires Extensible(root) && node.Obj? && node'.Obj?
    requires node == node' || (node == root && node' == Extended(root, name))
    requires InScope(node, inherited, root) && InScope(node', inherited, Extended(root, name))
    ensures Leq(MeasureObject(node, root, level, ancestors, inherited),
                MeasureObject(node', Extended(root, name), level, ancestors, inherited))
    ensures node == root && node' == Extended(root, name) ==>
              MeasureObject(node, root, level, ancestors, inherited).count + 1
              <= MeasureObject(node', Extended(root, name), level, ancestors, inherited).count
    decreases Unused(root, ancestors), Weight(Size(node), inherited), Size(node), 0
  {
    var root' := Extended(root, name);
    ExtendedKeeps(root, name);
    var properties := PropertiesAt(node) + inherited;
    SameParts(node, node', root, name);
    NodeFits(node, inherited, root);
    var (names, all, one, any, negated) :=
      (ListAt(node, "required"), ListAt(node, "allOf"), ListAt(node, "oneOf"), ListAt(node, "anyOf"), NegationAt(node));
    GrowsRequired(names, root, name, level, ancestors, properties);
    GrowsByOne(names, name, root', level, ancestors, properties);
    GrowsEach(all, root, name, level, ancestors, properties);
    GrowsEach(one, root, name, level, ancestors, properties);
    GrowsEach(any, root, name, level, ancestors, properties);
    GrowsEach(negated, root, name, level, ancestors, properties);
    CombinedGrows(Cost(0, if IsObject(node) then 1 else 0, 0),
                  MeasureRequired(names, root, level, ancestors, properties),
                  MeasureRequired(ListAt(node', "required"), root', level, ancestors, properties),
                  MeasureEach(all, root, level, ancestors, properties),
                      MeasureEach(all, root', level, ancestors, properties),
                  one, MeasureEach(one, root, level, ancestors, properties),
                      MeasureEach(one, root', level, ancestors, properties),
                  any, MeasureEach(any, root, level, ancestors, properties),
                      MeasureEach(any, root', level, ancestors, properties),
                  MeasureEach(negated, root, level, ancestors, properties),
                  MeasureEach(negated, root', level, ancestors, properties));
  }

  /** One more name counts one more field. */
  lemma {:induction false} GrowsByOne(names: seq<Json>, name: string, root: Json, level: nat, ancestors: set<string>,
                                      properties: seq<Entry>)
    requires RefsOfEntries(properties) <= Refs(root)
    ensures var less := MeasureRequired(names, root, level, ancestors, properties);
            var more := MeasureRequired(names + [Str(name)], root, level, ancestors, properties);
            Leq(less, more) && less.count + 1 <= more.count
  {
    if names == [] {
      assert names + [Str(name)] == [Str(name)];
    } else {
      assert (names + [Str(name)])[1..] == names[1..] + [Str(name)];
      GrowsByOne(names[1..], name, root, level, ancestors, properties);
    }
  }

  lemma {:induction false} GrowsName(field: Json, root: Json, name: string, level: nat, ancestors: set<string>,
                                     properties: seq<Entry>)
    requires Extensible(root) && Refs(Extended(root, name)) == Refs(root)
    requires RefsOfEntries(properties) <= Refs(root)
    ensures Leq(MeasureName(field, root, level, ancestors, properties),
                MeasureName(field, Extended(root, name), level, ancestors, properties))
    decreases Unused(root, ancestors), Weight(0, properties), Size(field), 2
  {
    if field.Str? && level < MAXIMUM_SCHEMA_LEVEL {
      ChildFits(properties, field.s, root);
      var child := PropertySchema(properties, field.s);
      Grows(child, child, root, name, level + 1, ancestors, []);
    }
  }

  lemma {:induction false} GrowsRequired(names: seq<Json>, root: Json, name: string, level: nat, ancestors: set<string>,
                                         properties: seq<Entry>)
    requires Extensible(root) && Refs(Extended(root, name)) == Refs(root)
    requires RefsOfEntries(properties) <= Refs(root)
    ensures Leq(MeasureRequired(names, root, level, ancestors, properties),
                MeasureRequired(names, Extended(root, name), level, ancestors, properties))
    decreases Unused(root, ancestors), Weight(0, properties), SizeOfItems(names), 3
  {
    if names != [] {
      ItemIsSmaller(names, 0);
      GrowsRequired(names[1..], root, name, level, ancestors, properties);
      GrowsName(names[0], root, name, level, ancestors, properties);
    }
  }

  lemma {:induction false} GrowsEach(branches: seq<Json>, root: Json, name: string, level: nat, ancestors: set<string>,
                                     properties: seq<Entry>)
    requires Extensible(root) && Refs(Extended(root, name)) == Refs(root)
    requires RefsOfItems(branches) <= Refs(root) && RefsOfEntries(properties) <= Refs(root)
    ensures AllLeq(MeasureEach(branches, root, level, ancestors, properties),
                   MeasureEach(branches, Extended(root, name), level, ancestors, properties))
    decreases Unused(root, ancestors), Weight(SizeOfItems(branches), properties), SizeOfItems(branches)
  {
    if branches != [] {
      GrowsEach(branches[1..], root, name, level, ancestors, properties);
      Grows(branches[0], branches[0], root, name, level, ancestors, properties);
    }
  }

  /** One more required name raises the field count by at least one and the cost by at least one, even where
      subschemas refer back to the root. */
  lemma RequiringMoreCostsMore(root: Json, name: string)
    requires Extensible(root) && PropertiesAt(root) != []
    ensures var (count, depth, unions, cost) := Invocation(root);
            var (count', depth', unions', cost') := Invocation(Extended(root, name));
            count' >= count + 1 && depth' >= depth && unions' >= unions && cost' >= cost + 1
  {
    var root' := Extended(root, name);
    ExtendedKeeps(root, name);
    assert ReferenceAt(root').None? && IsObject(root) && IsObject(root') && PropertiesAt(root') == PropertiesAt(root);
    GrowsObject(root, root', root, name, 1, {}, []);
  }

  function Names(required: seq<Json>): nat {
    if required == [] then 0 else (if required[0].Str? then 1 else 0) + Names(required[1..])
  }

  lemma {:induction false} EveryNameCounts(required: seq<Json>, root: Json, level: nat, ancestors: set<string>,
                                           properties: seq<Entry>)
    requires RefsOfEntries(properties) <= Refs(root)
    ensures MeasureRequired(required, root, level, ancestors, properties).count >= Names(required)
    decreases |required|
  {
    if required != [] {
      EveryNameCounts(required[1..], root, level, ancestors, properties);
    }
  }

  /** A tool has at least as many required fields as its schema requires names. */
  lemma RequiredFieldsCoverNames(schema: Json)
    requires PropertiesAt(schema) != [] && ReferenceAt(schema).None?
    ensures Invocation(schema).0 >= Names(ListAt(schema, "required"))
  {
    var properties := PropertiesAt(schema) + [];
    NodeFits(schema, [], schema);
    EveryNameCounts(ListAt(schema, "required"), schema, 1, {}, properties);
    assert Measure(schema, schema, 1, {}, []) == MeasureObject(schema, schema, 1, {}, []);
  }
}
