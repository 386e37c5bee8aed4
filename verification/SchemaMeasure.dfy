/** The invocation cost of a JSON schema: the traversal of its required subtree (tools/tool_definition_score.py). */
module SchemaMeasure {
  import opened Options
  import opened Json

  const MAXIMUM_SCHEMA_LEVEL: nat := 10

  datatype Cost = Cost(count: nat, depth: nat, unions: nat)

  const NOTHING := Cost(0, 0, 0)

  function Max(a: nat, b: nat): nat {
    if a < b then b else a
  }

  // ----- References -----

  /** str.split with a one-character separator. */
  function Split(text: string, separator: char): (parts: seq<string>)
    ensures |parts| >= 1
  {
    if text == [] then [""]
    else
      var rest := Split(text[1..], separator);
      if text[0] == separator then [""] + rest else [[text[0]] + rest[0]] + rest[1..]
  }

  /** str.replace of a two-character escape by one character. */
  function Unescape(text: string, escape: string, replacement: char): string
    requires |escape| == 2
  {
    if |text| < 2 then text
    else if text[..2] == escape then [replacement] + Unescape(text[2..], escape, replacement)
    else [text[0]] + Unescape(text[1..], escape, replacement)
  }

  predicate IsDigits(text: string) {
    text != "" && forall i :: 0 <= i < |text| ==> '0' <= text[i] <= '9'
  }

  function ToNat(digits: string): nat
    requires forall i :: 0 <= i < |digits| ==> '0' <= digits[i] <= '9'
  {
    if digits == "" then 0
    else 10 * ToNat(digits[..|digits| - 1]) + (digits[|digits| - 1] as int - '0' as int)
  }

  function Descend(node: Json, parts: seq<string>): Json
    decreases parts
  {
    if parts == [] then node
    else
      var part := Unescape(Unescape(parts[0], "~1", '/'), "~0", '~');
      if Get(node, part).Some? then Descend(Get(node, part).value, parts[1..])
      else if node.Arr? && IsDigits(part)
          && ToNat(part) < |node.items| then Descend(node.items[ToNat(part)], parts[1..])
      else Null
  }

  /** What a reference points to in the root, Null when it points nowhere. */
  function Pointer(root: Json, reference: string): Json {
    if reference == [] || reference[0] != '#' then Null
    else if reference == "#" then root
    else Descend(root, Split(reference[1..], '/')[1..])
  }

  // ----- What makes the traversal terminate -----

  /** Every reference string in a value. */
  function Refs(node: Json): set<string>
    decreases node, 0
  {
    match node
    case Arr(items) => RefsOfItems(items)
    case Obj(entries) => RefsOfEntries(entries)
    case _ => {}
  }

  function RefsOfItems(items: seq<Json>): set<string>
    decreases items, 1
  {
    if items == [] then {} else Refs(items[0]) + RefsOfItems(items[1..])
  }

  function RefsOfEntries(entries: seq<Entry>): set<string>
    decreases entries, 1
  {
    if entries == [] then {}
    else
      (if entries[0].key == "$ref" && entries[0].value.Str? then {entries[0].value.s} else {})
      + Refs(entries[0].value) + RefsOfEntries(entries[1..])
  }

  lemma {:induction false} RefsOfItem(items: seq<Json>, i: nat)
    requires i < |items|
    ensures Refs(items[i]) <= RefsOfItems(items)
  {
    if i > 0 { RefsOfItem(items[1..], i - 1); }
  }

  lemma {:induction false} RefsOfEntry(entries: seq<Entry>, i: nat)
    requires i < |entries|
    ensures Refs(entries[i].value) <= RefsOfEntries(entries)
    ensures entries[i].key == "$ref" && entries[i].value.Str? ==> entries[i].value.s in RefsOfEntries(entries)
  {
    if i > 0 { RefsOfEntry(entries[1..], i - 1); }
  }

  lemma RefsOfValue(node: Json, key: string)
    requires Get(node, key).Some?
    ensures Refs(Get(node, key).value) <= Refs(node)
    ensures key == "$ref" && Get(node, key).value.Str? ==> Get(node, key).value.s in Refs(node)
  {
    var i :| 0 <= i < |node.entries| && node.entries[i] == Entry(key, Get(node, key).value);
    RefsOfEntry(node.entries, i);
  }

  lemma {:induction false} RefsOfDescendant(node: Json, parts: seq<string>)
    ensures Refs(Descend(node, parts)) <= Refs(node)
    decreases parts
  {
    if parts != [] {
      var part := Unescape(Unescape(parts[0], "~1", '/'), "~0", '~');
      if Get(node, part).Some? {
        RefsOfValue(node, part);
        RefsOfDescendant(Get(node, part).value, parts[1..]);
      } else if node.Arr? && IsDigits(part) && ToNat(part) < |node.items| {
        RefsOfItem(node.items, ToNat(part));
        RefsOfDescendant(node.items[ToNat(part)], parts[1..]);
      }
    }
  }

  /** The size of the largest value in the properties. */
  function Largest(properties: seq<Entry>): nat {
    if properties == [] then 0 else Max(Size(properties[0].value), Largest(properties[1..]))
  }

  lemma {:induction false} LargestOfBoth(a: seq<Entry>, b: seq<Entry>)
    ensures Largest(a + b) == Max(Largest(a), Largest(b))
  {
    if a == [] {
      assert a + b == b;
    } else {
      assert (a + b)[1..] == a[1..] + b;
      LargestOfBoth(a[1..], b);
    }
  }

  lemma {:induction false} LargestInside(entries: seq<Entry>)
    ensures Largest(entries) <= SizeOfEntries(entries)
  {
    if entries != [] { LargestInside(entries[1..]); }
  }

  lemma {:induction false} LookupIsSmall(properties: seq<Entry>, name: string)
    requires Lookup(properties, name).Some?
    ensures Size(Lookup(properties, name).value) <= Largest(properties)
  {
    if properties[0].key != name { LookupIsSmall(properties[1..], name); }
  }

  lemma {:induction false} LookupInScope(properties: seq<Entry>, name: string)
    requires Lookup(properties, name).Some?
    ensures Refs(Lookup(properties, name).value) <= RefsOfEntries(properties)
  {
    if properties[0].key != name { LookupInScope(properties[1..], name); }
  }

  lemma {:induction false} RefsOfBoth(a: seq<Entry>, b: seq<Entry>)
    ensures RefsOfEntries(a + b) == RefsOfEntries(a) + RefsOfEntries(b)
  {
    if a == [] {
      assert a + b == b;
    } else {
      assert (a + b)[1..] == a[1..] + b;
      RefsOfBoth(a[1..], b);
    }
  }

  lemma UnusedShrinks(all: set<string>, used: set<string>, reference: string)
    requires reference in all && reference !in used
    ensures |all - (used + {reference})| < |all - used|
  {
    assert all - used == (all - (used + {reference})) + {reference};
  }

  // ----- The traversal -----

  predicate TypeIncludes(node: Json, name: string) {
    var declared := Get(node, "type");
    declared == Some(Str(name)) || (declared.Some? && declared.value.Arr? && Str(name) in declared.value.items)
  }

  predicate IsObject(node: Json) {
    TypeIncludes(node, "object") || Get(node, "properties").Some? || Get(node, "required").Some?
  }

  function ListAt(node: Json, key: string): seq<Json> {
    var found := Get(node, key);
    if found.Some? && found.value.Arr? then found.value.items else []
  }

  function PropertiesAt(node: Json): seq<Entry> {
    var found := Get(node, "properties");
    if found.Some? && found.value.Obj? then found.value.entries else []
  }

  function ReferenceAt(node: Json): Option<string> {
    var found := Get(node, "$ref");
    if found.Some? && found.value.Str? then Some(found.value.s) else None
  }

  predicate ObjectAt(node: Json, key: string) {
    Get(node, key).Some? && Get(node, key).value.Obj?
  }

  /** A branch of a union that is only the null of the nullable idiom. */
  predicate IsNullBranch(branch: Json) {
    Get(branch, "type") == Some(Str("null"))
  }

  function Choices(branches: seq<Json>): nat {
    if branches == [] then 0 else (if IsNullBranch(branches[0]) then 0 else 1) + Choices(branches[1..])
  }

  function Summed(costs: seq<Cost>): Cost {
    if costs == [] then NOTHING
    else
      var rest := Summed(costs[1..]);
      Cost(costs[0].count + rest.count, Max(costs[0].depth, rest.depth), costs[0].unions + rest.unions)
  }

  function Widest(costs: seq<Cost>): Cost {
    if costs == [] then NOTHING
    else
      var rest := Widest(costs[1..]);
      Cost(Max(costs[0].count, rest.count), Max(costs[0].depth, rest.depth), costs[0].unions + rest.unions)
  }

  function Plus(a: Cost, b: Cost): Cost {
    Cost(a.count + b.count, Max(a.depth, b.depth), a.unions + b.unions)
  }

  /** A union counts its widest branch, and one choice for every branch but the first that is not null. */
  function UnionCost(branches: seq<Json>, costs: seq<Cost>): Cost {
    var widest := Widest(costs);
    widest.(unions := widest.unions + (if Choices(branches) > 1 then Choices(branches) - 1 else 0))
  }

  function Unused(root: Json, ancestors: set<string>): nat {
    |Refs(root) - ancestors|
  }

  function Weight(size: nat, properties: seq<Entry>): nat {
    Max(2, Max(size, 1 + Largest(properties)))
  }

  /** Everything a step of the traversal looks at comes from the root. */
  predicate InScope(node: Json, properties: seq<Entry>, root: Json) {
    Refs(node) <= Refs(root) && RefsOfEntries(properties) <= Refs(root)
  }

  function Measure(node: Json, root: Json, level: nat, ancestors: set<string>, inherited: seq<Entry>): (cost: Cost)
    requires InScope(node, inherited, root)
    ensures level <= MAXIMUM_SCHEMA_LEVEL ==> cost.depth + level <= MAXIMUM_SCHEMA_LEVEL + 1
    decreases Unused(root, ancestors), Weight(Size(node), inherited), Size(node), 1
  {
    if ReferenceAt(node).Some? then
      var reference := ReferenceAt(node).value;
      if reference in ancestors then NOTHING
      else
        assert reference in Refs(root) by { RefsOfValue(node, "$ref"); }
        UnusedShrinks(Refs(root), ancestors, reference);
        PointerInScope(root, reference);
        Measure(Pointer(root, reference), root, level, ancestors + {reference}, inherited)
    else if !node.Obj? then NOTHING
    else if !IsObject(node) && ObjectAt(node, "items") then
      RefsOfValue(node, "items");
      GetIsSmaller(node, "items");
      Measure(Get(node, "items").value, root, level, ancestors, [])
    else MeasureObject(node, root, level, ancestors, inherited)
  }

  function MeasureObject(node: Json, root: Json, level: nat, ancestors: set<string>, inherited: seq<Entry>)
    : (cost: Cost)
    requires InScope(node, inherited, root) && node.Obj?
    ensures level <= MAXIMUM_SCHEMA_LEVEL ==> cost.depth + level <= MAXIMUM_SCHEMA_LEVEL + 1
    decreases Unused(root, ancestors), Weight(Size(node), inherited), Size(node), 0
  {
    var properties := PropertiesAt(node) + inherited;
    NodeFits(node, inherited, root);
    var base := Cost(0, if IsObject(node) then 1 else 0, 0);
    var fields := MeasureRequired(ListAt(node, "required"), root, level, ancestors, properties);
    var all := MeasureEach(ListAt(node, "allOf"), root, level, ancestors, properties);
    var one := MeasureEach(ListAt(node, "oneOf"), root, level, ancestors, properties);
    var any := MeasureEach(ListAt(node, "anyOf"), root, level, ancestors, properties);
    var negated := MeasureEach(NegationAt(node), root, level, ancestors, properties);
    CombinedDepth(base, fields, all, one, any, negated, level);
    Combined(base, fields, Summed(all), UnionCost(ListAt(node, "oneOf"), one), UnionCost(ListAt(node, "anyOf"), any),
        negated)
  }

  function Combined(base: Cost, fields: Cost, all: Cost, one: Cost, any: Cost, negated: seq<Cost>): Cost {
    var cost := Plus(Plus(Plus(Plus(base, fields), all), one), any);
    cost.(depth := Max(cost.depth, Widest(negated).depth))
  }

  predicate Shallow(costs: seq<Cost>, level: nat) {
    forall i :: 0 <= i < |costs| ==> costs[i].depth + level <= MAXIMUM_SCHEMA_LEVEL + 1
  }

  lemma CombinedDepth(base: Cost, fields: Cost, all: seq<Cost>, one: seq<Cost>, any: seq<Cost>, negated: seq<Cost>,
                      level: nat)
    requires level <= MAXIMUM_SCHEMA_LEVEL ==>
               && base.depth <= 1 && fields.depth + level <= MAXIMUM_SCHEMA_LEVEL + 1
               && Shallow(all, level) && Shallow(one, level) && Shallow(any, level) && Shallow(negated, level)
    ensures level <= MAXIMUM_SCHEMA_LEVEL ==>
              forall b, b' :: Combined(base, fields, Summed(all), UnionCost(b, one), UnionCost(b', any),
                  negated).depth + level
                              <= MAXIMUM_SCHEMA_LEVEL + 1
  {
    if level <= MAXIMUM_SCHEMA_LEVEL {
      DepthOfAll(all, level);
      DepthOfAll(one, level);
      DepthOfAll(any, level);
      DepthOfAll(negated, level);
    }
  }

  lemma {:induction false} DepthOfAll(costs: seq<Cost>, level: nat)
    requires level <= MAXIMUM_SCHEMA_LEVEL && Shallow(costs, level)
    ensures Summed(costs).depth + level <= MAXIMUM_SCHEMA_LEVEL + 1
    ensures Widest(costs).depth + level <= MAXIMUM_SCHEMA_LEVEL + 1
  {
    if costs != [] { DepthOfAll(costs[1..], level); }
  }

  function NegationAt(node: Json): seq<Json> {
    if ObjectAt(node, "not") then [Get(node, "not").value] else []
  }

  /** Each required name counts once, and down to the last level its own schema counts too. */
  function MeasureRequired(names: seq<Json>, root: Json, level: nat, ancestors: set<string>, properties: seq<Entry>)
    : (cost: Cost)
    requires RefsOfEntries(properties) <= Refs(root)
    ensures level <= MAXIMUM_SCHEMA_LEVEL ==> cost.depth + level <= MAXIMUM_SCHEMA_LEVEL + 1
    decreases Unused(root, ancestors), Weight(0, properties), SizeOfItems(names)
  {
    if names == [] then NOTHING
    else
      Plus(MeasureName(names[0], root, level, ancestors, properties),
           MeasureRequired(names[1..], root, level, ancestors, properties))
  }

  /** A required field with its own schema's cost. */
  function ForField(child: Cost): Cost {
    Cost(1 + child.count, 1 + child.depth, child.unions)
  }

  function MeasureName(name: Json, root: Json, level: nat, ancestors: set<string>, properties: seq<Entry>): (cost: Cost)
    requires RefsOfEntries(properties) <= Refs(root)
    ensures level <= MAXIMUM_SCHEMA_LEVEL ==> cost.depth + level <= MAXIMUM_SCHEMA_LEVEL + 1
    decreases Unused(root, ancestors), Weight(0, properties), Size(name), 2
  {
    if !name.Str? then NOTHING
    else if level >= MAXIMUM_SCHEMA_LEVEL then Cost(1, 0, 0)
    else
      ChildFits(properties, name.s, root);
      ForField(Measure(PropertySchema(properties, name.s), root, level + 1, ancestors, []))
  }

  function MeasureEach(branches: seq<Json>, root: Json, level: nat, ancestors: set<string>, properties: seq<Entry>)
    : (costs: seq<Cost>)
    requires RefsOfItems(branches) <= Refs(root) && RefsOfEntries(properties) <= Refs(root)
    ensures |costs| == |branches|
    ensures level <= MAXIMUM_SCHEMA_LEVEL ==> Shallow(costs, level)
    decreases Unused(root, ancestors), Weight(SizeOfItems(branches), properties), SizeOfItems(branches)
  {
    if branches == [] then []
    else
      [Measure(branches[0], root, level, ancestors, properties)]
      + MeasureEach(branches[1..], root, level, ancestors, properties)
  }

  /** The schema of a required name; a name without one has the empty schema. */
  function PropertySchema(properties: seq<Entry>, name: string): Json {
    var found := Lookup(properties, name);
    if found.Some? then found.value else Obj([])
  }

  lemma PointerInScope(root: Json, reference: string)
    ensures Refs(Pointer(root, reference)) <= Refs(root)
  {
    if reference != [] && reference[0] == '#' && reference != "#" {
      RefsOfDescendant(root, Split(reference[1..], '/')[1..]);
    }
  }

  lemma PropertiesFit(node: Json, inherited: seq<Entry>, root: Json)
    requires InScope(node, inherited, root) && node.Obj?
    ensures RefsOfEntries(PropertiesAt(node) + inherited) <= Refs(root)
    ensures 1 + Largest(PropertiesAt(node) + inherited) <= Max(Size(node), 1 + Largest(inherited))
  {
    RefsOfBoth(PropertiesAt(node), inherited);
    LargestOfBoth(PropertiesAt(node), inherited);
    if ObjectAt(node, "properties") {
      RefsOfValue(node, "properties");
      GetIsSmaller(node, "properties");
      LargestInside(PropertiesAt(node));
    }
  }

  predicate Fits(items: seq<Json>, node: Json, root: Json) {
    RefsOfItems(items) <= Refs(root) && SizeOfItems(items) < Size(node)
  }

  lemma ListFits(node: Json, key: string, root: Json)
    requires Refs(node) <= Refs(root) && node.Obj?
    ensures Fits(ListAt(node, key), node, root)
  {
    if Get(node, key).Some? && Get(node, key).value.Arr? {
      RefsOfValue(node, key);
      GetIsSmaller(node, key);
    }
  }

  lemma NegationFits(node: Json, root: Json)
    requires Refs(node) <= Refs(root) && node.Obj?
    ensures Fits(NegationAt(node), node, root)
  {
    if ObjectAt(node, "not") {
      RefsOfValue(node, "not");
      GetIsSmaller(node, "not");
      assert NegationAt(node)[1..] == [];
    }
  }

  /** Everything the traversal of an object node descends into lies below the node's own measure. */
  lemma NodeFits(node: Json, inherited: seq<Entry>, root: Json)
    requires InScope(node, inherited, root) && node.Obj?
    ensures var properties := PropertiesAt(node) + inherited;
            && RefsOfEntries(properties) <= Refs(root)
            && (forall size :: 0 <= size < Size(node) ==> Weight(size, properties) <= Weight(Size(node), inherited))
    ensures Fits(ListAt(node, "required"), node, root) && Fits(ListAt(node, "allOf"), node, root)
    ensures Fits(ListAt(node, "oneOf"), node, root) && Fits(ListAt(node, "anyOf"), node, root)
    ensures Fits(NegationAt(node), node, root)
  {
    PropertiesFit(node, inherited, root);
    ListFits(node, "required", root);
    ListFits(node, "allOf", root);
    ListFits(node, "oneOf", root);
    ListFits(node, "anyOf", root);
    NegationFits(node, root);
  }

  lemma ChildFits(properties: seq<Entry>, name: string, root: Json)
    requires RefsOfEntries(properties) <= Refs(root)
    ensures Refs(PropertySchema(properties, name)) <= Refs(root)
    ensures var child := PropertySchema(properties, name);
            || Weight(Size(child), []) < Weight(0, properties)
            || (Weight(Size(child), []) == Weight(0, properties) && Size(child) == 1)
  {
    if Lookup(properties, name).Some? {
      LookupInScope(properties, name);
      LookupIsSmall(properties, name);
    }
  }

  /** The invocation cost of an input schema: (required fields, depth, union choices, cost). */
  function Invocation(schema: Json): (result: (nat, nat, nat, nat))
    ensures result.1 <= MAXIMUM_SCHEMA_LEVEL
  {
    if PropertiesAt(schema) == [] then (0, 0, 0, 0)
    else
      var cost := Measure(schema, schema, 1, {}, []);
      (cost.count, cost.depth, cost.unions, InvocationCost(cost))
  }

  function InvocationCost(cost: Cost): nat {
    cost.count + 2 * (if cost.depth > 1 then cost.depth - 1 else 0) + 2 * cost.unions
  }
}
