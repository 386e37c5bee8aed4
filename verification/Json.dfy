/** JSON values as Python's json module delivers them: an object is a list of entries with distinct keys. */
module Json {
  import opened Options

  datatype Json =
    | Null
    | Bool(b: bool)
    | Number(n: int)
    | Str(s: string)
    | Arr(items: seq<Json>)
    | Obj(entries: seq<Entry>)

  datatype Entry = Entry(key: string, value: Json)

  /** dict.get: the value under a key. */
  function Lookup(entries: seq<Entry>, key: string): (found: Option<Json>)
    ensures found.Some? ==> exists i :: 0 <= i < |entries| && entries[i] == Entry(key, found.value)
    ensures found.None? ==> forall i :: 0 <= i < |entries| ==> entries[i].key != key
  {
    if entries == [] then None
    else if entries[0].key == key then Some(entries[0].value)
    else Lookup(entries[1..], key)
  }

  function Get(node: Json, key: string): Option<Json> {
    if node.Obj? then Lookup(node.entries, key) else None
  }

  /** The number of values in a value, itself included. */
  function Size(node: Json): (n: nat)
    ensures n >= 1
    decreases node, 0
  {
    match node
    case Arr(items) => 1 + SizeOfItems(items)
    case Obj(entries) => 1 + SizeOfEntries(entries)
    case _ => 1
  }

  function SizeOfItems(items: seq<Json>): nat
    decreases items, 1
  {
    if items == [] then 0 else Size(items[0]) + SizeOfItems(items[1..])
  }

  function SizeOfEntries(entries: seq<Entry>): nat
    decreases entries, 1
  {
    if entries == [] then 0 else Size(entries[0].value) + SizeOfEntries(entries[1..])
  }

  lemma {:induction false} ItemIsSmaller(items: seq<Json>, i: nat)
    requires i < |items|
    ensures Size(items[i]) <= SizeOfItems(items)
  {
    if i > 0 { ItemIsSmaller(items[1..], i - 1); }
  }

  lemma {:induction false} EntryIsSmaller(entries: seq<Entry>, i: nat)
    requires i < |entries|
    ensures Size(entries[i].value) <= SizeOfEntries(entries)
  {
    if i > 0 { EntryIsSmaller(entries[1..], i - 1); }
  }

  lemma GetIsSmaller(node: Json, key: string)
    requires Get(node, key).Some?
    ensures Size(Get(node, key).value) < Size(node)
  {
    var i :| 0 <= i < |node.entries| && node.entries[i] == Entry(key, Get(node, key).value);
    EntryIsSmaller(node.entries, i);
  }
}
