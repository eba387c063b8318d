/**
 The log of changes to a nested dictionary (gumby/experiment.py, print_dict_changes) and what replaying it gives.
 */
module ChangeLog {
  import opened Wrappers

  datatype Result<T> = Ok(value: T) | AttributeError

  /** A string or a number; iterables that are left as they are count as text. */
  datatype Scalar = Text(text: string) | Number(number: real)

  /** A key that can be printed as it is, or the string that any other key is turned into. */
  datatype RawKey = Plain(key: Scalar) | OtherKey(shown: string)

  /** A value as the caller has it; the items of a dictionary in their order. */
  datatype Raw = Simple(value: Scalar) | Other(shown: string) | Dict(items: seq<Item>)

  datatype Item = Item(key: RawKey, value: Raw)

  /** A dictionary of printable keys and values. */
  datatype Tree = Leaf(value: Scalar) | Node(kids: map<Scalar, Tree>)

  const EMPTY: Tree := Node(map[])

  function Printable(key: RawKey): Scalar {
    match key
    case Plain(k) => k
    case OtherKey(shown) => Text(shown)
  }

  // ---------------------------------------------------------------------------------------------
  // What one call computes
  // ---------------------------------------------------------------------------------------------

  function Converted(value: Raw): Tree
    decreases value
  {
    match value
    case Simple(v) => Leaf(v)
    case Other(shown) => Leaf(Text(shown))
    case Dict(items) => Node(NewValues(items))
  }

  function NewValues(items: seq<Item>): map<Scalar, Tree>
    decreases items
  {
    if items == [] then
      map[]
    else
      var last := items[|items| - 1];
      NewValues(items[..|items| - 1])[Printable(last.key) := NewValue(last)]
  }

  function NewValue(item: Item): Tree
    decreases item
  {
    Converted(item.value)
  }

  /** prev_dict.get(key, {}) */
  function Sub(kids: map<Scalar, Tree>, key: Scalar): Tree {
    if key in kids then kids[key] else EMPTY
  }

  function KidsOf(t: Tree): map<Scalar, Tree> {
    if t.Node? then t.kids else map[]
  }

  /** What the diff records for one item. */
  function ItemChange(kids: map<Scalar, Tree>, item: Item): Option<Tree>
    decreases item
  {
    var key := Printable(item.key);
    match item.value
    case Dict(items) =>
      var changed := ChangedValues(KidsOf(Sub(kids, key)), items);
      if changed == map[] then None else Some(Node(changed))
    case _ =>
      var leaf := Converted(item.value);
      if key in kids && kids[key] == leaf then None else Some(leaf)
  }

  function ChangedValues(kids: map<Scalar, Tree>, items: seq<Item>): map<Scalar, Tree>
    decreases items
  {
    if items == [] then
      map[]
    else
      var last := items[|items| - 1];
      var changed := ChangedValues(kids, items[..|items| - 1]);
      match ItemChange(kids, last)
      case None => changed
      case Some(t) => changed[Printable(last.key) := t]
  }

  /** The call asks a value that is not a dictionary for a key. */
  predicate Raises(prev: Tree, items: seq<Item>)
    decreases items
  {
    && items != []
    && (prev.Leaf?
        || exists k :: 0 <= k < |items| && ItemRaises(prev.kids, items[k]))
  }

  predicate ItemRaises(kids: map<Scalar, Tree>, item: Item)
    decreases item
  {
    item.value.Dict? && Raises(Sub(kids, Printable(item.key)), item.value.items)
  }

  // ---------------------------------------------------------------------------------------------
  // The methods
  // ---------------------------------------------------------------------------------------------

  /** get_changed_values. */
  method GetChangedValues(prev: Tree, items: seq<Item>)
    returns (r: Result<(map<Scalar, Tree>, map<Scalar, Tree>)>)
    ensures r == if Raises(prev, items) then AttributeError
                 else Ok((NewValues(items), ChangedValues(KidsOf(prev), items)))
    decreases items
  {
    var newValues, changedValues := map[], map[];
    for n := 0 to |items|
      invariant newValues == NewValues(items[..n])
      invariant changedValues == ChangedValues(KidsOf(prev), items[..n])
      invariant n > 0 ==> prev.Node?
      invariant forall k :: 0 <= k < n ==> !ItemRaises(prev.kids, items[k])
    {
      assert items[..n + 1][..n] == items[..n] && items[..n + 1][n] == items[n];
      var value := items[n].value;
      if prev.Leaf? {
        return AttributeError;
      }
      var key := Printable(items[n].key);
      assert value < items[n] && NewValue(items[n]) == Converted(value);
      match value {
        case Dict(subItems) =>
          var sub := GetChangedValues(Sub(prev.kids, key), subItems);
          if sub.AttributeError? {
            return AttributeError;
          }
          assert Converted(value) == Node(sub.value.0);
          newValues := newValues[key := Node(sub.value.0)];
          if sub.value.1 != map[] {
            changedValues := changedValues[key := Node(sub.value.1)];
          }
        case _ =>
          var leaf := Converted(value);
          newValues := newValues[key := leaf];
          if !(key in prev.kids && prev.kids[key] == leaf) {
            changedValues := changedValues[key := leaf];
          }
      }
    }
    assert items[..|items|] == items;
    return Ok((newValues, changedValues));
  }

  /** The dictionary a call returns. */
  function Returned(prev: Tree, items: seq<Item>): Tree {
    if ChangedValues(KidsOf(prev), items) != map[] then Node(NewValues(items)) else prev
  }

  /** What a call adds to the log. */
  function Written(prev: Tree, items: seq<Item>): seq<Tree> {
    var changed := ChangedValues(KidsOf(prev), items);
    if changed != map[] then [Node(changed)] else []
  }

  /** The client, as far as its annotations go. */
  class Annotations {
    var log: seq<Tree>

    constructor ()
      ensures log == []
    {
      log := [];
    }

    /** print_dict_changes. */
    method PrintDictChanges(prev: Tree, cur: seq<Item>) returns (r: Result<Tree>)
      modifies this
      ensures Raises(prev, cur) ==> r == AttributeError && log == old(log)
      ensures !Raises(prev, cur) ==> r == Ok(Returned(prev, cur)) && log == old(log) + Written(prev, cur)
    {
      var values := GetChangedValues(prev, cur);
      if values.AttributeError? {
        return AttributeError;
      }
      if values.value.1 != map[] {
        log := log + [Node(values.value.1)];
        return Ok(Node(values.value.0));
      }
      return Ok(prev);
    }
  }

  // ---------------------------------------------------------------------------------------------
  // Leaves
  // ---------------------------------------------------------------------------------------------

  function LeafAt(t: Tree, path: seq<Scalar>): Option<Scalar>
    decreases |path|
  {
    if path == [] then
      (if t.Leaf? then Some(t.value) else None)
    else if t.Node? && path[0] in t.kids then
      LeafAt(t.kids[path[0]], path[1..])
    else
      None
  }

  /** No two keys of a dictionary are turned into the same one, at any depth. */
  predicate NoClash(items: seq<Item>)
    decreases items
  {
    && (forall j, k :: 0 <= j < k < |items| ==> Printable(items[j].key) != Printable(items[k].key))
    && (forall k :: 0 <= k < |items| ==> ItemNoClash(items[k]))
  }

  predicate ItemNoClash(item: Item)
    decreases item
  {
    item.value.Dict? ==> NoClash(item.value.items)
  }

  /** Every key of the new dictionary comes from an item. */
  lemma {:induction false} NewKeys(items: seq<Item>, key: Scalar)
    ensures key in NewValues(items) <==> exists k :: 0 <= k < |items| && Printable(items[k].key) == key
  {
    if items != [] {
      NewKeys(items[..|items| - 1], key);
    }
  }

  lemma {:induction false} ChangedKeys(kids: map<Scalar, Tree>, items: seq<Item>, key: Scalar)
    requires key in ChangedValues(kids, items)
    ensures exists k :: 0 <= k < |items| && Printable(items[k].key) == key
  {
    var init, last := items[..|items| - 1], items[|items| - 1];
    if key != Printable(last.key) {
      ChangedKeys(kids, init, key);
    }
  }

  lemma {:induction false} LastKept(items: seq<Item>, k: nat)
    requires k < |items|
    requires forall j :: k < j < |items| ==> Printable(items[j].key) != Printable(items[k].key)
    ensures Printable(items[k].key) in NewValues(items)
    ensures NewValues(items)[Printable(items[k].key)] == NewValue(items[k])
  {
    if k < |items| - 1 {
      LastKept(items[..|items| - 1], k);
    }
  }

  /**
   What the new dictionary has for an item that no later one clashes with: under the key itself, or the text it is shown
   as, the value itself, the text it is shown as, or the dictionary of its items.
   */
  lemma {:induction false} KeptAs(items: seq<Item>, k: nat)
    requires k < |items|
    requires forall j :: k < j < |items| ==> Printable(items[j].key) != Printable(items[k].key)
    ensures var key := match items[k].key case Plain(s) => s case OtherKey(shown) => Text(shown);
            && key in NewValues(items)
            && NewValues(items)[key] == match items[k].value
                                        case Simple(v) => Leaf(v)
                                        case Other(shown) => Leaf(Text(shown))
                                        case Dict(sub) => Node(NewValues(sub))
  {
    LastKept(items, k);
  }

  /** Without clashes each item keeps its own place in both dictionaries. */
  lemma {:induction false} ItemPlaces(kids: map<Scalar, Tree>, items: seq<Item>, k: nat)
    requires NoClash(items) && k < |items|
    ensures var key := Printable(items[k].key);
            && key in NewValues(items) && NewValues(items)[key] == NewValue(items[k])
            && (key in ChangedValues(kids, items) <==> ItemChange(kids, items[k]).Some?)
            && (key in ChangedValues(kids, items) ==>
                  ChangedValues(kids, items)[key] == ItemChange(kids, items[k]).value)
  {
    var init, key := items[..|items| - 1], Printable(items[k].key);
    if k < |init| {
      ItemPlaces(kids, init, k);
    } else if key in ChangedValues(kids, init) {
      ChangedKeys(kids, init, key);
      assert false;
    }
  }

  /** The diff holds exactly the leaves that differ from the previous dictionary. */
  lemma {:induction false} DiffLeaves(prev: Tree, items: seq<Item>, path: seq<Scalar>, v: Scalar)
    requires NoClash(items) && !Raises(prev, items)
    ensures LeafAt(Node(ChangedValues(KidsOf(prev), items)), path) == Some(v)
       <==> LeafAt(Node(NewValues(items)), path) == Some(v) && LeafAt(prev, path) != Some(v)
    decreases |path|, 0
  {
    if path != [] && items != [] {
      NewKeys(items, path[0]);
      if path[0] in NewValues(items) {
        var k :| 0 <= k < |items| && Printable(items[k].key) == path[0];
        ItemPlaces(prev.kids, items, k);
        ItemLeaves(prev.kids, items[k], path[1..], v);
      } else if path[0] in ChangedValues(prev.kids, items) {
        ChangedKeys(prev.kids, items, path[0]);
        assert false;
      }
    }
  }

  lemma ItemLeaves(kids: map<Scalar, Tree>, item: Item, rest: seq<Scalar>, v: Scalar)
    requires ItemNoClash(item) && !ItemRaises(kids, item)
    ensures var change, key := ItemChange(kids, item), Printable(item.key);
            (change.Some? && LeafAt(change.value, rest) == Some(v))
            <==> (LeafAt(NewValue(item), rest) == Some(v) && !(key in kids && LeafAt(kids[key], rest) == Some(v)))
    decreases |rest|, 1
  {
    match item.value
    case Dict(sub) => DiffLeaves(Sub(kids, Printable(item.key)), sub, rest, v);
    case _ =>
  }

  /** Every leaf of t is a leaf of r. */
  ghost predicate Covers(r: Tree, t: Tree) {
    forall path, v :: LeafAt(t, path) == Some(v) ==> LeafAt(r, path) == Some(v)
  }

  // ---------------------------------------------------------------------------------------------
  // When a call raises
  // ---------------------------------------------------------------------------------------------

  /** The items hold a dictionary that is not empty at the path. */
  predicate DictAt(items: seq<Item>, path: seq<Scalar>)
    decreases |path|
  {
    if path == [] then
      items != []
    else
      exists k :: 0 <= k < |items| && Printable(items[k].key) == path[0] && items[k].value.Dict?
                  && DictAt(items[k].value.items, path[1..])
  }

  /** A call raises exactly when some path leads to a leaf before and to a dictionary with entries now. */
  lemma {:induction false} RaisesIff(prev: Tree, items: seq<Item>)
    ensures Raises(prev, items) <==> exists path :: LeafAt(prev, path).Some? && DictAt(items, path)
    decreases items
  {
    if Raises(prev, items) {
      if prev.Leaf? {
        assert LeafAt(prev, []).Some? && DictAt(items, []);
      } else {
        var k :| 0 <= k < |items| && ItemRaises(prev.kids, items[k]);
        var path := ItemRaisesAt(prev.kids, items[k]);
        assert LeafAt(prev, path).Some? && DictAt(items, path);
      }
    }
    forall path | LeafAt(prev, path).Some? && DictAt(items, path) ensures Raises(prev, items) {
      RaisesWhen(prev, items, path);
    }
  }

  lemma {:induction false} ItemRaisesAt(kids: map<Scalar, Tree>, item: Item) returns (path: seq<Scalar>)
    requires ItemRaises(kids, item)
    ensures path != [] && path[0] == Printable(item.key)
    ensures LeafAt(Node(kids), path).Some? && DictAt(item.value.items, path[1..])
    decreases item
  {
    var sub := Sub(kids, Printable(item.key));
    RaisesIff(sub, item.value.items);
    var rest :| LeafAt(sub, rest).Some? && DictAt(item.value.items, rest);
    path := [Printable(item.key)] + rest;
    assert path[1..] == rest;
  }

  lemma {:induction false} RaisesWhen(prev: Tree, items: seq<Item>, path: seq<Scalar>)
    requires LeafAt(prev, path).Some? && DictAt(items, path)
    ensures Raises(prev, items)
    decreases |path|
  {
    if path != [] {
      var k :| 0 <= k < |items| && Printable(items[k].key) == path[0] && items[k].value.Dict?
               && DictAt(items[k].value.items, path[1..]);
      RaisesWhen(prev.kids[path[0]], items[k].value.items, path[1..]);
      assert ItemRaises(prev.kids, items[k]);
    }
  }
}
