/**
 The diff of print_dict_changes (gumby/experiment.py) for any dictionary, also one in which two keys are turned into
 the same one: which leaves it holds, and which entries of the new dictionary it takes up.
 */
module ChangeClashes {
  import opened Wrappers
  import opened ChangeLog

  // ---------------------------------------------------------------------------------------------
  // Every leaf of a dictionary, replaced or not
  // ---------------------------------------------------------------------------------------------

  datatype Entry = Entry(path: seq<Scalar>, value: Scalar)

  function Under(key: Scalar, entries: seq<Entry>): (r: seq<Entry>)
    ensures |r| == |entries|
  {
    seq(|entries|, k requires 0 <= k < |entries| => Entry([key] + entries[k].path, entries[k].value))
  }

  /** Every leaf of the items, in order; a later one may replace an earlier one. */
  function Entries(items: seq<Item>): seq<Entry>
    decreases items
  {
    if items == [] then [] else Entries(items[..|items| - 1]) + ItemEntries(items[|items| - 1])
  }

  function ItemEntries(item: Item): seq<Entry>
    decreases item
  {
    Under(Printable(item.key), ValueEntries(item.value))
  }

  function ValueEntries(value: Raw): seq<Entry>
    decreases value
  {
    match value
    case Dict(items) => Entries(items)
    case _ => [Entry([], Converted(value).value)]
  }

  /** The tree has all of these leaves. */
  predicate Holds(t: Tree, entries: seq<Entry>) {
    forall k :: 0 <= k < |entries| ==> LeafAt(t, entries[k].path) == Some(entries[k].value)
  }

  lemma UnderMember(key: Scalar, entries: seq<Entry>, e: Entry)
    ensures e in Under(key, entries) <==> e.path != [] && e.path[0] == key && Entry(e.path[1..], e.value) in entries
  {
    if e in Under(key, entries) {
      var k :| 0 <= k < |entries| && Under(key, entries)[k] == e;
      assert e.path[1..] == entries[k].path;
      assert Entry(e.path[1..], e.value) == entries[k];
    }
    if e.path != [] && e.path[0] == key && Entry(e.path[1..], e.value) in entries {
      var k :| 0 <= k < |entries| && entries[k] == Entry(e.path[1..], e.value);
      assert e.path == [key] + e.path[1..];
      assert Under(key, entries)[k] == e;
    }
  }

  lemma {:induction false} EntriesMember(items: seq<Item>, e: Entry)
    ensures e in Entries(items) <==> exists k :: 0 <= k < |items| && e in ItemEntries(items[k])
  {
    hide ItemEntries;
    if items != [] {
      EntriesMember(items[..|items| - 1], e);
    }
  }

  lemma HoldsUnder(kids: map<Scalar, Tree>, key: Scalar, entries: seq<Entry>)
    ensures Holds(Node(kids), Under(key, entries)) <==> Holds(Sub(kids, key), entries)
  {
    forall k | 0 <= k < |entries|
      ensures LeafAt(Node(kids), Under(key, entries)[k].path) == LeafAt(Sub(kids, key), entries[k].path)
    {
      assert ([key] + entries[k].path)[1..] == entries[k].path;
    }
  }

  /** A leaf of the new dictionary is one of the entries. */
  lemma {:induction false} NewIsEntry(items: seq<Item>, path: seq<Scalar>, w: Scalar)
    requires LeafAt(Node(NewValues(items)), path) == Some(w)
    ensures Entry(path, w) in Entries(items)
    decreases |path|, 0
  {
    var k := LastPlace(items, path[0]);
    ValueIsEntry(items[k], path, w);
    EntriesMember(items, Entry(path, w));
  }

  lemma {:induction false} ValueIsEntry(item: Item, path: seq<Scalar>, w: Scalar)
    requires path != [] && path[0] == Printable(item.key) && LeafAt(NewValue(item), path[1..]) == Some(w)
    ensures Entry(path, w) in ItemEntries(item)
    decreases |path| - 1, 1
  {
    match item.value {
      case Dict(sub) => NewIsEntry(sub, path[1..], w);
      case _ =>
    }
    UnderMember(path[0], ValueEntries(item.value), Entry(path, w));
  }

  /** Above an entry there are dictionaries. */
  lemma {:induction false} DictsAbove(items: seq<Item>, e: Entry, path: seq<Scalar>)
    requires e in Entries(items) && path < e.path
    ensures DictAt(items, path)
    decreases |path|
  {
    EntriesMember(items, e);
    var k :| 0 <= k < |items| && e in ItemEntries(items[k]);
    UnderMember(Printable(items[k].key), ValueEntries(items[k].value), e);
    if path != [] {
      assert e.path[1..] != [] && path[0] == e.path[0];
      DictsAbove(items[k].value.items, Entry(e.path[1..], e.value), path[1..]);
    }
  }

  // ---------------------------------------------------------------------------------------------
  // The last item of a key decides
  // ---------------------------------------------------------------------------------------------

  lemma {:induction false} LastPlace(items: seq<Item>, key: Scalar) returns (k: nat)
    requires key in NewValues(items)
    ensures k < |items| && Printable(items[k].key) == key && NewValues(items)[key] == NewValue(items[k])
    ensures forall l :: k < l < |items| ==> Printable(items[l].key) != key
  {
    var n := |items| - 1;
    if Printable(items[n].key) == key {
      k := n;
    } else {
      k := LastPlace(items[..n], key);
    }
  }

  lemma {:induction false} LastChange(kids: map<Scalar, Tree>, items: seq<Item>, key: Scalar) returns (k: nat)
    requires key in ChangedValues(kids, items)
    ensures k < |items| && Printable(items[k].key) == key
    ensures ItemChange(kids, items[k]) == Some(ChangedValues(kids, items)[key])
    ensures forall l :: k < l < |items| && Printable(items[l].key) == key ==> ItemChange(kids, items[l]).None?
  {
    hide ItemChange;
    var n := |items| - 1;
    if Printable(items[n].key) == key && ItemChange(kids, items[n]).Some? {
      k := n;
    } else {
      k := LastChange(kids, items[..n], key);
    }
  }

  lemma {:induction false} ChangedAt(kids: map<Scalar, Tree>, items: seq<Item>, k: nat)
    requires k < |items| && ItemChange(kids, items[k]).Some?
    requires forall l :: k < l < |items| && Printable(items[l].key) == Printable(items[k].key) ==>
               ItemChange(kids, items[l]).None?
    ensures var key := Printable(items[k].key);
            key in ChangedValues(kids, items) && ChangedValues(kids, items)[key] == ItemChange(kids, items[k]).value
  {
    hide ItemChange;
    if k < |items| - 1 {
      ChangedAt(kids, items[..|items| - 1], k);
    }
  }

  lemma {:induction false} NothingChanged(kids: map<Scalar, Tree>, items: seq<Item>)
    ensures ChangedValues(kids, items) == map[] <==> forall k :: 0 <= k < |items| ==> ItemChange(kids, items[k]).None?
  {
    hide ItemChange;
    if items != [] {
      var n := |items| - 1;
      NothingChanged(kids, items[..n]);
      assert ItemChange(kids, items[n]).Some? ==> Printable(items[n].key) in ChangedValues(kids, items);
      assert forall k :: 0 <= k < n ==> items[..n][k] == items[k];
    }
  }

  // ---------------------------------------------------------------------------------------------
  // When nothing is recorded
  // ---------------------------------------------------------------------------------------------

  /** A call records nothing exactly when the previous dictionary has every entry already. */
  lemma {:induction false} UnchangedIff(prev: Tree, items: seq<Item>)
    requires !Raises(prev, items)
    ensures ChangedValues(KidsOf(prev), items) == map[] <==> Holds(prev, Entries(items))
    decreases items
  {
    if items != [] {
      NothingChanged(prev.kids, items);
      forall k | 0 <= k < |items|
        ensures ItemChange(prev.kids, items[k]).None? <==> Holds(prev, ItemEntries(items[k]))
      {
        assert !ItemRaises(prev.kids, items[k]);
        ItemUnchangedIff(prev.kids, items[k]);
      }
      HoldsEntries(prev, items);
    }
  }

  lemma {:induction false} ItemUnchangedIff(kids: map<Scalar, Tree>, item: Item)
    requires !ItemRaises(kids, item)
    ensures ItemChange(kids, item).None? <==> Holds(Node(kids), ItemEntries(item))
    decreases item
  {
    var key := Printable(item.key);
    HoldsUnder(kids, key, ValueEntries(item.value));
    match item.value
    case Dict(sub) => UnchangedIff(Sub(kids, key), sub);
    case _ => assert ValueEntries(item.value)[0] == Entry([], Converted(item.value).value);
  }

  lemma {:induction false} HoldsEntries(t: Tree, items: seq<Item>)
    ensures Holds(t, Entries(items)) <==> forall k :: 0 <= k < |items| ==> Holds(t, ItemEntries(items[k]))
  {
    hide ItemEntries;
    if items != [] {
      var n := |items| - 1;
      HoldsEntries(t, items[..n]);
      assert forall k :: 0 <= k < n ==> items[..n][k] == items[k];
      HoldsBoth(t, Entries(items[..n]), ItemEntries(items[n]));
    }
  }

  lemma HoldsBoth(t: Tree, a: seq<Entry>, b: seq<Entry>)
    ensures Holds(t, a + b) <==> Holds(t, a) && Holds(t, b)
  {
    assert forall k :: 0 <= k < |a| ==> (a + b)[k] == a[k];
    assert forall k :: 0 <= k < |b| ==> (a + b)[|a| + k] == b[k];
  }

  // ---------------------------------------------------------------------------------------------
  // Which leaves the diff holds
  // ---------------------------------------------------------------------------------------------

  /** The place of a leaf: an item, an item of that item's dictionary, and so on. */
  predicate IsLeafPlace(items: seq<Item>, place: seq<nat>)
    decreases |place|
  {
    && place != []
    && place[0] < |items|
    && match items[place[0]].value
       case Dict(sub) => IsLeafPlace(sub, place[1..])
       case _ => |place| == 1
  }

  function EntryAt(items: seq<Item>, place: seq<nat>): Entry
    requires IsLeafPlace(items, place)
    decreases |place|
  {
    var item := items[place[0]];
    match item.value
    case Dict(sub) =>
      var e := EntryAt(sub, place[1..]);
      Entry([Printable(item.key)] + e.path, e.value)
    case _ => Entry([Printable(item.key)], Converted(item.value).value)
  }

  /** The entries of the items with this key. */
  function SameKey(items: seq<Item>, key: Scalar): seq<Entry> {
    if items == [] then
      []
    else
      var last := items[|items| - 1];
      SameKey(items[..|items| - 1], key) + if Printable(last.key) == key then ItemEntries(last) else []
  }

  /** The entries of later items that clash with the item of the place, or with an item around it. */
  function Later(items: seq<Item>, place: seq<nat>): seq<Entry>
    requires IsLeafPlace(items, place)
    decreases |place|
  {
    var item := items[place[0]];
    var key := Printable(item.key);
    SameKey(items[place[0] + 1..], key)
    + match item.value
      case Dict(sub) => Under(key, Later(sub, place[1..]))
      case _ => []
  }

  lemma {:induction false} HoldsSameKey(t: Tree, items: seq<Item>, key: Scalar)
    ensures Holds(t, SameKey(items, key))
       <==> forall k :: 0 <= k < |items| && Printable(items[k].key) == key ==> Holds(t, ItemEntries(items[k]))
  {
    hide ItemEntries;
    if items != [] {
      var n := |items| - 1;
      HoldsSameKey(t, items[..n], key);
      assert forall k :: 0 <= k < n ==> items[..n][k] == items[k];
      HoldsBoth(t, SameKey(items[..n], key), if Printable(items[n].key) == key then ItemEntries(items[n]) else []);
    }
  }

  /** Items after place[0] with the same key, as far as changes go. */
  lemma LaterUnchanged(prev: Tree, items: seq<Item>, k: nat)
    requires !Raises(prev, items) && k < |items|
    ensures Holds(prev, SameKey(items[k + 1..], Printable(items[k].key)))
       <==> forall l :: k < l < |items| && Printable(items[l].key) == Printable(items[k].key) ==>
              ItemChange(prev.kids, items[l]).None?
  {
    var rest, key := items[k + 1..], Printable(items[k].key);
    HoldsSameKey(prev, rest, key);
    forall l | k < l < |items|
      ensures items[l] == rest[l - k - 1]
      ensures ItemChange(prev.kids, items[l]).None? <==> Holds(prev, ItemEntries(items[l]))
    {
      assert !ItemRaises(prev.kids, items[l]);
      ItemUnchangedIff(prev.kids, items[l]);
    }
    hide ItemChange;
    hide ItemEntries;
    if forall l :: k < l < |items| && Printable(items[l].key) == key ==> ItemChange(prev.kids, items[l]).None? {
      forall m | 0 <= m < |rest| && Printable(rest[m].key) == key ensures Holds(prev, ItemEntries(rest[m])) {
        assert rest[m] == items[m + k + 1];
      }
    }
  }

  /** A leaf of the diff comes from an entry after which nothing that clashes with it is new. */
  lemma {:induction false} DiffLeafPlace(prev: Tree, items: seq<Item>, path: seq<Scalar>, v: Scalar)
    returns (place: seq<nat>)
    requires !Raises(prev, items) && LeafAt(Node(ChangedValues(KidsOf(prev), items)), path) == Some(v)
    ensures IsLeafPlace(items, place) && EntryAt(items, place) == Entry(path, v)
    ensures Holds(prev, Later(items, place))
    decreases |path|
  {
    var key := path[0];
    assert prev.Node?;
    var k := LastChange(prev.kids, items, key);
    LaterUnchanged(prev, items, k);
    assert !ItemRaises(prev.kids, items[k]);
    hide SameKey;
    hide Holds;
    match items[k].value
    case Dict(sub) =>
      var inner := DiffLeafPlace(Sub(prev.kids, key), sub, path[1..], v);
      place := [k] + inner;
      PlaceInside(prev, items, k, inner);
      assert path == [key] + path[1..];
    case _ =>
      place := [k];
      PlaceOutside(prev, items, k);
  }

  lemma PlaceInside(prev: Tree, items: seq<Item>, k: nat, inner: seq<nat>)
    requires prev.Node? && k < |items| && items[k].value.Dict? && IsLeafPlace(items[k].value.items, inner)
    requires Holds(prev, SameKey(items[k + 1..], Printable(items[k].key)))
    requires Holds(Sub(prev.kids, Printable(items[k].key)), Later(items[k].value.items, inner))
    ensures var e := EntryAt(items[k].value.items, inner);
            && IsLeafPlace(items, [k] + inner)
            && EntryAt(items, [k] + inner) == Entry([Printable(items[k].key)] + e.path, e.value)
            && Holds(prev, Later(items, [k] + inner))
  {
    var key, place := Printable(items[k].key), [k] + inner;
    assert place[1..] == inner;
    HoldsUnder(prev.kids, key, Later(items[k].value.items, inner));
    HoldsBoth(prev, SameKey(items[k + 1..], key), Under(key, Later(items[k].value.items, inner)));
    hide Holds;
    hide SameKey;
    hide Under;
  }

  lemma PlaceOutside(prev: Tree, items: seq<Item>, k: nat)
    requires k < |items| && !items[k].value.Dict?
    requires Holds(prev, SameKey(items[k + 1..], Printable(items[k].key)))
    ensures IsLeafPlace(items, [k])
    ensures EntryAt(items, [k]) == Entry([Printable(items[k].key)], Converted(items[k].value).value)
    ensures Holds(prev, Later(items, [k]))
  {
    HoldsBoth(prev, SameKey(items[k + 1..], Printable(items[k].key)), []);
  }

  /** What comes later at the outermost level, and inside. */
  lemma LaterParts(prev: Tree, items: seq<Item>, place: seq<nat>)
    requires IsLeafPlace(items, place) && prev.Node? && Holds(prev, Later(items, place))
    ensures Holds(prev, SameKey(items[place[0] + 1..], Printable(items[place[0]].key)))
    ensures items[place[0]].value.Dict? ==>
              Holds(Sub(prev.kids, Printable(items[place[0]].key)), Later(items[place[0]].value.items, place[1..]))
  {
    var k := place[0];
    var key := Printable(items[k].key);
    match items[k].value
    case Dict(sub) =>
      HoldsBoth(prev, SameKey(items[k + 1..], key), Under(key, Later(sub, place[1..])));
      HoldsUnder(prev.kids, key, Later(sub, place[1..]));
    case _ =>
      HoldsBoth(prev, SameKey(items[k + 1..], key), []);
  }

  /** And every such entry that is new itself is in the diff. */
  lemma {:induction false} PlaceInDiff(prev: Tree, items: seq<Item>, place: seq<nat>)
    requires !Raises(prev, items) && IsLeafPlace(items, place) && Holds(prev, Later(items, place))
    requires LeafAt(prev, EntryAt(items, place).path) != Some(EntryAt(items, place).value)
    ensures LeafAt(Node(ChangedValues(KidsOf(prev), items)), EntryAt(items, place).path)
         == Some(EntryAt(items, place).value)
    decreases |place|, 1
  {
    PlaceChanges(prev, items, place);
    LaterParts(prev, items, place);
    LaterUnchanged(prev, items, place[0]);
    hide ItemChange;
    hide Later;
    hide IsLeafPlace;
    ChangedAt(prev.kids, items, place[0]);
  }

  lemma {:induction false} PlaceChanges(prev: Tree, items: seq<Item>, place: seq<nat>)
    requires !Raises(prev, items) && IsLeafPlace(items, place) && Holds(prev, Later(items, place))
    requires LeafAt(prev, EntryAt(items, place).path) != Some(EntryAt(items, place).value)
    ensures var e, change := EntryAt(items, place), ItemChange(prev.kids, items[place[0]]);
            && e.path != [] && e.path[0] == Printable(items[place[0]].key)
            && change.Some? && LeafAt(change.value, e.path[1..]) == Some(e.value)
    decreases |place|, 0
  {
    var k := place[0];
    assert !ItemRaises(prev.kids, items[k]);
    match items[k].value
    case Dict(sub) =>
      LaterParts(prev, items, place);
      assert EntryAt(items, place).path[1..] == EntryAt(sub, place[1..]).path;
      hide Holds;
      hide Later;
      PlaceInDiff(Sub(prev.kids, Printable(items[k].key)), sub, place[1..]);
    case _ =>
  }

  /** The leaf the new dictionary has at or below a place is that of the place or a later one. */
  lemma {:induction false} FinalIsLater(items: seq<Item>, place: seq<nat>, path: seq<Scalar>, w: Scalar)
    requires IsLeafPlace(items, place) && EntryAt(items, place).path <= path
    requires LeafAt(Node(NewValues(items)), path) == Some(w)
    ensures Entry(path, w) == EntryAt(items, place) || Entry(path, w) in Later(items, place)
    decreases |place|, 1
  {
    var k := place[0];
    var key := Printable(items[k].key);
    var last := LastPlace(items, key);
    if last > k {
      LaterInItem(items, place, last, path, w);
    } else {
      FinalInside(items, place, path, w);
    }
  }

  lemma {:induction false} LaterInItem(items: seq<Item>, place: seq<nat>, l: nat, path: seq<Scalar>, w: Scalar)
    requires IsLeafPlace(items, place) && place[0] < l < |items|
    requires Printable(items[l].key) == Printable(items[place[0]].key)
    requires path != [] && path[0] == Printable(items[l].key) && LeafAt(NewValue(items[l]), path[1..]) == Some(w)
    ensures Entry(path, w) in Later(items, place)
  {
    var k := place[0];
    ValueIsEntry(items[l], path, w);
    assert items[l] == items[k + 1..][l - k - 1];
    SameKeyMember(items[k + 1..], path[0], l - k - 1, Entry(path, w));
    hide SameKey;
    hide ItemEntries;
  }

  lemma {:induction false} FinalInside(items: seq<Item>, place: seq<nat>, path: seq<Scalar>, w: Scalar)
    requires IsLeafPlace(items, place) && EntryAt(items, place).path <= path
    requires LeafAt(NewValue(items[place[0]]), path[1..]) == Some(w)
    ensures Entry(path, w) == EntryAt(items, place) || Entry(path, w) in Later(items, place)
    decreases |place|, 0
  {
    var key := Printable(items[place[0]].key);
    assert path == [key] + path[1..];
    match items[place[0]].value
    case Dict(sub) =>
      assert EntryAt(items, place).path[1..] == EntryAt(sub, place[1..]).path;
      FinalIsLater(sub, place[1..], path[1..], w);
      UnderMember(key, Later(sub, place[1..]), Entry(path, w));
    case _ =>
  }

  lemma {:induction false} SameKeyMember(items: seq<Item>, key: Scalar, k: nat, e: Entry)
    requires k < |items| && Printable(items[k].key) == key && e in ItemEntries(items[k])
    ensures e in SameKey(items, key)
  {
    hide ItemEntries;
    if k < |items| - 1 {
      SameKeyMember(items[..|items| - 1], key, k, e);
    }
  }

  /** A leaf of the new dictionary that the diff does not hold was there before. */
  lemma {:induction false} FinalHeld(prev: Tree, items: seq<Item>, path: seq<Scalar>, w: Scalar)
    requires !Raises(prev, items) && LeafAt(Node(NewValues(items)), path) == Some(w)
    ensures || LeafAt(Node(ChangedValues(KidsOf(prev), items)), path) == Some(w)
            || LeafAt(prev, path) == Some(w)
    decreases |path|
  {
    var key := path[0];
    var k := LastPlace(items, key);
    assert !ItemRaises(prev.kids, items[k]);
    if ItemChange(prev.kids, items[k]).Some? {
      ChangedAt(prev.kids, items, k);
      match items[k].value
      case Dict(sub) => FinalHeld(Sub(prev.kids, key), sub, path[1..], w);
      case _ =>
    } else {
      ItemUnchangedIff(prev.kids, items[k]);
      ValueIsEntry(items[k], path, w);
    }
  }
}
