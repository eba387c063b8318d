/**
 Replaying the log of print_dict_changes (gumby/experiment.py): what applying the written diffs in order gives, exactly
 for which dictionaries that is right, and where the returned dictionary differs from the current one.
 */
module ChangeReplay {
  import opened Wrappers
  import opened ChangeLog
  import opened ChangeClashes

  // ---------------------------------------------------------------------------------------------
  // Applying a diff
  // ---------------------------------------------------------------------------------------------

  /** The recursive update of a dictionary by a diff. */
  function Merge(t: Tree, diff: Tree): Tree
    decreases diff
  {
    if diff.Leaf? || t.Leaf? then
      diff
    else
      Node(map key | key in t.kids.Keys + diff.kids.Keys ::
             if key !in diff.kids then t.kids[key]
             else if key !in t.kids then diff.kids[key]
             else Merge(t.kids[key], diff.kids[key]))
  }

  function Replay(initial: Tree, log: seq<Tree>): Tree {
    if log == [] then initial else Merge(Replay(initial, log[..|log| - 1]), log[|log| - 1])
  }

  lemma {:induction false} MergeTakes(t: Tree, diff: Tree, path: seq<Scalar>, v: Scalar)
    requires LeafAt(diff, path) == Some(v)
    ensures LeafAt(Merge(t, diff), path) == Some(v)
    decreases |path|
  {
    if path != [] && t.Node? && path[0] in t.kids {
      MergeTakes(t.kids[path[0]], diff.kids[path[0]], path[1..], v);
    }
  }

  /** The diff holds nothing at the path, nor a leaf on the way to it. */
  predicate Off(diff: Tree, path: seq<Scalar>)
    decreases |path|
  {
    && path != []
    && diff.Node?
    && (path[0] in diff.kids ==> Off(diff.kids[path[0]], path[1..]))
  }

  predicate NodeAt(t: Tree, path: seq<Scalar>)
    decreases |path|
  {
    t.Node? && (path == [] || (path[0] in t.kids && NodeAt(t.kids[path[0]], path[1..])))
  }

  lemma {:induction false} MergeKeeps(t: Tree, diff: Tree, path: seq<Scalar>, w: Scalar)
    requires LeafAt(t, path) == Some(w) && Off(diff, path)
    ensures LeafAt(Merge(t, diff), path) == Some(w)
    decreases |path|
  {
    if path[0] in diff.kids {
      MergeKeeps(t.kids[path[0]], diff.kids[path[0]], path[1..], w);
    }
  }

  lemma {:induction false} OnTheWay(diff: Tree, path: seq<Scalar>) returns (q: seq<Scalar>)
    requires !Off(diff, path)
    ensures q <= path && (LeafAt(diff, q).Some? || (q == path && NodeAt(diff, path)))
    decreases |path|
  {
    if diff.Leaf? || path == [] {
      q := [];
    } else {
      var rest := OnTheWay(diff.kids[path[0]], path[1..]);
      q := [path[0]] + rest;
      assert q[1..] == rest && path == [path[0]] + path[1..];
    }
  }

  /** A branch has one leaf. */
  lemma {:induction false} OneLeaf(t: Tree, q: seq<Scalar>, path: seq<Scalar>)
    requires LeafAt(t, q).Some? && q <= path && LeafAt(t, path).Some?
    ensures q == path
    decreases |q|
  {
    if q != [] {
      OneLeaf(t.kids[q[0]], q[1..], path[1..]);
      assert q == [q[0]] + q[1..] && path == [path[0]] + path[1..];
    }
  }

  // ---------------------------------------------------------------------------------------------
  // Exactly when replaying is right
  // ---------------------------------------------------------------------------------------------

  /** A dictionary can have had all these leaves before without the call raising. */
  predicate Possible(items: seq<Item>, entries: seq<Entry>) {
    && (forall j, k :: 0 <= j < |entries| && 0 <= k < |entries| && entries[j].path == entries[k].path ==>
          entries[j].value == entries[k].value)
    && forall k :: 0 <= k < |entries| ==> !DictAt(items, entries[k].path)
  }

  /**
   A leaf gets into the diff when everything that clashes with it later is not new.  That does no harm if the new
   dictionary has that same leaf, or nothing at its path or below.
   */
  ghost predicate HarmlessClashes(items: seq<Item>) {
    forall place :: IsLeafPlace(items, place) && Possible(items, Later(items, place)) ==> NotReplaced(items, place)
  }

  ghost predicate NotReplaced(items: seq<Item>, place: seq<nat>)
    requires IsLeafPlace(items, place)
  {
    forall path, w :: EntryAt(items, place).path <= path && LeafAt(Node(NewValues(items)), path) == Some(w) ==>
                        Entry(path, w) == EntryAt(items, place)
  }

  lemma HeldIsPossible(prev: Tree, items: seq<Item>, entries: seq<Entry>)
    requires !Raises(prev, items) && Holds(prev, entries)
    ensures Possible(items, entries)
  {
    forall k | 0 <= k < |entries| ensures !DictAt(items, entries[k].path) {
      if DictAt(items, entries[k].path) {
        RaisesWhen(prev, items, entries[k].path);
      }
    }
  }

  lemma {:induction false} DiffNodeIsDict(kids: map<Scalar, Tree>, items: seq<Item>, path: seq<Scalar>)
    requires path != [] && NodeAt(Node(ChangedValues(kids, items)), path)
    ensures DictAt(items, path)
    decreases |path|
  {
    var key := path[0];
    var k := LastChange(kids, items, key);
    match items[k].value
    case Dict(sub) =>
      assert sub != [];
      if |path| > 1 {
        DiffNodeIsDict(KidsOf(Sub(kids, key)), sub, path[1..]);
      }
    case _ =>
  }

  /** One call keeps the replayed log in agreement with what it returns. */
  lemma CallReplays(prev: Tree, replayed: Tree, items: seq<Item>)
    requires HarmlessClashes(items) && !Raises(prev, items) && Covers(replayed, prev)
    ensures Covers(Replay(replayed, Written(prev, items)), Returned(prev, items))
    ensures Covers(Replay(replayed, Written(prev, items)), Node(NewValues(items)))
  {
    var diff, t := Node(ChangedValues(KidsOf(prev), items)), Node(NewValues(items));
    if diff == EMPTY {
      ReturnedHasAll(prev, items);
    } else {
      assert Replay(replayed, [diff]) == Merge(replayed, diff) by {
        assert [diff][..0] == [];
      }
      forall path, w | LeafAt(t, path) == Some(w) ensures LeafAt(Merge(replayed, diff), path) == Some(w) {
        LeafReplays(prev, replayed, items, path, w);
      }
    }
  }

  lemma LeafReplays(prev: Tree, replayed: Tree, items: seq<Item>, path: seq<Scalar>, w: Scalar)
    requires HarmlessClashes(items) && !Raises(prev, items) && Covers(replayed, prev)
    requires LeafAt(Node(NewValues(items)), path) == Some(w)
    ensures LeafAt(Merge(replayed, Node(ChangedValues(KidsOf(prev), items))), path) == Some(w)
  {
    var diff := Node(ChangedValues(KidsOf(prev), items));
    FinalHeld(prev, items, path, w);
    if LeafAt(diff, path) == Some(w) {
      MergeTakes(replayed, diff, path, w);
    } else {
      if !Off(diff, path) {
        NothingInTheWay(prev, items, path, w);
      }
      MergeKeeps(replayed, diff, path, w);
    }
  }

  /** Whatever the diff has on the way to an old leaf that stays is that leaf. */
  lemma NothingInTheWay(prev: Tree, items: seq<Item>, path: seq<Scalar>, w: Scalar)
    requires HarmlessClashes(items) && !Raises(prev, items)
    requires LeafAt(Node(NewValues(items)), path) == Some(w) && LeafAt(prev, path) == Some(w)
    requires !Off(Node(ChangedValues(KidsOf(prev), items)), path)
    ensures LeafAt(Node(ChangedValues(KidsOf(prev), items)), path) == Some(w)
  {
    var diff := Node(ChangedValues(KidsOf(prev), items));
    var q := OnTheWay(diff, path);
    if LeafAt(diff, q).Some? {
      var place := DiffLeafPlace(prev, items, q, LeafAt(diff, q).value);
      HeldIsPossible(prev, items, Later(items, place));
      assert NotReplaced(items, place);
      hide HarmlessClashes;
      hide Possible;
      hide Later;
    } else {
      DiffNodeIsDict(KidsOf(prev), items, path);
      RaisesWhen(prev, items, path);
    }
  }

  /** The returned dictionary has every leaf of the current one, whatever clashes. */
  lemma ReturnedHasAll(prev: Tree, items: seq<Item>)
    requires !Raises(prev, items)
    ensures Covers(Returned(prev, items), Node(NewValues(items)))
  {
    UnchangedIff(prev, items);
    if ChangedValues(KidsOf(prev), items) == map[] {
      forall path, w | LeafAt(Node(NewValues(items)), path) == Some(w) ensures LeafAt(prev, path) == Some(w) {
        NewIsEntry(items, path, w);
      }
    }
  }

  // A previous dictionary that brings the harm out -----------------------------------------------

  function Put(t: Tree, path: seq<Scalar>, v: Scalar): Tree
    decreases |path|
  {
    if path == [] then
      Leaf(v)
    else
      Node(KidsOf(t)[path[0] := Put(Sub(KidsOf(t), path[0]), path[1..], v)])
  }

  function Build(entries: seq<Entry>): Tree {
    if entries == [] then
      EMPTY
    else
      var last := entries[|entries| - 1];
      Put(Build(entries[..|entries| - 1]), last.path, last.value)
  }

  lemma {:induction false} PutHas(t: Tree, path: seq<Scalar>, v: Scalar)
    ensures LeafAt(Put(t, path, v), path) == Some(v)
    decreases |path|
  {
    if path != [] {
      PutHas(Sub(KidsOf(t), path[0]), path[1..], v);
    }
  }

  lemma {:induction false} PutOnly(t: Tree, path: seq<Scalar>, v: Scalar, q: seq<Scalar>)
    requires LeafAt(Put(t, path, v), q).Some?
    ensures q == path || LeafAt(t, q) == LeafAt(Put(t, path, v), q)
    decreases |path|
  {
    if path != [] && q != [] && q[0] == path[0] {
      PutOnly(Sub(KidsOf(t), path[0]), path[1..], v, q[1..]);
      assert q == [q[0]] + q[1..] && path == [path[0]] + path[1..];
    }
  }

  lemma {:induction false} PutKeeps(t: Tree, path: seq<Scalar>, v: Scalar, q: seq<Scalar>)
    requires LeafAt(t, q).Some? && !(q <= path) && !(path <= q)
    ensures LeafAt(Put(t, path, v), q) == LeafAt(t, q)
    decreases |path|
  {
    if q[0] == path[0] {
      assert q == [q[0]] + q[1..] && path == [path[0]] + path[1..];
      PutKeeps(Sub(KidsOf(t), path[0]), path[1..], v, q[1..]);
    }
  }

  /** Entries that can have been there together make up a tree. */
  lemma {:induction false} BuildHolds(items: seq<Item>, entries: seq<Entry>)
    requires Possible(items, entries) && forall k :: 0 <= k < |entries| ==> entries[k] in Entries(items)
    ensures Holds(Build(entries), entries)
    ensures forall path :: LeafAt(Build(entries), path).Some? ==>
              exists k :: 0 <= k < |entries| && entries[k].path == path
  {
    if entries != [] {
      var n := |entries| - 1;
      var init, last := entries[..n], entries[n];
      assert forall k :: 0 <= k < n ==> init[k] == entries[k];
      BuildHolds(items, init);
      PutHas(Build(init), last.path, last.value);
      forall k | 0 <= k < n ensures LeafAt(Build(entries), entries[k].path) == Some(entries[k].value) {
        if entries[k].path != last.path {
          Apart(items, entries[k], last);
          Apart(items, last, entries[k]);
          PutKeeps(Build(init), last.path, last.value, entries[k].path);
        }
      }
      forall path | LeafAt(Build(entries), path).Some?
        ensures exists k :: 0 <= k < |entries| && entries[k].path == path
      {
        PutOnly(Build(init), last.path, last.value, path);
        if path == last.path {
          assert entries[n].path == path;
        } else {
          var k :| 0 <= k < |init| && init[k].path == path;
          assert entries[k].path == path;
        }
      }
    }
  }

  lemma Apart(items: seq<Item>, a: Entry, b: Entry)
    requires b in Entries(items) && !DictAt(items, a.path)
    ensures a.path <= b.path ==> a.path == b.path
  {
    if a.path < b.path {
      DictsAbove(items, b, a.path);
    }
  }

  lemma {:induction false} LaterAreEntries(items: seq<Item>, place: seq<nat>, e: Entry)
    requires IsLeafPlace(items, place) && e in Later(items, place)
    ensures e in Entries(items)
    decreases |place|
  {
    var k := place[0];
    var key := Printable(items[k].key);
    if e in SameKey(items[k + 1..], key) {
      var m := SameKeyFrom(items[k + 1..], key, e);
      assert items[k + 1..][m] == items[k + 1 + m];
    } else {
      match items[k].value
      case Dict(sub) =>
        UnderMember(key, Later(sub, place[1..]), e);
        LaterAreEntries(sub, place[1..], Entry(e.path[1..], e.value));
        UnderMember(key, Entries(sub), e);
        assert e in ItemEntries(items[k]);
      case _ =>
    }
    EntriesMember(items, e);
  }

  lemma {:induction false} SameKeyFrom(items: seq<Item>, key: Scalar, e: Entry) returns (k: nat)
    requires e in SameKey(items, key)
    ensures k < |items| && e in ItemEntries(items[k])
  {
    hide ItemEntries;
    var n := |items| - 1;
    if e in SameKey(items[..n], key) {
      k := SameKeyFrom(items[..n], key, e);
    } else {
      k := n;
    }
  }

  /** A clash that is not harmless spoils the replay for some previous dictionary. */
  lemma HarmComesOut(items: seq<Item>, place: seq<nat>) returns (prev: Tree)
    requires IsLeafPlace(items, place) && Possible(items, Later(items, place)) && !NotReplaced(items, place)
    ensures !Raises(prev, items)
    ensures !Covers(Replay(prev, Written(prev, items)), Node(NewValues(items)))
  {
    var later, e := Later(items, place), EntryAt(items, place);
    var path, w :| e.path <= path && LeafAt(Node(NewValues(items)), path) == Some(w) && Entry(path, w) != e;
    prev := Build(later);
    forall k | 0 <= k < |later| ensures later[k] in Entries(items) {
      LaterAreEntries(items, place, later[k]);
    }
    BuildHolds(items, later);
    RaisesIff(prev, items);
    FinalIsLater(items, place, path, w);
    assert LeafAt(prev, path) == Some(w);
    SpoiltBy(prev, items, place, path, w);
  }

  /** The diff has a leaf in the place of one that was there and should stay. */
  lemma SpoiltBy(prev: Tree, items: seq<Item>, place: seq<nat>, path: seq<Scalar>, w: Scalar)
    requires !Raises(prev, items) && IsLeafPlace(items, place) && Holds(prev, Later(items, place))
    requires LeafAt(Node(NewValues(items)), path) == Some(w) && LeafAt(prev, path) == Some(w)
    requires EntryAt(items, place).path <= path && Entry(path, w) != EntryAt(items, place)
    ensures !Covers(Replay(prev, Written(prev, items)), Node(NewValues(items)))
  {
    var e, diff := EntryAt(items, place), Node(ChangedValues(KidsOf(prev), items));
    if LeafAt(prev, e.path) == Some(e.value) {
      OneLeaf(prev, e.path, path);
    }
    PlaceInDiff(prev, items, place);
    hide IsLeafPlace;
    hide Raises;
    hide Holds;
    assert [diff][..0] == [];
    assert Replay(prev, Written(prev, items)) == Merge(prev, diff);
    MergeTakes(prev, diff, e.path, e.value);
    if LeafAt(Merge(prev, diff), path) == Some(w) {
      OneLeaf(Merge(prev, diff), e.path, path);
    }
  }

  /**
   For any dictionary: replaying what a call writes gives every leaf of it, whatever the previous dictionary was, if and
   only if its clashes are harmless.
   */
  lemma ReplayIff(items: seq<Item>)
    ensures HarmlessClashes(items)
       <==> forall prev :: !Raises(prev, items) ==> Covers(Replay(prev, Written(prev, items)), Node(NewValues(items)))
  {
    if HarmlessClashes(items) {
      forall prev | !Raises(prev, items)
        ensures Covers(Replay(prev, Written(prev, items)), Node(NewValues(items)))
      {
        CallReplays(prev, prev, items);
      }
    } else {
      var place :| IsLeafPlace(items, place) && Possible(items, Later(items, place)) && !NotReplaced(items, place);
      var prev := HarmComesOut(items, place);
      assert !Covers(Replay(prev, Written(prev, items)), Node(NewValues(items)));
    }
  }

  // Two simple cases -----------------------------------------------------------------------------

  /** Without clashes there is no harm. */
  lemma NoClashNoHarm(items: seq<Item>)
    requires NoClash(items)
    ensures HarmlessClashes(items)
  {
    forall place | IsLeafPlace(items, place) ensures NotReplaced(items, place) {
      NothingLater(items, place);
      forall path, w | EntryAt(items, place).path <= path && LeafAt(Node(NewValues(items)), path) == Some(w)
        ensures Entry(path, w) == EntryAt(items, place)
      {
        FinalIsLater(items, place, path, w);
      }
    }
  }

  lemma {:induction false} NothingLater(items: seq<Item>, place: seq<nat>)
    requires NoClash(items) && IsLeafPlace(items, place)
    ensures Later(items, place) == []
    decreases |place|
  {
    var k := place[0];
    var rest, key := items[k + 1..], Printable(items[k].key);
    forall m | 0 <= m < |rest| ensures Printable(rest[m].key) != key {
      assert rest[m] == items[k + 1 + m];
    }
    NoSameKey(rest, key);
    match items[k].value
    case Dict(sub) =>
      assert ItemNoClash(items[k]);
      NothingLater(sub, place[1..]);
    case _ =>
  }

  lemma {:induction false} NoSameKey(items: seq<Item>, key: Scalar)
    requires forall k :: 0 <= k < |items| ==> Printable(items[k].key) != key
    ensures SameKey(items, key) == []
  {
    if items != [] {
      NoSameKey(items[..|items| - 1], key);
    }
  }

  /** In a dictionary without dictionaries inside, clashes are harmless exactly when the values are equal. */
  lemma FlatHarmlessIff(items: seq<Item>)
    requires forall k :: 0 <= k < |items| ==> !items[k].value.Dict?
    ensures HarmlessClashes(items)
       <==> forall j, k :: 0 <= j < k < |items| && Printable(items[j].key) == Printable(items[k].key) ==>
              Converted(items[j].value) == Converted(items[k].value)
  {
    if HarmlessClashes(items) {
      forall j, k | 0 <= j < k < |items| && Printable(items[j].key) == Printable(items[k].key)
        ensures Converted(items[j].value) == Converted(items[k].value)
      {
        FlatSame(items, j);
        FlatSame(items, k);
      }
    }
    if forall j, k :: 0 <= j < k < |items| && Printable(items[j].key) == Printable(items[k].key) ==>
         Converted(items[j].value) == Converted(items[k].value)
    {
      forall place | IsLeafPlace(items, place) ensures NotReplaced(items, place) {
        FlatNotReplaced(items, place);
      }
    }
  }

  lemma FlatNotReplaced(items: seq<Item>, place: seq<nat>)
    requires forall k :: 0 <= k < |items| ==> !items[k].value.Dict?
    requires forall j, k :: 0 <= j < k < |items| && Printable(items[j].key) == Printable(items[k].key) ==>
               Converted(items[j].value) == Converted(items[k].value)
    requires IsLeafPlace(items, place)
    ensures NotReplaced(items, place)
  {
    var e := EntryAt(items, place);
    forall path, w | e.path <= path && LeafAt(Node(NewValues(items)), path) == Some(w) ensures Entry(path, w) == e {
      var last := LastPlace(items, path[0]);
      assert Converted(items[last].value) == Converted(items[place[0]].value) == NewValue(items[last]);
      assert path == [path[0]] + path[1..];
      assert LeafAt(NewValue(items[last]), path[1..]) == Some(w);
    }
  }

  /** With harmless clashes every item has the value that its key ends up with. */
  lemma {:induction false} FlatSame(items: seq<Item>, j: nat)
    requires forall k :: 0 <= k < |items| ==> !items[k].value.Dict?
    requires HarmlessClashes(items) && j < |items|
    ensures var key := Printable(items[j].key);
            key in NewValues(items) && NewValues(items)[key] == Converted(items[j].value)
    decreases |items| - j
  {
    var key := Printable(items[j].key);
    NewKeys(items, key);
    var rest := items[j + 1..];
    forall e | e in SameKey(rest, key)
      ensures e.path == [key] && NewValues(items)[key] == Leaf(e.value)
    {
      var m := SameKeyFrom(rest, key, e);
      FlatSame(items, j + 1 + m);
      SameKeyKeys(rest, key, e);
      UnderMember(Printable(rest[m].key), ValueEntries(rest[m].value), e);
      assert e.path == [e.path[0]] + e.path[1..];
    }
    FlatKept(items, j);
    hide SameKey;
    hide HarmlessClashes;
    var last := LastPlace(items, key);
    assert LeafAt(Node(NewValues(items)), [key]) == Some(NewValues(items)[key].value) by {
      assert [key][1..] == [];
    }
  }

  lemma {:induction false} FlatKept(items: seq<Item>, j: nat)
    requires forall k :: 0 <= k < |items| ==> !items[k].value.Dict?
    requires HarmlessClashes(items) && j < |items| && Printable(items[j].key) in NewValues(items)
    requires var key := Printable(items[j].key);
             forall e :: e in SameKey(items[j + 1..], key) ==>
               e.path == [key] && NewValues(items)[key] == Leaf(e.value)
    ensures IsLeafPlace(items, [j]) && NotReplaced(items, [j])
  {
    var key := Printable(items[j].key);
    var later := SameKey(items[j + 1..], key);
    assert !DictAt(items, [key]) by {
      assert [key][0] == key;
    }
    assert Later(items, [j]) == later;
    hide SameKey;
    assert forall k :: 0 <= k < |later| ==> later[k] in later;
    assert Possible(items, Later(items, [j]));
  }

  lemma {:induction false} SameKeyKeys(items: seq<Item>, key: Scalar, e: Entry)
    requires e in SameKey(items, key)
    ensures e.path != [] && e.path[0] == key
  {
    var n := |items| - 1;
    if e in SameKey(items[..n], key) {
      SameKeyKeys(items[..n], key, e);
    } else {
      UnderMember(key, ValueEntries(items[n].value), e);
    }
  }

  // ---------------------------------------------------------------------------------------------
  // Runs
  // ---------------------------------------------------------------------------------------------

  /** The dictionary after a series of calls, each given the previous result. */
  function RunResult(initial: Tree, curs: seq<seq<Item>>): Tree {
    if curs == [] then initial else Returned(RunResult(initial, curs[..|curs| - 1]), curs[|curs| - 1])
  }

  function RunLog(initial: Tree, curs: seq<seq<Item>>): seq<Tree> {
    if curs == [] then
      []
    else
      RunLog(initial, curs[..|curs| - 1])
      + Written(RunResult(initial, curs[..|curs| - 1]), curs[|curs| - 1])
  }

  lemma {:induction false} ReplayAppends(initial: Tree, a: seq<Tree>, b: seq<Tree>)
    ensures Replay(initial, a + b) == Replay(Replay(initial, a), b)
  {
    if b == [] {
      assert a + b == a;
    } else {
      assert (a + b)[..|a + b| - 1] == a + b[..|b| - 1];
      ReplayAppends(initial, a, b[..|b| - 1]);
    }
  }

  /** The same path never holds a leaf in one dictionary and a dictionary with entries in another. */
  ghost predicate SameKinds(t: Tree, items: seq<Item>) {
    forall path :: !(LeafAt(t, path).Some? && DictAt(items, path))
  }

  ghost predicate KindsKept(initial: Tree, curs: seq<seq<Item>>) {
    && (forall j :: 0 <= j < |curs| ==> SameKinds(initial, curs[j]))
    && (forall i, j :: 0 <= i < j < |curs| ==> SameKinds(Node(NewValues(curs[i])), curs[j]))
  }

  /** The result of a run is the initial dictionary or one of those given. */
  lemma {:induction false} ResultIsOneOf(initial: Tree, curs: seq<seq<Item>>)
    ensures || RunResult(initial, curs) == initial
            || exists i :: 0 <= i < |curs| && RunResult(initial, curs) == Node(NewValues(curs[i]))
  {
    if curs != [] {
      ResultIsOneOf(initial, curs[..|curs| - 1]);
    }
  }

  /** With kinds kept no call raises. */
  lemma NeverRaises(initial: Tree, curs: seq<seq<Item>>, n: nat)
    requires KindsKept(initial, curs) && n < |curs|
    ensures !Raises(RunResult(initial, curs[..n]), curs[n])
  {
    ResultIsOneOf(initial, curs[..n]);
    RaisesIff(RunResult(initial, curs[..n]), curs[n]);
  }

  /**
   After any number of calls the replayed log agrees with the last dictionary given, and with the one returned,
   on every leaf.
   */
  lemma {:induction false} LogReplays(initial: Tree, curs: seq<seq<Item>>)
    requires KindsKept(initial, curs)
    requires forall k :: 0 <= k < |curs| ==> HarmlessClashes(curs[k])
    ensures Covers(Replay(initial, RunLog(initial, curs)), RunResult(initial, curs))
    ensures curs != [] ==>
              Covers(Replay(initial, RunLog(initial, curs)), Node(NewValues(curs[|curs| - 1])))
  {
    if curs != [] {
      var n := |curs| - 1;
      var prev := RunResult(initial, curs[..n]);
      LogReplays(initial, curs[..n]);
      NeverRaises(initial, curs, n);
      CallReplays(prev, Replay(initial, RunLog(initial, curs[..n])), curs[n]);
      ReplayAppends(initial, RunLog(initial, curs[..n]), Written(prev, curs[n]));
    }
  }

  // ---------------------------------------------------------------------------------------------
  // Where the documentation and the code differ
  // ---------------------------------------------------------------------------------------------

  /** The log is written to exactly when some entry of the current dictionary is new. */
  lemma WrittenIff(prev: Tree, items: seq<Item>)
    requires !Raises(prev, items)
    ensures Written(prev, items) != [] <==> !Holds(prev, Entries(items))
    ensures NoClash(items) ==> (Written(prev, items) != [] <==> !Covers(prev, Node(NewValues(items))))
  {
    UnchangedIff(prev, items);
    if NoClash(items) {
      EntriesAreLeaves(prev, items);
    }
  }

  /** Without clashes the entries are the leaves of the new dictionary. */
  lemma EntriesAreLeaves(t: Tree, items: seq<Item>)
    requires NoClash(items)
    ensures Holds(t, Entries(items)) <==> Covers(t, Node(NewValues(items)))
  {
    if Holds(t, Entries(items)) {
      forall path, w | LeafAt(Node(NewValues(items)), path) == Some(w) ensures LeafAt(t, path) == Some(w) {
        NewIsEntry(items, path, w);
      }
    }
    if Covers(t, Node(NewValues(items))) {
      forall k | 0 <= k < |Entries(items)| ensures LeafAt(t, Entries(items)[k].path) == Some(Entries(items)[k].value) {
        EntryIsLeaf(items, Entries(items)[k]);
      }
    }
  }

  lemma {:induction false} EntryIsLeaf(items: seq<Item>, e: Entry)
    requires NoClash(items) && e in Entries(items)
    ensures LeafAt(Node(NewValues(items)), e.path) == Some(e.value)
    decreases |e.path|
  {
    EntriesMember(items, e);
    var k :| 0 <= k < |items| && e in ItemEntries(items[k]);
    UnderMember(Printable(items[k].key), ValueEntries(items[k].value), e);
    ItemPlaces(map[], items, k);
    match items[k].value
    case Dict(sub) =>
      assert ItemNoClash(items[k]);
      EntryIsLeaf(sub, Entry(e.path[1..], e.value));
    case _ =>
  }

  /**
   The returned dictionary is documented to be equivalent to the current one.  It has all its leaves; it has no others
   exactly when some entry of the current dictionary is new, or the previous dictionary had no leaf that was dropped.
   It is the current one, empty dictionaries inside it included, exactly when some entry is new or nothing changed.
   */
  lemma ReturnedEquivalentIff(prev: Tree, items: seq<Item>)
    requires !Raises(prev, items)
    ensures Covers(Returned(prev, items), Node(NewValues(items)))
    ensures Covers(Node(NewValues(items)), Returned(prev, items))
       <==> !Holds(prev, Entries(items)) || Covers(Node(NewValues(items)), prev)
    ensures Returned(prev, items) == Node(NewValues(items))
       <==> !Holds(prev, Entries(items)) || prev == Node(NewValues(items))
    ensures NoClash(items) ==>
              (Covers(Node(NewValues(items)), Returned(prev, items))
               <==> !Covers(prev, Node(NewValues(items))) || Covers(Node(NewValues(items)), prev))
  {
    ReturnedHasAll(prev, items);
    WrittenIff(prev, items);
  }

  /** A key that disappears is not noticed. */
  lemma DroppedKeyKept()
    ensures var prev := Node(map[Text("a") := Leaf(Number(1.0))]);
            !Raises(prev, []) && Returned(prev, []) == prev && Written(prev, []) == []
            && !Covers(Node(NewValues([])), prev)
  {
    var prev := Node(map[Text("a") := Leaf(Number(1.0))]);
    assert LeafAt(prev, [Text("a")]) == Some(Number(1.0));
    assert LeafAt(Node(NewValues([])), [Text("a")]) == None;
  }

  /** An empty dictionary that appears is not noticed either, under whatever key. */
  lemma EmptyDictMissed(prev: Tree, key: RawKey)
    requires prev.Node?
    ensures var cur := [Item(key, Dict([]))];
            && !Raises(prev, cur) && Written(prev, cur) == [] && Returned(prev, cur) == prev
            && (Printable(key) !in prev.kids ==> prev != Node(NewValues(cur)))
  {
    var item := Item(key, Dict([]));
    assert !ItemRaises(prev.kids, item);
    assert [item][..0] == [] && ItemChange(prev.kids, item) == None;
    assert ChangedValues(prev.kids, [item]) == map[];
    assert Printable(key) in NewValues([item]);
  }

  /** Two keys that print alike: the diff records the first value although the dictionary ends up with the second. */
  lemma ClashMisleads()
    ensures var key := Text("(1,)");
            var prev := Node(map[key := Leaf(Number(6.0))]);
            var cur := [Item(OtherKey("(1,)"), Simple(Number(5.0))), Item(Plain(key), Simple(Number(6.0)))];
            && !HarmlessClashes(cur) && !Raises(prev, cur)
            && LeafAt(Returned(prev, cur), [key]) == Some(Number(6.0))
            && LeafAt(Replay(prev, Written(prev, cur)), [key]) == Some(Number(5.0))
  {
    var key := Text("(1,)");
    var kids := map[key := Leaf(Number(6.0))];
    var prev := Node(kids);
    var first, second := Item(OtherKey("(1,)"), Simple(Number(5.0))), Item(Plain(key), Simple(Number(6.0)));
    var cur := [first, second];
    assert cur[..1] == [first] && [first][..0] == [];
    assert ItemChange(kids, first) == Some(Leaf(Number(5.0)));
    assert ItemChange(kids, second) == None;
    assert ChangedValues(kids, [first]) == map[key := Leaf(Number(5.0))];
    assert ChangedValues(kids, cur) == map[key := Leaf(Number(5.0))];
    var diff := Node(map[key := Leaf(Number(5.0))]);
    assert Written(prev, cur) == [diff] && [diff][..0] == [];
    assert Replay(prev, [diff]) == Merge(prev, diff);
    assert Merge(kids[key], diff.kids[key]) == Leaf(Number(5.0));
    assert Converted(second.value) == Leaf(Number(6.0)) == NewValue(second);
    LeafUnder(KidsOf(Merge(prev, diff)), key, Number(5.0));
    LeafUnder(NewValues(cur), key, Number(6.0));
    FlatHarmlessIff(cur);
    assert Printable(cur[0].key) == Printable(cur[1].key) && Converted(cur[0].value) != Converted(cur[1].value);
  }

  lemma LeafUnder(kids: map<Scalar, Tree>, key: Scalar, v: Scalar)
    requires key in kids && kids[key] == Leaf(v)
    ensures LeafAt(Node(kids), [key]) == Some(v)
  {
    assert [key][1..] == [];
  }
}
