/**
 Peer specifications of scenario lines (gumby/scenario.py, _parse_peerspec and _parse_for_this_peer).
 */
module PeerSpec {
  import opened Wrappers
  import opened Text
  import Counting

  datatype Peers = Peers(yes: set<int>, no: set<int>)

  /** range(low, high + 1). */
  function Range(low: int, high: int): (r: set<int>)
    ensures forall x :: x in r <==> low <= x <= high
    decreases high - low
  {
    if low > high then {} else Range(low, high - 1) + {high}
  }

  /** The peers one item of the list names; None where the code raises ValueError. */
  function ParseItem(item: string): Option<set<int>> {
    var peer := Strip(item);
    if peer == "" then
      Some({})
    else if '-' in peer then
      var parts := Split(peer, '-');
      if |parts| != 2 then
        None
      else
        match (ParseInt(parts[0]), ParseInt(parts[1]))
        case (Some(low), Some(high)) => Some(Range(low, high))
        case _ => None
    else
      match ParseInt(peer)
      case None => None
      case Some(n) => Some({n})
  }

  function ParseItems(items: seq<string>): Option<set<int>> {
    if items == [] then
      Some({})
    else
      match (ParseItems(items[..|items| - 1]), ParseItem(items[|items| - 1]))
      case (Some(peers), Some(more)) => Some(peers + more)
      case _ => None
  }

  /** The peers asked for and the peers ruled out. */
  function ParseSpec(spec: string): Option<Peers> {
    if spec == "" then
      Some(Peers({}, {}))
    else if spec[0] == '!' then
      match ParseItems(Split(spec[1..], ','))
      case None => None
      case Some(peers) => Some(Peers({}, peers))
    else
      match ParseItems(Split(spec, ','))
      case None => None
      case Some(peers) => Some(Peers(peers, {}))
  }

  /** _parse_peerspec. */
  method ParsePeerspec(peerspec: string) returns (r: Option<Peers>)
    ensures r == ParseSpec(peerspec)
  {
    if peerspec == "" {
      return Some(Peers({}, {}));
    }
    var excluded := peerspec[0] == '!';
    var list := if excluded then peerspec[1..] else peerspec;
    var peers := AddPeers(Split(list, ','));
    r := match peers
      case None => None
      case Some(peers) => Some(if excluded then Peers({}, peers) else Peers(peers, {}));
  }

  /** The loop of _parse_peerspec over the items of the list. */
  method AddPeers(items: seq<string>) returns (r: Option<set<int>>)
    ensures r == ParseItems(items)
  {
    hide ParseItem;
    var peers := {};
    for k := 0 to |items|
      invariant ParseItems(items[..k]) == Some(peers)
    {
      assert items[..k + 1][..k] == items[..k];
      var more := ParseItem(items[k]);
      if more.None? {
        ErrorStays(items, k + 1);
        return None;
      }
      peers := peers + more.value;
    }
    assert items[..|items|] == items;
    r := Some(peers);
  }

  /** An item that does not parse spoils the list. */
  lemma {:induction false} ErrorStays(items: seq<string>, k: nat)
    requires k <= |items| && ParseItems(items[..k]).None?
    ensures ParseItems(items).None?
  {
    hide ParseItem;
    if k < |items| {
      var init := items[..|items| - 1];
      assert init[..k] == items[..k];
      ErrorStays(init, k);
    } else {
      assert items[..k] == items;
    }
  }

  /** An item names nobody, a number, or two numbers with one hyphen between them; hyphens are looked at first. */
  ghost predicate Readable(item: string) {
    var s := Strip(item);
    || s == ""
    || ('-' !in s && ParseInt(s).Some?)
    || exists a, b :: IsPair(s, a, b)
  }

  predicate IsPair(s: string, a: string, b: string) {
    s == a + ['-'] + b && '-' !in a && '-' !in b && ParseInt(a).Some? && ParseInt(b).Some?
  }

  lemma {:induction false} PairParts(s: string)
    requires '-' in s
    ensures |Split(s, '-')| == 2 ==>
              var parts := Split(s, '-');
              s == parts[0] + ['-'] + parts[1] && '-' !in parts[0] && '-' !in parts[1]
  {
    var i := IndexOf(s, '-');
    var rest := s[i + 1..];
    assert i < |s|;
    assert s == s[..i] + ['-'] + rest;
    var j := IndexOf(rest, '-');
    if j < |rest| {
      assert |Split(rest, '-')| >= 2;
    } else {
      assert Split(rest, '-') == [rest];
    }
  }

  /** An item makes the specification raise if and only if it is none of these. */
  lemma {:induction false} ItemRefusedIff(item: string)
    ensures ParseItem(item).None? <==> !Readable(item)
  {
    hide Strip;
    hide ParseInt;
    var s := Strip(item);
    if '-' in s {
      PairParts(s);
      var parts := Split(s, '-');
      hide Split;
      if ParseItem(item).Some? {
        assert IsPair(s, parts[0], parts[1]);
      }
      if a, b :| IsPair(s, a, b) {
        PairItem(item, a, b, ParseInt(a).value, ParseInt(b).value);
      }
    } else {
      forall a, b ensures !IsPair(s, a, b) {
        assert (a + ['-'] + b)[|a|] == '-';
      }
    }
  }

  lemma {:induction false} ItemsRefusedIff(items: seq<string>)
    ensures ParseItems(items).None? <==> exists k :: 0 <= k < |items| && !Readable(items[k])
  {
    hide ParseItem;
    hide Readable;
    if items != [] {
      var n := |items| - 1;
      ItemsRefusedIff(items[..n]);
      ItemRefusedIff(items[n]);
      assert forall k :: 0 <= k < n ==> items[..n][k] == items[k];
    }
  }

  /** Whether a line with this specification is for peer `me`; None where the code raises. */
  function ForThisPeer(spec: string, me: int): Option<bool> {
    if spec != "" && '$' !in spec then
      match ParseSpec(spec)
      case None => None
      case Some(p) =>
        Some((p.yes == {} && p.no == {}) || (p.yes != {} && me in p.yes) || (p.no != {} && me !in p.no))
    else
      Some(true)
  }

  /** A line raises if and only if its specification, variables apart, has an item that cannot be read. */
  lemma SpecRefusedIff(spec: string, me: int)
    ensures var list := if spec != "" && spec[0] == '!' then spec[1..] else spec;
            ForThisPeer(spec, me).None?
            <==> spec != "" && '$' !in spec && exists k :: 0 <= k < |Split(list, ',')| && !Readable(Split(list, ',')[k])
  {
    hide Readable;
    hide ParseItems;
    var list := if spec != "" && spec[0] == '!' then spec[1..] else spec;
    ItemsRefusedIff(Split(list, ','));
    hide Split;
  }

  // ---------------------------------------------------------------------------------------------
  // Printing specifications
  // ---------------------------------------------------------------------------------------------

  datatype Item = One(n: nat) | Span(low: nat, high: nat)

  predicate Names(item: Item, x: int) {
    match item
    case One(n) => x == n
    case Span(low, high) => low <= x <= high
  }

  predicate Listed(items: seq<Item>, x: int) {
    exists k :: 0 <= k < |items| && Names(items[k], x)
  }

  function ShowItem(item: Item): string {
    match item
    case One(n) => Decimal(n)
    case Span(low, high) => Decimal(low) + ['-'] + Decimal(high)
  }

  /** Items with the same space before each. */
  function ShowItems(items: seq<Item>, pad: string): (r: seq<string>)
    ensures |r| == |items|
  {
    seq(|items|, k requires 0 <= k < |items| => pad + ShowItem(items[k]))
  }

  function ShowSpec(items: seq<Item>, pad: string): string {
    JoinWith(ShowItems(items, pad), ',')
  }

  // ---------------------------------------------------------------------------------------------
  // Parsing undoes printing
  // ---------------------------------------------------------------------------------------------

  lemma DecimalTrimmed(n: nat)
    ensures Trimmed(Decimal(n))
    ensures '-' !in Decimal(n) && ',' !in Decimal(n) && '$' !in Decimal(n) && '!' !in Decimal(n)
    ensures ParseInt(Decimal(n)) == Some(n)
  {
    hide ParseInt;
    hide Decimal;
    ParseShow(n);
    ShowTrimmed(n);
    DigitsOnly(Decimal(n));
  }

  lemma DigitsOnly(s: string)
    requires AllDigits(s)
    ensures '-' !in s && ',' !in s && '$' !in s && '!' !in s
  {
  }

  lemma ItemRoundTrip(item: Item, pad: string)
    requires Blank(pad)
    ensures var r := ParseItem(pad + ShowItem(item));
            r.Some? && forall x :: x in r.value <==> Names(item, x)
  {
    hide ParseItem;
    hide ParseInt;
    hide Strip;
    ItemTrimmed(item);
    StripIs(pad, ShowItem(item), "");
    assert pad + ShowItem(item) + "" == pad + ShowItem(item);
    match item
    case One(n) =>
      DecimalTrimmed(n);
      PlainItem(pad + ShowItem(item), n);
    case Span(low, high) =>
      DecimalTrimmed(low);
      DecimalTrimmed(high);
      PairItem(pad + ShowItem(item), Decimal(low), Decimal(high), low, high);
  }

  lemma PlainItem(item: string, n: int)
    requires Strip(item) != "" && '-' !in Strip(item) && ParseInt(Strip(item)) == Some(n)
    ensures ParseItem(item) == Some({n})
  {
    hide ParseInt;
    hide Strip;
  }

  lemma PairItem(item: string, a: string, b: string, low: int, high: int)
    requires Strip(item) == a + ['-'] + b && '-' !in a && '-' !in b
    requires ParseInt(a) == Some(low) && ParseInt(b) == Some(high)
    ensures ParseItem(item) == Some(Range(low, high))
  {
    hide ParseInt;
    hide Strip;
    var parts := [a, b];
    assert parts[1..] == [b];
    assert JoinWith([b], '-') == b;
    SplitJoined(parts, '-');
    assert (a + ['-'] + b)[|a|] == '-';
    hide Split;
    hide Range;
  }

  lemma {:induction false} ItemTrimmed(item: Item)
    ensures Trimmed(ShowItem(item)) && ShowItem(item) != ""
    ensures ',' !in ShowItem(item) && '$' !in ShowItem(item) && '!' !in ShowItem(item)
  {
    hide Decimal;
    hide AllDigits;
    match item
    case One(n) => DecimalTrimmed(n);
    case Span(low, high) =>
      DecimalTrimmed(low);
      DecimalTrimmed(high);
      var a, b := Decimal(low), Decimal(high);
      var s := a + ['-'] + b;
      assert s[0] == a[0] && s[|s| - 1] == b[|b| - 1];
  }

  lemma {:induction false} ItemsRoundTrip(items: seq<Item>, pad: string)
    requires Blank(pad)
    ensures var r := ParseItems(ShowItems(items, pad));
            r.Some? && forall x :: x in r.value <==> Listed(items, x)
  {
    hide ParseItem;
    hide Listed;
    if items != [] {
      var init, last := items[..|items| - 1], items[|items| - 1];
      ItemsRoundTrip(init, pad);
      ItemRoundTrip(last, pad);
      assert ShowItems(items, pad)[..|items| - 1] == ShowItems(init, pad);
      ListedMore(items);
      assert forall x :: x in ParseItems(ShowItems(items, pad)).value
                     <==> x in ParseItems(ShowItems(init, pad)).value || Names(last, x);
    } else {
      NobodyListed();
    }
  }

  lemma NobodyListed()
    ensures forall x :: !Listed([], x)
  {
  }

  lemma ListedMore(items: seq<Item>)
    requires items != []
    ensures forall x :: Listed(items, x) <==> Listed(items[..|items| - 1], x) || Names(items[|items| - 1], x)
  {
    var init, last := items[..|items| - 1], items[|items| - 1];
    forall x ensures Listed(items, x) <==> Listed(init, x) || Names(last, x) {
      if Listed(init, x) {
        var k :| 0 <= k < |init| && Names(init[k], x);
        assert Names(items[k], x);
      }
      assert Names(last, x) ==> Names(items[|items| - 1], x);
    }
  }

  /** A character that no printed item or separator uses. */
  predicate Foreign(c: char) {
    !IsDigit(c) && !IsSpace(c) && c != '-' && c != ','
  }

  lemma NoForeign(items: seq<Item>, pad: string, c: char)
    requires Blank(pad) && Foreign(c)
    ensures c !in ShowSpec(items, pad)
  {
    forall k | 0 <= k < |items| ensures c !in ShowItems(items, pad)[k] {
      ItemLacks(items[k], c);
    }
    JoinLacks(ShowItems(items, pad), ',', c);
  }

  lemma ItemLacks(item: Item, c: char)
    requires Foreign(c)
    ensures c !in ShowItem(item)
  {
    hide Decimal;
  }

  /** The characters of a printed list. */
  lemma PlainText(items: seq<Item>, pad: string)
    requires Blank(pad)
    ensures '$' !in ShowSpec(items, pad) && '!' !in ShowSpec(items, pad)
    ensures items != [] ==> ShowSpec(items, pad) != ""
  {
    NoForeign(items, pad, '$');
    NoForeign(items, pad, '!');
    if items != [] {
      ItemTrimmed(items[0]);
      assert ShowItems(items, pad)[0] == pad + ShowItem(items[0]);
    }
  }

  /** Printing and parsing a list of items gives the union of what they name, on the side the mark asks for. */
  lemma SpecRoundTrip(items: seq<Item>, pad: string)
    requires items != [] && Blank(pad)
    ensures var r := ParseSpec(ShowSpec(items, pad));
            r.Some? && r.value.no == {} && forall x :: x in r.value.yes <==> Listed(items, x)
    ensures var r := ParseSpec(['!'] + ShowSpec(items, pad));
            r.Some? && r.value.yes == {} && forall x :: x in r.value.no <==> Listed(items, x)
  {
    var spec := ShowSpec(items, pad);
    PlainText(items, pad);
    forall k | 0 <= k < |items| ensures ',' !in ShowItems(items, pad)[k] {
      ItemTrimmed(items[k]);
    }
    SplitJoined(ShowItems(items, pad), ',');
    ItemsRoundTrip(items, pad);
    assert (['!'] + spec)[1..] == spec;
    hide ParseItems;
    assert spec[0] != '!';
  }

  /**
   A printed list of items: the plain form is for exactly the listed peers and the marked form for exactly the
   others, unless the list names nobody, in which case both are for everybody.
   */
  lemma RunsIffListed(items: seq<Item>, pad: string, me: int)
    requires items != [] && Blank(pad)
    ensures ForThisPeer(ShowSpec(items, pad), me) == Some(Listed(items, me) || !exists x :: Listed(items, x))
    ensures ForThisPeer(['!'] + ShowSpec(items, pad), me) == Some(!Listed(items, me))
  {
    SpecRoundTrip(items, pad);
    PlainText(items, pad);
    var plain, marked := ParseSpec(ShowSpec(items, pad)).value, ParseSpec(['!'] + ShowSpec(items, pad)).value;
    hide ParseSpec;
    Inhabited(plain.yes, items);
    Inhabited(marked.no, items);
  }

  lemma Inhabited(peers: set<int>, items: seq<Item>)
    requires forall x :: x in peers <==> Listed(items, x)
    ensures peers != {} <==> exists x :: Listed(items, x)
  {
    if peers != {} {
      var x := Counting.Member(peers);
      assert Listed(items, x);
    }
  }

  /** A specification and its marked form split the peers in two exactly when the list names somebody. */
  lemma SplitInTwo(items: seq<Item>, pad: string)
    requires items != [] && Blank(pad)
    ensures (forall me :: ForThisPeer(ShowSpec(items, pad), me) != ForThisPeer(['!'] + ShowSpec(items, pad), me))
       <==> exists x :: Listed(items, x)
  {
    hide ForThisPeer;
    hide ShowSpec;
    hide Listed;
    var plain := ShowSpec(items, pad);
    var marked := ['!'] + plain;
    forall me
      ensures ForThisPeer(plain, me) == Some(Listed(items, me) || !exists x :: Listed(items, x))
      ensures ForThisPeer(marked, me) == Some(!Listed(items, me))
    {
      RunsIffListed(items, pad, me);
    }
    assert ForThisPeer(plain, 0) == Some(Listed(items, 0) || !exists x :: Listed(items, x));
    assert ForThisPeer(marked, 0) == Some(!Listed(items, 0));
  }
}
