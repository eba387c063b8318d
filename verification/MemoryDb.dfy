/**
 The in-memory TrustChain store (experiments/trustchain/trustchain_mem_db.py): three dictionaries that have to
 agree, and the two queries that rely on it.
 */
module MemoryDb {
  import opened Sequences
  import opened Wrappers

  datatype Key = Key(publicKey: int, number: int)

  datatype Block = Block(publicKey: int, number: int, linkPublicKey: int, linkNumber: int, payload: string)

  function Own(b: Block): Key {
    Key(b.publicKey, b.number)
  }

  function Link(b: Block): Key {
    Key(b.linkPublicKey, b.linkNumber)
  }

  datatype Store = Store(blocks: map<Key, Block>, linked: map<Key, Block>, latest: map<int, Block>)

  const EMPTY: Store := Store(map[], map[], map[])

  // ---------------------------------------------------------------------------------------------
  // Operations
  // ---------------------------------------------------------------------------------------------

  function Added(s: Store, b: Block): Store {
    Store(
      s.blocks[Own(b) := b],
      s.linked[Link(b) := b],
      if b.publicKey !in s.latest || s.latest[b.publicKey].number < b.number then s.latest[b.publicKey := b]
      else s.latest)
  }

  /** Both entries go, whichever blocks they hold; the latest blocks stay. */
  function Removed(s: Store, b: Block): Store {
    s.(blocks := s.blocks - {Own(b)}, linked := s.linked - {Link(b)})
  }

  function Linked(s: Store, b: Block): Option<Block> {
    if Link(b) in s.blocks then Some(s.blocks[Link(b)])
    else if Own(b) in s.linked then Some(s.linked[Own(b)])
    else None
  }

  datatype Op = Add(block: Block) | Remove(block: Block)

  function Run(ops: seq<Op>): Store {
    if ops == [] then
      EMPTY
    else
      var s := Run(ops[..|ops| - 1]);
      match ops[|ops| - 1]
      case Add(b) => Added(s, b)
      case Remove(b) => Removed(s, b)
  }

  // ---------------------------------------------------------------------------------------------
  // What the dictionaries hold
  // ---------------------------------------------------------------------------------------------

  /** The two dictionaries of blocks: by own key, and by the key linked to. */
  datatype Side = OwnKey | LinkKey

  function KeyOf(side: Side, b: Block): Key {
    match side
    case OwnKey => Own(b)
    case LinkKey => Link(b)
  }

  /** Operation `i` is the last one on a block with this key. */
  ghost predicate LastOn(ops: seq<Op>, side: Side, k: Key, i: int) {
    0 <= i < |ops| && KeyOf(side, ops[i].block) == k && forall j :: i < j < |ops| ==> KeyOf(side, ops[j].block) != k
  }

  lemma {:induction false} LastOnMore(ops: seq<Op>, op: Op, side: Side, k: Key, i: int)
    ensures LastOn(ops + [op], side, k, i)
       <==> if KeyOf(side, op.block) == k then i == |ops| else LastOn(ops, side, k, i)
  {
    var all := ops + [op];
    assert all[|ops|] == op && forall j :: 0 <= j < |ops| ==> all[j] == ops[j];
  }

  /** A dictionary has exactly the blocks that were added and not since replaced or removed. */
  ghost predicate Holds(ops: seq<Op>, side: Side, blocks: map<Key, Block>) {
    && (forall k :: k in blocks <==> exists i :: LastOn(ops, side, k, i) && ops[i].Add?)
    && forall k, i :: LastOn(ops, side, k, i) && ops[i].Add? ==> k in blocks && blocks[k] == ops[i].block
  }

  lemma {:induction false} HoldsMore(ops: seq<Op>, op: Op, side: Side, blocks: map<Key, Block>)
    requires Holds(ops, side, blocks)
    ensures var k := KeyOf(side, op.block);
            Holds(ops + [op], side, if op.Add? then blocks[k := op.block] else blocks - {k})
  {
    var all := ops + [op];
    var now := if op.Add? then blocks[KeyOf(side, op.block) := op.block] else blocks - {KeyOf(side, op.block)};
    forall k, i
      ensures LastOn(all, side, k, i) <==> if KeyOf(side, op.block) == k then i == |ops| else LastOn(ops, side, k, i)
    {
      LastOnMore(ops, op, side, k, i);
    }
    forall k ensures k in now <==> exists i :: LastOn(all, side, k, i) && all[i].Add? {
      if k == KeyOf(side, op.block) {
        assert LastOn(all, side, k, |ops|);
      } else if k in blocks {
        var i :| LastOn(ops, side, k, i) && ops[i].Add?;
        assert LastOn(all, side, k, i) && all[i].Add?;
      }
    }
  }

  ghost predicate Adds(op: Op, p: int) {
    op.Add? && op.block.publicKey == p
  }

  /** Operation `i` adds the first block of the key `p` with the highest number of all that were ever added for it. */
  ghost predicate FirstHighest(ops: seq<Op>, p: int, i: int) {
    && 0 <= i < |ops| && Adds(ops[i], p)
    && (forall j :: 0 <= j < i && Adds(ops[j], p) ==> ops[j].block.number < ops[i].block.number)
    && (forall j :: i < j < |ops| && Adds(ops[j], p) ==> ops[j].block.number <= ops[i].block.number)
  }

  lemma {:induction false} OneHighest(ops: seq<Op>, p: int, i: int, i': int)
    requires FirstHighest(ops, p, i) && FirstHighest(ops, p, i')
    ensures i == i'
  {
  }

  /** What one more operation does to the highest block: an add of the key goes first if its number is higher. */
  lemma {:induction false} HighestMore(ops: seq<Op>, op: Op, p: int, i: int)
    requires FirstHighest(ops, p, i)
    ensures FirstHighest(ops + [op], p, if Adds(op, p) && ops[i].block.number < op.block.number then |ops| else i)
  {
    var all := ops + [op];
    assert all[|ops|] == op && forall j :: 0 <= j < |ops| ==> all[j] == ops[j];
  }

  lemma {:induction false} HighestFirst(ops: seq<Op>, op: Op, p: int)
    requires Adds(op, p) && forall j :: 0 <= j < |ops| ==> !Adds(ops[j], p)
    ensures FirstHighest(ops + [op], p, |ops|)
  {
    var all := ops + [op];
    assert all[|ops|] == op && forall j :: 0 <= j < |ops| ==> all[j] == ops[j];
  }

  lemma {:induction false} LatestStep(ops: seq<Op>, op: Op, p: int)
    ensures var was, now := Run(ops).latest, Run(ops + [op]).latest;
            if Adds(op, p) then
              p in now && now[p] == if p in was && was[p].number >= op.block.number then was[p] else op.block
            else
              (p in now <==> p in was) && (p in now ==> now[p] == was[p])
  {
    assert (ops + [op])[..|ops|] == ops;
  }

  lemma {:induction false} LatestKeys(ops: seq<Op>, p: int)
    ensures p in Run(ops).latest <==> exists j :: 0 <= j < |ops| && Adds(ops[j], p)
  {
    if ops != [] {
      var n := |ops| - 1;
      InitAndLast(ops);
      LatestKeys(ops[..n], p);
      LatestStep(ops[..n], ops[n], p);
      hide Run;
      hide Adds;
      assert forall j :: 0 <= j < n ==> ops[j] == ops[..n][j];
    }
  }

  /** The latest block of a key that was ever added is the first one with the highest number. */
  lemma {:induction false} LatestIs(ops: seq<Op>, p: int) returns (i: int)
    requires p in Run(ops).latest
    ensures 0 <= i < |ops| && FirstHighest(ops, p, i) && Run(ops).latest[p] == ops[i].block
  {
    var n := |ops| - 1;
    var init, op := ops[..n], ops[n];
    InitAndLast(ops);
    LatestStep(init, op, p);
    LatestKeys(init, p);
    hide Run;
    hide FirstHighest;
    if p in Run(init).latest {
      i := LatestIs(init, p);
      HighestMore(init, op, p, i);
      i := if Adds(op, p) && init[i].block.number < op.block.number then n else i;
    } else {
      HighestFirst(init, op, p);
      i := n;
    }
  }

  /**
   After any adds and removals: under every key the block added last, unless an operation on the key removed it since;
   under every key linked to likewise; and the first block with the highest number, removed or not, as the latest one.
   */
  lemma {:induction false} StoreHolds(ops: seq<Op>)
    ensures Holds(ops, OwnKey, Run(ops).blocks)
    ensures Holds(ops, LinkKey, Run(ops).linked)
    ensures forall p :: p in Run(ops).latest <==> exists i :: FirstHighest(ops, p, i)
    ensures forall p, i :: FirstHighest(ops, p, i) ==> p in Run(ops).latest && Run(ops).latest[p] == ops[i].block
  {
    DictionariesHold(ops);
    forall p
      ensures p in Run(ops).latest <==> exists i :: FirstHighest(ops, p, i)
      ensures forall i :: FirstHighest(ops, p, i) ==> p in Run(ops).latest && Run(ops).latest[p] == ops[i].block
    {
      LatestKeys(ops, p);
      if p in Run(ops).latest {
        var last := LatestIs(ops, p);
        forall i | FirstHighest(ops, p, i) ensures i == last {
          OneHighest(ops, p, i, last);
        }
      }
      forall i | FirstHighest(ops, p, i) ensures p in Run(ops).latest {
        assert Adds(ops[i], p);
      }
    }
  }

  lemma {:induction false} DictionariesHold(ops: seq<Op>)
    ensures Holds(ops, OwnKey, Run(ops).blocks) && Holds(ops, LinkKey, Run(ops).linked)
  {
    if ops != [] {
      var init, op := ops[..|ops| - 1], ops[|ops| - 1];
      assert ops == init + [op];
      DictionariesHold(init);
      HoldsMore(init, op, OwnKey, Run(init).blocks);
      HoldsMore(init, op, LinkKey, Run(init).linked);
      hide Holds;
    }
  }

  /** The partner of a block: the block stored under the key it links to; if there is none, that which links to it. */
  lemma {:induction false} LinkedIs(ops: seq<Op>, b: Block, c: Block)
    ensures Linked(Run(ops), b) == Some(c)
       <==> if exists i :: LastOn(ops, OwnKey, Link(b), i) && ops[i].Add? then
              exists i :: LastOn(ops, OwnKey, Link(b), i) && ops[i] == Add(c)
            else
              exists i :: LastOn(ops, LinkKey, Own(b), i) && ops[i] == Add(c)
  {
    DictionariesHold(ops);
    hide Run;
    hide LastOn;
  }

  /** One removal: neither entry of the block is left, and nothing else changes. */
  lemma RemovalIs(s: Store, b: Block)
    ensures var r := Removed(s, b);
            && Own(b) !in r.blocks && Link(b) !in r.linked && r.latest == s.latest
            && (forall k :: k in s.blocks && k != Own(b) ==> k in r.blocks && r.blocks[k] == s.blocks[k])
            && (forall k :: k in s.linked && k != Link(b) ==> k in r.linked && r.linked[k] == s.linked[k])
            && r.blocks.Keys <= s.blocks.Keys && r.linked.Keys <= s.linked.Keys
  {
  }

  // ---------------------------------------------------------------------------------------------
  // The latest blocks
  // ---------------------------------------------------------------------------------------------

  /** Blocks sit under their own key, and the latest block of a key bounds the numbers cached for it. */
  ghost predicate Bounded(s: Store) {
    && (forall k :: k in s.blocks ==> Own(s.blocks[k]) == k)
    && (forall k :: k in s.blocks ==> k.publicKey in s.latest && k.number <= s.latest[k.publicKey].number)
  }

  /** The latest block of every key is cached under its number. */
  ghost predicate LatestCached(s: Store) {
    forall p :: p in s.latest ==> Key(p, s.latest[p].number) in s.blocks
  }

  lemma AddBounded(s: Store, b: Block)
    requires Bounded(s)
    ensures Bounded(Added(s, b))
    ensures LatestCached(s) ==> LatestCached(Added(s, b))
  {
  }

  lemma RemoveBounded(s: Store, b: Block)
    requires Bounded(s)
    ensures Bounded(Removed(s, b))
  {
  }

  /**
   After any adds and removals the latest blocks bound the cached numbers; without removals they are the maxima, and
   positive numbers keep them positive.
   */
  lemma {:induction false} LatestBounds(ops: seq<Op>)
    ensures Bounded(Run(ops))
    ensures (forall k :: 0 <= k < |ops| ==> ops[k].Add?) ==> LatestCached(Run(ops))
    ensures (forall k :: 0 <= k < |ops| ==> ops[k].block.number > 0) ==>
              forall p :: p in Run(ops).latest ==> Run(ops).latest[p].number > 0
  {
    if ops != [] {
      var init := ops[..|ops| - 1];
      LatestBounds(init);
      assert (forall k :: 0 <= k < |ops| ==> ops[k].Add?) ==> forall k :: 0 <= k < |init| ==> init[k].Add?;
      assert (forall k :: 0 <= k < |ops| ==> ops[k].block.number > 0) ==>
               forall k :: 0 <= k < |init| ==> init[k].block.number > 0;
      match ops[|ops| - 1]
      case Add(b) => AddBounded(Run(init), b);
      case Remove(b) => RemoveBounded(Run(init), b);
    }
  }

  /** The least positive number not cached for a key. */
  ghost predicate LeastUnknown(s: Store, publicKey: int, n: int) {
    && n >= 1
    && Key(publicKey, n) !in s.blocks
    && forall m :: 1 <= m < n ==> Key(publicKey, m) in s.blocks
  }

  // ---------------------------------------------------------------------------------------------
  // Linked blocks
  // ---------------------------------------------------------------------------------------------

  ghost predicate Stored(s: Store, b: Block) {
    Own(b) in s.blocks && s.blocks[Own(b)] == b
  }

  /** Whenever a stored block has a partner, it is the partner of its partner. */
  ghost predicate SymmetricPartners(s: Store) {
    forall b, c :: Stored(s, b) && Linked(s, b) == Some(c) ==> Linked(s, c) == Some(b)
  }

  /**
   A block that a stored block links to either links back to it, or links to nothing stored and is linked to by
   no other stored block.
   */
  ghost predicate LinksPairUp(s: Store) {
    forall b, c :: Stored(s, b) && Stored(s, c) && Link(b) == Own(c) ==>
      if Link(c) in s.blocks then Link(c) == Own(b)
      else forall d :: Stored(s, d) && Link(d) == Own(c) ==> d == b
  }

  /** What adds with distinct own keys establish. */
  ghost predicate WellLinked(s: Store) {
    && (forall k :: k in s.blocks ==> Own(s.blocks[k]) == k)
    && (forall k :: k in s.linked ==> Link(s.linked[k]) == k && Stored(s, s.linked[k]))
    && (forall b :: Stored(s, b) ==> Link(b) in s.linked)
  }

  ghost predicate DistinctAdds(ops: seq<Op>) {
    && (forall k :: 0 <= k < |ops| ==> ops[k].Add?)
    && forall i, j :: 0 <= i < j < |ops| ==> Own(ops[i].block) != Own(ops[j].block)
  }

  lemma {:induction false} AddsWellLinked(ops: seq<Op>)
    requires DistinctAdds(ops)
    ensures WellLinked(Run(ops))
    ensures forall k :: k in Run(ops).blocks ==> exists i :: 0 <= i < |ops| && Own(ops[i].block) == k
  {
    if ops != [] {
      var init := ops[..|ops| - 1];
      AddsWellLinked(init);
      var s, r, b := Run(init), Run(ops), ops[|ops| - 1].block;
      forall i | 0 <= i < |init| ensures Own(init[i].block) != Own(b) {
        assert Own(ops[i].block) != Own(ops[|ops| - 1].block);
      }
      AddWellLinked(s, b);
      forall k | k in r.blocks ensures exists i :: 0 <= i < |ops| && Own(ops[i].block) == k {
        if k == Own(b) {
          assert Own(ops[|ops| - 1].block) == k;
        } else {
          var i :| 0 <= i < |init| && Own(init[i].block) == k;
          assert Own(ops[i].block) == k;
        }
      }
    }
  }

  lemma AddWellLinked(s: Store, b: Block)
    requires WellLinked(s) && Own(b) !in s.blocks
    ensures WellLinked(Added(s, b))
  {
    var r := Added(s, b);
    forall c | Stored(r, c) ensures Link(c) in r.linked {
      assert c == b || Stored(s, c);
    }
  }

  /** In a well-linked store, being linked is symmetric if and only if the links pair up. */
  lemma PartnersIff(s: Store)
    requires WellLinked(s)
    ensures SymmetricPartners(s) <==> LinksPairUp(s)
  {
    if LinksPairUp(s) {
      forall b, c | Stored(s, b) && Linked(s, b) == Some(c) ensures Linked(s, c) == Some(b) {
        PairedBack(s, b, c);
      }
    }
    if SymmetricPartners(s) {
      forall b, c | Stored(s, b) && Stored(s, c) && Link(b) == Own(c)
        ensures if Link(c) in s.blocks then Link(c) == Own(b)
                else forall d :: Stored(s, d) && Link(d) == Own(c) ==> d == b
      {
        assert Linked(s, b) == Some(c);
        assert Linked(s, c) == Some(b);
        forall d | Stored(s, d) && Link(d) == Own(c) ensures d == b {
          assert Linked(s, d) == Some(c);
          assert Linked(s, c) == Some(d);
        }
      }
    }
  }

  lemma PairedBack(s: Store, b: Block, c: Block)
    requires WellLinked(s) && LinksPairUp(s) && Stored(s, b) && Linked(s, b) == Some(c)
    ensures Linked(s, c) == Some(b)
  {
    if Link(b) in s.blocks {
      assert Stored(s, c) && Link(b) == Own(c);
      if Link(c) !in s.blocks {
        var d := s.linked[Own(c)];
        assert Stored(s, d) && Link(d) == Own(c);
      }
    }
  }

  /** The same over every store built by adds with distinct own keys. */
  lemma PartnersAfterAdds(ops: seq<Op>)
    requires DistinctAdds(ops)
    ensures SymmetricPartners(Run(ops)) <==> LinksPairUp(Run(ops))
  {
    AddsWellLinked(ops);
    PartnersIff(Run(ops));
  }

  /**
   The usual chain: proposals link to number 0, which no block has, every other block agrees to a proposal, and
   no proposal has two agreements.
   */
  lemma ProposalsAndAgreements(ops: seq<Op>)
    requires DistinctAdds(ops)
    requires forall k :: 0 <= k < |ops| ==> ops[k].block.number != 0
    requires forall b, c :: Stored(Run(ops), b) && Stored(Run(ops), c) && Link(b) == Own(c) ==> c.linkNumber == 0
    requires forall b, d ::
               Stored(Run(ops), b) && Stored(Run(ops), d) && b.linkNumber != 0 && Link(b) == Link(d) ==> b == d
    ensures SymmetricPartners(Run(ops))
  {
    AddsWellLinked(ops);
    var s := Run(ops);
    forall k | k in s.blocks ensures k.number != 0 {
      var i :| 0 <= i < |ops| && Own(ops[i].block) == k;
      assert ops[i].block.number != 0;
    }
    forall b, c | Stored(s, b) && Stored(s, c) && Link(b) == Own(c)
      ensures Link(c) !in s.blocks && forall d :: Stored(s, d) && Link(d) == Own(c) ==> d == b
    {
      assert Own(c) in s.blocks;
    }
    PartnersIff(s);
  }

  // ---------------------------------------------------------------------------------------------
  // The class
  // ---------------------------------------------------------------------------------------------

  class TrustchainMemoryDatabase {
    var blockCache: map<Key, Block>
    var linkedBlockCache: map<Key, Block>
    var latestBlocks: map<int, Block>

    constructor ()
      ensures View() == EMPTY && Valid()
    {
      blockCache, linkedBlockCache, latestBlocks := map[], map[], map[];
    }

    ghost function View(): Store
      reads this
    {
      Store(blockCache, linkedBlockCache, latestBlocks)
    }

    ghost predicate Valid()
      reads this
    {
      Bounded(View())
    }

    method AddBlock(block: Block)
      requires Valid()
      modifies this
      ensures Valid() && View() == Added(old(View()), block)
    {
      AddBounded(View(), block);
      blockCache := blockCache[Own(block) := block];
      linkedBlockCache := linkedBlockCache[Link(block) := block];
      if block.publicKey !in latestBlocks {
        latestBlocks := latestBlocks[block.publicKey := block];
      } else if latestBlocks[block.publicKey].number < block.number {
        latestBlocks := latestBlocks[block.publicKey := block];
      }
    }

    method RemoveBlock(block: Block)
      requires Valid()
      modifies this
      ensures Valid() && View() == Removed(old(View()), block)
    {
      RemoveBounded(View(), block);
      blockCache := blockCache - {Own(block)};
      linkedBlockCache := linkedBlockCache - {Link(block)};
    }

    /** A number comes back unless the latest number is negative; it is the least positive one not cached. */
    method GetLowestSequenceNumberUnknown(publicKey: int) returns (r: Option<int>)
      requires Valid()
      ensures r.None? <==> publicKey in latestBlocks && latestBlocks[publicKey].number < 0
      ensures r.Some? ==> LeastUnknown(View(), publicKey, r.value)
    {
      if publicKey !in latestBlocks {
        return Some(1);
      }
      var latest := latestBlocks[publicKey].number;
      var ind := 1;
      while ind < latest + 2
        invariant ind >= 1
        invariant forall m :: 1 <= m < ind ==> Key(publicKey, m) in blockCache
        invariant ind <= latest + 2 || latest < 0
        decreases latest + 2 - ind
      {
        if Key(publicKey, ind) !in blockCache {
          return Some(ind);
        }
        ind := ind + 1;
      }
      assert latest >= 0 ==> Key(publicKey, latest + 1) in blockCache;
      r := None;
    }

    method GetLinked(block: Block) returns (r: Option<Block>)
      ensures r == Linked(View(), block)
    {
      if Link(block) in blockCache {
        return Some(blockCache[Link(block)]);
      }
      if Own(block) in linkedBlockCache {
        return Some(linkedBlockCache[Own(block)]);
      }
      r := None;
    }
  }
}
