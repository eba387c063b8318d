/**
 Round-robin assignment of peer ids over the hosts of the connected subscribers
 (gumby/sync.py, the second half of set_connection_made).

 Connections are numbered by the order in which they were made (their slot).  The loop visits the
 hosts in sorted order, over and over, and gives the next number to the oldest connection of the
 visited host that has none yet; a visit to an exhausted host still uses up a number.
 */
module IdAssignment {
  import Counting

  /** The distinct hosts in ascending order. */
  function SortedHosts(hosts: seq<int>): (sorted: seq<int>)
    ensures forall p, q :: 0 <= p < q < |sorted| ==> sorted[p] < sorted[q]
    ensures forall h :: h in sorted <==> h in hosts
  {
    if hosts == [] then
      []
    else
      var n := |hosts| - 1;
      assert hosts == hosts[..n] + [hosts[n]];
      InsertHost(SortedHosts(hosts[..n]), hosts[n])
  }

  function InsertHost(sorted: seq<int>, host: int): (r: seq<int>)
    requires forall p, q :: 0 <= p < q < |sorted| ==> sorted[p] < sorted[q]
    ensures forall p, q :: 0 <= p < q < |r| ==> r[p] < r[q]
    ensures forall h :: h in r <==> h in sorted || h == host
  {
    if sorted == [] then
      [host]
    else if host == sorted[0] then
      sorted
    else if host < sorted[0] then
      [host] + sorted
    else
      assert sorted == [sorted[0]] + sorted[1..];
      var rest := InsertHost(sorted[1..], host);
      assert forall p :: 0 <= p < |rest| ==> rest[p] in rest;
      [sorted[0]] + rest
  }

  /** Where a host stands in the sorted list. */
  function IndexOf(sorted: seq<int>, host: int): (j: nat)
    requires host in sorted
    ensures j < |sorted| && sorted[j] == host
  {
    if sorted[0] == host then 0 else 1 + IndexOf(sorted[1..], host)
  }

  lemma {:induction false} IndexOfNth(sorted: seq<int>, j: nat)
    requires j < |sorted|
    requires forall p, q :: 0 <= p < q < |sorted| ==> sorted[p] < sorted[q]
    ensures IndexOf(sorted, sorted[j]) == j
  {
    if j > 0 {
      IndexOfNth(sorted[1..], j - 1);
    }
  }

  /** The slots below `m` whose connection comes from `host`, oldest first. */
  function SlotsTo(hosts: seq<int>, host: int, m: nat): (slots: seq<nat>)
    requires m <= |hosts|
  {
    if m == 0 then
      []
    else if hosts[m - 1] == host then
      SlotsTo(hosts, host, m - 1) + [m - 1]
    else
      SlotsTo(hosts, host, m - 1)
  }

  function SlotsOf(hosts: seq<int>, host: int): seq<nat> {
    SlotsTo(hosts, host, |hosts|)
  }

  /** How many older connections come from the same host as slot `i`. */
  function Position(hosts: seq<int>, i: nat): nat
    requires i < |hosts|
  {
    |SlotsTo(hosts, hosts[i], i)|
  }

  /** The number of the visit at which the loop pops slot `i`. */
  function VisitOf(hosts: seq<int>, i: nat): (visit: nat)
    requires i < |hosts|
  {
    var sorted := SortedHosts(hosts);
    Position(hosts, i) * |sorted| + IndexOf(sorted, hosts[i]) + 1
  }

  /** The ids after the loop: slots that the loop never reaches keep the id they had. */
  function AssignedIds(hosts: seq<int>, initial: seq<int>): (ids: seq<int>)
    requires |initial| == |hosts|
    ensures |ids| == |hosts|
  {
    seq(|hosts|, i requires 0 <= i < |hosts| => if VisitOf(hosts, i) <= |hosts| then VisitOf(hosts, i) else initial[i])
  }

  predicate ReachedByLoop(hosts: seq<int>, i: nat)
    requires i < |hosts|
  {
    VisitOf(hosts, i) <= |hosts|
  }

  /** How many of the numbers 1..n fall on host `j` of `k` when they are dealt round-robin. */
  function Share(n: nat, k: nat, j: nat): nat
    requires j < k
  {
    if n <= j then 0 else (n - j - 1) / k + 1
  }

  /** Every host has exactly the share of a round-robin over the sorted hosts. */
  predicate Balanced(hosts: seq<int>) {
    var sorted := SortedHosts(hosts);
    forall j :: 0 <= j < |sorted| ==> |SlotsOf(hosts, sorted[j])| == Share(|hosts|, |sorted|, j)
  }

  // ---------------------------------------------------------------------------------------------
  // Slots of a host
  // ---------------------------------------------------------------------------------------------

  lemma {:induction false} SlotsNth(hosts: seq<int>, host: int, m: nat, i: nat)
    requires i < m <= |hosts| && hosts[i] == host
    ensures |SlotsTo(hosts, host, i)| < |SlotsTo(hosts, host, m)|
    ensures SlotsTo(hosts, host, m)[|SlotsTo(hosts, host, i)|] == i
  {
    if i < m - 1 {
      SlotsNth(hosts, host, m - 1, i);
    }
  }

  lemma {:induction false} SlotsMember(hosts: seq<int>, host: int, m: nat, p: nat)
    requires m <= |hosts| && p < |SlotsTo(hosts, host, m)|
    ensures var i := SlotsTo(hosts, host, m)[p];
            i < m && hosts[i] == host && |SlotsTo(hosts, host, i)| == p
  {
    if p < |SlotsTo(hosts, host, m - 1)| {
      SlotsMember(hosts, host, m - 1, p);
    }
  }

  // ---------------------------------------------------------------------------------------------
  // Numbering visits: (round, host index) is recovered from the visit number
  // ---------------------------------------------------------------------------------------------

  lemma NextMultiple(k: nat, a: int, b: int)
    requires a < b
    ensures a * k + k <= b * k
  {
    assert (a + 1) * k <= b * k;
  }

  lemma RoundUnique(k: nat, r: int, j: nat, r': int, j': nat)
    requires j < k && j' < k && r * k + j == r' * k + j'
    ensures r == r' && j == j'
  {
    if r < r' {
      NextMultiple(k, r, r');
    } else if r' < r {
      NextMultiple(k, r', r);
    }
  }

  /** The slot popped at visit r*k + j + 1 is the r-th connection of host j, and no other slot. */
  lemma PoppedAt(hosts: seq<int>, r: nat, j: nat, i: nat)
    requires i < |hosts| && j < |SortedHosts(hosts)|
    ensures VisitOf(hosts, i) == r * |SortedHosts(hosts)| + j + 1
        <==> r < |SlotsOf(hosts, SortedHosts(hosts)[j])| && SlotsOf(hosts, SortedHosts(hosts)[j])[r] == i
  {
    var sorted := SortedHosts(hosts);
    assert hosts[i] in sorted;
    if VisitOf(hosts, i) == r * |sorted| + j + 1 {
      RoundUnique(|sorted|, Position(hosts, i), IndexOf(sorted, hosts[i]), r, j);
      SlotsNth(hosts, hosts[i], |hosts|, i);
    }
    var slots := SlotsOf(hosts, sorted[j]);
    if r < |slots| && slots[r] == i {
      SlotsMember(hosts, sorted[j], |hosts|, r);
      IndexOfNth(sorted, j);
    }
  }

  /** Whatever the hosts are, no two connections are popped at the same visit, and visits count from 1. */
  lemma VisitsDistinct(hosts: seq<int>, a: nat, b: nat)
    requires a < |hosts| && b < |hosts|
    ensures VisitOf(hosts, a) >= 1
    ensures a != b ==> VisitOf(hosts, a) != VisitOf(hosts, b)
  {
    var sorted := SortedHosts(hosts);
    assert hosts[a] in sorted;
    var j := IndexOf(sorted, hosts[a]);
    PoppedAt(hosts, Position(hosts, a), j, a);
    if VisitOf(hosts, a) == VisitOf(hosts, b) {
      PoppedAt(hosts, Position(hosts, a), j, b);
    }
  }

  /** For arbitrary hosts: the ids handed out by the loop are distinct numbers in 1..n. */
  lemma LoopIdsDistinct(hosts: seq<int>, initial: seq<int>, a: nat, b: nat)
    requires |initial| == |hosts| && a < |hosts| && b < |hosts| && a != b
    requires ReachedByLoop(hosts, a) && ReachedByLoop(hosts, b)
    ensures var ids := AssignedIds(hosts, initial);
            1 <= ids[a] <= |hosts| && 1 <= ids[b] <= |hosts| && ids[a] != ids[b]
  {
    VisitsDistinct(hosts, a, b);
    VisitsDistinct(hosts, b, a);
  }

  // ---------------------------------------------------------------------------------------------
  // Balanced hosts
  // ---------------------------------------------------------------------------------------------

  /** The r-th connection of host j gets a number within n exactly when r is below the share of j. */
  lemma WithinShare(n: nat, k: nat, j: nat, r: nat)
    requires j < k
    ensures r * k + j + 1 <= n <==> r < Share(n, k, j)
  {
    assert r * k >= 0;
    if j < n {
      var q := (n - j - 1) / k;
      assert n - j - 1 == q * k + (n - j - 1) % k;
      if r < q {
        NextMultiple(k, r, q);
      } else if q < r {
        NextMultiple(k, q, r);
      }
    }
  }

  /** Distinct numbers in 1..n, one per slot of n slots, use every number. */
  lemma EveryNumberUsed(ids: seq<int>, v: int)
    requires forall i :: 0 <= i < |ids| ==> 1 <= ids[i] <= |ids|
    requires Counting.Distinct(ids)
    requires 1 <= v <= |ids|
    ensures v in ids
  {
    var shifted := seq(|ids|, i requires 0 <= i < |ids| => ids[i] - 1);
    Counting.CoversAll(shifted, |ids|);
    assert v - 1 in shifted;
  }

  /** When the loop reaches every connection, the ids are a bijection onto 1..n. */
  lemma ReachedMeansBijection(hosts: seq<int>, initial: seq<int>)
    requires |initial| == |hosts|
    requires forall i :: 0 <= i < |hosts| ==> ReachedByLoop(hosts, i)
    ensures var ids := AssignedIds(hosts, initial);
            && Counting.Distinct(ids)
            && (forall v :: 1 <= v <= |ids| <==> v in ids)
  {
    var ids := AssignedIds(hosts, initial);
    forall a, b | 0 <= a < b < |ids| ensures ids[a] != ids[b] {
      assert ReachedByLoop(hosts, a) && ReachedByLoop(hosts, b);
      VisitsDistinct(hosts, a, b);
    }
    forall i | 0 <= i < |ids| ensures 1 <= ids[i] <= |ids| {
      assert ReachedByLoop(hosts, i);
      VisitsDistinct(hosts, i, i);
    }
    forall v | 1 <= v <= |ids| ensures v in ids {
      EveryNumberUsed(ids, v);
    }
  }

  /** The loop reaches every connection if and only if the hosts are balanced. */
  lemma BalancedIffAllReached(hosts: seq<int>)
    ensures Balanced(hosts) <==> forall i :: 0 <= i < |hosts| ==> ReachedByLoop(hosts, i)
  {
    if Balanced(hosts) {
      forall i | 0 <= i < |hosts| ensures ReachedByLoop(hosts, i) {
        BalancedReaches(hosts, i);
      }
    }
    if forall i :: 0 <= i < |hosts| ==> ReachedByLoop(hosts, i) {
      var sorted := SortedHosts(hosts);
      forall j | 0 <= j < |sorted|
        ensures |SlotsOf(hosts, sorted[j])| == Share(|hosts|, |sorted|, j)
      {
        ReachedFillsShare(hosts, j);
      }
    }
  }

  lemma BalancedReaches(hosts: seq<int>, i: nat)
    requires Balanced(hosts) && i < |hosts|
    ensures ReachedByLoop(hosts, i)
  {
    var sorted := SortedHosts(hosts);
    assert hosts[i] in sorted;
    var j := IndexOf(sorted, hosts[i]);
    assert |SlotsOf(hosts, sorted[j])| == Share(|hosts|, |sorted|, j);
    SlotsNth(hosts, hosts[i], |hosts|, i);
    WithinShare(|hosts|, |sorted|, j, Position(hosts, i));
  }

  lemma ReachedFillsShare(hosts: seq<int>, j: nat)
    requires forall i :: 0 <= i < |hosts| ==> ReachedByLoop(hosts, i)
    requires j < |SortedHosts(hosts)|
    ensures |SlotsOf(hosts, SortedHosts(hosts)[j])| == Share(|hosts|, |SortedHosts(hosts)|, j)
  {
    var sorted := SortedHosts(hosts);
    var slots := SlotsOf(hosts, sorted[j]);
    var share := Share(|hosts|, |sorted|, j);
    if share < |slots| {
      // the connection just past the share would get a number above n
      var i := slots[share];
      SlotsMember(hosts, sorted[j], |hosts|, share);
      assert ReachedByLoop(hosts, i);
      PoppedAt(hosts, share, j, i);
      WithinShare(|hosts|, |sorted|, j, share);
    } else {
      // were the share not used up, the number of the first empty visit to host j would be nobody's
      WithinShare(|hosts|, |sorted|, j, |slots|);
      if |slots| * |sorted| + j + 1 <= |hosts| {
        VisitIsUsed(hosts, |slots|, j);
      }
    }
  }

  /** When every connection is reached, every visit numbered at most n pops a connection. */
  lemma VisitIsUsed(hosts: seq<int>, r: nat, j: nat)
    requires forall i :: 0 <= i < |hosts| ==> ReachedByLoop(hosts, i)
    requires j < |SortedHosts(hosts)|
    requires r * |SortedHosts(hosts)| + j + 1 <= |hosts|
    ensures r < |SlotsOf(hosts, SortedHosts(hosts)[j])|
  {
    var v := r * |SortedHosts(hosts)| + j + 1;
    var initial := seq(|hosts|, i => 0);
    ReachedMeansBijection(hosts, initial);
    var ids := AssignedIds(hosts, initial);
    assert r * |SortedHosts(hosts)| >= 0;
    assert v in ids;
    var i :| 0 <= i < |ids| && ids[i] == v;
    assert ReachedByLoop(hosts, i);
    PoppedAt(hosts, r, j, i);
  }

  /** Balanced hosts: ids are a bijection onto 1..n, and host j holds exactly the ids congruent to j+1 modulo k. */
  lemma BalancedAssignment(hosts: seq<int>, initial: seq<int>)
    requires |initial| == |hosts| && Balanced(hosts)
    ensures var ids := AssignedIds(hosts, initial);
            && Counting.Distinct(ids)
            && (forall v :: 1 <= v <= |ids| <==> v in ids)
    ensures forall i :: 0 <= i < |hosts| ==>
              var k := |SortedHosts(hosts)|;
              forall j :: 0 <= j < k ==>
                (hosts[i] == SortedHosts(hosts)[j] <==> (AssignedIds(hosts, initial)[i] - (j + 1)) % k == 0)
  {
    BalancedIffAllReached(hosts);
    ReachedMeansBijection(hosts, initial);
    var sorted := SortedHosts(hosts);
    var k := |sorted|;
    forall i, j | 0 <= i < |hosts| && 0 <= j < k
      ensures hosts[i] == sorted[j] <==> (AssignedIds(hosts, initial)[i] - (j + 1)) % k == 0
    {
      assert ReachedByLoop(hosts, i);
      assert hosts[i] in sorted;
      var h := IndexOf(sorted, hosts[i]);
      ResidueOfHost(k, Position(hosts, i), h, j);
      if hosts[i] == sorted[j] {
        IndexOfNth(sorted, j);
      }
    }
  }

  lemma ResidueOfHost(k: nat, r: nat, h: nat, j: nat)
    requires h < k && j < k
    ensures (r * k + h + 1 - (j + 1)) % k == 0 <==> h == j
  {
    var x := r * k + h - j;
    var q := x / k;
    assert x == q * k + x % k;
    if h >= j {
      RoundUnique(k, q, x % k, r, h - j);
    } else if x % k == 0 {
      RoundUnique(k, q, j - h, r, 0);
    }
  }

  // ---------------------------------------------------------------------------------------------
  // Arbitrary hosts: exactly when the ids are distinct
  // ---------------------------------------------------------------------------------------------

  /** The ids connections are created with: their place in the order of connecting, from 1. */
  function CreatedIds(n: nat): (ids: seq<int>)
    ensures |ids| == n
  {
    seq(n, i => i + 1)
  }

  /** The visit with the number that slot `i` was created with finds its host exhausted. */
  predicate CreatedIdUnused(hosts: seq<int>, i: nat)
    requires i < |hosts|
  {
    var sorted := SortedHosts(hosts);
    assert hosts[i] in sorted;
    |SlotsOf(hosts, sorted[i % |sorted|])| <= i / |sorted|
  }

  lemma Divided(i: nat, k: nat)
    requires k > 0
    ensures i / k * k + i % k == i && i % k < k
  {
  }

  /** A visit finds its host exhausted if and only if nobody is popped at it. */
  lemma NobodyVisited(hosts: seq<int>, r: nat, j: nat, v: int)
    requires j < |SortedHosts(hosts)| && v == r * |SortedHosts(hosts)| + j + 1
    ensures |SlotsOf(hosts, SortedHosts(hosts)[j])| <= r
       <==> forall a :: 0 <= a < |hosts| ==> VisitOf(hosts, a) != v
  {
    var slots := SlotsOf(hosts, SortedHosts(hosts)[j]);
    forall a | 0 <= a < |hosts| ensures VisitOf(hosts, a) == v <==> r < |slots| && slots[r] == a {
      PoppedAt(hosts, r, j, a);
    }
    if r < |slots| {
      SlotsMember(hosts, SortedHosts(hosts)[j], |hosts|, r);
      assert VisitOf(hosts, slots[r]) == v;
    }
  }

  lemma UnusedIff(hosts: seq<int>, i: nat)
    requires i < |hosts|
    ensures CreatedIdUnused(hosts, i) <==> forall a :: 0 <= a < |hosts| ==> VisitOf(hosts, a) != i + 1
  {
    var sorted := SortedHosts(hosts);
    assert hosts[i] in sorted;
    Divided(i, |sorted|);
    NobodyVisited(hosts, i / |sorted|, i % |sorted|, i + 1);
    hide VisitOf;
    hide SortedHosts;
    hide SlotsOf;
  }

  /**
   For arbitrary hosts the ids are distinct, and then a bijection onto 1..n, if and only if no connection that the
   loop never reaches keeps a number that the loop gives away.
   */
  lemma DistinctIff(hosts: seq<int>)
    ensures var ids := AssignedIds(hosts, CreatedIds(|hosts|));
            && (forall i :: 0 <= i < |ids| ==> 1 <= ids[i] <= |ids|)
            && (Counting.Distinct(ids)
                <==> forall i :: 0 <= i < |hosts| && !ReachedByLoop(hosts, i) ==> CreatedIdUnused(hosts, i))
            && (Counting.Distinct(ids) ==> forall v :: 1 <= v <= |ids| <==> v in ids)
  {
    var ids := AssignedIds(hosts, CreatedIds(|hosts|));
    forall i | 0 <= i < |hosts|
      ensures 1 <= ids[i] <= |hosts|
      ensures CreatedIdUnused(hosts, i) <==> forall a :: 0 <= a < |hosts| ==> VisitOf(hosts, a) != i + 1
    {
      VisitsDistinct(hosts, i, i);
      UnusedIff(hosts, i);
    }
    forall a, b | 0 <= a < |hosts| && 0 <= b < |hosts| && a != b
      ensures VisitOf(hosts, a) != VisitOf(hosts, b)
    {
      VisitsDistinct(hosts, a, b);
    }
    hide CreatedIdUnused;
    hide VisitOf;
    if Counting.Distinct(ids) {
      forall i | 0 <= i < |hosts| && !ReachedByLoop(hosts, i) ensures CreatedIdUnused(hosts, i) {
        forall a | 0 <= a < |hosts| ensures VisitOf(hosts, a) != i + 1 {
          assert ids[a] == ids[i] ==> a == i;
        }
      }
      forall v | 1 <= v <= |ids| ensures v in ids {
        EveryNumberUsed(ids, v);
      }
    }
    if forall i :: 0 <= i < |hosts| && !ReachedByLoop(hosts, i) ==> CreatedIdUnused(hosts, i) {
      forall a, b | 0 <= a < b < |hosts| ensures ids[a] != ids[b] {
        assert !ReachedByLoop(hosts, a) ==> CreatedIdUnused(hosts, a);
        assert !ReachedByLoop(hosts, b) ==> CreatedIdUnused(hosts, b);
      }
    }
  }

  /**
   Two connections from host 2 followed by one from host 1: the loop stops before the second connection of host 2,
   which keeps the initial id 2 that the loop gave away.
   */
  lemma UnbalancedCollision()
    ensures AssignedIds([2, 2, 1], [1, 2, 3]) == [2, 2, 1]
  {
    var hosts := [2, 2, 1];
    SortedHostsOf221();
    assert IndexOf([1, 2], 1) == 0 && IndexOf([1, 2], 2) == 1;
    assert SlotsTo(hosts, 2, 0) == [];
    assert SlotsTo(hosts, 2, 1) == [0];
    assert SlotsTo(hosts, 1, 2) == SlotsTo(hosts, 1, 1) == SlotsTo(hosts, 1, 0) == [];
    assert VisitOf(hosts, 0) == 2 && VisitOf(hosts, 1) == 4 && VisitOf(hosts, 2) == 1;
  }

  lemma SortedHostsOf221()
    ensures SortedHosts([2, 2, 1]) == [1, 2]
  {
    assert [2, 2, 1][..2] == [2, 2] && [2, 2][..1] == [2] && [2][..0] == [];
    assert SortedHosts([2]) == [2];
    assert SortedHosts([2, 2]) == [2];
  }

  /** The same hosts in another order: still unbalanced, yet every id is different. */
  lemma UnbalancedWithoutCollision()
    ensures !Balanced([2, 1, 2]) && AssignedIds([2, 1, 2], [1, 2, 3]) == [2, 1, 3]
  {
    var hosts := [2, 1, 2];
    SortedHostsOf212();
    assert IndexOf([1, 2], 1) == 0 && IndexOf([1, 2], 2) == 1;
    assert SlotsTo(hosts, 2, 0) == [];
    assert SlotsTo(hosts, 2, 1) == [0];
    assert SlotsTo(hosts, 2, 2) == [0];
    assert SlotsTo(hosts, 1, 1) == SlotsTo(hosts, 1, 0) == [];
    assert VisitOf(hosts, 0) == 2 && VisitOf(hosts, 1) == 1 && VisitOf(hosts, 2) == 4;
    BalancedIffAllReached(hosts);
    hide SortedHosts;
    hide Balanced;
    hide SlotsTo;
    assert !ReachedByLoop(hosts, 2);
  }

  lemma SortedHostsOf212()
    ensures SortedHosts([2, 1, 2]) == [1, 2]
  {
    assert [2, 1, 2][..2] == [2, 1] && [2, 1][..1] == [2] && [2][..0] == [];
    assert SortedHosts([2]) == [2];
    assert SortedHosts([2, 1]) == [1, 2];
    assert [1, 2][1..] == [2] && InsertHost([2], 2) == [2];
    assert InsertHost([1, 2], 2) == [1, 2];
  }
}
