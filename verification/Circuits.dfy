/**
 Rebuilding the paths of circuits from relay statistics (experiments/tunnels/parse_tunnel_statistics.py,
 build_circuits_graph).
 */
module Circuits {
  import opened Counting

  /** One line of relays.txt: the relaying peer, the circuit ids on its two sides, and the port it relays to. */
  datatype Relay = Relay(peer: int, inId: string, outId: string, port: int, bytes: int)

  datatype Circuit = Circuit(peer: int, id: string, kind: string, firstPort: int, bytes: int)

  datatype Edge = Edge(from: int, to: int, num: nat, kind: string, bytes: int)

  /** Where the reconstruction stands: a peer and the circuit id on its incoming side. */
  datatype Hop = Hop(peer: int, id: string)

  const RENDEZVOUS: string := "RENDEZVOUS"

  /** get_peer_id_from_address, given the port. */
  function PeerOfPort(port: int): int {
    port - 12000
  }

  function Source(r: Relay): Hop {
    Hop(r.peer, r.inId)
  }

  function Target(r: Relay): Hop {
    Hop(PeerOfPort(r.port), r.outId)
  }

  /** get_relay_circuit_totals. */
  function Totals(relays: seq<Relay>, id: string): int {
    if relays == [] then
      0
    else
      Totals(relays[..|relays| - 1], id) + if relays[|relays| - 1].inId == id then relays[|relays| - 1].bytes else 0
  }

  method GetRelayCircuitTotals(relays: seq<Relay>, circuitId: string) returns (total: int)
    ensures total == Totals(relays, circuitId)
  {
    total := 0;
    for k := 0 to |relays|
      invariant total == Totals(relays[..k], circuitId)
    {
      assert relays[..k + 1][..k] == relays[..k];
      if relays[k].inId == circuitId {
        total := total + relays[k].bytes;
      }
    }
    assert relays[..|relays|] == relays;
  }

  // ---------------------------------------------------------------------------------------------
  // What the loops do
  // ---------------------------------------------------------------------------------------------

  /** The hops that one pass over the relays goes through, in the order of the relays. */
  function PassHops(relays: seq<Relay>, a: Hop): (hops: seq<Hop>)
    ensures hops != [] && hops[0] == a
  {
    if relays == [] then
      [a]
    else
      var hops, last := PassHops(relays[..|relays| - 1], a), relays[|relays| - 1];
      if Source(last) == hops[|hops| - 1] then hops + [Target(last)] else hops
  }

  function Last(hops: seq<Hop>): Hop
    requires hops != []
  {
    hops[|hops| - 1]
  }

  /** The outer loop ends after at most `n` passes that find something. */
  predicate StopsWithin(relays: seq<Relay>, a: Hop, n: nat)
    decreases n
  {
    var hops := PassHops(relays, a);
    |hops| == 1 || (n > 0 && StopsWithin(relays, Last(hops), n - 1))
  }

  /** The loops end. */
  ghost predicate Ends(relays: seq<Relay>, a: Hop) {
    exists n: nat :: StopsWithin(relays, a, n)
  }

  /** The hops of all passes. */
  function LoopWalk(relays: seq<Relay>, a: Hop, ghost n: nat): (walk: seq<Hop>)
    requires StopsWithin(relays, a, n)
    ensures walk != [] && walk[0] == a
    decreases n
  {
    var hops := PassHops(relays, a);
    if |hops| == 1 then [a] else hops[..|hops| - 1] + LoopWalk(relays, Last(hops), n - 1)
  }

  /** The edges along a walk after its first hop. */
  function WalkEdges(relays: seq<Relay>, walk: seq<Hop>, num: nat, kind: string): seq<Edge> {
    if |walk| <= 1 then
      []
    else
      [Edge(walk[0].peer, walk[1].peer, num, kind, Totals(relays, walk[0].id))]
      + WalkEdges(relays, walk[1..], num, kind)
  }

  /** Walks that meet in a hop. */
  lemma {:induction false} WalkEdgesConcat(relays: seq<Relay>, a: seq<Hop>, b: seq<Hop>, num: nat, kind: string)
    requires a != [] && b != [] && Last(a) == b[0]
    ensures WalkEdges(relays, a[..|a| - 1] + b, num, kind)
         == WalkEdges(relays, a, num, kind) + WalkEdges(relays, b, num, kind)
  {
    var whole := a[..|a| - 1] + b;
    if |a| == 1 {
      assert whole == b;
    } else {
      var rest := a[1..][..|a| - 2] + b;
      WalkEdgesConcat(relays, a[1..], b, num, kind);
      assert whole[1..] == rest && |whole| > 1 && whole[0] == a[0] && whole[1] == a[1];
      assert a[1..][..|a[1..]| - 1] == a[1..][..|a| - 2];
      hide Totals;
      var edge := Edge(a[0].peer, a[1].peer, num, kind, Totals(relays, a[0].id));
      assert WalkEdges(relays, whole, num, kind) == [edge] + WalkEdges(relays, rest, num, kind);
      assert WalkEdges(relays, a, num, kind) == [edge] + WalkEdges(relays, a[1..], num, kind);
    }
  }

  lemma WalkEdgesStep(relays: seq<Relay>, a: seq<Hop>, to: Hop, num: nat, kind: string)
    requires a != []
    ensures WalkEdges(relays, a + [to], num, kind)
         == WalkEdges(relays, a, num, kind) + [Edge(Last(a).peer, to.peer, num, kind, Totals(relays, Last(a).id))]
  {
    WalkEdgesConcat(relays, a, [Last(a), to], num, kind);
    assert a[..|a| - 1] + [Last(a), to] == a + [to];
    assert [Last(a), to][1..] == [to];
  }

  function FirstHop(c: Circuit): Hop {
    Hop(PeerOfPort(c.firstPort), c.id)
  }

  /** The edge to the first hop, then those of the hops from there. */
  function CircuitEdges(relays: seq<Relay>, c: Circuit, num: nat): seq<Edge>
    requires StopsWithin(relays, FirstHop(c), |relays|)
  {
    [Edge(c.peer, FirstHop(c).peer, num, c.kind, c.bytes)]
    + WalkEdges(relays, LoopWalk(relays, FirstHop(c), |relays|), num, c.kind)
  }

  /** For every circuit that the loops are entered for there are at most as many passes as relays: see EndsIffWithin. */
  predicate AllStop(relays: seq<Relay>, circuits: seq<Circuit>) {
    forall k :: 0 <= k < |circuits| && circuits[k].kind != RENDEZVOUS ==>
      StopsWithin(relays, FirstHop(circuits[k]), |relays|)
  }

  /** How many circuits are numbered. */
  function Numbered(circuits: seq<Circuit>): nat {
    if circuits == [] then
      0
    else
      Numbered(circuits[..|circuits| - 1]) + if circuits[|circuits| - 1].kind == RENDEZVOUS then 0 else 1
  }

  /** The edges of all circuits in turn, numbered from 1, rendezvous circuits left out. */
  function Graph(relays: seq<Relay>, circuits: seq<Circuit>): seq<Edge>
    requires AllStop(relays, circuits)
  {
    if circuits == [] then
      []
    else
      var init, c := circuits[..|circuits| - 1], circuits[|circuits| - 1];
      Graph(relays, init)
      + if c.kind == RENDEZVOUS then [] else CircuitEdges(relays, c, Numbered(init) + 1)
  }

  /** Without circuits there are no edges. */
  lemma NoCircuits(relays: seq<Relay>)
    ensures AllStop(relays, []) && Graph(relays, []) == []
  {
  }

  lemma {:induction false} StopParts(relays: seq<Relay>, circuits: seq<Circuit>, c: Circuit)
    requires AllStop(relays, circuits + [c])
    ensures AllStop(relays, circuits)
    ensures c.kind != RENDEZVOUS ==> StopsWithin(relays, FirstHop(c), |relays|)
  {
    hide StopsWithin;
    var all := circuits + [c];
    forall k | 0 <= k < |circuits| && circuits[k].kind != RENDEZVOUS
      ensures StopsWithin(relays, FirstHop(circuits[k]), |relays|)
    {
      assert all[k] == circuits[k];
    }
    assert all[|circuits|] == c;
  }

  lemma {:induction false} GraphLast(relays: seq<Relay>, all: seq<Circuit>, circuits: seq<Circuit>, c: Circuit)
    requires all != [] && all[..|all| - 1] == circuits && all[|all| - 1] == c
    requires AllStop(relays, all) && AllStop(relays, circuits)
    requires c.kind != RENDEZVOUS ==> StopsWithin(relays, FirstHop(c), |relays|)
    ensures Graph(relays, all)
         == Graph(relays, circuits)
            + if c.kind == RENDEZVOUS then [] else CircuitEdges(relays, c, Numbered(circuits) + 1)
  {
    hide AllStop;
    hide StopsWithin;
    hide CircuitEdges;
    hide Numbered;
    hide FirstHop;
  }

  lemma {:induction false} GraphStep(relays: seq<Relay>, circuits: seq<Circuit>, c: Circuit)
    requires AllStop(relays, circuits + [c])
    ensures AllStop(relays, circuits)
    ensures c.kind != RENDEZVOUS ==> StopsWithin(relays, FirstHop(c), |relays|)
    ensures Graph(relays, circuits + [c])
         == Graph(relays, circuits)
            + if c.kind == RENDEZVOUS then [] else CircuitEdges(relays, c, Numbered(circuits) + 1)
  {
    hide *;
    StopParts(relays, circuits, c);
    GraphLast(relays, circuits + [c], circuits, c);
  }

  /** build_circuits_graph up to writing the file, whenever it gets there. */
  method BuildCircuitsGraph(circuits: seq<Circuit>, relays: seq<Relay>) returns (edges: seq<Edge>)
    requires AllStop(relays, circuits)
    ensures edges == Graph(relays, circuits)
  {
    hide Graph;
    hide StopsWithin;
    edges := [];
    var curCircuitNum := 1;
    NoCircuits(relays);
    for k := 0 to |circuits|
      invariant AllStop(relays, circuits[..k])
      invariant curCircuitNum == Numbered(circuits[..k]) + 1
      invariant edges == Graph(relays, circuits[..k])
    {
      var c := circuits[k];
      assert circuits[..k + 1] == circuits[..k] + [c];
      assert circuits[..k + 1][..k] == circuits[..k];
      GraphStep(relays, circuits[..k], c);
      if c.kind != RENDEZVOUS {
        edges := edges + [Edge(c.peer, PeerOfPort(c.firstPort), curCircuitNum, c.kind, c.bytes)];
        var more := FollowRelays(relays, Hop(PeerOfPort(c.firstPort), c.id), curCircuitNum, c.kind);
        edges := edges + more;
        curCircuitNum := curCircuitNum + 1;
      } else {
        assert edges + [] == edges;
      }
    }
    assert circuits[..|circuits|] == circuits;
  }

  /** The two inner loops: passes over the relays, in whatever order, until one finds nothing. */
  method FollowRelays(relays: seq<Relay>, start: Hop, curCircuitNum: nat, kind: string) returns (edges: seq<Edge>)
    requires StopsWithin(relays, start, |relays|)
    ensures edges == WalkEdges(relays, LoopWalk(relays, start, |relays|), curCircuitNum, kind)
  {
    edges := [];
    var curCircuitId, curCircuitPeer := start.id, start.peer;
    ghost var left: nat := |relays|;
    ghost var all := WalkEdges(relays, LoopWalk(relays, start, left), curCircuitNum, kind);
    var found := true;
    while found
      invariant StopsWithin(relays, Hop(curCircuitPeer, curCircuitId), left)
      invariant edges
        + WalkEdges(relays, LoopWalk(relays, Hop(curCircuitPeer, curCircuitId), left), curCircuitNum, kind) == all
      invariant !found ==> |PassHops(relays, Hop(curCircuitPeer, curCircuitId))| == 1
      decreases left, found
    {
      ghost var here := Hop(curCircuitPeer, curCircuitId);
      PassEdges(relays, here, left, curCircuitNum, kind);
      var more: seq<Edge>;
      more, curCircuitId, curCircuitPeer, found := OnePass(relays, curCircuitId, curCircuitPeer, curCircuitNum, kind);
      ghost var before := edges;
      edges := edges + more;
      if found {
        left := left - 1;
        ghost var rest :=
          WalkEdges(relays, LoopWalk(relays, Last(PassHops(relays, here)), left), curCircuitNum, kind);
        assert before + (more + rest) == edges + rest;
      }
    }
    assert edges + [] == edges;
  }

  /** The body of the outer loop: one pass. */
  method OnePass(relays: seq<Relay>, circuitId: string, circuitPeer: int, curCircuitNum: nat, kind: string)
    returns (edges: seq<Edge>, curCircuitId: string, curCircuitPeer: int, found: bool)
    ensures var hops := PassHops(relays, Hop(circuitPeer, circuitId));
            && edges == WalkEdges(relays, hops, curCircuitNum, kind)
            && Hop(curCircuitPeer, curCircuitId) == Last(hops)
            && (found <==> |hops| > 1)
  {
    edges := [];
    curCircuitId, curCircuitPeer := circuitId, circuitPeer;
    found := false;
    ghost var here := Hop(circuitPeer, circuitId);
    for k := 0 to |relays|
      invariant edges == WalkEdges(relays, PassHops(relays[..k], here), curCircuitNum, kind)
      invariant Hop(curCircuitPeer, curCircuitId) == Last(PassHops(relays[..k], here))
      invariant found <==> |PassHops(relays[..k], here)| > 1
    {
      assert relays[..k + 1][..k] == relays[..k] && relays[..k + 1][k] == relays[k];
      var relay := relays[k];
      if relay.inId == curCircuitId && relay.peer == curCircuitPeer {
        WalkEdgesStep(relays, PassHops(relays[..k], here), Target(relay), curCircuitNum, kind);
        var relayDestPeer := PeerOfPort(relay.port);
        var total := GetRelayCircuitTotals(relays, curCircuitId);
        edges := edges + [Edge(curCircuitPeer, relayDestPeer, curCircuitNum, kind, total)];
        curCircuitId := relay.outId;
        curCircuitPeer := relayDestPeer;
        found := true;
      }
    }
    assert relays[..|relays|] == relays;
  }

  /** A pass that finds something takes its edges off those to come. */
  lemma PassEdges(relays: seq<Relay>, a: Hop, n: nat, num: nat, kind: string)
    requires StopsWithin(relays, a, n)
    ensures var hops := PassHops(relays, a);
            if |hops| == 1 then
              WalkEdges(relays, hops, num, kind) == [] && WalkEdges(relays, LoopWalk(relays, a, n), num, kind) == []
            else
              && n > 0 && StopsWithin(relays, Last(hops), n - 1)
              && WalkEdges(relays, LoopWalk(relays, a, n), num, kind)
                 == WalkEdges(relays, hops, num, kind)
                    + WalkEdges(relays, LoopWalk(relays, Last(hops), n - 1), num, kind)
  {
    var hops := PassHops(relays, a);
    if |hops| > 1 {
      WalkEdgesConcat(relays, hops, LoopWalk(relays, Last(hops), n - 1), num, kind);
    }
  }

  // ---------------------------------------------------------------------------------------------
  // Walks
  // ---------------------------------------------------------------------------------------------

  /** Relays of the same peer with the same incoming id lead to the same place. */
  predicate UniqueKeys(relays: seq<Relay>) {
    forall r, s :: r in relays && s in relays && Source(r) == Source(s) ==> Target(r) == Target(s)
  }

  predicate Leads(relays: seq<Relay>, a: Hop, b: Hop) {
    exists r :: r in relays && Source(r) == a && Target(r) == b
  }

  predicate DeadEnd(relays: seq<Relay>, a: Hop) {
    forall r :: r in relays ==> Source(r) != a
  }

  /** A sequence of hops from `start`, each led to from the one before, that cannot be continued. */
  predicate MaximalWalk(relays: seq<Relay>, start: Hop, walk: seq<Hop>) {
    && walk != []
    && walk[0] == start
    && Connected(relays, walk)
    && DeadEnd(relays, Last(walk))
  }

  predicate Connected(relays: seq<Relay>, walk: seq<Hop>) {
    forall k :: 0 <= k < |walk| - 1 ==> Leads(relays, walk[k], walk[k + 1])
  }

  lemma {:induction false} PassConnected(part: seq<Relay>, relays: seq<Relay>, a: Hop)
    requires forall r :: r in part ==> r in relays
    ensures Connected(relays, PassHops(part, a))
  {
    if part != [] {
      var init, last := part[..|part| - 1], part[|part| - 1];
      PassConnected(init, relays, a);
      var hops := PassHops(init, a);
      assert Source(last) == Last(hops) ==> Leads(relays, Last(hops), Target(last));
    }
  }

  /** A pass finds nothing exactly at a dead end. */
  lemma {:induction false} FindsNothingIff(relays: seq<Relay>, a: Hop)
    ensures |PassHops(relays, a)| == 1 <==> DeadEnd(relays, a)
  {
    if relays != [] {
      var init, last := relays[..|relays| - 1], relays[|relays| - 1];
      FindsNothingIff(init, a);
      assert relays == init + [last];
    }
  }

  /** The hops of the passes make up a maximal walk from the first hop. */
  lemma {:induction false} LoopWalkIsMaximal(relays: seq<Relay>, a: Hop, n: nat)
    requires StopsWithin(relays, a, n)
    ensures MaximalWalk(relays, a, LoopWalk(relays, a, n))
    decreases n
  {
    FindsNothingIff(relays, a);
    var hops := PassHops(relays, a);
    if |hops| > 1 {
      PassConnected(relays, relays, a);
      LoopWalkIsMaximal(relays, Last(hops), n - 1);
      JoinedConnected(relays, hops, LoopWalk(relays, Last(hops), n - 1));
    }
  }

  lemma JoinedConnected(relays: seq<Relay>, a: seq<Hop>, b: seq<Hop>)
    requires a != [] && b != [] && Last(a) == b[0] && Connected(relays, a) && Connected(relays, b)
    ensures Connected(relays, a[..|a| - 1] + b)
  {
    var walk := a[..|a| - 1] + b;
    forall k | 0 <= k < |walk| - 1 ensures Leads(relays, walk[k], walk[k + 1]) {
      if k < |a| - 1 {
        assert Leads(relays, a[k], a[k + 1]);
      } else {
        assert Leads(relays, b[k - |a| + 1], b[k - |a| + 2]);
      }
    }
  }

  /** With unique keys there is at most one maximal walk from a hop. */
  lemma {:induction false} MaximalWalkUnique(relays: seq<Relay>, a: Hop, walk: seq<Hop>, walk': seq<Hop>)
    requires UniqueKeys(relays) && MaximalWalk(relays, a, walk) && MaximalWalk(relays, a, walk')
    ensures walk == walk'
    decreases |walk|
  {
    assert |walk| > 1 ==> Leads(relays, walk[0], walk[1]);
    assert |walk'| > 1 ==> Leads(relays, walk'[0], walk'[1]);
    if |walk| > 1 && |walk'| > 1 {
      TailMaximal(relays, a, walk);
      TailMaximal(relays, a, walk');
      MaximalWalkUnique(relays, walk[1], walk[1..], walk'[1..]);
      assert walk == [a] + walk[1..] && walk' == [a] + walk'[1..];
    }
  }

  lemma TailMaximal(relays: seq<Relay>, a: Hop, walk: seq<Hop>)
    requires MaximalWalk(relays, a, walk) && |walk| > 1
    ensures MaximalWalk(relays, walk[1], walk[1..])
  {
    var rest := walk[1..];
    forall k | 0 <= k < |rest| - 1 ensures Leads(relays, rest[k], rest[k + 1]) {
      assert Leads(relays, walk[k + 1], walk[k + 2]);
    }
  }

  // ---------------------------------------------------------------------------------------------
  // When the loops end
  // ---------------------------------------------------------------------------------------------

  /** With unique keys a pass stays on the maximal walk. */
  lemma {:induction false} PassOnWalk(part: seq<Relay>, relays: seq<Relay>, a: Hop, walk: seq<Hop>)
    requires forall r :: r in part ==> r in relays
    requires UniqueKeys(relays) && MaximalWalk(relays, a, walk)
    ensures PassHops(part, a) <= walk
  {
    if part != [] {
      var init, last := part[..|part| - 1], part[|part| - 1];
      PassOnWalk(init, relays, a, walk);
      var hops := PassHops(init, a);
      if Source(last) == Last(hops) {
        assert last in relays;
        var k := |hops| - 1;
        assert walk[k] == Source(last);
        if k < |walk| - 1 {
          assert Leads(relays, walk[k], walk[k + 1]);
        }
      }
    }
  }

  lemma {:induction false} MaximalStops(relays: seq<Relay>, a: Hop, walk: seq<Hop>)
    requires UniqueKeys(relays) && MaximalWalk(relays, a, walk)
    ensures StopsWithin(relays, a, |walk| - 1)
    decreases |walk|
  {
    PassOnWalk(relays, relays, a, walk);
    var hops := PassHops(relays, a);
    if |hops| > 1 {
      SuffixMaximal(relays, a, walk, |hops| - 1);
      MaximalStops(relays, Last(hops), walk[|hops| - 1..]);
      LongerStops(relays, Last(hops), |walk| - |hops|, |walk| - 2);
    }
  }

  lemma {:induction false} SuffixMaximal(relays: seq<Relay>, a: Hop, walk: seq<Hop>, k: nat)
    requires MaximalWalk(relays, a, walk) && k < |walk|
    ensures MaximalWalk(relays, walk[k], walk[k..])
    decreases k
  {
    if k > 0 {
      TailMaximal(relays, a, walk);
      SuffixMaximal(relays, walk[1], walk[1..], k - 1);
      assert walk[1..][k - 1..] == walk[k..];
    }
  }

  lemma {:induction false} LongerStops(relays: seq<Relay>, a: Hop, n: nat, m: nat)
    requires StopsWithin(relays, a, n) && n <= m
    ensures StopsWithin(relays, a, m)
    decreases n
  {
    var hops := PassHops(relays, a);
    if |hops| > 1 {
      LongerStops(relays, Last(hops), n - 1, m - 1);
    }
  }

  /** The first hops of the first `n` passes. */
  function Starts(relays: seq<Relay>, a: Hop, n: nat): (starts: seq<Hop>)
    ensures |starts| == n
    decreases n
  {
    if n == 0 then [] else [a] + Starts(relays, Last(PassHops(relays, a)), n - 1)
  }

  /** Exactly `n` passes find something. */
  predicate StopsAfter(relays: seq<Relay>, a: Hop, n: nat) {
    StopsWithin(relays, a, n) && (n > 0 ==> !StopsWithin(relays, a, n - 1))
  }

  lemma {:induction false} LeastPasses(relays: seq<Relay>, a: Hop, n: nat) returns (m: nat)
    requires StopsWithin(relays, a, n)
    ensures StopsAfter(relays, a, m)
    decreases n
  {
    if n > 0 && StopsWithin(relays, a, n - 1) {
      m := LeastPasses(relays, a, n - 1);
    } else {
      m := n;
    }
  }

  /** Each of the passes that find something starts at a relay, with one pass less to come. */
  lemma {:induction false} StartsAfter(relays: seq<Relay>, a: Hop, n: nat, k: nat)
    requires StopsAfter(relays, a, n) && k < n
    ensures StopsAfter(relays, Starts(relays, a, n)[k], n - k)
    ensures !DeadEnd(relays, Starts(relays, a, n)[k])
    decreases k
  {
    if k == 0 {
      FindsNothingIff(relays, a);
    } else {
      StartsAfter(relays, Last(PassHops(relays, a)), n - 1, k - 1);
    }
  }

  /** A repeated start would never end. */
  lemma {:induction false} StartsDistinct(relays: seq<Relay>, a: Hop, n: nat)
    requires StopsAfter(relays, a, n)
    ensures Distinct(Starts(relays, a, n))
  {
    hide Starts;
    hide StopsWithin;
    hide DeadEnd;
    var starts := Starts(relays, a, n);
    forall j, k | 0 <= j < k < n ensures starts[j] != starts[k] {
      StartsAfter(relays, a, n, j);
      StartsAfter(relays, a, n, k);
      if starts[j] == starts[k] {
        LongerStops(relays, starts[k], n - k, n - j - 1);
      }
    }
  }

  /** Distinct hops that relays start at are no more than the relays. */
  lemma {:induction false} SourcesBound(relays: seq<Relay>, hops: seq<Hop>)
    requires Distinct(hops) && forall h :: h in hops ==> !DeadEnd(relays, h)
    ensures |hops| <= |relays|
  {
    var sources := seq(|relays|, k requires 0 <= k < |relays| => Source(relays[k]));
    forall h | h in hops ensures h in sources {
      var r :| r in relays && Source(r) == h;
      var k :| 0 <= k < |relays| && relays[k] == r;
      assert sources[k] == h;
    }
    DistinctSize(hops);
    SubsetSize((set h | h in hops), (set h | h in sources));
    MembersAtMost(sources);
  }

  /** The loops end if and only if no more passes find something than there are relays. */
  lemma EndsIffWithin(relays: seq<Relay>, a: Hop)
    ensures Ends(relays, a) <==> StopsWithin(relays, a, |relays|)
  {
    if Ends(relays, a) {
      var n: nat :| StopsWithin(relays, a, n);
      var m := LeastPasses(relays, a, n);
      StartsDistinct(relays, a, m);
      var starts := Starts(relays, a, m);
      forall h | h in starts ensures !DeadEnd(relays, h) {
        var k :| 0 <= k < m && starts[k] == h;
        StartsAfter(relays, a, m, k);
      }
      SourcesBound(relays, starts);
      LongerStops(relays, a, m, |relays|);
    }
  }

  /** With unique keys a maximal walk meets no hop twice, so it is no longer than the relays can make it. */
  lemma {:induction false} MaximalWalkBound(relays: seq<Relay>, a: Hop, walk: seq<Hop>)
    requires UniqueKeys(relays) && MaximalWalk(relays, a, walk)
    ensures Distinct(walk) && |walk| <= |relays| + 1
  {
    forall j, k | 0 <= j < k < |walk| ensures walk[j] != walk[k] {
      SuffixMaximal(relays, a, walk, j);
      SuffixMaximal(relays, a, walk, k);
      if walk[j] == walk[k] {
        MaximalWalkUnique(relays, walk[j], walk[j..], walk[k..]);
      }
    }
    var hops := walk[..|walk| - 1];
    forall h | h in hops ensures !DeadEnd(relays, h) {
      var k :| 0 <= k < |hops| && hops[k] == h;
      assert Leads(relays, walk[k], walk[k + 1]);
    }
    SourcesBound(relays, hops);
  }

  /** With unique keys: if and only if some maximal walk with at most one hop more than relays starts at the hop. */
  lemma LoopEndsIff(relays: seq<Relay>, a: Hop)
    requires UniqueKeys(relays)
    ensures Ends(relays, a) <==> exists walk :: |walk| <= |relays| + 1 && MaximalWalk(relays, a, walk)
  {
    if Ends(relays, a) {
      var n: nat :| StopsWithin(relays, a, n);
      LoopWalkIsMaximal(relays, a, n);
      MaximalWalkBound(relays, a, LoopWalk(relays, a, n));
    }
    if exists walk :: |walk| <= |relays| + 1 && MaximalWalk(relays, a, walk) {
      var walk :| |walk| <= |relays| + 1 && MaximalWalk(relays, a, walk);
      MaximalStops(relays, a, walk);
    }
  }

  /** A relay that leads back to where it starts keeps the loops from ending. */
  lemma SelfRelayNeverEnds(relays: seq<Relay>, r: Relay)
    requires UniqueKeys(relays) && r in relays && Source(r) == Target(r)
    ensures !Ends(relays, Source(r))
  {
    if Ends(relays, Source(r)) {
      var a := Source(r);
      var n: nat :| StopsWithin(relays, a, n);
      var walk := LoopWalk(relays, a, n);
      LoopWalkIsMaximal(relays, a, n);
      StaysAt(relays, r, walk, |walk| - 1);
    }
  }

  lemma {:induction false} StaysAt(relays: seq<Relay>, r: Relay, walk: seq<Hop>, k: nat)
    requires UniqueKeys(relays) && r in relays && Source(r) == Target(r)
    requires k < |walk| && walk[0] == Source(r) && Connected(relays, walk)
    ensures walk[k] == Source(r)
  {
    if k > 0 {
      StaysAt(relays, r, walk, k - 1);
      assert Leads(relays, walk[k - 1], walk[k - 1 + 1]);
    }
  }

  /** If every relay leads to a hop of lower rank, there are no more passes than the rank of the first hop. */
  lemma {:induction false} RankEnds(relays: seq<Relay>, rank: Hop -> nat, a: Hop)
    requires forall r :: r in relays ==> rank(Target(r)) < rank(Source(r))
    ensures StopsWithin(relays, a, rank(a))
    decreases rank(a)
  {
    PassFalls(relays, rank, a);
    var hops := PassHops(relays, a);
    if |hops| > 1 {
      RankEnds(relays, rank, Last(hops));
      LongerStops(relays, Last(hops), rank(Last(hops)), rank(a) - 1);
    }
  }

  lemma {:induction false} PassFalls(relays: seq<Relay>, rank: Hop -> nat, a: Hop)
    requires forall r :: r in relays ==> rank(Target(r)) < rank(Source(r))
    ensures rank(Last(PassHops(relays, a))) + |PassHops(relays, a)| - 1 <= rank(a)
  {
    if relays != [] {
      PassFalls(relays[..|relays| - 1], rank, a);
      assert relays[|relays| - 1] in relays;
    }
  }

  // ---------------------------------------------------------------------------------------------
  // Contiguity and independence of the order of the relays
  // ---------------------------------------------------------------------------------------------

  /** The edges of a circuit form an unbroken line of peers, under one number. */
  lemma {:induction false} EdgesContiguous(relays: seq<Relay>, walk: seq<Hop>, num: nat, kind: string)
    requires walk != []
    ensures var edges := WalkEdges(relays, walk, num, kind);
            && |edges| == |walk| - 1
            && (forall k :: 0 <= k < |edges| ==>
                  && edges[k].from == walk[k].peer && edges[k].to == walk[k + 1].peer
                  && edges[k].num == num && edges[k].bytes == Totals(relays, walk[k].id))
  {
    if |walk| > 1 {
      EdgesContiguous(relays, walk[1..], num, kind);
    }
  }

  /** The sum does not depend on the order. */
  lemma {:induction false} TotalsPermuted(a: seq<Relay>, b: seq<Relay>, id: string)
    requires multiset(a) == multiset(b)
    ensures Totals(a, id) == Totals(b, id)
    decreases |a|
  {
    if a == [] {
      assert |multiset(b)| == 0;
    } else {
      var k := LastSomewhere(a, b);
      var rest := b[..k] + b[k + 1..];
      TotalsPermuted(a[..|a| - 1], rest, id);
      TotalsWithout(b, k, id);
    }
  }

  lemma {:induction false} TotalsWithout(b: seq<Relay>, k: nat, id: string)
    requires k < |b|
    ensures Totals(b, id) == Totals(b[..k] + b[k + 1..], id) + if b[k].inId == id then b[k].bytes else 0
  {
    var rest := b[..k] + b[k + 1..];
    if k == |b| - 1 {
      assert rest == b[..k];
    } else {
      var init := b[..|b| - 1];
      TotalsWithout(init, k, id);
      assert rest[..|rest| - 1] == init[..k] + init[k + 1..];
    }
  }

  lemma {:induction false} WalkEdgesPermuted(a: seq<Relay>, b: seq<Relay>, walk: seq<Hop>, num: nat, kind: string)
    requires multiset(a) == multiset(b)
    ensures WalkEdges(a, walk, num, kind) == WalkEdges(b, walk, num, kind)
  {
    if |walk| > 1 {
      TotalsPermuted(a, b, walk[0].id);
      WalkEdgesPermuted(a, b, walk[1..], num, kind);
    }
  }

  lemma UniqueKeysPermuted(a: seq<Relay>, b: seq<Relay>)
    requires UniqueKeys(a) && multiset(a) == multiset(b)
    ensures UniqueKeys(b)
  {
    SameMembers(a, b);
  }

  lemma MaximalPermuted(a: seq<Relay>, b: seq<Relay>, from: Hop, walk: seq<Hop>)
    requires multiset(a) == multiset(b) && MaximalWalk(a, from, walk)
    ensures MaximalWalk(b, from, walk)
  {
    SameMembers(a, b);
    forall k | 0 <= k < |walk| - 1 ensures Leads(b, walk[k], walk[k + 1]) {
      assert Leads(a, walk[k], walk[k + 1]);
    }
  }

  /** The loops end over any order of the relays, and go the same way. */
  lemma LoopWalkPermuted(a: seq<Relay>, b: seq<Relay>, from: Hop)
    requires UniqueKeys(a) && multiset(a) == multiset(b) && StopsWithin(a, from, |a|)
    ensures StopsWithin(b, from, |b|) && LoopWalk(b, from, |b|) == LoopWalk(a, from, |a|)
  {
    UniqueKeysPermuted(a, b);
    LoopWalkIsMaximal(a, from, |a|);
    var walk := LoopWalk(a, from, |a|);
    MaximalPermuted(a, b, from, walk);
    MaximalStops(b, from, walk);
    EndsIffWithin(b, from);
    LoopWalkIsMaximal(b, from, |b|);
    MaximalWalkUnique(b, from, LoopWalk(b, from, |b|), walk);
  }

  lemma CircuitEdgesPermuted(a: seq<Relay>, b: seq<Relay>, c: Circuit, num: nat)
    requires UniqueKeys(a) && multiset(a) == multiset(b) && StopsWithin(a, FirstHop(c), |a|)
    ensures StopsWithin(b, FirstHop(c), |b|) && CircuitEdges(a, c, num) == CircuitEdges(b, c, num)
  {
    LoopWalkPermuted(a, b, FirstHop(c));
    WalkEdgesPermuted(a, b, LoopWalk(a, FirstHop(c), |a|), num, c.kind);
    hide WalkEdges;
    hide LoopWalk;
  }

  /** With unique keys the graph does not depend on the order in which the relays are listed. */
  lemma {:induction false} GraphPermuted(a: seq<Relay>, b: seq<Relay>, circuits: seq<Circuit>)
    requires UniqueKeys(a) && multiset(a) == multiset(b) && AllStop(a, circuits)
    ensures AllStop(b, circuits) && Graph(a, circuits) == Graph(b, circuits)
  {
    hide StopsWithin;
    hide CircuitEdges;
    hide UniqueKeys;
    forall k | 0 <= k < |circuits| && circuits[k].kind != RENDEZVOUS
      ensures StopsWithin(b, FirstHop(circuits[k]), |b|)
    {
      LoopWalkPermuted(a, b, FirstHop(circuits[k]));
    }
    if circuits != [] {
      var init, c := circuits[..|circuits| - 1], circuits[|circuits| - 1];
      GraphPermuted(a, b, init);
      if c.kind != RENDEZVOUS {
        CircuitEdgesPermuted(a, b, c, Numbered(init) + 1);
      }
    }
  }

  // ---------------------------------------------------------------------------------------------
  // What the graph is
  // ---------------------------------------------------------------------------------------------

  /** The sum over relays in two parts, and that over one relay: they make up every other. */
  lemma {:induction false} TotalsSum(a: seq<Relay>, b: seq<Relay>, r: Relay, id: string)
    ensures Totals(a + b, id) == Totals(a, id) + Totals(b, id)
    ensures Totals([r], id) == (if r.inId == id then r.bytes else 0) && Totals([], id) == 0
  {
    assert [r][..0] == [];
    if b == [] {
      assert a + b == a;
    } else {
      assert (a + b)[..|a + b| - 1] == a + b[..|b| - 1];
      TotalsSum(a, b[..|b| - 1], r, id);
    }
  }

  /** Edges that follow each other. */
  predicate Chained(edges: seq<Edge>) {
    forall m :: 0 <= m < |edges| - 1 ==> edges[m].to == edges[m + 1].from
  }

  /** The edge from one hop of a walk to the next. */
  predicate EdgeOfWalk(relays: seq<Relay>, walk: seq<Hop>, k: nat, e: Edge, num: nat, kind: string)
    requires k + 1 < |walk|
  {
    e == Edge(walk[k].peer, walk[k + 1].peer, num, kind, Totals(relays, walk[k].id))
  }

  lemma {:induction false} WalkEdgeAt(relays: seq<Relay>, walk: seq<Hop>, num: nat, kind: string)
    requires walk != []
    ensures |WalkEdges(relays, walk, num, kind)| == |walk| - 1
    ensures forall k :: 0 <= k < |walk| - 1 ==>
              EdgeOfWalk(relays, walk, k, WalkEdges(relays, walk, num, kind)[k], num, kind)
  {
    if |walk| > 1 {
      WalkEdgeAt(relays, walk[1..], num, kind);
      forall k | 0 < k < |walk| - 1
        ensures EdgeOfWalk(relays, walk, k, WalkEdges(relays, walk, num, kind)[k], num, kind)
      {
        assert EdgeOfWalk(relays, walk[1..], k - 1, WalkEdges(relays, walk[1..], num, kind)[k - 1], num, kind);
      }
    }
  }

  lemma {:induction false} WalkChained(relays: seq<Relay>, walk: seq<Hop>, rest: seq<Edge>, num: nat, kind: string,
                                       first: Edge)
    requires |walk| == |rest| + 1 && first.to == walk[0].peer
    requires forall k :: 0 <= k < |rest| ==> EdgeOfWalk(relays, walk, k, rest[k], num, kind)
    ensures Chained([first] + rest)
  {
    var more := [first] + rest;
    forall m | 0 <= m < |more| - 1 ensures more[m].to == more[m + 1].from {
      assert EdgeOfWalk(relays, walk, m, rest[m], num, kind);
      if m > 0 {
        assert EdgeOfWalk(relays, walk, m - 1, rest[m - 1], num, kind);
      }
    }
  }

  /** The edges of a circuit: that from its peer to its first hop, with its own bytes, and those of a maximal walk. */
  lemma {:induction false} CircuitIs(relays: seq<Relay>, c: Circuit, num: nat) returns (rest: seq<Edge>, walk: seq<Hop>)
    requires StopsWithin(relays, FirstHop(c), |relays|)
    ensures var next := PeerOfPort(c.firstPort);
            var edges := [Edge(c.peer, next, num, c.kind, c.bytes)] + rest;
            && CircuitEdges(relays, c, num) == edges && Chained(edges)
            && MaximalWalk(relays, Hop(next, c.id), walk) && |walk| == |edges|
            && forall k :: 0 <= k < |rest| ==> EdgeOfWalk(relays, walk, k, rest[k], num, c.kind)
  {
    walk := LoopWalk(relays, FirstHop(c), |relays|);
    LoopWalkIsMaximal(relays, FirstHop(c), |relays|);
    hide StopsWithin;
    hide LoopWalk;
    hide MaximalWalk;
    rest := WalkEdges(relays, walk, num, c.kind);
    WalkEdgeAt(relays, walk, num, c.kind);
    hide WalkEdges;
    hide EdgeOfWalk;
    WalkChained(relays, walk, rest, num, c.kind, Edge(c.peer, PeerOfPort(c.firstPort), num, c.kind, c.bytes));
  }

  /**
   What one more circuit adds to the graph: nothing if it is a rendezvous; otherwise an unbroken line of edges, all of
   its kind and under the next number: first that from its peer to its first hop with its own bytes, then those of a
   maximal walk from there.
   */
  lemma {:induction false} CircuitAdds(relays: seq<Relay>, circuits: seq<Circuit>, c: Circuit)
    returns (rest: seq<Edge>, walk: seq<Hop>)
    requires AllStop(relays, circuits + [c])
    ensures AllStop(relays, circuits)
    ensures c.kind == RENDEZVOUS ==> Graph(relays, circuits + [c]) == Graph(relays, circuits)
    ensures c.kind != RENDEZVOUS ==>
              var num, next := Numbered(circuits) + 1, PeerOfPort(c.firstPort);
              var more := [Edge(c.peer, next, num, c.kind, c.bytes)] + rest;
              && Graph(relays, circuits + [c]) == Graph(relays, circuits) + more
              && Chained(more)
              && MaximalWalk(relays, Hop(next, c.id), walk) && |walk| == |more|
              && forall k :: 0 <= k < |rest| ==> EdgeOfWalk(relays, walk, k, rest[k], num, c.kind)
  {
    hide *;
    GraphStep(relays, circuits, c);
    if c.kind == RENDEZVOUS {
      rest, walk := [], [];
      assert Graph(relays, circuits) + [] == Graph(relays, circuits);
    } else {
      rest, walk := CircuitIs(relays, c, Numbered(circuits) + 1);
    }
  }

  /** The numbers count the circuits that are no rendezvous. */
  lemma {:induction false} NumberedCounts(circuits: seq<Circuit>)
    ensures Numbered(circuits) == |set k | 0 <= k < |circuits| && circuits[k].kind != RENDEZVOUS|
  {
    var counted := set k | 0 <= k < |circuits| && circuits[k].kind != RENDEZVOUS;
    if circuits == [] {
      assert counted == {};
    } else {
      var n := |circuits| - 1;
      NumberedCounts(circuits[..n]);
      var before := set k | 0 <= k < |circuits[..n]| && circuits[..n][k].kind != RENDEZVOUS;
      assert counted == before + if circuits[n].kind == RENDEZVOUS then {} else {n};
    }
  }

  // ---------------------------------------------------------------------------------------------
  // Which relays a pass takes
  // ---------------------------------------------------------------------------------------------

  /**
   The relays at places `picks` are those that a pass takes: each is the first one after the relay taken before that
   starts at the hop reached, and after the last one none starts there.
   */
  ghost predicate Taken(relays: seq<Relay>, hops: seq<Hop>, picks: seq<nat>) {
    && |hops| == |picks| + 1
    && (forall m :: 0 <= m < |picks| ==>
          picks[m] < |relays| && Source(relays[picks[m]]) == hops[m] && Target(relays[picks[m]]) == hops[m + 1])
    && (forall m, j :: 0 <= m < |hops| && From(picks, m) <= j < To(relays, picks, m) ==> Source(relays[j]) != hops[m])
    && forall m, n :: 0 <= m < n < |picks| ==> picks[m] < picks[n]
  }

  /** The places that are passed over at hop `m`. */
  function From(picks: seq<nat>, m: nat): nat
    requires m <= |picks|
  {
    if m == 0 then 0 else picks[m - 1] + 1
  }

  function To(relays: seq<Relay>, picks: seq<nat>, m: nat): (to: nat)
    requires m <= |picks| && forall k :: 0 <= k < |picks| ==> picks[k] < |relays|
    ensures to <= |relays|
  {
    if m < |picks| then picks[m] else |relays|
  }

  lemma {:induction false} TakenMore(relays: seq<Relay>, hops: seq<Hop>, picks: seq<nat>, last: Relay)
    requires Taken(relays, hops, picks) && Source(last) == Last(hops)
    ensures Taken(relays + [last], hops + [Target(last)], picks + [|relays|])
  {
    hide Source;
    hide Target;
    var relays', hops', picks' := relays + [last], hops + [Target(last)], picks + [|relays|];
    forall m, j | 0 <= m < |hops'| && From(picks', m) <= j < To(relays', picks', m)
      ensures Source(relays'[j]) != hops'[m]
    {
      assert m < |hops| && From(picks, m) <= j < To(relays, picks, m);
      assert Source(relays[j]) != hops[m];
    }
  }

  lemma {:induction false} NotTaken(relays: seq<Relay>, hops: seq<Hop>, picks: seq<nat>, last: Relay)
    requires Taken(relays, hops, picks) && Source(last) != Last(hops)
    ensures Taken(relays + [last], hops, picks)
  {
    hide Source;
    hide Target;
    var relays' := relays + [last];
    forall m, j | 0 <= m < |hops| && From(picks, m) <= j < To(relays', picks, m)
      ensures Source(relays'[j]) != hops[m]
    {
      if j < |relays| {
        assert From(picks, m) <= j < To(relays, picks, m);
        assert Source(relays[j]) != hops[m];
      }
    }
  }

  lemma {:induction false} PassTakes(relays: seq<Relay>, a: Hop) returns (picks: seq<nat>)
    ensures Taken(relays, PassHops(relays, a), picks)
  {
    if relays == [] {
      picks := [];
    } else {
      var n := |relays| - 1;
      var init, last, hops := relays[..n], relays[n], PassHops(relays[..n], a);
      picks := PassTakes(init, a);
      assert init + [last] == relays;
      hide Taken;
      if Source(last) == Last(hops) {
        TakenMore(init, hops, picks, last);
        picks := picks + [n];
      } else {
        NotTaken(init, hops, picks, last);
      }
    }
  }
}
