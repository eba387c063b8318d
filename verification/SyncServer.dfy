/**
 The server objects of gumby/sync.py with their fields updated in place.  Every method is tied to the function
 of SyncModel that the transition systems of SyncRun and SyncBarrier are built from.
 */
module SyncServer {
  import opened SyncModel
  import IdAssignment

  /** One connection.  `transport` holds the lines written and not yet read by the client. */
  class ServiceProto {
    const factory: ServiceFactory
    const host: int
    ghost const slot: nat
    var id: int
    var ready: bool
    var state: Phase
    var vars: Vars
    var resolved: bool
    var transport: seq<Downlink>
    ghost var offsetAt: real
    ghost var lost: bool

    constructor (factory: ServiceFactory, id: int, host: int, ghost slot: nat)
      ensures this.factory == factory && this.slot == slot && this.host == host
      ensures View() == NewConn(host, id)
    {
      this.factory := factory;
      this.host := host;
      this.slot := slot;
      this.id := id;
      ready := false;
      state := Init;
      vars := map[];
      resolved := false;
      transport := [];
      offsetAt := 0.0;
      lost := false;
    }

    ghost function View(): Conn
      reads this
    {
      Conn(state, id, ready, resolved, vars, offsetAt, host, lost, transport)
    }

    method SendLine(line: Downlink)
      modifies this`transport
      ensures View() == Sent(old(View()), line)
    {
      transport := transport + [line];
    }

    /** connection_made. */
    method ConnectionMade()
      requires factory.Valid() && slot == |factory.connectionsMade|
      requires View() == NewConn(host, slot + 1)
      modifies factory, factory.connectionsMade, this
      ensures factory.Valid()
      ensures factory.connectionsMade == old(factory.connectionsMade) + [this]
      ensures factory.View() == AfterMade(old(factory.View()), host)
    {
      factory.SetConnectionMade(this);
    }

    /** send_and_wait_for_ready; the future is awaited by the coroutine. */
    method SendAndWaitForReady()
      modifies this`resolved, this`transport
      ensures View() == Sent(old(View()).(resolved := false), IdLine(id))
    {
      resolved := false;
      SendLine(IdLine(id));
    }

    /** line_received: a handler that raises leaves the state; state done has no handler. */
    method LineReceived(line: Uplink, now: real, seed: int)
      requires factory.Valid() && factory.Member(this)
      modifies factory, factory.connectionsMade
      ensures factory.Valid() && factory.connectionsMade == old(factory.connectionsMade)
      ensures factory.View() == OnLine(old(factory.View()), slot, line, now, seed)
    {
      assert factory.View().made[slot] == View();
      ByPhase(factory.View(), line, now, seed);
      hide OnLine;
      hide OnInit;
      hide OnVarsReceived;
      hide OnRunning;
      hide Settle;
      hide SetConn;
      hide SlotsExist;
      hide factory.View;
      hide factory.Valid;
      match state {
        case Init =>
          var raised, next := ProtoInit(line, now, seed);
          MoveTo(raised, next);
        case VarsReceived =>
          var next := ProtoVarsReceived(line);
          MoveTo(false, next);
        case Wait =>
          MoveTo(false, Done);
        case Running =>
          var raised := ProtoRunning(line);
          MoveTo(raised, Running);
        case Done =>
          factory.Stop();
      }
    }

    /** The dispatch on the state of this connection. */
    lemma ByPhase(s: Server, line: Uplink, now: real, seed: int)
      requires SlotsExist(s) && slot < |s.made|
      ensures OnLine(s, slot, line, now, seed) ==
              match s.made[slot].phase
              case Init => OnInit(s, slot, line, now, seed)
              case VarsReceived => OnVarsReceived(s, slot, line)
              case Wait => Settle(s, false, Done)
              case Running => OnRunning(s, slot, line)
              case Done => s.(stopped := true)
    {
    }

    /** The server once this connection has moved to its next state, or once its handler raised. */
    ghost function Settle(s: Server, raised: bool, next: Phase): Server
      requires slot < |s.made|
    {
      if raised then s.(failed := true) else SetConn(s, slot, s.made[slot].(phase := next))
    }

    method MoveTo(raised: bool, next: Phase)
      requires factory.Valid() && factory.Member(this)
      modifies factory`failed, this`state
      ensures factory.Valid()
      ensures factory.View() == Settle(old(factory.View()), raised, next)
    {
      if raised {
        factory.failed := true;
        assert factory.MadeView() == old(factory.MadeView());
      } else {
        state := next;
        factory.OneChanged(this);
      }
    }

    /** The effect of the handler, with the move to the next state apart. */
    lemma InitCases(s: Server, line: Uplink, now: real, seed: int)
      requires SlotsExist(s) && slot < |s.made| && s.made[slot].phase == Init
      ensures var c := s.made[slot];
              OnInit(s, slot, line, now, seed) ==
              match line
              case TimeLine(stamp) =>
                Settle(SetConn(s, slot, c.(vars := c.vars[TIME_OFFSET := Num(Zeroed(stamp - now))], offsetAt := now)),
                       false, Init)
              case SetLine(key, value) => Settle(SetConn(s, slot, c.(vars := c.vars[key := Text(value)])), false, Init)
              case ReadyLine =>
                var r := AfterReady(SetConn(s, slot, c.(ready := true)), slot, seed);
                if r.made[slot].resolved then
                  Settle(r, true, VarsReceived)
                else
                  Settle(SetConn(r, slot, r.made[slot].(resolved := true)), false, VarsReceived)
              case BrokenSetup => Settle(s, true, Init)
              case _ => Settle(s, false, Done)
    {
      hide AfterReady;
    }

    method ProtoInit(line: Uplink, now: real, seed: int) returns (raised: bool, next: Phase)
      requires factory.Valid() && factory.Member(this) && state == Init
      modifies factory, factory.connectionsMade
      ensures factory.Valid() && factory.connectionsMade == old(factory.connectionsMade)
      ensures Settle(factory.View(), raised, next) == OnInit(old(factory.View()), slot, line, now, seed)
    {
      raised, next := false, Init;
      assert factory.View().made[slot] == View();
      InitCases(factory.View(), line, now, seed);
      hide OnInit;
      hide AfterReady;
      hide Settle;
      hide SetConn;
      hide factory.View;
      hide SlotsExist;
      match line {
        case TimeLine(stamp) =>
          SetOffset(stamp, now);
          factory.OneChanged(this);
        case SetLine(key, value) =>
          vars := vars[key := Text(value)];
          factory.OneChanged(this);
        case ReadyLine =>
          raised := BecomeReady(seed);
          next := VarsReceived;
        case BrokenSetup =>
          raised := true;
        case _ =>
          next := Done;
      }
    }

    method SetOffset(stamp: real, now: real)
      modifies this`vars, this`offsetAt
      ensures View() == old(View()).(vars := old(vars)[TIME_OFFSET := Num(Zeroed(stamp - now))], offsetAt := now)
      ensures vars[TIME_OFFSET] == Num(if stamp - now <= -0.5 || stamp - now >= 0.5 then stamp - now else 0.0)
    {
      vars := vars[TIME_OFFSET := Num(stamp - now)];
      if -0.5 < vars[TIME_OFFSET].n < 0.5 {
        vars := vars[TIME_OFFSET := Num(0.0)];
      }
      offsetAt := now;
      assert vars == old(vars)[TIME_OFFSET := Num(Zeroed(stamp - now))];
    }

    /** The branch of proto_init for ready: setting the result of a future twice raises. */
    method BecomeReady(seed: int) returns (raised: bool)
      requires factory.Valid() && factory.Member(this) && state == Init
      modifies factory, factory.connectionsMade
      ensures factory.Valid() && factory.connectionsMade == old(factory.connectionsMade)
      ensures var s := old(factory.View());
              var r := AfterReady(SetConn(s, slot, s.made[slot].(ready := true)), slot, seed);
              && raised == r.made[slot].resolved
              && factory.View() == if raised then r else SetConn(r, slot, r.made[slot].(resolved := true))
    {
      hide AfterReady;
      ready := true;
      factory.OneChanged(this);
      factory.SetConnectionReady(this, seed);
      raised := resolved;
      assert factory.View().made[slot] == View();
      label told:
      if !raised {
        resolved := true;
        factory.OneChanged@told(this);
      }
    }

    method ProtoVarsReceived(line: Uplink) returns (next: Phase)
      requires factory.Valid() && factory.Member(this) && state == VarsReceived
      modifies factory
      ensures factory.Valid() && factory.connectionsMade == old(factory.connectionsMade)
      ensures Settle(factory.View(), false, next) == OnVarsReceived(old(factory.View()), slot, line)
    {
      if line == VarsReceivedLine {
        factory.SetConnectionReceived(this);
        next := Wait;
      } else {
        next := Done;
      }
    }

    lemma StaysRunning(s: Server)
      requires slot < |s.made|
      ensures s.made[slot].phase == Running ==> Settle(s, false, Running) == s
      ensures Settle(s, true, Running) == s.(failed := true)
    {
      assert s.made[slot := s.made[slot]] == s.made;
    }

    lemma ForwardStaysRunning(s: Server, to: int, kind: string, body: string)
      requires SlotsExist(s) && slot < |s.made| && s.made[slot].phase == Running
      ensures var r := Forward(s, s.made[slot].id, to, kind, body);
              |r.made| == |s.made| && Settle(r, false, Running) == r
    {
      StaysRunning(Forward(s, s.made[slot].id, to, kind, body));
      hide Settle;
    }

    method ProtoRunning(line: Uplink) returns (raised: bool)
      requires factory.Valid() && factory.Member(this) && state == Running
      modifies factory.connectionsMade
      ensures factory.Valid() && factory.connectionsMade == old(factory.connectionsMade)
      ensures Settle(factory.View(), raised, Running) == OnRunning(old(factory.View()), slot, line)
    {
      raised := false;
      assert factory.View().made[slot] == View();
      StaysRunning(factory.View());
      hide factory.View;
      hide Settle;
      hide Forward;
      match line {
        case MsgLine(to, kind, body) =>
          ForwardStaysRunning(factory.View(), to, kind, body);
          raised := factory.ForwardMessage(id, to, kind, body);
        case BrokenMsg => raised := true;
        case _ =>
      }
    }
  }

  /** The factory.  `push` is where the coroutine push_id_to_subscribers stands. */
  class ServiceFactory {
    const expectedSubscribers: nat
    const startDelay: real
    var connectionsMade: seq<ServiceProto>
    var connectionsReady: seq<ServiceProto>
    var varsReceived: seq<ServiceProto>
    var idToConnection: map<int, ServiceProto>
    var push: Push
    var pendingStarts: nat
    var stopped: bool
    var failed: bool
    ghost var pushes: nat
    ghost var launches: nat
    ghost var startTime: real

    constructor (expectedSubscribers: nat, startDelay: real)
      ensures Valid() && connectionsMade == []
      ensures View() == NewServer(expectedSubscribers, startDelay)
    {
      this.expectedSubscribers := expectedSubscribers;
      this.startDelay := startDelay;
      connectionsMade, connectionsReady, varsReceived := [], [], [];
      idToConnection := map[];
      push := Idle;
      pendingStarts := 0;
      stopped, failed := false, false;
      pushes, launches, startTime := 0, 0, 0.0;
    }

    ghost predicate Member(p: ServiceProto)
      reads this
    {
      p.slot < |connectionsMade| && connectionsMade[p.slot] == p
    }

    ghost predicate Valid()
      reads this
    {
      && (forall i :: 0 <= i < |connectionsMade| ==> connectionsMade[i].slot == i && connectionsMade[i].factory == this)
      && (forall k :: 0 <= k < |connectionsReady| ==> Member(connectionsReady[k]))
      && (forall k :: 0 <= k < |varsReceived| ==> Member(varsReceived[k]))
      && (forall id :: id in idToConnection ==> Member(idToConnection[id]))
    }

    ghost function MadeView(): (made: seq<Conn>)
      reads this, connectionsMade
    {
      seq(|connectionsMade|,
          i requires 0 <= i < |connectionsMade| reads this, connectionsMade => connectionsMade[i].View())
    }

    static ghost function Slots(protos: seq<ServiceProto>): (slots: seq<nat>)
      ensures |slots| == |protos|
    {
      seq(|protos|, k requires 0 <= k < |protos| => protos[k].slot)
    }

    static ghost function SlotsById<K>(protos: map<K, ServiceProto>): (slots: map<K, nat>) {
      map id | id in protos :: protos[id].slot
    }

    static lemma SlotsByIdUpdate<K>(protos: map<K, ServiceProto>, id: K, proto: ServiceProto)
      ensures SlotsById(protos[id := proto]) == SlotsById(protos)[id := proto.slot]
    {
    }

    ghost function View(): (s: Server)
      requires Valid()
      reads this, connectionsMade
      ensures SlotsExist(s)
    {
      Server(expectedSubscribers, startDelay, MadeView(), Slots(connectionsReady), Slots(varsReceived), push,
             pendingStarts, SlotsById(idToConnection), pushes, launches, startTime,
             stopped, failed)
    }

    /** The view after an update of one connection. */
    twostate lemma OneChanged(p: ServiceProto)
      requires old(Valid()) && old(Member(p)) && unchanged(this)
      requires forall q :: q in connectionsMade && q != p ==> unchanged(q)
      ensures Valid() && Member(p)
      ensures View() == SetConn(old(View()), p.slot, p.View())
    {
      forall i | 0 <= i < |connectionsMade|
        ensures MadeView()[i] == if i == p.slot then p.View() else old(MadeView())[i]
      {
        assert connectionsMade[i] in connectionsMade;
      }
      assert MadeView() == old(MadeView())[p.slot := p.View()];
    }

    /** A line arrived for which there is no handler. */
    method Stop()
      requires Valid()
      modifies this`stopped
      ensures Valid() && View() == old(View()).(stopped := true)
    {
      stopped := true;
      assert MadeView() == old(MadeView());
    }

    /** set_connection_made. */
    method SetConnectionMade(proto: ServiceProto)
      requires Valid() && proto.slot == |connectionsMade| && proto.factory == this
      requires proto.View() == NewConn(proto.host, proto.slot + 1)
      modifies this, connectionsMade, proto
      ensures Valid() && connectionsMade == old(connectionsMade) + [proto]
      ensures View() == AfterMade(old(View()), proto.host)
    {
      hide View;
      hide Hosts;
      hide Ids;
      hide WithIds;
      hide IdAssignment.AssignedIds;
      ListMade(proto);
      if |connectionsMade| >= expectedSubscribers {
        AssignIds();
        StartPush();
      }
    }

    method ListMade(proto: ServiceProto)
      requires Valid() && proto.slot == |connectionsMade| && proto.factory == this
      modifies this`connectionsMade
      ensures Valid() && connectionsMade == old(connectionsMade) + [proto]
      ensures View() == old(View()).(made := old(View()).made + [proto.View()])
      ensures |connectionsMade| == |View().made| && View().expected == expectedSubscribers
    {
      connectionsMade := connectionsMade + [proto];
      assert MadeView() == old(MadeView()) + [proto.View()];
    }

    method StartPush()
      requires Valid()
      modifies this`push
      ensures Valid() && View() == old(View()).(push := Waiting(0))
    {
      push := Waiting(0);
      assert MadeView() == old(MadeView());
    }

    /** The first half of the id assignment: the slots of each host, oldest first. */
    method GroupByHost() returns (hostDict: map<int, seq<nat>>)
      requires Valid()
      ensures forall h :: h in hostDict <==> h in Hosts(MadeView())
      ensures forall h :: h in hostDict ==> hostDict[h] == IdAssignment.SlotsOf(Hosts(MadeView()), h)
    {
      ghost var hosts := Hosts(MadeView());
      hostDict := map[];
      for m := 0 to |connectionsMade|
        invariant forall h :: h in hostDict <==> h in hosts[..m]
        invariant forall h :: h in hostDict ==> hostDict[h] == IdAssignment.SlotsTo(hosts, h, m)
        invariant forall h :: h !in hostDict ==> IdAssignment.SlotsTo(hosts, h, m) == []
      {
        var connectionHost := connectionsMade[m].host;
        if connectionHost !in hostDict {
          hostDict := hostDict[connectionHost := []];
        }
        hostDict := hostDict[connectionHost := hostDict[connectionHost] + [m]];
        assert hosts[..m + 1] == hosts[..m] + [connectionHost];
      }
      assert hosts[..|hosts|] == hosts;
    }

    /** The id assignment: visit the hosts in turn, popping the oldest connection of each. */
    method AssignIds()
      requires Valid() && connectionsMade != []
      modifies connectionsMade
      ensures Valid()
      ensures var s := old(View());
              View() == s.(made := WithIds(s.made, IdAssignment.AssignedIds(Hosts(s.made), Ids(s.made))))
    {
      var hosts, sortedHosts, hostDict := SortHosts();
      ghost var made := MadeView();
      var curPeerIndex, curHostIndex := 1, 0;
      ghost var round := 0;
      FirstVisit(hosts, made);
      hide Valid;
      hide MadeView;
      hide Queued;
      hide Numbered;
      hide Hosts;
      hide Ids;
      hide WithIds;
      hide IdAssignment.SortedHosts;
      hide IdAssignment.AssignedIds;
      FirstTurn(|sortedHosts|);
      hide NumberedAs;
      hide NextIndex;
      while curPeerIndex <= |connectionsMade|
        invariant 1 <= curPeerIndex <= |connectionsMade| + 1
        invariant 0 <= curHostIndex < |sortedHosts|
        invariant NumberedAs(|sortedHosts|, round, curHostIndex, curPeerIndex)
        invariant Valid() && Queued(hostDict, hosts, round, curHostIndex)
        invariant MadeView() == Numbered(hosts, made, curPeerIndex)
        decreases |connectionsMade| + 1 - curPeerIndex
      {
        hostDict := VisitHost(hostDict, sortedHosts[curHostIndex], curPeerIndex, hosts, made, round, curHostIndex);
        NextHost(|sortedHosts|, round, curHostIndex, curPeerIndex);
        round := if curHostIndex + 1 == |sortedHosts| then round + 1 else round;
        curHostIndex := NextIndex(curHostIndex, |sortedHosts|);
        curPeerIndex := curPeerIndex + 1;
      }
      AllNumbered(hosts, made);
    }

    /** The hosts in order, with the slots of each. */
    method SortHosts() returns (hosts: seq<int>, sortedHosts: seq<int>, hostDict: map<int, seq<nat>>)
      requires Valid() && connectionsMade != []
      ensures hosts == Hosts(MadeView()) && |hosts| == |connectionsMade|
      ensures sortedHosts == IdAssignment.SortedHosts(hosts) && sortedHosts != []
      ensures Queued(hostDict, hosts, 0, 0)
    {
      hostDict := GroupByHost();
      var protos := connectionsMade;
      hosts := seq(|protos|, i requires 0 <= i < |protos| => protos[i].host);
      assert hosts == Hosts(MadeView());
      sortedHosts := IdAssignment.SortedHosts(hosts);
      assert hosts[0] in sortedHosts;
      forall j | 0 <= j < |sortedHosts|
        ensures sortedHosts[j] in hostDict && hostDict[sortedHosts[j]] == Queue(hosts, j, 0, 0)
      {
        assert sortedHosts[j] in sortedHosts;
      }
    }

    /** One turn of the loop: the oldest unnumbered connection of the host, if any, gets the number of the turn. */
    method VisitHost(hostDict: map<int, seq<nat>>, host: int, curPeerIndex: nat, ghost hosts: seq<int>,
                     ghost made: seq<Conn>, ghost round: nat, ghost curHostIndex: nat)
      returns (hostDict': map<int, seq<nat>>)
      requires Valid() && |hosts| == |made| == |connectionsMade|
      requires curHostIndex < |IdAssignment.SortedHosts(hosts)|
      requires host == IdAssignment.SortedHosts(hosts)[curHostIndex]
      requires NumberedAs(|IdAssignment.SortedHosts(hosts)|, round, curHostIndex, curPeerIndex)
      requires Queued(hostDict, hosts, round, curHostIndex)
      requires MadeView() == Numbered(hosts, made, curPeerIndex)
      modifies connectionsMade
      ensures Valid()
      ensures Queued(hostDict', hosts, round, curHostIndex + 1)
      ensures curHostIndex + 1 == |IdAssignment.SortedHosts(hosts)| ==> Queued(hostDict', hosts, round + 1, 0)
      ensures MadeView() == Numbered(hosts, made, curPeerIndex + 1)
    {
      hide MadeView;
      hide Queue;
      hide Numbered;
      NumberOne(hosts, made, round, curHostIndex, curPeerIndex);
      forall j | 0 <= j < |IdAssignment.SortedHosts(hosts)| {
        PopQueue(hosts, round, curHostIndex, j);
      }
      hostDict' := hostDict;
      if hostDict[host] != [] {
        GiveId(hostDict[host][0], curPeerIndex);
        hostDict' := hostDict[host := hostDict[host][1..]];
      }
    }

    method GiveId(slot: nat, id: int)
      requires Valid() && slot < |connectionsMade|
      modifies connectionsMade
      ensures slot < |old(MadeView())| && MadeView() == old(MadeView())[slot := old(MadeView())[slot].(id := id)]
    {
      connectionsMade[slot].id := id;
      OneChanged(connectionsMade[slot]);
    }

    /** What one resumption of push_id_to_subscribers does. */
    method PushIdToSubscribers()
      requires Valid() && PushEnabled(View())
      modifies this`push, connectionsMade
      ensures Valid() && View() == PushStep(old(View()))
    {
      var next := push.next;
      if next < |connectionsMade| {
        connectionsMade[next].SendAndWaitForReady();
        push := Waiting(next + 1);
        assert MadeView() == old(MadeView())[next := connectionsMade[next].View()];
      } else {
        push := Finished;
      }
    }

    /** set_connection_ready. */
    method SetConnectionReady(proto: ServiceProto, seed: int)
      requires Valid() && Member(proto)
      modifies this`connectionsReady, this`pushes, connectionsMade
      ensures Valid()
      ensures View() == AfterReady(old(View()), proto.slot, seed)
    {
      hide View;
      ListReady(proto);
      if |connectionsReady| >= expectedSubscribers {
        PushInfoToSubscribers(seed);
      }
    }

    method ListReady(proto: ServiceProto)
      requires Valid() && Member(proto)
      modifies this`connectionsReady
      ensures Valid() && connectionsReady == old(connectionsReady) + [proto]
      ensures View() == old(View()).(ready := old(View()).ready + [proto.slot])
      ensures |connectionsReady| == |View().ready| && View().expected == expectedSubscribers
    {
      connectionsReady := connectionsReady + [proto];
      assert Slots(connectionsReady) == old(Slots(connectionsReady)) + [proto.slot];
      assert MadeView() == old(MadeView());
    }

    /** push_info_to_subscribers. */
    method PushInfoToSubscribers(seed: int)
      requires Valid()
      modifies this`pushes, connectionsMade
      ensures Valid()
      ensures var s := old(View());
              View() == s.(made := SendAll(s.made, s.ready, TableLine(TableOf(s.made, s.ready), seed)),
                           pushes := s.pushes + 1)
    {
      var table := BuildTable();
      hide View;
      SendLineToAll(TableLine(table, seed));
      CountPush();
    }

    method CountPush()
      requires Valid()
      modifies this`pushes
      ensures Valid() && View() == old(View()).(pushes := old(View()).pushes + 1)
    {
      pushes := pushes + 1;
      assert MadeView() == old(MadeView());
    }

    /** The document with the variables of every ready subscriber. */
    method BuildTable() returns (table: Table)
      requires Valid()
      ensures table == TableOf(View().made, View().ready)
    {
      table := map[];
      ghost var s := View();
      for k := 0 to |connectionsReady|
        invariant table == TableOf(s.made, s.ready[..k])
      {
        var subscriber := connectionsReady[k];
        var subscriberVars := subscriber.vars;
        if PORT !in subscriberVars {
          subscriberVars := subscriberVars[PORT := Num((subscriber.id + 12000) as real)];
        }
        if HOST !in subscriberVars {
          subscriberVars := subscriberVars[HOST := HostOf(subscriber.host)];
        }
        table := table[subscriber.id := subscriberVars];
        assert s.made[s.ready[k]] == subscriber.View();
        assert s.ready[..k + 1][..k] == s.ready[..k];
      }
      assert s.ready[..|s.ready|] == s.ready;
    }

    /** _send_line_to_all. */
    method SendLineToAll(line: Downlink)
      requires Valid()
      modifies connectionsMade
      ensures Valid()
      ensures View() == old(View()).(made := SendAll(old(View()).made, old(View()).ready, line))
    {
      ghost var s := View();
      for k := 0 to |connectionsReady|
        invariant MadeView() == SendAll(s.made, s.ready[..k], line)
      {
        ghost var made := MadeView();
        connectionsReady[k].SendLine(line);
        assert s.ready[..k + 1][..k] == s.ready[..k];
        assert MadeView() == made[s.ready[k] := Sent(made[s.ready[k]], line)];
      }
      assert s.ready[..|s.ready|] == s.ready;
    }

    /** set_connection_received. */
    method SetConnectionReceived(proto: ServiceProto)
      requires Valid() && Member(proto)
      modifies this`varsReceived, this`pendingStarts, this`launches
      ensures Valid()
      ensures View() == AfterReceived(old(View()), proto.slot)
    {
      varsReceived := varsReceived + [proto];
      assert Slots(varsReceived) == old(Slots(varsReceived)) + [proto.slot];
      if |varsReceived| >= expectedSubscribers {
        pendingStarts := pendingStarts + 1;
        launches := launches + 1;
      }
    }

    /** A scheduled start_experiment body. */
    method StartExperiment(now: real)
      requires Valid() && pendingStarts > 0
      modifies this`pendingStarts, this`startTime, this`idToConnection, this`failed, connectionsMade
      ensures Valid() && View() == StartStep(old(View()), now)
    {
      hide *;
      ghost var s := View();
      Begin(now);
      ghost var begun := View();
      StartParts(s, now, begun);
      var raised := TellGo(now + startDelay, begun);
      if raised {
        Fail();
      }
    }

    method Begin(now: real)
      requires Valid() && pendingStarts > 0
      modifies this`pendingStarts, this`startTime
      ensures Valid() && Slots(connectionsReady) == View().ready
      ensures old(View()).pendingStarts > 0 && old(View()).delay == startDelay
      ensures View() == old(View()).(pendingStarts := old(View()).pendingStarts - 1, startTime := now + startDelay)
    {
      pendingStarts := pendingStarts - 1;
      startTime := now + startDelay;
      assert MadeView() == old(MadeView());
    }

    /** The loop of start_experiment, left when an offset is missing or no number. */
    method TellGo(start: real, ghost begun: Server) returns (raised: bool)
      requires Valid() && SlotsExist(begun) && Slots(connectionsReady) == begun.ready
      requires View() == AfterTold(begun, TellFirst(begun, 0, start)) && !TellFirst(begun, 0, start).raised
      modifies this`idToConnection, connectionsMade
      ensures Valid()
      ensures View() == AfterTold(begun, TellFirst(begun, |begun.ready|, start))
      ensures raised == TellFirst(begun, |begun.ready|, start).raised
    {
      hide *;
      var k := 0;
      raised := false;
      while k < |connectionsReady| && !raised
        invariant 0 <= k <= |connectionsReady| == |begun.ready|
        invariant Valid() && Slots(connectionsReady) == begun.ready
        invariant View() == AfterTold(begun, TellFirst(begun, k, start))
        invariant raised == TellFirst(begun, k, start).raised
      {
        TellStep(begun, k, start);
        raised := TellOne(k, start, begun, TellFirst(begun, k, start));
        k := k + 1;
      }
      if raised {
        RaisedStays(begun, k, |connectionsReady|, start);
      }
    }

    /** One round of that loop. */
    method TellOne(k: nat, start: real, ghost begun: Server, ghost told: Told) returns (raised: bool)
      requires Valid() && k < |connectionsReady| && Slots(connectionsReady)[k] < |told.made| && !told.raised
      requires View() == AfterTold(begun, told)
      modifies this`idToConnection, connectionsMade
      ensures Valid()
      ensures View() == AfterTold(begun, TellNext(told, Slots(connectionsReady)[k], start))
      ensures raised == TellNext(told, Slots(connectionsReady)[k], start).raised
    {
      var subscriber := connectionsReady[k];
      assert View().made[subscriber.slot] == subscriber.View();
      raised := !(TIME_OFFSET in subscriber.vars && subscriber.vars[TIME_OFFSET].Num?);
      if !raised {
        GoTo(subscriber, start);
      }
    }

    method GoTo(subscriber: ServiceProto, start: real)
      requires Valid() && Member(subscriber) && HasOffset(subscriber.View())
      modifies this`idToConnection, subscriber
      ensures Valid()
      ensures subscriber.slot < |old(View()).made|
      ensures var s, i := old(View()), subscriber.slot;
              View() == s.(made := s.made[i := BegunConn(s.made[i], start)], byId := s.byId[s.made[i].id := i])
    {
      assert View().made[subscriber.slot] == subscriber.View();
      hide View;
      subscriber.SendLine(GoLine(start + subscriber.vars[TIME_OFFSET].n));
      subscriber.state := Running;
      OneChanged(subscriber);
      Register(subscriber);
    }

    method Fail()
      requires Valid()
      modifies this`failed
      ensures Valid() && View() == old(View()).(failed := true)
    {
      failed := true;
      assert MadeView() == old(MadeView());
    }

    method Register(subscriber: ServiceProto)
      requires Valid() && Member(subscriber)
      modifies this`idToConnection
      ensures Valid()
      ensures View() == old(View()).(byId := old(View()).byId[subscriber.id := subscriber.slot])
    {
      idToConnection := idToConnection[subscriber.id := subscriber];
      SlotsByIdUpdate(old(idToConnection), subscriber.id, subscriber);
      assert MadeView() == old(MadeView());
    }

    /** forwardMessage: an unknown receiver is only logged before the lookup raises. */
    method ForwardMessage(fromId: int, toId: int, kind: string, body: string) returns (raised: bool)
      requires Valid()
      modifies connectionsMade
      ensures Valid()
      ensures (if raised then View().(failed := true) else View()) == Forward(old(View()), fromId, toId, kind, body)
      ensures raised ==> View() == old(View())
    {
      raised := toId !in idToConnection;
      if !raised {
        ghost var s := View();
        ghost var slot := idToConnection[toId].slot;
        idToConnection[toId].SendLine(RelayLine(fromId, kind, body));
        assert MadeView() == s.made[slot := Sent(s.made[slot], RelayLine(fromId, kind, body))];
      }
    }

    /** connection_lost, which calls unregister_connection. */
    method UnregisterConnection(proto: ServiceProto)
      requires Valid() && Member(proto)
      modifies this`connectionsReady, this`varsReceived, proto`lost
      ensures Valid() && View() == Unregister(old(View()), proto.slot)
    {
      Delist(proto);
      assert View().made[proto.slot] == proto.View();
      label delisted:
      proto.lost := true;
      OneChanged@delisted(proto);
    }

    method Delist(proto: ServiceProto)
      requires Valid() && Member(proto)
      modifies this`connectionsReady, this`varsReceived
      ensures Valid()
      ensures var s, i := old(View()), proto.slot;
              View() == s.(ready := RemoveFirst(s.ready, i), received := RemoveFirst(s.received, i))
    {
      RemoveSlots(connectionsReady, proto);
      RemoveSlots(varsReceived, proto);
      hide RemoveFirst;
      hide Remove;
      if proto in connectionsReady {
        connectionsReady := Remove(connectionsReady, proto);
      }
      if proto in varsReceived {
        varsReceived := Remove(varsReceived, proto);
      }
      assert MadeView() == old(MadeView());
    }

    /** list.remove. */
    static function Remove(protos: seq<ServiceProto>, proto: ServiceProto): (r: seq<ServiceProto>)
      ensures forall p :: p in r ==> p in protos
    {
      if protos == [] then []
      else if protos[0] == proto then protos[1..]
      else [protos[0]] + Remove(protos[1..], proto)
    }

    lemma {:induction false} RemoveSlots(protos: seq<ServiceProto>, proto: ServiceProto)
      requires Valid() && Member(proto)
      requires forall k :: 0 <= k < |protos| ==> Member(protos[k])
      ensures forall k :: 0 <= k < |Remove(protos, proto)| ==> Member(Remove(protos, proto)[k])
      ensures Slots(Remove(protos, proto)) == RemoveFirst(Slots(protos), proto.slot)
      ensures proto !in protos ==> Remove(protos, proto) == protos
    {
      if protos != [] {
        RemoveSlots(protos[1..], proto);
        assert Slots(protos) == [protos[0].slot] + Slots(protos[1..]);
        assert Slots(protos)[1..] == Slots(protos[1..]);
        if protos[0] != proto {
          assert Slots(Remove(protos, proto)) == [protos[0].slot] + Slots(Remove(protos[1..], proto));
        }
      }
    }
  }

  // ---------------------------------------------------------------------------------------------
  // The id loop
  // ---------------------------------------------------------------------------------------------

  /** What is left of the slots of host `j` in the given round, once the hosts before `cur` were visited in it. */
  ghost function Queue(hosts: seq<int>, j: nat, round: nat, cur: nat): seq<nat>
    requires j < |IdAssignment.SortedHosts(hosts)|
  {
    var slots := IdAssignment.SlotsOf(hosts, IdAssignment.SortedHosts(hosts)[j]);
    var popped := if j < cur then round + 1 else round;
    if popped <= |slots| then slots[popped..] else []
  }

  /** The dictionary holds what is left of every host. */
  ghost predicate Queued(hostDict: map<int, seq<nat>>, hosts: seq<int>, round: nat, cur: nat) {
    var sortedHosts := IdAssignment.SortedHosts(hosts);
    forall j :: 0 <= j < |sortedHosts| ==>
      sortedHosts[j] in hostDict && hostDict[sortedHosts[j]] == Queue(hosts, j, round, cur)
  }

  /** The connections before the visit numbered `cur`. */
  ghost function Numbered(hosts: seq<int>, made: seq<Conn>, cur: nat): (r: seq<Conn>)
    requires |hosts| == |made|
    ensures |r| == |made|
  {
    seq(|made|, i requires 0 <= i < |made| =>
          if IdAssignment.VisitOf(hosts, i) < cur then made[i].(id := IdAssignment.VisitOf(hosts, i)) else made[i])
  }

  /** One visit: the queue of the visited host loses its head, the others stay. */
  lemma PopQueue(hosts: seq<int>, round: nat, cur: nat, j: nat)
    requires cur < |IdAssignment.SortedHosts(hosts)| && j < |IdAssignment.SortedHosts(hosts)|
    ensures var queue := Queue(hosts, j, round, cur);
            && Queue(hosts, j, round, cur + 1) == (if j == cur && queue != [] then queue[1..] else queue)
            && (cur + 1 == |IdAssignment.SortedHosts(hosts)| ==>
                  Queue(hosts, j, round + 1, 0) == Queue(hosts, j, round, cur + 1))
  {
  }

  /** One visit: the slot with that visit number, if there is one, heads the queue of the visited host. */
  lemma NumberOne(hosts: seq<int>, made: seq<Conn>, round: nat, cur: nat, visit: nat)
    requires |hosts| == |made| && cur < |IdAssignment.SortedHosts(hosts)|
    requires NumberedAs(|IdAssignment.SortedHosts(hosts)|, round, cur, visit)
    ensures var queue := Queue(hosts, cur, round, cur);
            var before := Numbered(hosts, made, visit);
            && (queue != [] ==> queue[0] < |made|)
            && Numbered(hosts, made, visit + 1)
                 == (if queue == [] then before else before[queue[0] := before[queue[0]].(id := visit)])
  {
    var host := IdAssignment.SortedHosts(hosts)[cur];
    var slots := IdAssignment.SlotsOf(hosts, host);
    if round < |slots| {
      IdAssignment.SlotsMember(hosts, host, |hosts|, round);
    }
    forall i | 0 <= i < |hosts|
      ensures IdAssignment.VisitOf(hosts, i) == visit <==> round < |slots| && slots[round] == i
    {
      IdAssignment.PoppedAt(hosts, round, cur, i);
    }
    hide IdAssignment.VisitOf;
    hide IdAssignment.SlotsOf;
  }

  lemma FirstVisit(hosts: seq<int>, made: seq<Conn>)
    requires |hosts| == |made|
    ensures Numbered(hosts, made, 1) == made
  {
    forall i | 0 <= i < |hosts| ensures IdAssignment.VisitOf(hosts, i) >= 1 {
      IdAssignment.VisitsDistinct(hosts, i, i);
    }
  }

  lemma AllNumbered(hosts: seq<int>, made: seq<Conn>)
    requires hosts == Hosts(made)
    ensures Numbered(hosts, made, |made| + 1) == WithIds(made, IdAssignment.AssignedIds(hosts, Ids(made)))
  {
  }

  /** In the given round the visit to host `cur` of `k` has the number `visit`. */
  predicate NumberedAs(k: nat, round: nat, cur: nat, visit: nat) {
    visit == round * k + cur + 1
  }

  lemma FirstTurn(k: nat)
    ensures NumberedAs(k, 0, 0, 1)
  {
  }

  /** The loop wraps around after the last host. */
  function NextIndex(cur: nat, k: nat): nat
    requires k > 0
  {
    (cur + 1) % k
  }

  /** Moving on to the next host, in the next round after the last one. */
  lemma NextHost(k: nat, round: nat, cur: nat, visit: nat)
    requires cur < k && NumberedAs(k, round, cur, visit)
    ensures NextIndex(cur, k) == if cur + 1 == k then 0 else cur + 1
    ensures if cur + 1 == k then NumberedAs(k, round + 1, 0, visit + 1) else NumberedAs(k, round, cur + 1, visit + 1)
  {
    var x := cur + 1;
    assert x == x / k * k + x % k;
    if x < k {
      IdAssignment.RoundUnique(k, x / k, x % k, 0, x);
    } else {
      IdAssignment.RoundUnique(k, x / k, x % k, 1, 0);
    }
  }

  function AfterTold(s: Server, t: Told): Server {
    s.(made := t.made, byId := t.byId)
  }

  /** A start step: note the start time, tell the subscribers, fail if that raised. */
  lemma StartParts(s: Server, now: real, begun: Server)
    requires SlotsExist(s) && s.pendingStarts > 0
    requires begun == s.(pendingStarts := s.pendingStarts - 1, startTime := now + s.delay)
    ensures SlotsExist(begun) && |begun.ready| == |s.ready|
    ensures AfterTold(begun, TellFirst(begun, 0, now + s.delay)) == begun
    ensures !TellFirst(begun, 0, now + s.delay).raised
    ensures var t := TellFirst(begun, |begun.ready|, now + s.delay);
            StartStep(s, now) == if t.raised then AfterTold(begun, t).(failed := true) else AfterTold(begun, t)
  {
    TellReads(s, begun, |s.ready|, now + s.delay);
  }

  /** The loop reads only the connections, the ready list and the id dictionary. */
  lemma {:induction false} TellReads(s: Server, s': Server, k: nat, start: real)
    requires SlotsExist(s) && SlotsExist(s') && s.made == s'.made && s.ready == s'.ready && s.byId == s'.byId
    requires k <= |s.ready|
    ensures TellFirst(s, k, start) == TellFirst(s', k, start)
  {
    if k > 0 {
      TellReads(s, s', k - 1, start);
    }
  }

  lemma TellStep(s: Server, k: nat, start: real)
    requires SlotsExist(s) && k < |s.ready|
    ensures s.ready[k] < |TellFirst(s, k, start).made|
    ensures TellFirst(s, k + 1, start) == TellNext(TellFirst(s, k, start), s.ready[k], start)
  {
  }

  /** Once the loop has raised, further subscribers change nothing. */
  lemma {:induction false} RaisedStays(s: Server, k: nat, m: nat, start: real)
    requires SlotsExist(s) && k <= m <= |s.ready| && TellFirst(s, k, start).raised
    ensures TellFirst(s, m, start) == TellFirst(s, k, start)
  {
    if k < m {
      RaisedStays(s, k, m - 1, start);
    }
  }
}
