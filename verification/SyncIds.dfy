/**
 Ids over whole runs: the last accepted connection fixes them, as IdAssignment computes them from the hosts of
 the clients, and balanced hosts make them distinct, which is what SyncRelay asks for.
 */
module SyncIds {
  import opened SyncModel
  import opened SyncRun
  import SyncBarrier
  import SyncRelay
  import opened IdAssignment

  function ClientHosts(s: Sys): (hosts: seq<int>)
    ensures |hosts| == |s.clients|
  {
    seq(|s.clients|, i requires 0 <= i < |s.clients| => s.clients[i].host)
  }

  ghost predicate IdsOk(s: Sys) {
    && |s.server.made| <= |s.clients| == s.server.expected
    && Hosts(s.server.made) == ClientHosts(s)[..|s.server.made|]
    && Ids(s.server.made)
         == if |s.server.made| < |s.clients| then CreatedIds(|s.server.made|)
            else AssignedIds(Hosts(s.server.made), CreatedIds(|s.server.made|))
  }

  /** Same connections, possibly in other states. */
  ghost predicate SameNames(s: Server, r: Server) {
    && |s.made| == |r.made|
    && s.expected == r.expected
    && forall i :: 0 <= i < |s.made| ==> r.made[i].id == s.made[i].id && r.made[i].host == s.made[i].host
  }

  lemma LineKeepsNames(s: Server, i: nat, line: Uplink, now: real, seed: int)
    requires SlotsExist(s) && i < |s.made|
    ensures SameNames(s, OnLine(s, i, line, now, seed))
  {
    hide OnInit;
    hide OnRunning;
    match s.made[i].phase
    case Init => InitKeepsNames(s, i, line, now, seed);
    case Running => RunningKeepsNames(s, i, line);
    case _ =>
  }

  lemma InitKeepsNames(s: Server, i: nat, line: Uplink, now: real, seed: int)
    requires SlotsExist(s) && i < |s.made|
    ensures SameNames(s, OnInit(s, i, line, now, seed))
  {
    ReadyKeepsNames(SetConn(s, i, s.made[i].(ready := true)), i, seed);
    hide AfterReady;
  }

  lemma RunningKeepsNames(s: Server, i: nat, line: Uplink)
    requires SlotsExist(s) && i < |s.made|
    ensures SameNames(s, OnRunning(s, i, line))
  {
  }

  lemma ReadyKeepsNames(s: Server, i: nat, seed: int)
    requires SlotsExist(s) && i < |s.made|
    ensures SameNames(s, AfterReady(s, i, seed))
  {
    var list := s.ready + [i];
    SyncBarrier.SendAllFrame(s.made, list, TableLine(TableOf(s.made, list), seed));
    hide SendAll;
    hide TableOf;
  }

  lemma StartKeepsNames(s: Server, now: real)
    requires SlotsExist(s) && s.pendingStarts > 0
    ensures SameNames(s, StartStep(s, now))
  {
    SyncBarrier.StartFrame(s, now);
    hide StartStep;
    forall i | 0 <= i < |s.made|
      ensures StartStep(s, now).made[i].id == s.made[i].id && StartStep(s, now).made[i].host == s.made[i].host
    {
      assert SyncBarrier.SameOrBegun(s.made[i], StartStep(s, now).made[i], i in s.ready);
    }
  }

  lemma StepKeepsNames(s: Sys, step: Step)
    requires Enabled(s, step)
    ensures ClientHosts(Apply(s, step)) == ClientHosts(s)
    ensures !step.Accept? ==> SameNames(s.server, Apply(s, step).server)
  {
    match step
    case ServerReads(i, now, seed) =>
      LineKeepsNames(s.server, i, s.clients[i].out[0], now, seed);
      hide OnLine;
    case StartBody(now) =>
      StartKeepsNames(s.server, now);
      hide StartStep;
    case _ =>
  }

  lemma AcceptNames(s: Sys)
    requires IdsOk(s) && Enabled(s, Accept)
    ensures IdsOk(Apply(s, Accept))
  {
    var m := |s.server.made|;
    var made := s.server.made + [NewConn(s.clients[m].host, m + 1)];
    var r := Apply(s, Accept);
    assert Hosts(made) == ClientHosts(s)[..m + 1] by {
      assert forall k :: 0 <= k < m ==> made[k].host == Hosts(s.server.made)[k];
    }
    assert Ids(made) == CreatedIds(m + 1) by {
      assert forall k :: 0 <= k < m ==> made[k].id == Ids(s.server.made)[k];
    }
    assert Hosts(r.server.made) == Hosts(made);
    assert ClientHosts(r) == ClientHosts(s);
    if m + 1 == |s.clients| {
      assert Ids(r.server.made) == AssignedIds(Hosts(made), Ids(made));
    }
  }

  lemma {:induction false} RunKeepsIds(run: seq<Sys>, steps: seq<Step>, k: nat)
    requires IsRun(run, steps) && k < |run|
    ensures IdsOk(run[k]) && ClientHosts(run[k]) == ClientHosts(run[0])
  {
    hide Apply;
    if k > 0 {
      RunKeepsIds(run, steps, k - 1);
      var s, r := run[k - 1], run[k];
      StepKeepsNames(s, steps[k - 1]);
      if steps[k - 1].Accept? {
        AcceptNames(s);
      } else {
        assert Hosts(r.server.made) == Hosts(s.server.made) && Ids(r.server.made) == Ids(s.server.made);
      }
    }
  }

  /**
   Once everyone is connected, the ids are distinct in every state of every run if and only if every connection that
   the id loop never reaches was created with a number that the loop gives to nobody.
   */
  lemma SettlesIff(run: seq<Sys>, steps: seq<Step>, k: nat)
    requires IsRun(run, steps) && k < |run| && |run[k].server.made| == |run[k].clients|
    ensures var hosts := ClientHosts(run[0]);
            SyncRelay.Settled(run[k])
            <==> forall i :: 0 <= i < |hosts| && !ReachedByLoop(hosts, i) ==> CreatedIdUnused(hosts, i)
  {
    RunKeepsIds(run, steps, k);
    var hosts := ClientHosts(run[0]);
    assert Hosts(run[k].server.made) == hosts;
    DistinctIff(hosts);
  }

  /** Balanced hosts always settle. */
  lemma BalancedSettles(run: seq<Sys>, steps: seq<Step>, k: nat)
    requires IsRun(run, steps) && k < |run|
    requires Balanced(ClientHosts(run[0])) && |run[k].server.made| == |run[k].clients|
    ensures SyncRelay.Settled(run[k])
  {
    SettlesIff(run, steps, k);
    BalancedIffAllReached(ClientHosts(run[0]));
  }
}
