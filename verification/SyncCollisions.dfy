/**
 What colliding ids cost: the conservation law of SyncRelay holds in every state of every run with everyone connected
 if and only if the hosts make the ids distinct.  Where two connections share an id, only one of them is registered
 under it, and a message that should have gone to both reaches that one alone.
 */
module SyncCollisions {
  import opened SyncModel
  import opened SyncRun
  import opened SyncRelay
  import opened SyncProgress
  import SyncIds
  import SyncTermination
  import Counting
  import opened IdAssignment

  /** Once everyone is connected, the conservation law holds between any two clients. */
  ghost predicate Conserves(run: seq<Sys>) {
    forall k :: 0 <= k < |run| && |run[k].server.made| == |run[k].clients| ==> ConservesAt(run[k])
  }

  ghost predicate ConservesAt(s: Sys)
    requires |s.server.made| == |s.clients|
  {
    forall a, b :: 0 <= a < |s.clients| && 0 <= b < |s.clients| ==> ConservedAt(s, a, b)
  }

  lemma SetupSendsNothing(s: Sys, step: Step, x: nat)
    requires Enabled(s, step) && IsSetup(s, step) && x < |s.clients|
    ensures |Apply(s, step).clients| == |s.clients| && Apply(s, step).clients[x].sent == s.clients[x].sent
  {
  }

  lemma {:induction false} NothingSent(run: seq<Sys>, steps: seq<Step>, k: nat, x: nat)
    requires Continues(run, steps) && k < |run| && x < |run[0].clients|
    requires forall j :: 0 <= j < |steps| ==> IsSetup(run[j], steps[j])
    ensures |run[k].clients| == |run[0].clients| && run[k].clients[x].sent == run[0].clients[x].sent
  {
    hide Apply;
    hide Enabled;
    hide IsSetup;
    if k > 0 {
      NothingSent(run, steps, k - 1, x);
      SetupSendsNothing(run[k - 1], steps[k - 1], x);
    }
  }

  /** With everyone running, the law means that there is nothing under way from a client that has sent nothing. */
  lemma NothingUnderWay(s: Sys, x: nat, b: nat)
    requires Inv(s) && SetUpOver(s) && ConservesAt(s) && x < |s.clients| && b < |s.clients| && s.clients[x].sent == []
    ensures s.clients[x].out == []
    ensures With(s.clients[b].inbox, s.server.made[x].id) == []
    ensures Relayed(s.server.made[b].out, s.server.made[x].id) == []
  {
    assert ConservedAt(s, x, b);
    assert PairOk(s, x);
    var out, ids := s.clients[x].out, Ids(s.server.made);
    assert OnlyMessages(out, ids);
    forall c | 0 <= c < |ids| ensures Written(out, ids[c]) == [] {
      assert ConservedAt(s, x, c);
    }
  }

  /** The state after client x has sent an empty message to an id and the server has read it. */
  lemma MessageToId(s: Sys, x: nat, id: int) returns (r: Sys, r': Sys, steps: seq<Step>)
    requires Inv(s) && SetUpOver(s) && x < |s.clients| && s.clients[x].out == [] && id in Ids(s.server.made)
    ensures |steps| == 2
    ensures Enabled(s, steps[0]) && r == Apply(s, steps[0]) && Enabled(r, steps[1]) && r' == Apply(r, steps[1])
    ensures |r'.clients| == |s.clients| == |s.server.made| == |r'.server.made|
    ensures r'.clients == s.clients[x := s.clients[x].(sent := s.clients[x].sent + [Message(id, "", "")])]
    ensures exists t :: 0 <= t < |s.server.made| && s.server.made[t].id == id
              && r'.server.made == s.server.made[t := Sent(s.server.made[t], RelayLine(s.server.made[x].id, "", ""))]
  {
    assert PairOk(s, x) && SlotOk(s.server, x);
    var step := Send(x, Message(id, "", ""));
    assert Enabled(s, step);
    StepKeeps(s, step);
    r := Apply(s, step);
    assert r.server == s.server && r.clients[x].out == [MsgLine(id, "", "")];
    var read := ServerReads(x, 0.0, 0);
    assert Enabled(r, read);
    ReadsMessageEffect(r, x, 0.0, 0);
    r' := Apply(r, read);
    assert r.clients[x].out[1..] == s.clients[x].out;
    assert r'.clients[x] == s.clients[x].(sent := s.clients[x].sent + [Message(id, "", "")]);
    steps := [step, read];
    assert r.server.byId[id] < |s.server.made|;
  }

  /** A message of which nothing has arrived anywhere. */
  lemma MissedMessage(s: Sys, x: nat, u: nat, c: Client, id: int)
    requires x < |s.clients| == |s.server.made| && u < |s.clients|
    requires c.sent == [Message(id, "", "")] && c.out == [] && s.clients[x] == c
    requires s.server.made[x].id == s.server.made[u].id == id
    requires With(s.clients[u].inbox, id) == [] && Relayed(s.server.made[u].out, id) == []
    ensures !ConservesAt(s)
  {
    assert !ConservedAt(s, x, u);
  }

  /** Two connections with one id: one of them does not get a message to that id. */
  lemma CollisionLoses(s: Sys, i: nat, j: nat) returns (r: Sys, r': Sys, steps: seq<Step>)
    requires Inv(s) && SetUpOver(s) && ConservesAt(s) && i < j < |s.clients| && s.clients[i].sent == []
    requires s.server.made[i].id == s.server.made[j].id
    ensures |steps| == 2
    ensures Enabled(s, steps[0]) && r == Apply(s, steps[0]) && Enabled(r, steps[1]) && r' == Apply(r, steps[1])
    ensures |r'.clients| == |r'.server.made| && !ConservesAt(r')
  {
    var id := s.server.made[i].id;
    NothingUnderWay(s, i, i);
    NothingUnderWay(s, i, j);
    hide Inv;
    hide Apply;
    hide Enabled;
    hide ConservesAt;
    hide With;
    hide Relayed;
    assert Ids(s.server.made)[i] == id;
    r, r', steps := MessageToId(s, i, id);
    var t :| 0 <= t < |s.server.made| && s.server.made[t].id == id
      && r'.server.made == s.server.made[t := Sent(s.server.made[t], RelayLine(id, "", ""))];
    var c := s.clients[i].(sent := [Message(id, "", "")]);
    assert [] + [Message(id, "", "")] == [Message(id, "", "")];
    MissedMessage(r', i, if t == i then j else i, c, id);
  }

  lemma Extended(run: seq<Sys>, steps: seq<Step>, r: Sys, r': Sys, more: seq<Step>)
    returns (run': seq<Sys>, steps': seq<Step>)
    requires IsRun(run, steps) && |more| == 2
    requires Enabled(run[|steps|], more[0]) && r == Apply(run[|steps|], more[0])
    requires Enabled(r, more[1]) && r' == Apply(r, more[1])
    ensures IsRun(run', steps') && run'[0] == run[0] && |steps'| == |steps| + 2 && run'[|steps| + 2] == r'
  {
    hide Initial;
    hide Enabled;
    hide Apply;
    run', steps' := run + [r, r'], steps + more;
    forall k | 0 <= k < |steps'| ensures Enabled(run'[k], steps'[k]) && run'[k + 1] == Apply(run'[k], steps'[k]) {
      if k < |steps| {
        assert Enabled(run[k], steps[k]);
      }
    }
  }

  /** From a start where the ids collide, set-up ends with two connections of one id, and nothing sent. */
  lemma FinishedCollision(s: Sys) returns (run: seq<Sys>, steps: seq<Step>, i: nat, j: nat)
    requires Initial(s)
    requires exists i :: 0 <= i < |s.clients| && !ReachedByLoop(SyncIds.ClientHosts(s), i)
                         && !CreatedIdUnused(SyncIds.ClientHosts(s), i)
    ensures IsRun(run, steps) && run[0] == s
    ensures Inv(run[|steps|]) && SetUpOver(run[|steps|])
    ensures i < j < |run[|steps|].clients| == |run[|steps|].server.made|
    ensures run[|steps|].server.made[i].id == run[|steps|].server.made[j].id && run[|steps|].clients[i].sent == []
  {
    hide Initial;
    hide Inv;
    hide Enabled;
    hide Apply;
    hide IsSetup;
    hide ReachedByLoop;
    hide CreatedIdUnused;
    InitialInv(s);
    run, steps := SyncTermination.CanFinish(s);
    i, j := Collision(run, steps, |steps|, SyncIds.ClientHosts(s));
    NothingSent(run, steps, |steps|, i);
    StartsSilent(s, i);
  }

  lemma StartsSilent(s: Sys, i: nat)
    requires Initial(s) && i < |s.clients|
    ensures s.clients[i].sent == []
  {
    assert Fresh(s.clients[i]);
  }

  lemma Collision(run: seq<Sys>, steps: seq<Step>, k: nat, hosts: seq<int>) returns (i: nat, j: nat)
    requires IsRun(run, steps) && k < |run| && |run[k].server.made| == |run[k].clients|
    requires hosts == SyncIds.ClientHosts(run[0])
    requires exists i :: 0 <= i < |hosts| && !ReachedByLoop(hosts, i) && !CreatedIdUnused(hosts, i)
    ensures i < j < |run[k].server.made| == |hosts| && run[k].server.made[i].id == run[k].server.made[j].id
  {
    hide IsRun;
    SyncIds.SettlesIff(run, steps, k);
    SyncIds.RunKeepsIds(run, steps, k);
    hide ReachedByLoop;
    hide CreatedIdUnused;
    var ids := Ids(run[k].server.made);
    i, j :| i < j < |ids| && ids[i] == ids[j];
  }

  /** From a start where the ids collide, set-up and one message lead to a state where the law does not hold. */
  lemma CollisionRun(s: Sys) returns (run: seq<Sys>, steps: seq<Step>)
    requires Initial(s)
    requires exists i :: 0 <= i < |s.clients| && !ReachedByLoop(SyncIds.ClientHosts(s), i)
                         && !CreatedIdUnused(SyncIds.ClientHosts(s), i)
    ensures IsRun(run, steps) && run[0] == s && !Conserves(run)
  {
    hide Initial;
    hide Enabled;
    hide Apply;
    hide ConservesAt;
    var i: nat, j: nat;
    run, steps, i, j := FinishedCollision(s);
    hide SetUpOver;
    hide Inv;
    var n := |steps|;
    assert |run[n].server.made| == |run[n].clients|;
    if ConservesAt(run[n]) {
      var r, r', more := CollisionLoses(run[n], i, j);
      run, steps := Extended(run, steps, r, r', more);
      assert !ConservesAt(run[n + 2]);
    }
  }

  /**
   In every state of every run from s with everyone connected the conservation law holds, if and only if every
   connection that the id loop never reaches was created with a number that the loop gives to nobody.
   */
  lemma ConservesIff(s: Sys)
    requires Initial(s)
    ensures (forall run, steps :: IsRun(run, steps) && run[0] == s ==> Conserves(run))
       <==> forall i :: 0 <= i < |s.clients| && !ReachedByLoop(SyncIds.ClientHosts(s), i)
                        ==> CreatedIdUnused(SyncIds.ClientHosts(s), i)
  {
    hide Initial;
    if forall i :: 0 <= i < |s.clients| && !ReachedByLoop(SyncIds.ClientHosts(s), i)
                   ==> CreatedIdUnused(SyncIds.ClientHosts(s), i)
    {
      forall run: seq<Sys>, steps: seq<Step> | IsRun(run, steps) && run[0] == s ensures Conserves(run) {
        forall k | 0 <= k < |run| && |run[k].server.made| == |run[k].clients| ensures ConservesAt(run[k]) {
          SyncIds.SettlesIff(run, steps, k);
          RunKeepsRelay(run, steps, k);
        }
      }
    } else {
      var run, steps := CollisionRun(s);
      assert IsRun(run, steps);
    }
  }
}
