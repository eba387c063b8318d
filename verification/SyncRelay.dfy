/**
 Relaying over whole runs: what client a handed to send_message for client b is, in order, what b's callback
 has received from a, then what the server has relayed and b has not read, then what a has written and the
 server has not read.  Nothing is lost in the middle, repeated, reordered or given a wrong sender.
 */
module SyncRelay {
  import opened SyncModel
  import opened SyncRun
  import Counting

  datatype Payload = Payload(kind: string, body: string)

  /** The payloads exchanged with `peer`, oldest first. */
  function With(log: seq<Message>, peer: int): seq<Payload> {
    if log == [] then
      []
    else if log[0].peer == peer then
      [Payload(log[0].kind, log[0].body)] + With(log[1..], peer)
    else
      With(log[1..], peer)
  }

  /** The payloads from `id` among lines on their way to a client. */
  function Relayed(out: seq<Downlink>, id: int): seq<Payload> {
    if out == [] then
      []
    else if out[0].RelayLine? && out[0].from == id then
      [Payload(out[0].kind, out[0].body)] + Relayed(out[1..], id)
    else
      Relayed(out[1..], id)
  }

  /** The payloads for `id` among lines on their way to the server. */
  function Written(out: seq<Uplink>, id: int): seq<Payload> {
    if out == [] then
      []
    else if out[0].MsgLine? && out[0].to == id then
      [Payload(out[0].kind, out[0].body)] + Written(out[1..], id)
    else
      Written(out[1..], id)
  }

  lemma {:induction false} WithAppend(log: seq<Message>, m: Message, peer: int)
    ensures With(log + [m], peer) == With(log, peer) + if m.peer == peer then [Payload(m.kind, m.body)] else []
  {
    if log != [] {
      assert (log + [m])[1..] == log[1..] + [m];
      WithAppend(log[1..], m, peer);
    }
  }

  lemma {:induction false} RelayedAppend(out: seq<Downlink>, line: Downlink, id: int)
    ensures Relayed(out + [line], id)
         == Relayed(out, id) + if line.RelayLine? && line.from == id then [Payload(line.kind, line.body)] else []
  {
    if out != [] {
      assert (out + [line])[1..] == out[1..] + [line];
      RelayedAppend(out[1..], line, id);
    }
  }

  lemma {:induction false} WrittenAppend(out: seq<Uplink>, line: Uplink, id: int)
    ensures Written(out + [line], id)
         == Written(out, id) + if line.MsgLine? && line.to == id then [Payload(line.kind, line.body)] else []
  {
    if out != [] {
      assert (out + [line])[1..] == out[1..] + [line];
      WrittenAppend(out[1..], line, id);
    }
  }

  ghost predicate Settled(s: Sys) {
    |s.server.made| == |s.clients| && Counting.Distinct(Ids(s.server.made))
  }

  /** The conservation law between sender a and receiver b. */
  predicate Conserved(a: Client, idA: int, b: Client, idB: int, down: seq<Downlink>) {
    With(a.sent, idB) == With(b.inbox, idA) + Relayed(down, idA) + Written(a.out, idB)
  }

  ghost predicate RelayOk(s: Sys) {
    Settled(s) ==>
      forall a, b :: 0 <= a < |s.clients| && 0 <= b < |s.clients| ==> ConservedAt(s, a, b)
  }

  ghost predicate ConservedAt(s: Sys, a: nat, b: nat)
    requires a < |s.clients| == |s.server.made| && b < |s.clients|
  {
    Conserved(s.clients[a], s.server.made[a].id, s.clients[b], s.server.made[b].id, s.server.made[b].out)
  }

  // ---------------------------------------------------------------------------------------------
  // Before the messages
  // ---------------------------------------------------------------------------------------------

  lemma {:induction false} NoMessages(out: seq<Uplink>, id: int)
    requires forall k :: 0 <= k < |out| ==> !out[k].MsgLine?
    ensures Written(out, id) == []
  {
    if out != [] {
      NoMessages(out[1..], id);
    }
  }

  lemma ScriptHasNoMessages(c: Client)
    requires InScript(c)
    ensures forall k :: 0 <= k < |c.out| ==> !c.out[k].MsgLine?
    ensures forall k :: 0 <= k < |c.job| && c.phase == AwaitVars ==> !c.job[k].MsgLine?
  {
    var rest := c.out + ToCome(c);
    forall k | 0 <= k < |rest| ensures !rest[k].MsgLine? {
      assert rest[k] == Script(c)[|Script(c)| - |rest| + k];
    }
    forall k | 0 <= k < |c.out| ensures !c.out[k].MsgLine? {
      assert c.out[k] == rest[k];
    }
    forall k | 0 <= k < |c.job| && c.phase == AwaitVars ensures !c.job[k].MsgLine? {
      assert c.job[k] == rest[|c.out| + k];
    }
  }

  lemma AcceptKeepsRelay(s: Sys)
    requires Inv(s) && Enabled(s, Accept)
    ensures RelayOk(Apply(s, Accept))
  {
    var r := Apply(s, Accept);
    if Settled(r) {
      forall a, b | 0 <= a < |r.clients| && 0 <= b < |r.clients| ensures ConservedAt(r, a, b) {
        NothingSentYet(s, a);
        NothingSentYet(s, b);
        NoMessages(s.clients[a].out, r.server.made[b].id);
      }
    }
  }

  lemma NothingSentYet(s: Sys, i: nat)
    requires Inv(s) && Enabled(s, Accept) && i < |s.clients|
    ensures var c := s.clients[i];
            && c.sent == [] && c.inbox == []
            && (forall k :: 0 <= k < |c.out| ==> !c.out[k].MsgLine?)
            && (i < |s.server.made| ==> s.server.made[i].out == [])
  {
    assert PairOk(s, i);
    if i < |s.server.made| {
      assert SlotOk(s.server, i);
      ScriptHasNoMessages(s.clients[i]);
    }
  }

  // ---------------------------------------------------------------------------------------------
  // Steps that carry no message
  // ---------------------------------------------------------------------------------------------

  /** Client and connection as far as messages are concerned: equal but for lines that are no messages. */
  ghost predicate SameTraffic(c: Client, p: Conn, c': Client, p': Conn) {
    && c'.sent == c.sent
    && c'.inbox == c.inbox
    && p'.id == p.id
    && (forall id :: Relayed(p'.out, id) == Relayed(p.out, id))
    && (forall id :: Written(c'.out, id) == Written(c.out, id))
  }

  lemma QuietStep(s: Sys, r: Sys)
    requires RelayOk(s)
    requires |s.clients| == |r.clients| && |s.server.made| == |r.server.made|
    requires |s.clients| == |s.server.made| ==>
               forall i :: 0 <= i < |s.clients| ==>
                 SameTraffic(s.clients[i], s.server.made[i], r.clients[i], r.server.made[i])
    ensures RelayOk(r)
  {
    if Settled(r) {
      assert Ids(s.server.made) == Ids(r.server.made);
      forall a, b | 0 <= a < |r.clients| && 0 <= b < |r.clients| ensures ConservedAt(r, a, b) {
        assert ConservedAt(s, a, b);
      }
    }
  }

  lemma SentQuiet(p: Conn, line: Downlink)
    requires !line.RelayLine?
    ensures forall id :: Relayed(Sent(p, line).out, id) == Relayed(p.out, id)
  {
    forall id ensures Relayed(Sent(p, line).out, id) == Relayed(p.out, id) {
      RelayedAppend(p.out, line, id);
    }
  }

  lemma WrittenQuiet(out: seq<Uplink>, line: Uplink)
    requires !line.MsgLine?
    ensures forall id :: Written(out + [line], id) == Written(out, id)
  {
    forall id ensures Written(out + [line], id) == Written(out, id) {
      WrittenAppend(out, line, id);
    }
  }

  lemma OfflineSilent(s: Sys, i: nat)
    requires Inv(s) && i < |s.clients| && s.clients[i].phase == Offline
    ensures s.clients[i].out == [] && |s.server.made| <= |s.clients|
  {
    assert PairOk(s, i);
  }

  lemma ConnectQuiet(s: Sys, i: nat, now: real)
    requires Inv(s) && RelayOk(s) && Enabled(s, Connect(i, now))
    ensures RelayOk(Apply(s, Connect(i, now)))
  {
    OfflineSilent(s, i);
    hide Inv;
    hide RelayOk;
    hide Written;
    hide Relayed;
    var c := s.clients[i];
    WrittenQuiet(c.out, TimeLine(now + c.clock));
    QuietStep(s, Apply(s, Connect(i, now)));
  }

  lemma PushQuiet(s: Sys)
    requires Inv(s) && RelayOk(s) && Enabled(s, PushIds)
    ensures RelayOk(Apply(s, PushIds))
  {
    var next := s.server.push.next;
    if next < |s.server.made| {
      SentQuiet(s.server.made[next], IdLine(s.server.made[next].id));
    }
    QuietStep(s, Apply(s, PushIds));
  }

  lemma WriteJobQuiet(s: Sys, i: nat)
    requires Inv(s) && RelayOk(s) && Enabled(s, WriteJob(i))
    ensures RelayOk(Apply(s, WriteJob(i)))
  {
    assert PairOk(s, i);
    var c := s.clients[i];
    ScriptHasNoMessages(c);
    WrittenQuiet(c.out, c.job[0]);
    QuietStep(s, Apply(s, WriteJob(i)));
  }

  lemma StartQuiet(s: Sys, now: real)
    requires Inv(s) && RelayOk(s) && Enabled(s, StartBody(now))
    ensures RelayOk(Apply(s, StartBody(now)))
  {
    hide StartStep;
    AllWait(s);
    StartEffect(s, now);
    var r := Apply(s, StartBody(now));
    forall i | 0 <= i < |s.clients|
      ensures SameTraffic(s.clients[i], s.server.made[i], r.clients[i], r.server.made[i])
    {
      BegunQuiet(s.server.made[i], now + s.server.delay);
    }
    QuietStep(s, r);
  }

  lemma BegunQuiet(p: Conn, start: real)
    requires HasOffset(p)
    ensures BegunConn(p, start).id == p.id
    ensures forall id :: Relayed(BegunConn(p, start).out, id) == Relayed(p.out, id)
  {
    SentQuiet(p.(phase := Running), GoLine(start + p.vars[TIME_OFFSET].n));
  }

  lemma ReadsReadyQuiet(s: Sys, i: nat, now: real, seed: int)
    requires Inv(s) && RelayOk(s) && Enabled(s, ServerReads(i, now, seed))
    requires s.server.made[i].phase == Init && s.clients[i].out[0] == ReadyLine
    ensures RelayOk(Apply(s, ServerReads(i, now, seed)))
  {
    hide OnLine;
    hide Paired;
    ReadyComesInOrder(s, i);
    ReadyEffect(s.server, i, now, seed);
    var r := Apply(s, ServerReads(i, now, seed));
    assert forall id :: Written(s.clients[i].out, id) == Written(s.clients[i].out[1..], id);
    forall j | 0 <= j < |s.server.made|
      ensures SameTraffic(s.clients[j], s.server.made[j], r.clients[j], r.server.made[j])
    {
      SentQuiet(s.server.made[j], ReadyTable(s.server, seed));
    }
    QuietStep(s, r);
  }

  lemma ReadsSetupQuiet(s: Sys, i: nat, now: real, seed: int)
    requires Inv(s) && RelayOk(s) && Enabled(s, ServerReads(i, now, seed))
    requires s.server.made[i].phase != Running
    requires !(s.server.made[i].phase == Init && s.clients[i].out[0] == ReadyLine)
    ensures RelayOk(Apply(s, ServerReads(i, now, seed)))
  {
    assert PairOk(s, i);
    NoMessageYet(s.clients[i], s.server.made[i], Pushed(s.server, i), Tabled(s.server), Ids(s.server.made));
    hide Paired;
    QuietLine(s.server, i, s.clients[i].out[0], now, seed);
    hide OnLine;
    var r := Apply(s, ServerReads(i, now, seed));
    assert forall id :: Written(s.clients[i].out, id) == Written(s.clients[i].out[1..], id);
    QuietStep(s, r);
  }

  lemma NoMessageYet(c: Client, p: Conn, pushed: bool, tabled: bool, ids: seq<int>)
    requires Paired(c, p, pushed, tabled, ids) && p.phase != Running && c.out != []
    ensures !c.out[0].MsgLine?
  {
    if p.phase == Init {
      ScriptHead(c);
    }
  }

  /** Outside the running state only a ready line makes the server write. */
  lemma QuietLine(s: Server, i: nat, line: Uplink, now: real, seed: int)
    requires SlotsExist(s) && i < |s.made| && s.made[i].phase != Running
    requires !(s.made[i].phase == Init && line == ReadyLine)
    ensures var r := OnLine(s, i, line, now, seed);
            && |r.made| == |s.made| && r.byId == s.byId
            && forall x :: 0 <= x < |s.made| ==> r.made[x].out == s.made[x].out && r.made[x].id == s.made[x].id
  {
  }

  lemma ClientReadsQuiet(s: Sys, i: nat, now: real)
    requires Inv(s) && RelayOk(s) && Enabled(s, ClientReads(i, now)) && s.clients[i].phase != Active
    ensures RelayOk(Apply(s, ClientReads(i, now)))
  {
    assert PairOk(s, i);
    var c, p := s.clients[i], s.server.made[i];
    assert !p.out[0].RelayLine?;
    assert forall id :: Relayed(p.out, id) == Relayed(p.out[1..], id);
    WrittenQuiet(c.out, VarsReceivedLine);
    var r := Apply(s, ClientReads(i, now));
    QuietStep(s, r);
  }

  // ---------------------------------------------------------------------------------------------
  // Steps that carry a message
  // ---------------------------------------------------------------------------------------------

  lemma SendKeepsRelay(s: Sys, i: nat, m: Message)
    requires Inv(s) && RelayOk(s) && Enabled(s, Send(i, m))
    ensures RelayOk(Apply(s, Send(i, m)))
  {
    hide Inv;
    var r := Apply(s, Send(i, m));
    if Settled(r) {
      forall a, b | 0 <= a < |r.clients| && 0 <= b < |r.clients| ensures ConservedAt(r, a, b) {
        assert ConservedAt(s, a, b);
        if a == i {
          var idB := s.server.made[b].id;
          WithAppend(s.clients[a].sent, m, idB);
          WrittenAppend(s.clients[a].out, MsgLine(m.peer, m.kind, m.body), idB);
        }
      }
    }
  }

  /** The state after an active client has read a line, spelled out. */
  lemma ActiveReadsEffect(s: Sys, i: nat, now: real)
    requires Inv(s) && Enabled(s, ClientReads(i, now)) && s.clients[i].phase == Active
    ensures var r := Apply(s, ClientReads(i, now));
            var c, p := s.clients[i], s.server.made[i];
            && p.out[0].RelayLine?
            && r.clients
               == s.clients[i := c.(inbox := c.inbox + [Message(p.out[0].from, p.out[0].kind, p.out[0].body)])]
            && r.server.made == s.server.made[i := p.(out := p.out[1..])]
  {
    assert PairOk(s, i);
  }

  lemma ActiveReadsKeepsRelay(s: Sys, i: nat, now: real)
    requires Inv(s) && RelayOk(s) && Enabled(s, ClientReads(i, now)) && s.clients[i].phase == Active
    ensures RelayOk(Apply(s, ClientReads(i, now)))
  {
    hide Apply;
    ActiveReadsEffect(s, i, now);
    var r := Apply(s, ClientReads(i, now));
    var line := s.server.made[i].out[0];
    if Settled(r) {
      assert Ids(s.server.made) == Ids(r.server.made);
      forall a, b | 0 <= a < |r.clients| && 0 <= b < |r.clients| ensures ConservedAt(r, a, b) {
        assert ConservedAt(s, a, b);
        if b == i {
          WithAppend(s.clients[b].inbox, Message(line.from, line.kind, line.body), s.server.made[a].id);
        }
      }
    }
  }

  /** The server after reading a message, spelled out. */
  lemma ReadsMessageEffect(s: Sys, i: nat, now: real, seed: int)
    requires Inv(s) && Enabled(s, ServerReads(i, now, seed)) && s.server.made[i].phase == Running
    ensures var r := Apply(s, ServerReads(i, now, seed));
            var line := s.clients[i].out[0];
            && line.MsgLine? && line.to in s.server.byId
            && var t := s.server.byId[line.to];
            && s.server.made[t].id == line.to
            && r.clients == s.clients[i := s.clients[i].(out := s.clients[i].out[1..])]
            && r.server.made == s.server.made[t := Sent(s.server.made[t],
                                                   RelayLine(s.server.made[i].id, line.kind, line.body))]
  {
    assert PairOk(s, i) && SlotOk(s.server, i);
  }

  lemma ReadsMessageKeepsRelay(s: Sys, i: nat, now: real, seed: int)
    requires Inv(s) && RelayOk(s) && Enabled(s, ServerReads(i, now, seed)) && s.server.made[i].phase == Running
    ensures RelayOk(Apply(s, ServerReads(i, now, seed)))
  {
    hide Apply;
    hide Paired;
    ReadsMessageEffect(s, i, now, seed);
    var r := Apply(s, ServerReads(i, now, seed));
    var line := s.clients[i].out[0];
    var t := s.server.byId[line.to];
    if Settled(r) {
      var ids := Ids(s.server.made);
      assert ids == Ids(r.server.made);
      forall a, b | 0 <= a < |r.clients| && 0 <= b < |r.clients| ensures ConservedAt(r, a, b) {
        assert ConservedAt(s, a, b);
        assert ids[a] == s.server.made[a].id && ids[b] == s.server.made[b].id;
        assert ids[i] == s.server.made[i].id && ids[t] == s.server.made[t].id;
        if b == t {
          RelayedAppend(s.server.made[b].out, RelayLine(ids[i], line.kind, line.body), ids[a]);
        }
      }
    }
  }

  lemma StepKeepsRelay(s: Sys, step: Step)
    requires Inv(s) && RelayOk(s) && Enabled(s, step)
    ensures RelayOk(Apply(s, step))
  {
    hide Inv;
    hide Apply;
    hide RelayOk;
    match step
    case Connect(i, now) => ConnectQuiet(s, i, now);
    case Accept => AcceptKeepsRelay(s);
    case PushIds => PushQuiet(s);
    case ServerReads(i, now, seed) =>
      if s.server.made[i].phase == Running {
        ReadsMessageKeepsRelay(s, i, now, seed);
      } else if s.server.made[i].phase == Init && s.clients[i].out[0] == ReadyLine {
        ReadsReadyQuiet(s, i, now, seed);
      } else {
        ReadsSetupQuiet(s, i, now, seed);
      }
    case StartBody(now) => StartQuiet(s, now);
    case ClientReads(i, now) =>
      if s.clients[i].phase == Active {
        ActiveReadsKeepsRelay(s, i, now);
      } else {
        ClientReadsQuiet(s, i, now);
      }
    case WriteJob(i) => WriteJobQuiet(s, i);
    case Send(i, message) => SendKeepsRelay(s, i, message);
  }

  lemma {:induction false} RunKeepsRelay(run: seq<Sys>, steps: seq<Step>, k: nat)
    requires IsRun(run, steps) && k < |run|
    ensures RelayOk(run[k])
  {
    hide Inv;
    hide Apply;
    if k > 0 {
      hide RelayOk;
      RunKeeps(run, steps, k - 1);
      RunKeepsRelay(run, steps, k - 1);
      StepKeepsRelay(run[k - 1], steps[k - 1]);
    }
  }

  /**
   With distinct ids, in every state of every run: what a sent to b is what b got from a, followed by what is
   still under way; so what b got is a prefix of what a sent.
   */
  lemma RelayConservation(run: seq<Sys>, steps: seq<Step>, k: nat, a: nat, b: nat)
    requires IsRun(run, steps) && k < |run|
    requires Settled(run[k]) && a < |run[k].clients| && b < |run[k].clients|
    ensures var s := run[k];
            var idA, idB := s.server.made[a].id, s.server.made[b].id;
            && With(s.clients[a].sent, idB)
                 == With(s.clients[b].inbox, idA) + Relayed(s.server.made[b].out, idA) + Written(s.clients[a].out, idB)
            && With(s.clients[b].inbox, idA) <= With(s.clients[a].sent, idB)
  {
    RunKeepsRelay(run, steps, k);
    assert ConservedAt(run[k], a, b);
  }
}
