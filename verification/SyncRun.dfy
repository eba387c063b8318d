/**
 Whole runs of the protocol without faults: one server, N clients, and a FIFO channel each way per client.
 Every line on every channel is acceptable to its receiver, set-up always makes progress, and it ends.

 Client i owns slot i: clients are numbered in the order in which the server accepts them.
 */
module SyncRun {
  import opened Wrappers
  import opened SyncModel
  import Counting

  datatype Sys = Sys(server: Server, clients: seq<Client>)

  datatype Step =
    | Connect(i: nat, now: real)
    | Accept
    | PushIds
    | ServerReads(i: nat, now: real, seed: int)
    | StartBody(now: real)
    | ClientReads(i: nat, now: real)
    | WriteJob(i: nat)
    | Send(i: nat, message: Message)

  // ---------------------------------------------------------------------------------------------
  // Steps
  // ---------------------------------------------------------------------------------------------

  /**
   Either side may be the first to be told of a connection; a client handles lines only once it was.
   Applications send only once their client runs, and only to ids of the table they were given; everything
   else is the protocol's own.
   */
  predicate Enabled(s: Sys, step: Step) {
    && SlotsExist(s.server)
    && |s.server.made| <= |s.clients|
    && !s.server.stopped
    && match step
       case Connect(i, _) => i < |s.clients| && s.clients[i].phase == Offline
       case Accept => |s.server.made| < |s.clients|
       case PushIds => PushEnabled(s.server)
       case ServerReads(i, _, _) => i < |s.server.made| && s.clients[i].out != []
       case StartBody(_) => s.server.pendingStarts > 0
       case ClientReads(i, _) => i < |s.server.made| && s.server.made[i].out != [] && s.clients[i].phase != Offline
       case WriteJob(i) => i < |s.clients| && s.clients[i].job != []
       case Send(i, message) => i < |s.clients| && s.clients[i].phase == Active && message.peer in s.clients[i].table
  }

  function SetClient(s: Sys, i: nat, c: Client): Sys
    requires i < |s.clients|
  {
    s.(clients := s.clients[i := c])
  }

  /** The server takes the oldest line of client i and handles it. */
  function ServerRead(s: Sys, i: nat, now: real, seed: int): Sys
    requires SlotsExist(s.server) && i < |s.server.made| <= |s.clients| && s.clients[i].out != []
  {
    var c := s.clients[i];
    SetClient(s, i, c.(out := c.out[1..])).(server := OnLine(s.server, i, c.out[0], now, seed))
  }

  /** Client i takes the oldest line the server wrote to it and handles it. */
  function ClientRead(s: Sys, i: nat, now: real): Sys
    requires i < |s.server.made| <= |s.clients| && s.server.made[i].out != []
  {
    var c := s.server.made[i];
    SetClient(s, i, OnDownlink(s.clients[i], c.out[0], now)).(server := SetConn(s.server, i, c.(out := c.out[1..])))
  }

  function Apply(s: Sys, step: Step): Sys
    requires Enabled(s, step)
  {
    match step
    case Connect(i, now) => SetClient(s, i, ConnectClient(s.clients[i], now))
    case Accept => s.(server := AfterMade(s.server, s.clients[|s.server.made|].host))
    case PushIds => s.(server := PushStep(s.server))
    case ServerReads(i, now, seed) => ServerRead(s, i, now, seed)
    case StartBody(now) => s.(server := StartStep(s.server, now))
    case ClientReads(i, now) => ClientRead(s, i, now)
    case WriteJob(i) => SetClient(s, i, JobStep(s.clients[i]))
    case Send(i, message) => SetClient(s, i, SendMessage(s.clients[i], message))
  }

  /** A client before it connects. */
  predicate Fresh(c: Client) {
    c == NewClient(c.host, c.clock, c.vars)
  }

  /** No client has connected; their variables may have any names. */
  predicate Unconnected(s: Sys) {
    && s.server == NewServer(|s.clients|, s.server.delay)
    && forall i :: 0 <= i < |s.clients| ==> Fresh(s.clients[i])
  }

  /** No variable of the client shadows the offset the server computes. */
  predicate Plain(c: Client) {
    forall k :: 0 <= k < |c.vars| ==> c.vars[k].0 != TIME_OFFSET
  }

  predicate AllPlain(s: Sys) {
    forall i :: 0 <= i < |s.clients| ==> Plain(s.clients[i])
  }

  /** The states that runs start in: of what happens with a variable that shadows the offset, see SyncShadow. */
  predicate Initial(s: Sys) {
    Unconnected(s) && AllPlain(s)
  }

  /** The steps lead through the states of the run, from whatever state it starts in. */
  ghost predicate Continues(run: seq<Sys>, steps: seq<Step>) {
    && |run| == |steps| + 1
    && forall k :: 0 <= k < |steps| ==> Enabled(run[k], steps[k]) && run[k + 1] == Apply(run[k], steps[k])
  }

  ghost predicate IsRun(run: seq<Sys>, steps: seq<Step>) {
    Continues(run, steps) && Initial(run[0])
  }

  // ---------------------------------------------------------------------------------------------
  // The invariant
  // ---------------------------------------------------------------------------------------------

  /** Everything a client writes before it is told the table. */
  function Script(c: Client): seq<Uplink> {
    [TimeLine(c.stamp + c.clock)] + Announcement(c)
  }

  /** What the client has yet to write of its script. */
  function ToCome(c: Client): seq<Uplink> {
    match c.phase
    case Offline => Script(c)
    case AwaitId => Announcement(c)
    case _ => c.job
  }

  function Suffix<T>(s: seq<T>, k: nat): seq<T>
    requires k <= |s|
  {
    s[|s| - k..]
  }

  /** The rest of the script, on the channel or still to be written. */
  ghost predicate InScript(c: Client) {
    var rest := c.out + ToCome(c);
    && 0 < |rest| <= |Script(c)|
    && rest == Suffix(Script(c), |rest|)
  }

  predicate PlainLines(lines: seq<Uplink>) {
    forall k :: 0 <= k < |lines| && lines[k].SetLine? ==> lines[k].key != TIME_OFFSET
  }

  /** There is an offset once the time line was read, and it is a number until a variable of its name was. */
  ghost predicate OffsetRead(script: seq<Uplink>, left: nat, vars: Vars)
    requires left <= |script|
  {
    && (TIME_OFFSET in vars <==> left < |script|)
    && (TIME_OFFSET in vars && vars[TIME_OFFSET].Num? <==> left < |script| && PlainLines(script[..|script| - left]))
  }

  /** The value that the last of the variables with this name has. */
  function LastValue(vars: seq<(string, string)>, name: string): Option<string> {
    if vars == [] then
      None
    else if vars[|vars| - 1].0 == name then
      Some(vars[|vars| - 1].1)
    else
      LastValue(vars[..|vars| - 1], name)
  }

  /** The variables other than the offset are those of the client, each with its last value. */
  ghost predicate VarsRead(sent: seq<(string, string)>, vars: Vars) {
    forall name :: name != TIME_OFFSET ==>
      match LastValue(sent, name)
      case None => name !in vars
      case Some(value) => name in vars && vars[name] == Text(value)
  }

  /** How many of the variables were read when the script has `left` lines left. */
  function SetsRead(vars: seq<(string, string)>, left: nat): (m: nat)
    ensures left > 0 ==> m <= |vars|
  {
    if left <= |vars| then |vars| + 1 - left else 0
  }

  /** There is an offset, which is a number if no variable of its name was sent, and all other variables are known. */
  ghost predicate VarsKnown(c: Client, p: Conn) {
    TIME_OFFSET in p.vars && (HasOffset(p) <==> Plain(c)) && VarsRead(c.vars, p.vars)
  }

  ghost predicate OnlyMessages(out: seq<Uplink>, ids: seq<int>) {
    forall k :: 0 <= k < |out| ==> out[k].MsgLine? && out[k].to in ids
  }

  ghost predicate OnlyRelays(out: seq<Downlink>) {
    forall k :: 0 <= k < |out| ==> out[k].RelayLine?
  }

  ghost predicate GoodTable(table: Table, ids: seq<int>) {
    && (forall id :: id in table <==> id in ids)
    && forall id :: id in table ==> TIME_OFFSET in table[id]
  }

  /** A client the server has not accepted. */
  ghost predicate Unaccepted(c: Client) {
    && c.job == []
    && c.sent == []
    && c.inbox == []
    && (c.phase == Offline || c.phase == AwaitId)
    && c.out == (if c.phase == Offline then [] else [TimeLine(c.stamp + c.clock)])
  }

  /**
   A client and its server-side connection: `pushed` if its id was sent, `tabled` if the table was, `ids` the
   ids of all connections.
   */
  ghost predicate Paired(c: Client, p: Conn, pushed: bool, tabled: bool, ids: seq<int>) {
    && (c.phase != Active ==> c.sent == [] && c.inbox == [])
    && match p.phase
       case Init =>
         && InScript(c)
         && OffsetRead(Script(c), |c.out + ToCome(c)|, p.vars)
         && VarsRead(c.vars[..SetsRead(c.vars, |c.out + ToCome(c)|)], p.vars)
         && (c.phase == Offline || c.phase == AwaitId || c.phase == AwaitVars)
         && (c.phase == Offline ==> c.out == [])
         && (c.phase != AwaitVars ==> c.job == [] && p.out == (if pushed then [IdLine(p.id)] else []))
         && (c.phase == AwaitVars ==> pushed && p.out == [] && c.myId == p.id)
       case VarsReceived =>
         && VarsKnown(c, p)
         && pushed
         && c.job == []
         && c.myId == p.id
         && (if c.phase == AwaitVars then
               && c.out == []
               && (if tabled then
                     |p.out| == 1 && p.out[0].TableLine? && GoodTable(p.out[0].table, ids) && p.id in ids
                   else
                     p.out == [])
             else
               c.phase == AwaitGo && tabled && c.out == [VarsReceivedLine] && p.out == [] && GoodTable(c.table, ids))
       case Wait =>
         && VarsKnown(c, p)
         && pushed && tabled
         && c.job == [] && c.out == [] && p.out == []
         && c.phase == AwaitGo
         && GoodTable(c.table, ids)
       case Running =>
         && VarsKnown(c, p)
         && pushed && tabled
         && c.job == []
         && GoodTable(c.table, ids)
         && (if c.phase == AwaitGo then
               c.out == [] && p.out != [] && p.out[0].GoLine? && OnlyRelays(p.out[1..])
             else
               c.phase == Active && OnlyMessages(c.out, ids) && OnlyRelays(p.out))
       case Done => false
  }

  ghost predicate Pushed(s: Server, i: nat) {
    s.push == Finished || (s.push.Waiting? && i < s.push.next)
  }

  ghost predicate Tabled(s: Server) {
    |s.ready| == s.expected
  }

  /** start_experiment has run. */
  ghost predicate Begun(s: Server) {
    |s.received| == s.expected > 0 && s.pendingStarts == 0
  }

  ghost predicate PairOk(s: Sys, i: nat)
    requires i < |s.clients|
  {
    && !s.clients[i].failed
    && if i < |s.server.made| then
         Paired(s.clients[i], s.server.made[i], Pushed(s.server, i), Tabled(s.server), Ids(s.server.made))
       else
         Unaccepted(s.clients[i])
  }

  /** What the lists and scheduled bodies of the server say about slot i. */
  ghost predicate SlotOk(s: Server, i: nat)
    requires i < |s.made|
  {
    var p := s.made[i];
    && (p.phase == Init <==> i >= |s.ready|)
    && (p.resolved <==> p.phase != Init)
    && (i in s.received <==> p.phase == Wait || p.phase == Running)
    && (p.phase == Running <==> Begun(s))
  }

  /** The connections are registered under their ids. */
  ghost predicate ById(byId: map<int, nat>, made: seq<Conn>) {
    && (forall id :: id in byId <==> id in Ids(made))
    && (forall id :: id in byId ==> byId[id] < |made| && made[byId[id]].id == id)
  }

  ghost predicate ServerOk(s: Server) {
    && SlotsExist(s)
    && !s.stopped
    && !s.failed
    && |s.made| <= s.expected
    && |s.ready| <= |s.made|
    && (forall k :: 0 <= k < |s.ready| ==> s.ready[k] == k)
    && Counting.Distinct(s.received)
    && (match s.push
        case Idle => (|s.made| < s.expected || s.expected == 0) && s.ready == []
        case Waiting(next) =>
          && |s.made| == s.expected > 0
          && next <= |s.made|
          && |s.ready| <= next <= |s.ready| + 1
        case Finished => |s.ready| == |s.made| == s.expected > 0)
    && (s.pendingStarts > 0 ==> |s.received| == s.expected > 0 && s.pendingStarts == 1)
    && (if Begun(s) then ById(s.byId, s.made) else s.byId == map[])
    && forall i :: 0 <= i < |s.made| ==> SlotOk(s, i)
  }

  /** What every step keeps, except that a start needs plain variables. */
  ghost predicate Core(s: Sys) {
    && s.server.expected == |s.clients|
    && ServerOk(s.server)
    && forall i :: 0 <= i < |s.clients| ==> PairOk(s, i)
  }

  ghost predicate Inv(s: Sys) {
    Core(s) && AllPlain(s)
  }

  // ---------------------------------------------------------------------------------------------
  // Every step keeps the invariant
  // ---------------------------------------------------------------------------------------------

  lemma InitialCore(s: Sys)
    requires Unconnected(s)
    ensures Core(s)
  {
    forall i | 0 <= i < |s.clients| ensures PairOk(s, i) {
      assert Fresh(s.clients[i]);
    }
  }

  lemma ConnectKeeps(s: Sys, i: nat, now: real)
    requires Core(s) && Enabled(s, Connect(i, now))
    ensures Core(Apply(s, Connect(i, now)))
  {
    hide VarsRead;
    assert PairOk(s, i);
    var c := ConnectClient(s.clients[i], now);
    assert c.out + ToCome(c) == Script(c);
    ClientChangeKeeps(s, i, c);
  }

  lemma AcceptKeeps(s: Sys)
    requires Core(s) && Enabled(s, Accept)
    ensures Core(Apply(s, Accept))
  {
    hide Paired;
    var r := Apply(s, Accept);
    var m := |s.server.made|;
    assert PairOk(s, m);
    Counting.CoversAll(s.server.received, m);
    forall j | 0 <= j < |r.server.made| ensures SlotOk(r.server, j) {
      if j < m {
        assert SlotOk(s.server, j);
      }
    }
    forall j | 0 <= j < |r.clients| ensures PairOk(r, j) {
      assert PairOk(s, j);
      if j < m {
        assert SlotOk(s.server, j);
        RenumberedPair(s.clients[j], s.server.made[j], r.server.made[j].id, Ids(s.server.made), Ids(r.server.made));
      } else if j == m {
        AcceptedPair(s.clients[m], r.server.made[m], Ids(r.server.made));
      }
    }
  }

  lemma AcceptedPair(c: Client, p: Conn, ids: seq<int>)
    requires Unaccepted(c)
    requires p.phase == Init && p.out == [] && p.vars == map[]
    ensures Paired(c, p, false, false, ids)
  {
    assert c.out + ToCome(c) == Script(c);
  }

  lemma RenumberedPair(c: Client, p: Conn, id: int, ids: seq<int>, ids': seq<int>)
    requires Paired(c, p, false, false, ids) && p.phase == Init
    ensures Paired(c, p.(id := id), false, false, ids')
  {
  }

  lemma PushKeeps(s: Sys)
    requires Core(s) && Enabled(s, PushIds)
    ensures Core(Apply(s, PushIds))
  {
    hide Paired;
    var r := Apply(s, PushIds);
    var next := s.server.push.next;
    if next > 0 {
      assert SlotOk(s.server, next - 1);
    }
    assert Ids(r.server.made) == Ids(s.server.made);
    if next < |s.server.made| {
      assert SlotOk(s.server, next);
      assert PairOk(s, next);
      PushedPair(s.clients[next], s.server.made[next], Tabled(s.server), Ids(s.server.made));
    }
    forall j | 0 <= j < |r.server.made| ensures SlotOk(r.server, j) {
      assert SlotOk(s.server, j);
    }
    forall j | 0 <= j < |r.clients| ensures PairOk(r, j) {
      assert PairOk(s, j);
    }
  }

  lemma PushedPair(c: Client, p: Conn, tabled: bool, ids: seq<int>)
    requires Paired(c, p, false, tabled, ids) && p.phase == Init
    ensures Paired(c, Sent(p.(resolved := false), IdLine(p.id)), true, tabled, ids)
  {
  }

  /** A step that changes only client i keeps the invariant if it keeps the pair. */
  lemma ClientChangeKeeps(s: Sys, i: nat, c: Client)
    requires Core(s) && i < |s.clients|
    requires PairOk(SetClient(s, i, c), i)
    ensures Core(SetClient(s, i, c))
  {
    hide Paired;
    var r := SetClient(s, i, c);
    forall j | 0 <= j < |r.clients| ensures PairOk(r, j) {
      assert PairOk(s, j);
    }
  }

  lemma JobPair(c: Client)
    requires c.job != [] && c.phase == AwaitVars && InScript(c)
    ensures InScript(JobStep(c)) && Script(JobStep(c)) == Script(c)
    ensures JobStep(c).out + ToCome(JobStep(c)) == c.out + ToCome(c)
  {
    var c' := JobStep(c);
    assert c'.out + ToCome(c') == c.out + ToCome(c);
    ScriptKept(c, c');
  }

  lemma WriteJobKeeps(s: Sys, i: nat)
    requires Core(s) && Enabled(s, WriteJob(i))
    ensures Core(Apply(s, WriteJob(i)))
  {
    assert PairOk(s, i);
    var c' := JobStep(s.clients[i]);
    JobPair(s.clients[i]);
    hide InScript;
    hide Script;
    ClientChangeKeeps(s, i, c');
  }

  lemma SendKeeps(s: Sys, i: nat, m: Message)
    requires Core(s) && Enabled(s, Send(i, m))
    ensures Core(Apply(s, Send(i, m)))
  {
    assert PairOk(s, i);
    ClientChangeKeeps(s, i, SendMessage(s.clients[i], m));
  }

  // The client reads ------------------------------------------------------------------------------

  lemma ClientReadsPair(c: Client, p: Conn, pushed: bool, tabled: bool, ids: seq<int>, now: real)
    requires Paired(c, p, pushed, tabled, ids) && p.out != [] && !c.failed
    requires c.phase != Active && c.phase != Offline
    ensures Paired(OnDownlink(c, p.out[0], now), p.(out := p.out[1..]), pushed, tabled, ids)
    ensures !OnDownlink(c, p.out[0], now).failed
  {
    if c.phase == AwaitId {
      IdReadsPair(c, p, pushed, tabled, ids, now);
    } else {
      hide InScript;
    }
  }

  lemma ScriptKept(c: Client, c': Client)
    requires InScript(c) && c'.vars == c.vars && c'.stamp == c.stamp && c'.clock == c.clock
    requires c'.out + ToCome(c') == c.out + ToCome(c)
    ensures InScript(c')
  {
    assert Script(c') == Script(c);
  }

  lemma IdReadsPair(c: Client, p: Conn, pushed: bool, tabled: bool, ids: seq<int>, now: real)
    requires Paired(c, p, pushed, tabled, ids) && p.out != [] && !c.failed && c.phase == AwaitId
    ensures Paired(OnDownlink(c, p.out[0], now), p.(out := p.out[1..]), pushed, tabled, ids)
    ensures !OnDownlink(c, p.out[0], now).failed
  {
    AwaitsId(c, p, pushed, tabled, ids);
    IdReadPair(c, p, pushed, tabled, ids);
    hide Paired;
    hide InScript;
    hide Announcement;
    assert p.out == [IdLine(p.id)] && p.out[1..] == [];
  }

  function WithId(c: Client, id: int): Client {
    c.(phase := AwaitVars, myId := id, job := Announcement(c))
  }

  lemma WithIdScript(c: Client, id: int)
    requires c.phase == AwaitId && InScript(c)
    ensures var c' := WithId(c, id);
            InScript(c') && Script(c') == Script(c) && c'.out + ToCome(c') == c.out + ToCome(c)
  {
    ScriptKept(c, WithId(c, id));
  }

  lemma IdReadPair(c: Client, p: Conn, pushed: bool, tabled: bool, ids: seq<int>)
    requires c.phase == AwaitId && p.phase == Init && pushed && InScript(c) && c.sent == [] && c.inbox == []
    requires OffsetRead(Script(c), |c.out + ToCome(c)|, p.vars)
    requires VarsRead(c.vars[..SetsRead(c.vars, |c.out + ToCome(c)|)], p.vars)
    ensures Paired(WithId(c, p.id), p.(out := []), pushed, tabled, ids)
  {
    hide InScript;
    hide Script;
    hide ToCome;
    hide Announcement;
    hide VarsRead;
    hide OffsetRead;
    hide SetsRead;
    WithIdScript(c, p.id);
  }

  /** A client that awaits its id has written its time line at most. */
  lemma AwaitsId(c: Client, p: Conn, pushed: bool, tabled: bool, ids: seq<int>)
    requires c.phase == AwaitId && Paired(c, p, pushed, tabled, ids)
    ensures p.phase == Init && InScript(c) && c.sent == [] && c.inbox == []
    ensures OffsetRead(Script(c), |c.out + ToCome(c)|, p.vars)
    ensures VarsRead(c.vars[..SetsRead(c.vars, |c.out + ToCome(c)|)], p.vars)
    ensures p.out == if pushed then [IdLine(p.id)] else []
  {
    hide InScript;
  }

  lemma ActiveReadsPair(c: Client, p: Conn, pushed: bool, tabled: bool, ids: seq<int>, now: real)
    requires Paired(c, p, pushed, tabled, ids) && p.out != [] && !c.failed
    requires c.phase == Active
    ensures Paired(OnDownlink(c, p.out[0], now), p.(out := p.out[1..]), pushed, tabled, ids)
    ensures !OnDownlink(c, p.out[0], now).failed
  {
  }

  lemma ClientReadsKeeps(s: Sys, i: nat, now: real)
    requires Core(s) && Enabled(s, ClientReads(i, now))
    ensures Core(Apply(s, ClientReads(i, now)))
  {
    hide Paired;
    hide OnDownlink;
    var r := Apply(s, ClientReads(i, now));
    assert PairOk(s, i);
    var c, p := s.clients[i], s.server.made[i];
    if c.phase == Active {
      ActiveReadsPair(c, p, Pushed(s.server, i), Tabled(s.server), Ids(s.server.made), now);
    } else {
      ClientReadsPair(c, p, Pushed(s.server, i), Tabled(s.server), Ids(s.server.made), now);
    }
    assert Ids(r.server.made) == Ids(s.server.made);
    forall j | 0 <= j < |r.server.made| ensures SlotOk(r.server, j) {
      assert SlotOk(s.server, j);
    }
    forall j | 0 <= j < |r.clients| ensures PairOk(r, j) {
      assert PairOk(s, j);
    }
  }

  // The server reads set-up lines -----------------------------------------------------------------

  /** What comes first in the rest of the script. */
  lemma ScriptHead(c: Client)
    requires InScript(c) && c.out != []
    ensures var left := |c.out + ToCome(c)|;
            && (left == |Script(c)| ==> c.out[0] == TimeLine(c.stamp + c.clock))
            && (1 < left < |Script(c)| ==>
                  exists k :: 0 <= k < |c.vars| && c.out[0] == SetLine(c.vars[k].0, c.vars[k].1))
            && (left == 1 <==> c.out[0] == ReadyLine)
  {
    var rest := c.out + ToCome(c);
    assert c.out[0] == rest[0] == Script(c)[|Script(c)| - |rest|];
    if 1 < |rest| < |Script(c)| {
      var k := |Script(c)| - |rest| - 1;
      assert c.out[0] == SetLine(c.vars[k].0, c.vars[k].1);
    }
  }

  /** What a connection does with the variables on the time line or a set line. */
  predicate Takes(line: Uplink, vars: Vars, vars': Vars) {
    match line
    case TimeLine(_) =>
      TIME_OFFSET in vars' && vars'[TIME_OFFSET].Num? && vars' == vars[TIME_OFFSET := vars'[TIME_OFFSET]]
    case SetLine(key, value) => vars' == vars[key := Text(value)]
    case _ => false
  }

  lemma OffsetAfter(script: seq<Uplink>, left: nat, vars: Vars, vars': Vars)
    requires 0 < left <= |script| && OffsetRead(script, left, vars)
    requires Takes(script[|script| - left], vars, vars')
    requires left == |script| <==> script[|script| - left].TimeLine?
    ensures OffsetRead(script, left - 1, vars')
  {
    var n := |script| - left;
    assert script[..n + 1] == script[..n] + [script[n]];
    assert left == |script| ==> script[..n] == [];
    assert PlainLines(script[..n + 1]) <==> PlainLines(script[..n]) && PlainLines([script[n]]);
  }

  /** One more set line read. */
  lemma {:induction false} VarsAfter(sent: seq<(string, string)>, m: nat, vars: Vars, vars': Vars)
    requires m < |sent| && VarsRead(sent[..m], vars) && Takes(SetLine(sent[m].0, sent[m].1), vars, vars')
    ensures VarsRead(sent[..m + 1], vars')
  {
    assert sent[..m + 1][..m] == sent[..m];
  }

  /** What the variables are after the line that the server takes, with `left` lines of the script left before it. */
  lemma {:induction false} SetupVars(c: Client, left: nat, vars: Vars, vars': Vars)
    requires 1 < left <= |Script(c)| && VarsRead(c.vars[..SetsRead(c.vars, left)], vars)
    requires Takes(Script(c)[|Script(c)| - left], vars, vars')
    ensures VarsRead(c.vars[..SetsRead(c.vars, left - 1)], vars')
  {
    var line := Script(c)[|Script(c)| - left];
    if left == |Script(c)| {
      assert line == TimeLine(c.stamp + c.clock);
      assert c.vars[..0] == [];
    } else {
      var m := SetsRead(c.vars, left);
      assert m == |c.vars| + 1 - left;
      assert line == SetLine(c.vars[m].0, c.vars[m].1);
      VarsAfter(c.vars, m, vars, vars');
    }
  }

  lemma SetupPair(c: Client, p: Conn, pushed: bool, tabled: bool, ids: seq<int>, v: Vars, at: real)
    requires p.phase == Init && c.out != [] && c.out[0] != ReadyLine
    requires Paired(c, p, pushed, tabled, ids) && Takes(c.out[0], p.vars, v)
    ensures Paired(c.(out := c.out[1..]), p.(vars := v, offsetAt := at), pushed, tabled, ids)
  {
    SetupScript(c);
    hide InScript;
    hide Script;
    hide ToCome;
    OffsetAfter(Script(c), |c.out + ToCome(c)|, p.vars, v);
    SetupVars(c, |c.out + ToCome(c)|, p.vars, v);
    hide OffsetRead;
    hide VarsRead;
    hide Takes;
  }

  /** The script after the server has taken a line other than ready off it. */
  lemma SetupScript(c: Client)
    requires InScript(c) && c.out != [] && c.out[0] != ReadyLine
    ensures var c', left := c.(out := c.out[1..]), |c.out + ToCome(c)|;
            && InScript(c') && Script(c') == Script(c) && |c'.out + ToCome(c')| == left - 1
            && 0 < left <= |Script(c)| && c.out[0] == Script(c)[|Script(c)| - left]
            && (left == |Script(c)| <==> c.out[0].TimeLine?)
  {
    ScriptHead(c);
    var c' := c.(out := c.out[1..]);
    assert c'.out + ToCome(c') == (c.out + ToCome(c))[1..];
  }

  /** A set-up line other than ready is the time line or sets a variable. */
  lemma SetupLine(c: Client, p: Conn, pushed: bool, tabled: bool, ids: seq<int>)
    requires p.phase == Init && c.out != [] && c.out[0] != ReadyLine && Paired(c, p, pushed, tabled, ids)
    ensures c.out[0].TimeLine? || c.out[0].SetLine?
  {
    ScriptHead(c);
  }

  lemma SetupEffect(s: Server, i: nat, line: Uplink, now: real, seed: int)
    requires SlotsExist(s) && i < |s.made| && s.made[i].phase == Init && (line.TimeLine? || line.SetLine?)
    ensures var r := OnLine(s, i, line, now, seed);
            && i < |r.made| && Takes(line, s.made[i].vars, r.made[i].vars)
            && r == SetConn(s, i, s.made[i].(vars := r.made[i].vars, offsetAt := r.made[i].offsetAt))
  {
  }

  lemma SetupHead(s: Sys, i: nat)
    requires Core(s) && i < |s.server.made| && s.server.made[i].phase == Init
    requires s.clients[i].out != [] && s.clients[i].out[0] != ReadyLine
    ensures SlotsExist(s.server) && (s.clients[i].out[0].TimeLine? || s.clients[i].out[0].SetLine?)
  {
    assert PairOk(s, i);
    hide Paired;
    SetupLine(s.clients[i], s.server.made[i], Pushed(s.server, i), Tabled(s.server), Ids(s.server.made));
  }

  lemma SetupStep(s: Sys, i: nat, v: Vars, at: real)
    requires Core(s) && i < |s.server.made| && s.server.made[i].phase == Init
    requires s.clients[i].out != [] && s.clients[i].out[0] != ReadyLine
    requires Takes(s.clients[i].out[0], s.server.made[i].vars, v)
    ensures Core(SetClient(s, i, s.clients[i].(out := s.clients[i].out[1..]))
                 .(server := SetConn(s.server, i, s.server.made[i].(vars := v, offsetAt := at))))
  {
    hide Paired;
    hide Takes;
    assert PairOk(s, i);
    SetupPair(s.clients[i], s.server.made[i], Pushed(s.server, i), Tabled(s.server), Ids(s.server.made), v, at);
    ServerChangeKeeps(s, i, s.clients[i].(out := s.clients[i].out[1..]),
                      s.server.made[i].(vars := v, offsetAt := at));
  }

  lemma ReadsSetupKeeps(s: Sys, i: nat, now: real, seed: int)
    requires Core(s) && Enabled(s, ServerReads(i, now, seed))
    requires s.server.made[i].phase == Init && s.clients[i].out[0] != ReadyLine
    ensures Core(Apply(s, ServerReads(i, now, seed)))
  {
    SetupHead(s, i);
    hide Core;
    hide Takes;
    SetupEffect(s.server, i, s.clients[i].out[0], now, seed);
    hide OnLine;
    hide SlotsExist;
    var q := OnLine(s.server, i, s.clients[i].out[0], now, seed).made[i];
    SetupStep(s, i, q.vars, q.offsetAt);
  }

  /** A step that changes only the pair of client i, and no phase, keeps the invariant if it keeps the pair. */
  lemma ServerChangeKeeps(s: Sys, i: nat, c: Client, p: Conn)
    requires Core(s) && i < |s.server.made|
    requires p == s.server.made[i].(vars := p.vars, offsetAt := p.offsetAt, out := p.out)
    requires !c.failed
    requires Paired(c, p, Pushed(s.server, i), Tabled(s.server), Ids(s.server.made))
    ensures Core(SetClient(s, i, c).(server := SetConn(s.server, i, p)))
  {
    hide Paired;
    var r := SetClient(s, i, c).(server := SetConn(s.server, i, p));
    assert Ids(r.server.made) == Ids(s.server.made);
    assert PairOk(s, i);
    forall j | 0 <= j < |r.server.made| ensures SlotOk(r.server, j) {
      assert SlotOk(s.server, j);
    }
    forall j | 0 <= j < |r.clients| ensures PairOk(r, j) {
      assert PairOk(s, j);
    }
  }

  // The server reads ready ------------------------------------------------------------------------

  predicate Iota(s: seq<nat>) {
    forall k :: 0 <= k < |s| ==> s[k] == k
  }

  lemma {:induction false} SendAllIota(made: seq<Conn>, targets: seq<nat>, line: Downlink)
    requires Iota(targets) && |targets| <= |made|
    ensures forall x :: 0 <= x < |made| ==>
              SendAll(made, targets, line)[x] == if x < |targets| then Sent(made[x], line) else made[x]
  {
    if targets != [] {
      SendAllIota(made, targets[..|targets| - 1], line);
    }
  }

  lemma {:induction false} TableOfIota(made: seq<Conn>, ready: seq<nat>)
    requires Iota(ready) && |ready| <= |made|
    requires forall x :: 0 <= x < |ready| ==> TIME_OFFSET in made[x].vars
    ensures GoodTable(TableOf(made, ready), Ids(made)[..|ready|])
  {
    if ready != [] {
      var last := |ready| - 1;
      TableOfIota(made, ready[..last]);
      assert Ids(made)[..|ready|] == Ids(made)[..last] + [made[last].id];
    }
  }

  /** A ready line comes from the subscriber whose id was pushed last, and the list of ready ones is in order. */
  lemma ReadyComesInOrder(s: Sys, i: nat)
    requires Core(s) && i < |s.server.made| && s.server.made[i].phase == Init
    requires s.clients[i].out != [] && s.clients[i].out[0] == ReadyLine
    ensures i == |s.server.ready|
    ensures s.server.push == Waiting(i + 1)
    ensures s.clients[i].phase == AwaitVars && s.clients[i].job == [] && s.clients[i].out == [ReadyLine]
    ensures VarsKnown(s.clients[i], s.server.made[i])
  {
    hide VarsRead;
    assert PairOk(s, i);
    assert SlotOk(s.server, i);
    var c := s.clients[i];
    ScriptHead(c);
    assert |c.out + ToCome(c)| == 1;
    ScriptPlain(c);
    assert SetsRead(c.vars, 1) == |c.vars| && c.vars[..|c.vars|] == c.vars;
  }

  /** All of the script but the ready line is plain exactly if the variables are. */
  lemma ScriptPlain(c: Client)
    ensures PlainLines(Script(c)[..|Script(c)| - 1]) <==> Plain(c)
  {
    var lines := Script(c)[..|Script(c)| - 1];
    assert lines == [TimeLine(c.stamp + c.clock)] + SetLines(c.vars);
    forall k | 0 <= k < |c.vars| ensures lines[k + 1] == SetLine(c.vars[k].0, c.vars[k].1) {
    }
    if PlainLines(lines) {
      forall k | 0 <= k < |c.vars| ensures c.vars[k].0 != TIME_OFFSET {
        assert lines[k + 1].SetLine?;
      }
    }
    if Plain(c) {
      forall k | 0 <= k < |lines| && lines[k].SetLine? ensures lines[k].key != TIME_OFFSET {
        assert lines[k] == SetLine(c.vars[k - 1].0, c.vars[k - 1].1);
      }
    }
  }

  /** The server after a ready line of subscriber i, spelled out per connection. */
  lemma ReadyEffect(s: Server, i: nat, now: real, seed: int)
    requires ServerOk(s) && i < |s.made| && s.made[i].phase == Init && i == |s.ready|
    ensures var r := OnLine(s, i, ReadyLine, now, seed);
            && |r.made| == |s.made|
            && r == s.(made := r.made, ready := s.ready + [i], pushes := r.pushes)
            && (forall x :: 0 <= x < |s.made| && x != i ==>
                  r.made[x] == if i + 1 == s.expected then Sent(s.made[x], ReadyTable(s, seed)) else s.made[x])
            && r.made[i] == (if i + 1 == s.expected then Sent(s.made[i], ReadyTable(s, seed)) else s.made[i])
                            .(ready := true, resolved := true, phase := VarsReceived)
  {
    assert SlotOk(s, i);
    var s1 := SetConn(s, i, s.made[i].(ready := true));
    var list := s.ready + [i];
    assert Iota(list);
    SendAllIota(s1.made, list, ReadyTable(s, seed));
  }

  /** The line that carries the table when the last subscriber gets ready. */
  function ReadyTable(s: Server, seed: int): Downlink
    requires SlotsExist(s) && |s.ready| < |s.made|
  {
    var i := |s.ready|;
    TableLine(TableOf(s.made[i := s.made[i].(ready := true)], s.ready + [i]), seed)
  }

  lemma ReadyTableGood(s: Server, seed: int)
    requires SlotsExist(s) && Iota(s.ready) && |s.made| == |s.ready| + 1
    requires forall x :: 0 <= x < |s.made| ==> TIME_OFFSET in s.made[x].vars
    ensures GoodTable(ReadyTable(s, seed).table, Ids(s.made))
  {
    var i := |s.ready|;
    var made := s.made[i := s.made[i].(ready := true)];
    TableOfIota(made, s.ready + [i]);
    assert Ids(made)[..|s.made|] == Ids(s.made);
  }

  lemma ReadyPair(c: Client, p: Conn, ids: seq<int>)
    requires Paired(c, p, true, false, ids) && p.phase == Init
    requires c.phase == AwaitVars && c.job == [] && c.out == [ReadyLine] && VarsKnown(c, p)
    ensures Paired(c.(out := []), p.(ready := true, resolved := true, phase := VarsReceived), true, false, ids)
  {
  }

  lemma TabledPair(c: Client, p: Conn, line: Downlink, ids: seq<int>)
    requires Paired(c, p, true, false, ids) && p.phase == VarsReceived
    requires line.TableLine? && GoodTable(line.table, ids) && p.id in ids
    ensures Paired(c, Sent(p, line), true, true, ids)
  {
  }

  lemma PairPhase(c: Client, p: Conn, pushed: bool, tabled: bool, ids: seq<int>)
    requires Paired(c, p, pushed, tabled, ids)
    ensures p.phase != Init ==> VarsKnown(c, p) && pushed
    ensures p.phase == Wait || p.phase == Running ==> tabled
    ensures p.phase != Done
  {
  }

  lemma ReadyPairs(s: Sys, i: nat, j: nat, p: Conn, seed: int)
    requires Core(s) && i < |s.server.made| && j < |s.server.made| && s.server.made[i].phase == Init
    requires s.clients[i].out != [] && s.clients[i].out[0] == ReadyLine && i == |s.server.ready|
    requires p == if j == i then s.server.made[j].(ready := true, resolved := true, phase := VarsReceived)
                  else s.server.made[j]
    ensures var c := if j == i then s.clients[j].(out := []) else s.clients[j];
            var full := i + 1 == s.server.expected;
            var q := if full then Sent(p, ReadyTable(s.server, seed)) else p;
            Paired(c, q, Pushed(s.server, j), full, Ids(s.server.made))
  {
    hide Paired;
    ReadyComesInOrder(s, i);
    assert PairOk(s, j) && SlotOk(s.server, j);
    var ids := Ids(s.server.made);
    var c := if j == i then s.clients[j].(out := []) else s.clients[j];
    if j == i {
      ReadyPair(s.clients[j], s.server.made[j], ids);
    }
    if i + 1 == s.server.expected {
      assert |s.server.made| == i + 1;
      forall x | 0 <= x < |s.server.made| ensures TIME_OFFSET in s.server.made[x].vars {
        assert PairOk(s, x) && SlotOk(s.server, x);
        PairPhase(s.clients[x], s.server.made[x], Pushed(s.server, x), Tabled(s.server), ids);
      }
      ReadyTableGood(s.server, seed);
      PairPhase(s.clients[j], s.server.made[j], Pushed(s.server, j), Tabled(s.server), ids);
      assert ids[j] == p.id;
      TabledPair(c, p, ReadyTable(s.server, seed), ids);
    }
  }

  lemma ReadyServer(s: Sys, i: nat, now: real, seed: int)
    requires Core(s) && i < |s.server.made| && s.clients[i].out != []
    requires s.server.made[i].phase == Init && s.clients[i].out[0] == ReadyLine
    ensures ServerOk(OnLine(s.server, i, ReadyLine, now, seed))
  {
    hide Paired;
    hide OnLine;
    ReadyComesInOrder(s, i);
    ReadyEffect(s.server, i, now, seed);
    var r := OnLine(s.server, i, ReadyLine, now, seed);
    assert Ids(r.made) == Ids(s.server.made);
    forall j | 0 <= j < |r.made| ensures SlotOk(r, j) {
      assert SlotOk(s.server, j);
    }
  }

  lemma ReadsReadyKeeps(s: Sys, i: nat, now: real, seed: int)
    requires Core(s) && Enabled(s, ServerReads(i, now, seed))
    requires s.server.made[i].phase == Init && s.clients[i].out[0] == ReadyLine
    ensures Core(Apply(s, ServerReads(i, now, seed)))
  {
    hide Paired;
    hide OnLine;
    ReadyComesInOrder(s, i);
    ReadyEffect(s.server, i, now, seed);
    ReadyServer(s, i, now, seed);
    hide ServerOk;
    var r := Apply(s, ServerReads(i, now, seed));
    assert Ids(r.server.made) == Ids(s.server.made);
    forall j | 0 <= j < |r.clients| ensures PairOk(r, j) {
      assert PairOk(s, j);
      if j < |r.server.made| {
        var p := s.server.made[j];
        var p' := if j == i then p.(ready := true, resolved := true, phase := VarsReceived) else p;
        ReadyPairs(s, i, j, p', seed);
        assert r.clients[j] == if j == i then s.clients[j].(out := []) else s.clients[j];
        assert r.server.made[j] == if i + 1 == s.server.expected then Sent(p', ReadyTable(s.server, seed)) else p';
      }
    }
  }

  // The server reads vars_received ----------------------------------------------------------------

  lemma ReceivedPair(c: Client, p: Conn, pushed: bool, tabled: bool, ids: seq<int>)
    requires Paired(c, p, pushed, tabled, ids) && p.phase == VarsReceived && c.out != []
    ensures c.out[0] == VarsReceivedLine
    ensures Paired(c.(out := c.out[1..]), p.(phase := Wait), pushed, tabled, ids)
  {
  }

  lemma ReadsReceivedKeeps(s: Sys, i: nat, now: real, seed: int)
    requires Core(s) && Enabled(s, ServerReads(i, now, seed))
    requires s.server.made[i].phase == VarsReceived
    ensures Core(Apply(s, ServerReads(i, now, seed)))
  {
    hide Paired;
    var r := Apply(s, ServerReads(i, now, seed));
    assert PairOk(s, i) && SlotOk(s.server, i);
    ReceivedPair(s.clients[i], s.server.made[i], Pushed(s.server, i), Tabled(s.server), Ids(s.server.made));
    assert r.server.received == s.server.received + [i];
    Counting.CoversAll(r.server.received, |s.server.made|);
    assert Ids(r.server.made) == Ids(s.server.made);
    forall j | 0 <= j < |r.server.made| ensures SlotOk(r.server, j) {
      assert SlotOk(s.server, j);
      assert j in r.server.received <==> j in s.server.received || j == i;
    }
    forall j | 0 <= j < |r.clients| ensures PairOk(r, j) {
      assert PairOk(s, j);
    }
  }

  // The server reads a message --------------------------------------------------------------------

  lemma MessagePair(c: Client, p: Conn, pushed: bool, tabled: bool, ids: seq<int>)
    requires Paired(c, p, pushed, tabled, ids) && p.phase == Running && c.out != []
    ensures c.out[0].MsgLine? && c.out[0].to in ids
    ensures Paired(c.(out := c.out[1..]), p, pushed, tabled, ids)
  {
  }

  lemma RelayedPair(c: Client, p: Conn, pushed: bool, tabled: bool, ids: seq<int>, line: Downlink)
    requires Paired(c, p, pushed, tabled, ids) && p.phase == Running && line.RelayLine?
    ensures Paired(c, Sent(p, line), pushed, tabled, ids)
  {
  }

  lemma ReadsMessageKeeps(s: Sys, i: nat, now: real, seed: int)
    requires Core(s) && Enabled(s, ServerReads(i, now, seed))
    requires s.server.made[i].phase == Running
    ensures Core(Apply(s, ServerReads(i, now, seed)))
  {
    hide Paired;
    assert PairOk(s, i) && SlotOk(s.server, i);
    var c, p, ids := s.clients[i], s.server.made[i], Ids(s.server.made);
    MessagePair(c, p, Pushed(s.server, i), Tabled(s.server), ids);
    var c' := c.(out := c.out[1..]);
    ServerChangeKeeps(s, i, c', p);
    var mid := SetClient(s, i, c').(server := SetConn(s.server, i, p));
    assert mid.server == s.server;
    var t := s.server.byId[c.out[0].to];
    assert PairOk(mid, t) && SlotOk(s.server, t);
    var q, line := s.server.made[t], RelayLine(p.id, c.out[0].kind, c.out[0].body);
    RelayedPair(mid.clients[t], q, Pushed(s.server, t), Tabled(s.server), ids, line);
    ServerChangeKeeps(mid, t, mid.clients[t], Sent(q, line));
    assert mid.clients[t := mid.clients[t]] == mid.clients;
    assert Apply(s, ServerReads(i, now, seed)) == mid.(server := SetConn(s.server, t, Sent(q, line)));
  }

  // start_experiment ------------------------------------------------------------------------------

  lemma {:induction false} TellFirstAll(s: Server, k: nat, start: real)
    requires SlotsExist(s) && Iota(s.ready) && k <= |s.ready| <= |s.made|
    requires forall x :: 0 <= x < |s.ready| ==> HasOffset(s.made[x])
    ensures var t := TellFirst(s, k, start);
            && !t.raised
            && (forall x :: 0 <= x < |s.made| ==>
                  t.made[x] == if x < k then BegunConn(s.made[x], start) else s.made[x])
            && (forall id :: id in t.byId <==> id in s.byId || id in Ids(s.made)[..k])
            && ((forall id :: id in s.byId ==> s.made[s.byId[id]].id == id) ==>
                  forall id :: id in t.byId ==> s.made[t.byId[id]].id == id)
  {
    hide BegunConn;
    hide HasOffset;
    if k > 0 {
      TellFirstAll(s, k - 1, start);
      assert Ids(s.made)[..k] == Ids(s.made)[..k - 1] + [s.made[k - 1].id];
    }
  }

  lemma BegunPair(c: Client, p: Conn, pushed: bool, tabled: bool, ids: seq<int>, start: real)
    requires Paired(c, p, pushed, tabled, ids) && p.phase == Wait && HasOffset(p)
    ensures Paired(c, BegunConn(p, start), pushed, tabled, ids)
  {
  }

  /** When the start is scheduled every subscriber is ready and waits. */
  lemma AllWait(s: Sys)
    requires Core(s) && s.server.pendingStarts > 0
    ensures |s.server.ready| == |s.server.made| == s.server.expected
    ensures forall x :: 0 <= x < |s.server.made| ==>
              s.server.made[x].phase == Wait && (HasOffset(s.server.made[x]) <==> Plain(s.clients[x]))
  {
    hide Paired;
    Counting.CoversAll(s.server.received, |s.server.made|);
    forall x | 0 <= x < |s.server.made|
      ensures s.server.made[x].phase == Wait && x < |s.server.ready|
      ensures HasOffset(s.server.made[x]) <==> Plain(s.clients[x])
    {
      assert x in s.server.received;
      assert SlotOk(s.server, x) && PairOk(s, x);
      PairPhase(s.clients[x], s.server.made[x], Pushed(s.server, x), Tabled(s.server), Ids(s.server.made));
    }
    assert |s.server.made| > 0 ==> s.server.made[|s.server.made| - 1].phase == Wait;
  }

  /** The server after start_experiment, spelled out. */
  lemma StartEffect(s: Sys, now: real)
    requires Inv(s) && s.server.pendingStarts > 0
    ensures var r := StartStep(s.server, now);
            && r == s.server.(made := r.made, byId := r.byId, pendingStarts := 0, startTime := now + s.server.delay)
            && |r.made| == |s.server.made|
            && (forall x :: 0 <= x < |r.made| ==> r.made[x] == BegunConn(s.server.made[x], now + s.server.delay))
            && ById(r.byId, s.server.made)
            && SlotsExist(r)
  {
    AllWait(s);
    hide TellFirst;
    TellFirstAll(s.server, |s.server.ready|, now + s.server.delay);
    assert Ids(s.server.made)[..|s.server.ready|] == Ids(s.server.made);
  }

  lemma StartKeeps(s: Sys, now: real)
    requires Inv(s) && Enabled(s, StartBody(now))
    ensures Core(Apply(s, StartBody(now)))
  {
    hide Paired;
    hide StartStep;
    AllWait(s);
    StartEffect(s, now);
    var r := Apply(s, StartBody(now));
    assert Ids(r.server.made) == Ids(s.server.made);
    forall j | 0 <= j < |r.server.made| ensures SlotOk(r.server, j) {
      assert SlotOk(s.server, j);
    }
    forall j | 0 <= j < |r.clients| ensures PairOk(r, j) {
      assert PairOk(s, j);
      if j < |r.server.made| {
        BegunPair(s.clients[j], s.server.made[j], Pushed(s.server, j), Tabled(s.server), Ids(s.server.made),
                  now + s.server.delay);
      }
    }
  }

  /** Every step but the start keeps the core, with any names of variables; the start does with plain ones. */
  lemma StepKeepsCore(s: Sys, step: Step)
    requires Core(s) && Enabled(s, step) && (step.StartBody? ==> AllPlain(s))
    ensures Core(Apply(s, step))
  {
    hide Core;
    hide Apply;
    match step
    case Connect(i, now) => ConnectKeeps(s, i, now);
    case Accept => AcceptKeeps(s);
    case PushIds => PushKeeps(s);
    case ServerReads(i, now, seed) => ServerReadsKeeps(s, i, now, seed);
    case StartBody(now) => StartKeeps(s, now);
    case ClientReads(i, now) => ClientReadsKeeps(s, i, now);
    case WriteJob(i) => WriteJobKeeps(s, i);
    case Send(i, message) => SendKeeps(s, i, message);
  }

  /** Nothing is on its way to a connection that waits or is done. */
  lemma ReadPhase(s: Sys, i: nat)
    requires Core(s) && i < |s.server.made| && s.clients[i].out != []
    ensures var phase := s.server.made[i].phase; phase == Init || phase == VarsReceived || phase == Running
  {
    hide InScript;
    assert PairOk(s, i);
  }

  lemma ServerReadsKeeps(s: Sys, i: nat, now: real, seed: int)
    requires Core(s) && Enabled(s, ServerReads(i, now, seed))
    ensures Core(Apply(s, ServerReads(i, now, seed)))
  {
    hide Apply;
    ReadPhase(s, i);
    hide PairOk;
    match s.server.made[i].phase
    case Init =>
      if s.clients[i].out[0] == ReadyLine {
        ReadsReadyKeeps(s, i, now, seed);
      } else {
        ReadsSetupKeeps(s, i, now, seed);
      }
    case VarsReceived => ReadsReceivedKeeps(s, i, now, seed);
    case Running => ReadsMessageKeeps(s, i, now, seed);
    case _ =>
  }

  lemma StepKeepsVars(s: Sys, step: Step)
    requires Enabled(s, step)
    ensures var r := Apply(s, step);
            |r.clients| == |s.clients| && forall i :: 0 <= i < |s.clients| ==> r.clients[i].vars == s.clients[i].vars
  {
  }

  lemma StepKeeps(s: Sys, step: Step)
    requires Inv(s) && Enabled(s, step)
    ensures Inv(Apply(s, step))
  {
    hide Core;
    hide Apply;
    StepKeepsCore(s, step);
    StepKeepsVars(s, step);
    var r := Apply(s, step);
    forall i | 0 <= i < |r.clients| ensures Plain(r.clients[i]) {
      assert Plain(s.clients[i]);
    }
  }

  lemma InitialInv(s: Sys)
    requires Initial(s)
    ensures Inv(s)
  {
    hide Core;
    InitialCore(s);
  }

  lemma {:induction false} RunKeeps(run: seq<Sys>, steps: seq<Step>, k: nat)
    requires IsRun(run, steps) && k < |run|
    ensures Inv(run[k])
  {
    hide Inv;
    hide Apply;
    if k == 0 {
      InitialInv(run[0]);
    } else {
      RunKeeps(run, steps, k - 1);
      StepKeeps(run[k - 1], steps[k - 1]);
    }
  }
}
