/**
 The state of the synchronisation protocol and the effect of every handler on it, as functions:
 the server side (gumby/sync.py) first, then the client side (gumby/experiment.py).

 Lines are modelled after parsing; module Wire covers their byte encoding and LineFraming how bytes become
 lines.  A channel is the sequence of lines written but not yet read: `Conn.out` towards the client and
 `Client.out` towards the server.  Connections are named by their slot, the order in which they were made.
 */
module SyncModel {
  import IdAssignment

  // ---------------------------------------------------------------------------------------------
  // Lines
  // ---------------------------------------------------------------------------------------------

  datatype Value = Num(n: real) | Text(s: string) | HostOf(host: int)
  type Vars = map<string, Value>
  type Table = map<int, Vars>

  const TIME_OFFSET: string := "time_offset"
  const PORT: string := "port"
  const HOST: string := "host"

  /** Lines a client writes.  The last three stand for every other line it could write. */
  datatype Uplink =
    | TimeLine(stamp: real)
    | SetLine(key: string, value: string)
    | ReadyLine
    | VarsReceivedLine
    | MsgLine(to: int, kind: string, body: string)
    | BrokenSetup  // starts like time or set but its fields do not parse
    | BrokenMsg    // starts like msg but its fields do not parse
    | OtherUp

  /** Lines the server writes. */
  datatype Downlink =
    | IdLine(id: int)
    | TableLine(table: Table, seed: int)
    | GoLine(target: real)
    | RelayLine(from: int, kind: string, body: string)

  // ---------------------------------------------------------------------------------------------
  // Server
  // ---------------------------------------------------------------------------------------------

  datatype Phase = Init | VarsReceived | Wait | Running | Done

  /** One server-side connection (ExperimentServiceProto). */
  datatype Conn = Conn(
    phase: Phase,
    id: int,
    ready: bool,
    resolved: bool,       // whether ready_future has its result
    vars: Vars,
    offsetAt: real,       // when the time line was handled (history)
    host: int,
    lost: bool,
    out: seq<Downlink>)

  /** The coroutine push_id_to_subscribers: not launched, about to handle subscriber `next`, or finished. */
  datatype Push = Idle | Waiting(next: nat) | Finished

  /** The factory with its connections (ExperimentServiceFactory).  The fields marked history only record. */
  datatype Server = Server(
    expected: nat,
    delay: real,
    made: seq<Conn>,
    ready: seq<nat>,
    received: seq<nat>,
    push: Push,
    pendingStarts: nat,   // start_experiment bodies scheduled but not begun
    byId: map<int, nat>,
    pushes: nat,          // times the variable table was pushed (history)
    launches: nat,        // times start_experiment was scheduled (history)
    startTime: real,      // the start time announced last (history)
    stopped: bool,        // a missing handler stopped the event loop
    failed: bool)         // an exception escaped a handler

  function SetConn(s: Server, i: nat, c: Conn): Server
    requires i < |s.made|
  {
    s.(made := s.made[i := c])
  }

  function Sent(c: Conn, line: Downlink): Conn {
    c.(out := c.out + [line])
  }

  function Zeroed(offset: real): real {
    if -0.5 < offset < 0.5 then 0.0 else offset
  }

  function Hosts(made: seq<Conn>): (hosts: seq<int>)
    ensures |hosts| == |made|
  {
    seq(|made|, i requires 0 <= i < |made| => made[i].host)
  }

  function Ids(made: seq<Conn>): (ids: seq<int>)
    ensures |ids| == |made|
  {
    seq(|made|, i requires 0 <= i < |made| => made[i].id)
  }

  function WithIds(made: seq<Conn>, ids: seq<int>): seq<Conn>
    requires |ids| == |made|
  {
    seq(|made|, i requires 0 <= i < |made| => made[i].(id := ids[i]))
  }

  function NewConn(host: int, number: int): Conn {
    Conn(Init, number, false, false, map[], 0.0, host, false, [])
  }

  /** set_connection_made: the last expected connection assigns the ids and launches the push. */
  function AfterMade(s: Server, host: int): Server {
    var made := s.made + [NewConn(host, |s.made| + 1)];
    if |made| >= s.expected then
      s.(made := WithIds(made, IdAssignment.AssignedIds(Hosts(made), Ids(made))), push := Waiting(0))
    else
      s.(made := made)
  }

  predicate PushEnabled(s: Server) {
    && s.push.Waiting?
    && s.push.next <= |s.made|
    && (s.push.next > 0 ==> s.made[s.push.next - 1].resolved)
  }

  /** The push coroutine runs until it next awaits: it sends one id, or ends. */
  function PushStep(s: Server): Server
    requires PushEnabled(s)
  {
    var next := s.push.next;
    if next < |s.made| then
      SetConn(s, next, Sent(s.made[next].(resolved := false), IdLine(s.made[next].id))).(push := Waiting(next + 1))
    else
      s.(push := Finished)
  }

  /** The variables of one subscriber in the table, with the default port and host. */
  function SubscriberVars(c: Conn): Vars {
    var v := c.vars;
    var v := if PORT !in v then v[PORT := Num((c.id + 12000) as real)] else v;
    if HOST !in v then v[HOST := HostOf(c.host)] else v
  }

  function TableOf(made: seq<Conn>, ready: seq<nat>): Table
    requires forall k :: 0 <= k < |ready| ==> ready[k] < |made|
  {
    if ready == [] then
      map[]
    else
      var last := |ready| - 1;
      TableOf(made, ready[..last])[made[ready[last]].id := SubscriberVars(made[ready[last]])]
  }

  function SendAll(made: seq<Conn>, targets: seq<nat>, line: Downlink): (r: seq<Conn>)
    requires forall k :: 0 <= k < |targets| ==> targets[k] < |made|
    ensures |r| == |made|
  {
    if targets == [] then
      made
    else
      var last := |targets| - 1;
      var sent := SendAll(made, targets[..last], line);
      sent[targets[last] := Sent(sent[targets[last]], line)]
  }

  /** Every slot listed as ready or received exists. */
  predicate SlotsExist(s: Server) {
    && (forall k :: 0 <= k < |s.ready| ==> s.ready[k] < |s.made|)
    && (forall k :: 0 <= k < |s.received| ==> s.received[k] < |s.made|)
    && (forall id :: id in s.byId ==> s.byId[id] < |s.made|)
  }

  /** set_connection_ready with push_info_to_subscribers. */
  function AfterReady(s: Server, i: nat, seed: int): (r: Server)
    requires SlotsExist(s) && i < |s.made|
    ensures |r.made| == |s.made|
  {
    var s := s.(ready := s.ready + [i]);
    if |s.ready| >= s.expected then
      s.(made := SendAll(s.made, s.ready, TableLine(TableOf(s.made, s.ready), seed)), pushes := s.pushes + 1)
    else
      s
  }

  function OnInit(s: Server, i: nat, line: Uplink, now: real, seed: int): Server
    requires SlotsExist(s) && i < |s.made|
  {
    var c := s.made[i];
    match line
    case TimeLine(stamp) => SetConn(s, i, c.(vars := c.vars[TIME_OFFSET := Num(Zeroed(stamp - now))], offsetAt := now))
    case SetLine(key, value) => SetConn(s, i, c.(vars := c.vars[key := Text(value)]))
    case ReadyLine =>
      var s := AfterReady(SetConn(s, i, c.(ready := true)), i, seed);
      if s.made[i].resolved then
        s.(failed := true)
      else
        SetConn(s, i, s.made[i].(resolved := true, phase := VarsReceived))
    case BrokenSetup => s.(failed := true)
    case _ => SetConn(s, i, c.(phase := Done))
  }

  /** set_connection_received. */
  function AfterReceived(s: Server, i: nat): Server {
    var s := s.(received := s.received + [i]);
    if |s.received| >= s.expected then
      s.(pendingStarts := s.pendingStarts + 1, launches := s.launches + 1)
    else
      s
  }

  function OnVarsReceived(s: Server, i: nat, line: Uplink): Server
    requires i < |s.made|
  {
    if line == VarsReceivedLine then
      SetConn(AfterReceived(s, i), i, s.made[i].(phase := Wait))
    else
      SetConn(s, i, s.made[i].(phase := Done))
  }

  /** forwardMessage: an unknown receiver is logged and then raises. */
  function Forward(s: Server, from: int, to: int, kind: string, body: string): Server
    requires SlotsExist(s)
  {
    if to in s.byId then
      SetConn(s, s.byId[to], Sent(s.made[s.byId[to]], RelayLine(from, kind, body)))
    else
      s.(failed := true)
  }

  function OnRunning(s: Server, i: nat, line: Uplink): Server
    requires SlotsExist(s) && i < |s.made|
  {
    match line
    case MsgLine(to, kind, body) => Forward(s, s.made[i].id, to, kind, body)
    case BrokenMsg => s.(failed := true)
    case _ => s
  }

  /** line_received: dispatch on the state of the connection; state done has no handler. */
  function OnLine(s: Server, i: nat, line: Uplink, now: real, seed: int): Server
    requires SlotsExist(s) && i < |s.made|
  {
    match s.made[i].phase
    case Init => OnInit(s, i, line, now, seed)
    case VarsReceived => OnVarsReceived(s, i, line)
    case Wait => SetConn(s, i, s.made[i].(phase := Done))
    case Running => OnRunning(s, i, line)
    case Done => s.(stopped := true)
  }

  predicate HasOffset(c: Conn) {
    TIME_OFFSET in c.vars && c.vars[TIME_OFFSET].Num?
  }

  /** A subscriber with an offset is told the start time in terms of its own clock. */
  function BegunConn(c: Conn, start: real): Conn {
    if HasOffset(c) then Sent(c.(phase := Running), GoLine(start + c.vars[TIME_OFFSET].n)) else c
  }

  /** What the loop of start_experiment changes, and whether an exception left it. */
  datatype Told = Told(made: seq<Conn>, byId: map<int, nat>, raised: bool)

  /** One round of the loop, unless an earlier one raised; it raises when the offset is missing or no number. */
  function TellNext(t: Told, i: nat, start: real): Told
    requires i < |t.made|
  {
    if !t.raised && HasOffset(t.made[i]) then
      Told(t.made[i := BegunConn(t.made[i], start)], t.byId[t.made[i].id := i], false)
    else
      t.(raised := true)
  }

  /** The loop of start_experiment over the first `k` ready subscribers. */
  function TellFirst(s: Server, k: nat, start: real): (t: Told)
    requires SlotsExist(s) && k <= |s.ready|
    ensures |t.made| == |s.made|
    ensures forall id :: id in t.byId ==> t.byId[id] < |s.made|
  {
    if k == 0 then Told(s.made, s.byId, false) else TellNext(TellFirst(s, k - 1, start), s.ready[k - 1], start)
  }

  /** One scheduled start_experiment body. */
  function StartStep(s: Server, now: real): Server
    requires SlotsExist(s) && s.pendingStarts > 0
  {
    var start := now + s.delay;
    var t := TellFirst(s, |s.ready|, start);
    s.(pendingStarts := s.pendingStarts - 1, startTime := start, made := t.made, byId := t.byId,
    failed := s.failed || t.raised)
  }

  function RemoveFirst(s: seq<nat>, x: nat): seq<nat> {
    if s == [] then [] else if s[0] == x then s[1..] else [s[0]] + RemoveFirst(s[1..], x)
  }

  /** connection_lost with unregister_connection: connections_made and id_to_connection keep the connection. */
  function Unregister(s: Server, i: nat): Server
    requires i < |s.made|
  {
    SetConn(s, i, s.made[i].(lost := true)).(ready := RemoveFirst(s.ready, i), received := RemoveFirst(s.received, i))
  }

  function NewServer(expected: nat, delay: real): Server {
    Server(expected, delay, [], [], [], Idle, 0, map[], 0, 0, 0.0, false, false)
  }

  // ---------------------------------------------------------------------------------------------
  // Client
  // ---------------------------------------------------------------------------------------------

  /** The states of the client; proto_go returns nothing, NoState here, on a line other than go. */
  datatype ClientPhase = Offline | AwaitId | AwaitVars | AwaitGo | Active | Closed | NoState

  datatype Message = Message(peer: int, kind: string, body: string)

  /**
   One client (ExperimentClient).  `clock` is what its clock shows beyond the server's, `job` the lines that
   on_id_received has yet to write from the executor, `stamp` the server time at which the time line was
   written, `goAt` that at which go was read and `startAt` that for which start_experiment is scheduled, `sent`
   and `inbox` the messages handed to send_message and to the message callback so far.
   */
  datatype Client = Client(
    phase: ClientPhase,
    host: int,
    clock: real,
    vars: seq<(string, string)>,
    myId: int,
    peerNumber: int,      // of the scenario runner
    table: Table,
    random: int,          // the number the server drew for everybody
    offset: Value,
    job: seq<Uplink>,
    out: seq<Uplink>,
    stamp: real,
    goAt: real,
    startAt: real,
    sent: seq<Message>,
    inbox: seq<Message>,
    failed: bool)         // a missing handler stopped the loop, or an exception escaped

  /** connection_made. */
  function ConnectClient(c: Client, now: real): Client {
    c.(phase := AwaitId, out := c.out + [TimeLine(now + c.clock)], stamp := now)
  }

  function SetLines(vars: seq<(string, string)>): seq<Uplink> {
    seq(|vars|, k requires 0 <= k < |vars| => SetLine(vars[k].0, vars[k].1))
  }

  /** What on_id_received writes. */
  function Announcement(c: Client): seq<Uplink> {
    SetLines(c.vars) + [ReadyLine]
  }

  function Later(a: real, b: real): real {
    if a < b then b else a
  }

  function OnAwaitId(c: Client, line: Downlink): Client {
    match line
    case IdLine(id) => c.(phase := AwaitVars, myId := id, job := Announcement(c))
    case _ => c.(phase := Closed)
  }

  function OnAwaitVars(c: Client, line: Downlink): Client {
    match line
    case TableLine(table, seed) =>
      var c := c.(table := table, random := seed);
      if c.myId in table && TIME_OFFSET in table[c.myId] then
        c.(phase := AwaitGo, offset := table[c.myId][TIME_OFFSET], out := c.out + [VarsReceivedLine])
      else
        c.(failed := true)
    case _ => c.(failed := true)
  }

  /** proto_go at server time `now`: start when the own clock shows the target, at once if that has passed. */
  function OnAwaitGo(c: Client, line: Downlink, now: real): Client {
    match line
    case GoLine(target) => c.(phase := Active, goAt := now, startAt := now + Later(0.0, target - (now + c.clock)))
    case _ => c.(phase := NoState)
  }

  function OnActive(c: Client, line: Downlink): Client {
    match line
    case RelayLine(from, kind, body) => c.(inbox := c.inbox + [Message(from, kind, body)])
    case _ => c
  }

  /** line_received of the client. */
  function OnDownlink(c: Client, line: Downlink, now: real): Client {
    match c.phase
    case AwaitId => OnAwaitId(c, line)
    case AwaitVars => OnAwaitVars(c, line)
    case AwaitGo => OnAwaitGo(c, line, now)
    case Active => OnActive(c, line)
    case _ => c.(failed := true)
  }

  /** The executor thread writes its next line; it has set the peer number before the first. */
  function JobStep(c: Client): Client
    requires c.job != []
  {
    c.(peerNumber := c.myId, job := c.job[1..], out := c.out + [c.job[0]])
  }

  /** send_message. */
  function SendMessage(c: Client, m: Message): Client {
    c.(out := c.out + [MsgLine(m.peer, m.kind, m.body)], sent := c.sent + [m])
  }

  function NewClient(host: int, clock: real, vars: seq<(string, string)>): Client {
    Client(Offline, host, clock, vars, 0, 0, map[], 0, Num(0.0), [], [], 0.0, 0.0, 0.0, [], [], false)
  }
}
