/**
 What the invariant of SyncRun means for whole runs: every line is accepted where it arrives, set-up never
 gets stuck, and every run has the same number of set-up steps ahead of it as its measure says.
 */
module SyncProgress {
  import opened SyncModel
  import opened SyncRun
  import Counting

  // ---------------------------------------------------------------------------------------------
  // Lines the receivers are prepared for
  // ---------------------------------------------------------------------------------------------

  /** The lines a server-side connection is prepared for in its state. */
  predicate ServerAccepts(s: Server, p: Conn, line: Uplink) {
    match p.phase
    case Init => line.TimeLine? || line.SetLine? || line.ReadyLine?
    case VarsReceived => line == VarsReceivedLine
    case Running => line.MsgLine? && line.to in s.byId
    case _ => false
  }

  /** The lines a client is prepared for in its state; before it is told of its connection, for what comes after. */
  predicate ClientAccepts(c: Client, line: Downlink) {
    match c.phase
    case Offline => line.IdLine?
    case AwaitId => line.IdLine?
    case AwaitVars => line.TableLine? && c.myId in line.table && TIME_OFFSET in line.table[c.myId]
    case AwaitGo => line.GoLine?
    case Active => line.RelayLine?
    case _ => false
  }

  lemma PairAccepts(s: Sys, i: nat)
    requires Core(s) && i < |s.server.made|
    ensures s.clients[i].out != [] ==> ServerAccepts(s.server, s.server.made[i], s.clients[i].out[0])
    ensures s.server.made[i].out != [] ==> ClientAccepts(s.clients[i], s.server.made[i].out[0])
  {
    assert PairOk(s, i) && SlotOk(s.server, i);
    if s.server.made[i].phase == Init && s.clients[i].out != [] {
      ScriptHead(s.clients[i]);
    }
  }

  lemma GoFirst(s: Sys, i: nat, k: nat)
    requires Core(s) && i < |s.server.made| && k < |s.server.made[i].out|
    requires s.server.made[i].out[k].RelayLine? && s.clients[i].phase != Active
    ensures exists g :: 0 <= g < k && s.server.made[i].out[g].GoLine?
  {
    assert PairOk(s, i);
    assert s.server.made[i].out[0].GoLine?;
  }

  /**
   In every state of every run: the oldest line of each channel is one its receiver is prepared for, no
   handler is missing, nothing raised, and go precedes every relayed message.
   */
  lemma LinesAccepted(run: seq<Sys>, steps: seq<Step>, k: nat)
    requires IsRun(run, steps) && k < |run|
    ensures var s := run[k];
            && !s.server.stopped && !s.server.failed
            && |s.server.made| <= |s.clients|
            && (forall i :: 0 <= i < |s.clients| ==>
                  !s.clients[i].failed && s.clients[i].phase != Closed && s.clients[i].phase != NoState)
            && (forall i :: 0 <= i < |s.server.made| ==>
                  && s.server.made[i].phase != Done
                  && (s.clients[i].out != [] ==> ServerAccepts(s.server, s.server.made[i], s.clients[i].out[0]))
                  && (s.server.made[i].out != [] ==> ClientAccepts(s.clients[i], s.server.made[i].out[0])))
            && (forall i, m :: 0 <= i < |s.server.made| && 0 <= m < |s.server.made[i].out| ==>
                  s.server.made[i].out[m].RelayLine? && s.clients[i].phase != Active ==>
                    exists g :: 0 <= g < m && s.server.made[i].out[g].GoLine?)
  {
    RunKeeps(run, steps, k);
    var s := run[k];
    forall i | 0 <= i < |s.clients|
      ensures !s.clients[i].failed && s.clients[i].phase != Closed && s.clients[i].phase != NoState
    {
      assert PairOk(s, i);
    }
    forall i | 0 <= i < |s.server.made|
      ensures s.server.made[i].phase != Done
      ensures s.clients[i].out != [] ==> ServerAccepts(s.server, s.server.made[i], s.clients[i].out[0])
      ensures s.server.made[i].out != [] ==> ClientAccepts(s.clients[i], s.server.made[i].out[0])
    {
      assert PairOk(s, i);
      PairAccepts(s, i);
    }
    forall i, m | 0 <= i < |s.server.made| && 0 <= m < |s.server.made[i].out| &&
      s.server.made[i].out[m].RelayLine? && s.clients[i].phase != Active
      ensures exists g :: 0 <= g < m && s.server.made[i].out[g].GoLine?
    {
      GoFirst(s, i, m);
    }
  }

  // ---------------------------------------------------------------------------------------------
  // Progress
  // ---------------------------------------------------------------------------------------------

  /** Steps that set the experiment up, as opposed to carrying messages between running clients. */
  predicate IsSetup(s: Sys, step: Step)
    requires Enabled(s, step)
  {
    match step
    case Send(_, _) => false
    case ServerReads(i, _, _) => s.server.made[i].phase != Running
    case ClientReads(i, _) => s.clients[i].phase != Active
    case _ => true
  }

  ghost predicate CanSetUp(s: Sys) {
    exists step :: Enabled(s, step) && IsSetup(s, step)
  }

  ghost predicate AllRunning(s: Sys) {
    && |s.server.made| == |s.clients|
    && (forall i :: 0 <= i < |s.clients| ==> s.clients[i].phase == Active)
    && (forall i :: 0 <= i < |s.server.made| ==> s.server.made[i].phase == Running)
  }

  /** Everyone runs and the push coroutine has ended. */
  ghost predicate SetUpOver(s: Sys) {
    AllRunning(s) && !s.server.push.Waiting?
  }

  /** A subscriber whose id was pushed but who is not ready yet can move, or the server can on its behalf. */
  lemma InitMoves(s: Sys, i: nat)
    requires Core(s) && i < |s.server.made| && s.server.made[i].phase == Init && Pushed(s.server, i)
    ensures CanSetUp(s)
  {
    InitLines(s, i);
    hide PairOk;
    hide SlotOk;
    var c := s.clients[i];
    if c.phase == Offline {
      assert Enabled(s, Connect(i, 0.0)) && IsSetup(s, Connect(i, 0.0));
    } else if c.phase == AwaitId {
      assert Enabled(s, ClientReads(i, 0.0)) && IsSetup(s, ClientReads(i, 0.0));
    } else if c.job != [] {
      assert Enabled(s, WriteJob(i)) && IsSetup(s, WriteJob(i));
    } else {
      assert Enabled(s, ServerReads(i, 0.0, 0)) && IsSetup(s, ServerReads(i, 0.0, 0));
    }
  }

  lemma InitLines(s: Sys, i: nat)
    requires Core(s) && i < |s.server.made| && s.server.made[i].phase == Init && Pushed(s.server, i)
    ensures var c := s.clients[i];
            && (c.phase == AwaitId ==> s.server.made[i].out != [])
            && (c.phase == Offline || c.phase == AwaitId || c.job != [] || c.out != [])
  {
    assert PairOk(s, i);
  }

  lemma VarsReceivedMoves(s: Sys, i: nat)
    requires Core(s) && i < |s.server.made| && s.server.made[i].phase == VarsReceived && Tabled(s.server)
    ensures CanSetUp(s)
  {
    assert PairOk(s, i);
    if s.clients[i].phase == AwaitVars {
      assert Enabled(s, ClientReads(i, 0.0)) && IsSetup(s, ClientReads(i, 0.0));
    } else {
      assert Enabled(s, ServerReads(i, 0.0, 0)) && IsSetup(s, ServerReads(i, 0.0, 0));
    }
  }

  lemma RunningMoves(s: Sys, i: nat)
    requires Core(s) && i < |s.server.made| && s.server.made[i].phase == Running && s.clients[i].phase != Active
    ensures CanSetUp(s)
  {
    assert PairOk(s, i);
    assert Enabled(s, ClientReads(i, 0.0)) && IsSetup(s, ClientReads(i, 0.0));
  }

  lemma ConnectMoves(s: Sys)
    requires Core(s) && |s.server.made| < |s.clients|
    ensures CanSetUp(s)
  {
    assert Enabled(s, Accept) && IsSetup(s, Accept);
  }

  lemma PushMoves(s: Sys)
    requires Core(s) && s.server.push.Waiting?
    ensures CanSetUp(s)
  {
    var next := s.server.push.next;
    if PushEnabled(s.server) {
      assert Enabled(s, PushIds) && IsSetup(s, PushIds);
    } else {
      assert SlotOk(s.server, next - 1);
      InitMoves(s, next - 1);
    }
  }

  lemma SomeoneHasNotReceived(s: Sys)
    requires Core(s) && s.server.push == Finished && |s.server.received| < s.server.expected
    ensures exists i :: 0 <= i < |s.server.made| && s.server.made[i].phase == VarsReceived
  {
    var slots: seq<nat> := seq(|s.server.made|, i => i);
    if forall i :: 0 <= i < |s.server.made| ==> s.server.made[i].phase != VarsReceived {
      forall k | 0 <= k < |slots| ensures slots[k] in s.server.received {
        assert PairOk(s, k) && SlotOk(s.server, k);
      }
      Counting.ListedSize(slots, s.server.received);
    }
  }

  /** Set-up is stuck exactly when it is over, with every client and every connection running. */
  lemma Progress(s: Sys)
    requires Core(s)
    ensures CanSetUp(s) <==> !SetUpOver(s)
  {
    if SetUpOver(s) {
      NothingLeft(s);
    } else if |s.server.made| < |s.clients| {
      ConnectMoves(s);
    } else if s.server.push.Waiting? {
      PushMoves(s);
    } else if s.server.pendingStarts > 0 {
      assert Enabled(s, StartBody(0.0)) && IsSetup(s, StartBody(0.0));
    } else if |s.server.received| < s.server.expected {
      SomeoneHasNotReceived(s);
      var i :| 0 <= i < |s.server.made| && s.server.made[i].phase == VarsReceived;
      VarsReceivedMoves(s, i);
    } else {
      Counting.CoversAll(s.server.received, |s.server.made|);
      forall i | 0 <= i < |s.server.made| ensures s.server.made[i].phase == Running {
        assert SlotOk(s.server, i);
      }
      var i :| 0 <= i < |s.clients| && s.clients[i].phase != Active;
      RunningMoves(s, i);
    }
  }

  lemma NothingLeft(s: Sys)
    requires Core(s) && SetUpOver(s)
    ensures !CanSetUp(s)
  {
    forall step | Enabled(s, step) ensures !IsSetup(s, step) {
      match step
      case WriteJob(i) => assert PairOk(s, i);
      case StartBody(_) => assert SlotOk(s.server, 0);
      case _ =>
    }
  }

  // ---------------------------------------------------------------------------------------------
  // The measure
  // ---------------------------------------------------------------------------------------------

  function One(b: bool): nat {
    if b then 1 else 0
  }

  /** Set-up events ahead of a client: its own, and those of its connection if `accepted`. */
  function Rank(c: Client, accepted: bool, phase: Phase): nat {
    var unread := if !accepted then |c.vars| + 2 else if phase == Init then |c.out + ToCome(c)| else 0;
    var unwritten := match c.phase
      case Offline => |c.vars| + 1
      case AwaitId => |c.vars| + 1
      case AwaitVars => |c.job|
      case _ => 0;
    One(c.phase == Offline)                                                       // connect
    + One(!accepted)                                                              // be accepted
    + One(c.phase == Offline || c.phase == AwaitId)                               // read the id
    + unwritten                                                                   // write set lines and ready
    + unread                                                                      // have time, set and ready read
    + One(c.phase == Offline || c.phase == AwaitId || c.phase == AwaitVars)       // read the table
    + One(!accepted || phase == Init || phase == VarsReceived)                    // have vars_received read
    + One(c.phase != Active)                                                      // read go
  }

  function RankAt(s: Sys, i: nat): nat
    requires i < |s.clients|
  {
    if i < |s.server.made| then Rank(s.clients[i], true, s.server.made[i].phase) else Rank(s.clients[i], false, Init)
  }

  function SumRanks(s: Sys, n: nat): nat
    requires n <= |s.clients|
  {
    if n == 0 then 0 else SumRanks(s, n - 1) + RankAt(s, n - 1)
  }

  /** Set-up events ahead of the server itself: pushing the ids, and the start. */
  function ServerRank(s: Server): nat {
    (match s.push
     case Idle => s.expected + 1
     case Waiting(next) => if next <= s.expected then s.expected + 1 - next else 0
     case Finished => 0)
    + One(!(|s.received| == s.expected > 0 && s.pendingStarts == 0))
  }

  function Measure(s: Sys): nat {
    SumRanks(s, |s.clients|) + ServerRank(s.server)
  }

  lemma {:induction false} SumSame(s: Sys, r: Sys, n: nat)
    requires n <= |s.clients| == |r.clients|
    requires forall i :: 0 <= i < n ==> RankAt(s, i) == RankAt(r, i)
    ensures SumRanks(s, n) == SumRanks(r, n)
  {
    hide RankAt;
    if n > 0 {
      SumSame(s, r, n - 1);
    }
  }

  lemma {:induction false} SumLess(s: Sys, r: Sys, n: nat, x: nat, d: nat)
    requires x < n <= |s.clients| == |r.clients|
    requires forall i :: 0 <= i < n && i != x ==> RankAt(s, i) == RankAt(r, i)
    requires RankAt(s, x) == RankAt(r, x) + d
    ensures SumRanks(s, n) == SumRanks(r, n) + d
  {
    hide RankAt;
    if x < n - 1 {
      SumLess(s, r, n - 1, x, d);
    } else {
      SumSame(s, r, n - 1);
    }
  }
}
