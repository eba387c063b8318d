/**
 The client object of gumby/experiment.py with its fields updated in place, tied to the client functions of
 SyncModel.
 */
module SyncClient {
  import opened SyncModel

  /** One client.  `transport` holds the lines written and not yet read by the server. */
  class ExperimentClient {
    const host: int
    const clock: real
    const vars: seq<(string, string)>
    var state: ClientPhase
    var myId: int
    var peerNumber: int
    var allVars: Table
    var globalRandom: int
    var timeOffset: Value
    var job: seq<Uplink>  // what the executor has yet to write
    var transport: seq<Uplink>
    var startAt: real
    var failed: bool
    ghost var stamp: real
    ghost var goAt: real
    ghost var sent: seq<Message>
    ghost var inbox: seq<Message>

    constructor (host: int, clock: real, vars: seq<(string, string)>)
      ensures View() == NewClient(host, clock, vars)
    {
      this.host := host;
      this.clock := clock;
      this.vars := vars;
      state := Offline;
      myId, peerNumber := 0, 0;
      allVars, globalRandom := map[], 0;
      timeOffset := Num(0.0);
      job := [];
      transport := [];
      startAt := 0.0;
      failed := false;
      stamp, goAt := 0.0, 0.0;
      sent, inbox := [], [];
    }

    ghost function View(): Client
      reads this
    {
      Client(state, host, clock, vars, myId, peerNumber, allVars, globalRandom, timeOffset, job, transport, stamp, goAt,
             startAt, sent, inbox, failed)
    }

    method SendLine(line: Uplink)
      modifies this`transport
      ensures transport == old(transport) + [line]
    {
      transport := transport + [line];
    }

    /** connection_made. */
    method ConnectionMade(now: real)
      modifies this
      ensures View() == ConnectClient(old(View()), now)
    {
      SendLine(TimeLine(now + clock));
      stamp := now;
      state := AwaitId;
    }

    /** line_received: a handler that raises leaves the state, and a state without handler stops the loop. */
    method LineReceived(line: Downlink, now: real)
      modifies this
      ensures View() == OnDownlink(old(View()), line, now)
    {
      match state {
        case AwaitId => state := ProtoId(line);
        case AwaitVars =>
          var raised := ProtoAllVars(line);
          if raised {
            failed := true;
          } else {
            state := AwaitGo;
          }
        case AwaitGo => state := ProtoGo(line, now);
        case Active => state := ProtoRunning(line);
        case _ => failed := true;
      }
    }

    method ProtoId(line: Downlink) returns (next: ClientPhase)
      modifies this`myId, this`job
      ensures View().(phase := next) == OnAwaitId(old(View()), line)
    {
      match line {
        case IdLine(id) =>
          myId := id;
          job := SetLines(vars) + [ReadyLine];
          next := AwaitVars;
        case _ =>
          next := Closed;
      }
    }

    method ProtoAllVars(line: Downlink) returns (raised: bool)
      modifies this`allVars, this`globalRandom, this`timeOffset, this`transport
      ensures (if raised then View().(failed := true) else View().(phase := AwaitGo)) == OnAwaitVars(old(View()), line)
    {
      match line {
        case TableLine(table, seed) =>
          allVars := table;
          globalRandom := seed;
          raised := !(myId in allVars && TIME_OFFSET in allVars[myId]);
          if !raised {
            timeOffset := allVars[myId][TIME_OFFSET];
            SendLine(VarsReceivedLine);
          }
        case _ =>
          raised := true;
      }
    }

    method ProtoGo(line: Downlink, now: real) returns (next: ClientPhase)
      modifies this`startAt, this`goAt
      ensures View().(phase := next) == OnAwaitGo(old(View()), line, now)
    {
      match line {
        case GoLine(target) =>
          var startDelay := target - (now + clock);
          if startDelay < 0.0 {
            startDelay := 0.0;
          }
          goAt := now;
          startAt := now + startDelay;
          next := Active;
        case _ =>
          next := NoState;
      }
    }

    method ProtoRunning(line: Downlink) returns (next: ClientPhase)
      requires state == Active
      modifies this`inbox
      ensures View().(phase := next) == OnActive(old(View()), line)
    {
      match line {
        case RelayLine(from, kind, body) => inbox := inbox + [Message(from, kind, body)];
        case _ =>
      }
      next := Active;
    }

    /** The executor writes the next line of on_id_received. */
    method WriteNext()
      requires job != []
      modifies this`peerNumber, this`job, this`transport
      ensures View() == JobStep(old(View()))
    {
      peerNumber := myId;
      SendLine(job[0]);
      job := job[1..];
    }

    /** on_id_received when nothing comes between: the peer number is set, then every variable and ready are written. */
    method OnIdReceived()
      requires job != []
      modifies this`peerNumber, this`job, this`transport
      ensures View() == old(View()).(peerNumber := myId, out := old(View()).out + old(View()).job, job := [])
    {
      ghost var c := View();
      WriteNext();
      while job != []
        invariant View() == c.(peerNumber := myId, job := job, out := transport)
        invariant transport + job == c.out + c.job
        decreases |job|
      {
        WriteNext();
      }
    }

    /** send_message. */
    method Send(peer: int, kind: string, body: string)
      modifies this`transport, this`sent
      ensures View() == SendMessage(old(View()), Message(peer, kind, body))
    {
      SendLine(MsgLine(peer, kind, body));
      sent := sent + [Message(peer, kind, body)];
    }

    /**
     A whole set-up and the messages after it: the client writes its time, its variables in order, ready and one
     acknowledgement, hands on every message, and starts when its own clock shows the target or at once.
     */
    method Session(connected: real, id: int, table: Table, seed: int, target: real, at: real, relayed: seq<Message>)
      requires View() == NewClient(host, clock, vars) && id in table && TIME_OFFSET in table[id]
      modifies this
      ensures state == Active && !failed && myId == peerNumber == id
      ensures allVars == table && globalRandom == seed && timeOffset == table[id][TIME_OFFSET]
      ensures transport == [TimeLine(connected + clock)] + SetLines(vars) + [ReadyLine] + [VarsReceivedLine]
      ensures inbox == relayed
      ensures startAt == Later(at, target - clock)
    {
      ConnectionMade(connected);
      LineReceived(IdLine(id), connected);
      OnIdReceived();
      LineReceived(TableLine(table, seed), connected);
      LineReceived(GoLine(target), at);
      for k := 0 to |relayed|
        invariant state == Active && !failed && myId == peerNumber == id
        invariant allVars == table && globalRandom == seed && timeOffset == table[id][TIME_OFFSET]
        invariant transport == [TimeLine(connected + clock)] + SetLines(vars) + [ReadyLine] + [VarsReceivedLine]
        invariant inbox == relayed[..k] && startAt == Later(at, target - clock)
      {
        LineReceived(RelayLine(relayed[k].peer, relayed[k].kind, relayed[k].body), at);
      }
    }
  }

  /** A line that a client in this state has no use for: a state it does not leave any more, or an exception. */
  lemma UnexpectedLine(c: Client, line: Downlink, now: real)
    ensures var r := OnDownlink(c, line, now);
            match c.phase
            case AwaitId => !line.IdLine? ==> r == c.(phase := Closed)
            case AwaitVars =>
              && (!line.TableLine? ==> r == c.(failed := true))
              && (line.TableLine? && (c.myId !in line.table || TIME_OFFSET !in line.table[c.myId]) ==>
                    r == c.(table := line.table, random := line.seed, failed := true))
            case AwaitGo => !line.GoLine? ==> r == c.(phase := NoState)
            case Active => !line.RelayLine? ==> r == c
            case _ => r == c.(failed := true)
  {
  }
}
