/**
 How far apart clients start.  Client clocks differ from the server's by constants, the server measures each
 offset from a time line that took some time to arrive, and ignores offsets under half a second.
 */
module SyncClock {
  import opened SyncModel
  import opened SyncRun

  function Abs(x: real): real {
    if x < 0.0 then -x else x
  }

  /** How long the time line of a client was under way. */
  function Delay(c: Client, p: Conn): real {
    p.offsetAt - c.stamp
  }

  /** The start on the clock of the client, as announced to it. */
  function Target(p: Conn, startTime: real): real
    requires HasOffset(p)
  {
    startTime + p.vars[TIME_OFFSET].n
  }

  ghost predicate ClockPair(c: Client, p: Conn, startTime: real) {
    && (HasOffset(p) ==> p.vars[TIME_OFFSET].n == Zeroed(c.stamp + c.clock - p.offsetAt))
    && (p.phase == Running ==>
          && HasOffset(p)
          && (c.phase == AwaitGo ==> p.out != [] && p.out[0] == GoLine(Target(p, startTime)))
          && (c.phase == Active ==> c.startAt == Later(c.goAt, Target(p, startTime) - c.clock)))
  }

  ghost predicate ClockInv(s: Sys) {
    && |s.server.made| <= |s.clients|
    && forall i :: 0 <= i < |s.server.made| ==> ClockPair(s.clients[i], s.server.made[i], s.server.startTime)
  }

  // ---------------------------------------------------------------------------------------------
  // Every step keeps it
  // ---------------------------------------------------------------------------------------------

  /** A client and its connection as far as clocks are concerned. */
  ghost predicate SameClock(c: Client, p: Conn, c': Client, p': Conn) {
    && c'.clock == c.clock
    && c'.stamp == c.stamp
    && p'.vars == p.vars
    && p'.offsetAt == p.offsetAt
    && (p'.phase == Running ==>
          && p.phase == Running
          && c'.phase == c.phase
          && c'.startAt == c.startAt
          && c'.goAt == c.goAt
          && (c.phase == AwaitGo && p.out != [] ==> p'.out != [] && p'.out[0] == p.out[0]))
  }

  lemma QuietStep(s: Sys, r: Sys)
    requires ClockInv(s)
    requires |s.clients| == |r.clients| && |s.server.made| == |r.server.made|
    requires s.server.startTime == r.server.startTime
    requires forall i :: 0 <= i < |s.server.made| ==>
               SameClock(s.clients[i], s.server.made[i], r.clients[i], r.server.made[i])
    ensures ClockInv(r)
  {
    forall i | 0 <= i < |r.server.made| ensures ClockPair(r.clients[i], r.server.made[i], r.server.startTime) {
      assert SameClock(s.clients[i], s.server.made[i], r.clients[i], r.server.made[i]);
      assert ClockPair(s.clients[i], s.server.made[i], s.server.startTime);
    }
  }

  lemma AcceptKeepsClock(s: Sys)
    requires Inv(s) && ClockInv(s) && Enabled(s, Accept)
    ensures ClockInv(Apply(s, Accept))
  {
    var r := Apply(s, Accept);
    forall i | 0 <= i < |r.server.made| ensures ClockPair(r.clients[i], r.server.made[i], r.server.startTime) {
      if i < |s.server.made| {
        assert ClockPair(s.clients[i], s.server.made[i], s.server.startTime);
      }
    }
  }

  lemma LocalSteps(s: Sys, step: Step)
    requires Inv(s) && ClockInv(s) && Enabled(s, step)
    requires step.PushIds? || step.WriteJob? || step.Send?
    ensures ClockInv(Apply(s, step))
  {
    if step.WriteJob? {
      assert PairOk(s, step.i);
    }
    QuietStep(s, Apply(s, step));
  }

  /** The stamp of a client is set before the server can have an offset for it. */
  lemma ConnectKeepsClock(s: Sys, i: nat, now: real)
    requires Inv(s) && ClockInv(s) && Enabled(s, Connect(i, now))
    ensures ClockInv(Apply(s, Connect(i, now)))
  {
    assert PairOk(s, i);
    var r := Apply(s, Connect(i, now));
    forall j | 0 <= j < |r.server.made| ensures ClockPair(r.clients[j], r.server.made[j], r.server.startTime) {
      assert ClockPair(s.clients[j], s.server.made[j], s.server.startTime);
    }
  }

  lemma StartKeepsClock(s: Sys, now: real)
    requires Inv(s) && ClockInv(s) && Enabled(s, StartBody(now))
    ensures ClockInv(Apply(s, StartBody(now)))
  {
    hide StartStep;
    AllWait(s);
    StartEffect(s, now);
    var r := Apply(s, StartBody(now));
    forall i | 0 <= i < |r.server.made| ensures ClockPair(r.clients[i], r.server.made[i], r.server.startTime) {
      assert ClockPair(s.clients[i], s.server.made[i], s.server.startTime);
      assert PairOk(s, i);
    }
  }

  lemma ClientReadsKeepsClock(s: Sys, i: nat, now: real)
    requires Inv(s) && ClockInv(s) && Enabled(s, ClientReads(i, now))
    ensures ClockInv(Apply(s, ClientReads(i, now)))
  {
    hide Paired;
    hide OnDownlink;
    hide ClockPair;
    var r := Apply(s, ClientReads(i, now));
    assert PairOk(s, i);
    forall j | 0 <= j < |r.server.made| ensures ClockPair(r.clients[j], r.server.made[j], r.server.startTime) {
      assert ClockPair(s.clients[j], s.server.made[j], s.server.startTime);
      if j == i {
        ReadClock(s.clients[i], s.server.made[i], Pushed(s.server, i), Tabled(s.server), Ids(s.server.made),
                  s.server.startTime, now);
      }
    }
  }

  lemma ReadClock(c: Client, p: Conn, pushed: bool, tabled: bool, ids: seq<int>, startTime: real, now: real)
    requires Paired(c, p, pushed, tabled, ids) && ClockPair(c, p, startTime) && p.out != []
    ensures ClockPair(OnDownlink(c, p.out[0], now), p.(out := p.out[1..]), startTime)
  {
  }

  lemma ReadyKeepsClock(s: Sys, i: nat, now: real, seed: int)
    requires Inv(s) && ClockInv(s) && Enabled(s, ServerReads(i, now, seed))
    requires s.server.made[i].phase == Init && s.clients[i].out[0] == ReadyLine
    ensures ClockInv(Apply(s, ServerReads(i, now, seed)))
  {
    hide OnLine;
    hide Paired;
    ReadyComesInOrder(s, i);
    ReadyEffect(s.server, i, now, seed);
    QuietStep(s, Apply(s, ServerReads(i, now, seed)));
  }

  lemma SetupKeepsClock(s: Sys, i: nat, now: real, seed: int)
    requires Inv(s) && ClockInv(s) && Enabled(s, ServerReads(i, now, seed))
    requires s.server.made[i].phase == Init && s.clients[i].out[0] != ReadyLine
    ensures ClockInv(Apply(s, ServerReads(i, now, seed)))
  {
    SetupKeepsPair(s, i, now, seed);
    hide Inv;
    hide Apply;
    hide ClockPair;
    var r := Apply(s, ServerReads(i, now, seed));
    forall j | 0 <= j < |r.server.made| ensures ClockPair(r.clients[j], r.server.made[j], r.server.startTime) {
      assert ClockPair(s.clients[j], s.server.made[j], s.server.startTime);
    }
  }

  /** The state after a time or set line of client i, and what that means for its clock. */
  lemma SetupKeepsPair(s: Sys, i: nat, now: real, seed: int)
    requires Inv(s) && ClockInv(s) && Enabled(s, ServerReads(i, now, seed))
    requires s.server.made[i].phase == Init && s.clients[i].out[0] != ReadyLine
    ensures var r := Apply(s, ServerReads(i, now, seed));
            && |r.server.made| == |s.server.made| && |r.clients| == |s.clients|
            && r.server.startTime == s.server.startTime
            && (forall j :: 0 <= j < |s.server.made| && j != i ==>
                  r.server.made[j] == s.server.made[j] && r.clients[j] == s.clients[j])
            && ClockPair(r.clients[i], r.server.made[i], s.server.startTime)
  {
    SetupLineKind(s, i);
    assert ClockPair(s.clients[i], s.server.made[i], s.server.startTime);
    hide Inv;
  }

  /** A set-up line is the stamp, or a variable that is not the offset. */
  lemma SetupLineKind(s: Sys, i: nat)
    requires Inv(s) && i < |s.server.made| && s.server.made[i].phase == Init
    requires s.clients[i].out != [] && s.clients[i].out[0] != ReadyLine
    ensures var line := s.clients[i].out[0];
            || line == TimeLine(s.clients[i].stamp + s.clients[i].clock)
            || (line.SetLine? && line.key != TIME_OFFSET)
  {
    assert PairOk(s, i);
    ScriptHead(s.clients[i]);
  }

  lemma OtherReadsKeepClock(s: Sys, i: nat, now: real, seed: int)
    requires Inv(s) && ClockInv(s) && Enabled(s, ServerReads(i, now, seed))
    requires s.server.made[i].phase != Init
    ensures ClockInv(Apply(s, ServerReads(i, now, seed)))
  {
    assert PairOk(s, i) && SlotOk(s.server, i);
    QuietStep(s, Apply(s, ServerReads(i, now, seed)));
  }

  lemma StepKeepsClock(s: Sys, step: Step)
    requires Inv(s) && ClockInv(s) && Enabled(s, step)
    ensures ClockInv(Apply(s, step))
  {
    hide Inv;
    hide Apply;
    hide ClockInv;
    match step
    case Accept => AcceptKeepsClock(s);
    case ServerReads(i, now, seed) =>
      if s.server.made[i].phase != Init {
        OtherReadsKeepClock(s, i, now, seed);
      } else if s.clients[i].out[0] == ReadyLine {
        ReadyKeepsClock(s, i, now, seed);
      } else {
        SetupKeepsClock(s, i, now, seed);
      }
    case StartBody(now) => StartKeepsClock(s, now);
    case ClientReads(i, now) => ClientReadsKeepsClock(s, i, now);
    case Connect(i, now) => ConnectKeepsClock(s, i, now);
    case _ => LocalSteps(s, step);
  }

  lemma {:induction false} RunKeepsClock(run: seq<Sys>, steps: seq<Step>, k: nat)
    requires IsRun(run, steps) && k < |run|
    ensures ClockInv(run[k])
  {
    hide Inv;
    hide Apply;
    if k > 0 {
      hide ClockInv;
      RunKeeps(run, steps, k - 1);
      RunKeepsClock(run, steps, k - 1);
      StepKeepsClock(run[k - 1], steps[k - 1]);
    }
  }

  // ---------------------------------------------------------------------------------------------
  // The bound
  // ---------------------------------------------------------------------------------------------

  /** go was read before the announced start had passed on the client's clock. */
  predicate OnTime(c: Client, p: Conn, startTime: real)
    requires HasOffset(p)
  {
    c.goAt + c.clock <= Target(p, startTime)
  }

  /** Zeroing an offset moves a start by less than half a second. */
  lemma ZeroedNear(x: real)
    ensures -0.5 < Zeroed(x) - x < 0.5
  {
  }

  /**
   In every state of every run, when a running client starts: at the announced time plus the measured difference of the
   clocks, none if that is under half a second, on its own clock; at once if that had passed when it read go.
   */
  lemma StartsAt(run: seq<Sys>, steps: seq<Step>, k: nat, a: nat)
    requires IsRun(run, steps) && k < |run|
    requires a < |run[k].clients| && run[k].clients[a].phase == Active
    ensures var s, c := run[k], run[k].clients[a];
            && a < |s.server.made|
            && var measured := c.stamp + c.clock - s.server.made[a].offsetAt;
               var due := s.server.startTime + (if -0.5 < measured < 0.5 then 0.0 else measured) - c.clock;
               c.startAt == if c.goAt < due then due else c.goAt
  {
    RunKeeps(run, steps, k);
    RunKeepsClock(run, steps, k);
    assert PairOk(run[k], a);
    assert ClockPair(run[k].clients[a], run[k].server.made[a], run[k].server.startTime);
  }

  /**
   In every state of every run, two running clients whose go was on time start less than |d_a - d_b| + 1
   apart, where d is how long the time line of each was under way.
   */
  lemma StartsCloseTogether(run: seq<Sys>, steps: seq<Step>, k: nat, a: nat, b: nat)
    requires IsRun(run, steps) && k < |run|
    requires a < |run[k].clients| && b < |run[k].clients|
    requires run[k].clients[a].phase == Active && run[k].clients[b].phase == Active
    ensures var s := run[k];
            && a < |s.server.made| && b < |s.server.made|
            && HasOffset(s.server.made[a]) && HasOffset(s.server.made[b])
            && (OnTime(s.clients[a], s.server.made[a], s.server.startTime)
                && OnTime(s.clients[b], s.server.made[b], s.server.startTime) ==>
                  Abs(s.clients[a].startAt - s.clients[b].startAt)
                    < Abs(Delay(s.clients[a], s.server.made[a]) - Delay(s.clients[b], s.server.made[b])) + 1.0)
  {
    RunKeeps(run, steps, k);
    RunKeepsClock(run, steps, k);
    var s := run[k];
    StartWithin(s, a);
    StartWithin(s, b);
  }

  /** The start of one client against the announced start time. */
  lemma StartWithin(s: Sys, a: nat)
    requires Inv(s) && ClockInv(s) && a < |s.clients| && s.clients[a].phase == Active
    ensures a < |s.server.made| && HasOffset(s.server.made[a])
    ensures OnTime(s.clients[a], s.server.made[a], s.server.startTime) ==>
              Abs(s.clients[a].startAt - (s.server.startTime - Delay(s.clients[a], s.server.made[a]))) < 0.5
  {
    assert PairOk(s, a);
    var c, p := s.clients[a], s.server.made[a];
    assert ClockPair(c, p, s.server.startTime);
    ZeroedNear(c.stamp + c.clock - p.offsetAt);
  }
}
