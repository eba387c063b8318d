/**
 Safety of the start barrier on the server (gumby/sync.py) against every behaviour of the clients: any line
 may arrive on any live connection at any time, connections may be lost at any time, and scheduled bodies run
 whenever they can.  Only the number of connections ever made is bounded by the number expected.
 */
module SyncBarrier {
  import opened Sequences
  import opened SyncModel
  import Counting

  datatype ServerStep =
    | Accept(host: int)
    | Receive(i: nat, line: Uplink, now: real, seed: int)
    | PushIds
    | StartBody(now: real)
    | Lose(i: nat)
    | Read(i: nat)  // the client takes the oldest line written to it

  predicate Enabled(s: Server, step: ServerStep) {
    && SlotsExist(s)
    && !s.stopped
    && match step
       case Accept(_) => |s.made| < s.expected
       case Receive(i, _, _, _) => i < |s.made| && !s.made[i].lost
       case PushIds => PushEnabled(s)
       case StartBody(_) => s.pendingStarts > 0
       case Lose(i) => i < |s.made| && !s.made[i].lost
       case Read(i) => i < |s.made| && s.made[i].out != []
  }

  function Apply(s: Server, step: ServerStep): Server
    requires Enabled(s, step)
  {
    match step
    case Accept(host) => AfterMade(s, host)
    case Receive(i, line, now, seed) => OnLine(s, i, line, now, seed)
    case PushIds => PushStep(s)
    case StartBody(now) => StartStep(s, now)
    case Lose(i) => Unregister(s, i)
    case Read(i) => SetConn(s, i, s.made[i].(out := s.made[i].out[1..]))
  }

  /** A run of the server from its start. */
  predicate IsRun(run: seq<Server>, steps: seq<ServerStep>) {
    && |run| == |steps| + 1
    && run[0] == NewServer(run[0].expected, run[0].delay)
    && forall k :: 0 <= k < |steps| ==> Enabled(run[k], steps[k]) && run[k + 1] == Apply(run[k], steps[k])
  }

  // ---------------------------------------------------------------------------------------------
  // The invariant
  // ---------------------------------------------------------------------------------------------

  predicate PastInit(c: Conn) {
    c.phase != Init
  }

  predicate PastReceived(c: Conn) {
    c.phase != Init && c.phase != VarsReceived
  }

  predicate SlotOk(s: Server, x: nat)
    requires x < |s.made|
  {
    var c := s.made[x];
    && (x in s.ready ==> PastInit(c) && !c.lost)
    && (x in s.received ==> PastReceived(c) && x in s.ready)
    && (c.phase == VarsReceived && !c.lost ==> x in s.ready)
    && (c.phase == Init ==> !c.resolved)
    && (s.pushes > 0 ==> PastInit(c))
    && (s.launches > 0 ==> PastReceived(c))
  }

  predicate BarrierInv(s: Server) {
    && SlotsExist(s)
    && |s.made| <= s.expected
    && Counting.Distinct(s.ready)
    && Counting.Distinct(s.received)
    && (forall x :: 0 <= x < |s.made| ==> SlotOk(s, x))
    && s.pushes <= 1
    && s.launches <= s.pushes
    && s.pendingStarts <= s.launches
    && (s.pushes > 0 ==> |s.made| == s.expected)
    && (|s.ready| >= s.expected > 0 ==> s.pushes == 1)
  }

  // ---------------------------------------------------------------------------------------------
  // Frames
  // ---------------------------------------------------------------------------------------------

  /** Sending changes nothing but what was written. */
  lemma {:induction false} SendAllFrame(made: seq<Conn>, targets: seq<nat>, line: Downlink)
    requires forall k :: 0 <= k < |targets| ==> targets[k] < |made|
    ensures forall x :: 0 <= x < |made| ==>
              SendAll(made, targets, line)[x] == made[x].(out := SendAll(made, targets, line)[x].out)
  {
    if targets != [] {
      SendAllFrame(made, targets[..|targets| - 1], line);
    }
  }

  /** A connection left alone by start_experiment, or told to go. */
  predicate SameOrBegun(c: Conn, c': Conn, listed: bool) {
    c' == c || (listed && c' == c.(phase := Running, out := c'.out))
  }

  /** start_experiment changes only the phase, to running, and what was written, and only of ready subscribers. */
  lemma {:induction false} TellFirstFrame(s: Server, k: nat, start: real)
    requires SlotsExist(s) && k <= |s.ready|
    ensures var made := TellFirst(s, k, start).made;
            forall x :: 0 <= x < |s.made| ==> SameOrBegun(s.made[x], made[x], x in s.ready)
  {
    if k > 0 {
      TellFirstFrame(s, k - 1, start);
      assert s.ready[k - 1] in s.ready;
    }
  }

  lemma {:induction false} RemoveFirstFrame(s: seq<nat>, x: nat)
    requires Counting.Distinct(s)
    ensures Counting.Distinct(RemoveFirst(s, x))
    ensures |RemoveFirst(s, x)| <= |s|
    ensures forall y :: y in RemoveFirst(s, x) <==> y in s && y != x
  {
    if s != [] && s[0] != x {
      RemoveFirstFrame(s[1..], x);
      assert s == [s[0]] + s[1..];
      var r := RemoveFirst(s[1..], x);
      assert s[0] !in s[1..];
      assert forall k :: 0 <= k < |r| ==> r[k] in r;
    } else if s != [] {
      assert s == [s[0]] + s[1..];
      assert s[0] !in s[1..];
    }
  }

  // ---------------------------------------------------------------------------------------------
  // Every step keeps the invariant
  // ---------------------------------------------------------------------------------------------

  /** A connection that is not lost by a step and moves only forward, not by announcing or acknowledging. */
  predicate Steady(c: Conn, c': Conn) {
    && c'.lost == c.lost
    && (PastInit(c) ==> PastInit(c'))
    && (PastReceived(c) ==> PastReceived(c'))
    && (c'.phase == VarsReceived ==> c.phase == VarsReceived)
    && (c'.phase == Init ==> c.phase == Init && c'.resolved == c.resolved)
  }

  /** What a step does that leaves the lists alone and keeps every connection steady. */
  predicate SteadyStep(s: Server, r: Server) {
    && r.expected == s.expected && |r.made| == |s.made|
    && r.ready == s.ready && r.received == s.received && r.byId == s.byId
    && r.pushes == s.pushes && r.launches == s.launches && r.pendingStarts == s.pendingStarts
    && forall x :: 0 <= x < |s.made| ==> Steady(s.made[x], r.made[x])
  }

  lemma SteadyKeeps(s: Server, r: Server)
    requires BarrierInv(s) && SteadyStep(s, r)
    ensures BarrierInv(r)
  {
    forall x | 0 <= x < |r.made| ensures SlotOk(r, x) {
      assert SlotOk(s, x) && Steady(s.made[x], r.made[x]);
    }
  }

  lemma AcceptKeeps(s: Server, host: int)
    requires BarrierInv(s) && |s.made| < s.expected
    ensures BarrierInv(AfterMade(s, host))
  {
    var r := AfterMade(s, host);
    forall x | 0 <= x < |r.made| ensures SlotOk(r, x) {
      if x < |s.made| {
        assert SlotOk(s, x);
      } else {
        assert x !in s.ready && x !in s.received;
      }
    }
  }

  /** Once N distinct slots are listed, no connection is missing. */
  lemma ListIsFull(s: Server, list: seq<nat>)
    requires |s.made| <= s.expected
    requires Counting.Distinct(list) && (forall k :: 0 <= k < |list| ==> list[k] < |s.made|)
    requires |list| >= s.expected
    ensures |s.made| == s.expected
    ensures forall x :: 0 <= x < |s.made| ==> x in list
  {
    Counting.CoversAll(list, |s.made|);
  }

  lemma ReadyLineEffect(s: Server, i: nat, now: real, seed: int)
    requires SlotsExist(s) && i < |s.made| && s.made[i].phase == Init && !s.made[i].resolved
    ensures var r := OnLine(s, i, ReadyLine, now, seed);
            && |r.made| == |s.made|
            && r == s.(ready := s.ready + [i], made := r.made, pushes := r.pushes)
            && r.pushes == s.pushes + (if |s.ready| + 1 >= s.expected then 1 else 0)
            && (forall x :: 0 <= x < |s.made| && x != i ==> r.made[x] == s.made[x].(out := r.made[x].out))
            && r.made[i] == s.made[i].(ready := true, resolved := true, phase := VarsReceived, out := r.made[i].out)
  {
    var s1 := SetConn(s, i, s.made[i].(ready := true));
    var list := s.ready + [i];
    SendAllFrame(s1.made, list, TableLine(TableOf(s1.made, list), seed));
  }

  lemma ReadyLineKeeps(s: Server, i: nat, now: real, seed: int)
    requires BarrierInv(s) && i < |s.made| && !s.made[i].lost && s.made[i].phase == Init
    ensures BarrierInv(OnLine(s, i, ReadyLine, now, seed))
    ensures !s.made[i].resolved
  {
    assert SlotOk(s, i);
    ReadyLineEffect(s, i, now, seed);
    hide OnLine;
    var list := s.ready + [i];
    var r := OnLine(s, i, ReadyLine, now, seed);
    if |list| >= s.expected {
      ListIsFull(s, list);
    }
    forall x | 0 <= x < |r.made| ensures SlotOk(r, x) {
      assert SlotOk(s, x);
      assert x in list <==> x in s.ready || x == i;
    }
  }

  lemma ReceivedLineEffect(s: Server, i: nat, now: real, seed: int)
    requires SlotsExist(s) && i < |s.made| && s.made[i].phase == VarsReceived
    ensures var r := OnLine(s, i, VarsReceivedLine, now, seed);
            && r == s.(received := s.received + [i], made := s.made[i := s.made[i].(phase := Wait)],
                       pendingStarts := r.pendingStarts, launches := r.launches)
            && r.launches - s.launches == r.pendingStarts - s.pendingStarts
               == if |s.received| + 1 >= s.expected then 1 else 0
  {
  }

  lemma ReceivedLineKeeps(s: Server, i: nat, now: real, seed: int)
    requires BarrierInv(s) && i < |s.made| && !s.made[i].lost && s.made[i].phase == VarsReceived
    ensures BarrierInv(OnLine(s, i, VarsReceivedLine, now, seed))
    ensures var r := OnLine(s, i, VarsReceivedLine, now, seed);
            r.launches > s.launches ==>
              && s.launches == 0 && r.pushes == 1 && |r.made| == r.expected
              && forall x :: 0 <= x < |r.made| ==> x in r.received && !r.made[x].lost
  {
    assert SlotOk(s, i);
    ReceivedLineEffect(s, i, now, seed);
    hide OnLine;
    var list := s.received + [i];
    var r := OnLine(s, i, VarsReceivedLine, now, seed);
    forall x | 0 <= x < |r.made| ensures x in list ==> PastReceived(r.made[x]) && x in s.ready && !s.made[x].lost {
      assert SlotOk(s, x);
      assert x in list <==> x in s.received || x == i;
    }
    if |list| >= s.expected {
      ListIsFull(s, list);
      AllReadyMeansPushed(s, list);
    }
    forall x | 0 <= x < |r.made| ensures SlotOk(r, x) {
      assert SlotOk(s, x);
      assert x in list <==> x in s.received || x == i;
    }
  }

  lemma AllReadyMeansPushed(s: Server, list: seq<nat>)
    requires BarrierInv(s) && s.expected > 0
    requires Counting.Distinct(list) && |list| >= s.expected
    requires forall k :: 0 <= k < |list| ==> list[k] in s.ready
    ensures s.pushes == 1
  {
    Counting.ListedSize(list, s.ready);
  }

  lemma OtherLineKeeps(s: Server, i: nat, line: Uplink, now: real, seed: int)
    requires BarrierInv(s) && i < |s.made| && !s.made[i].lost
    requires !(s.made[i].phase == Init && line == ReadyLine)
    requires !(s.made[i].phase == VarsReceived && line == VarsReceivedLine)
    ensures BarrierInv(OnLine(s, i, line, now, seed))
    ensures OnLine(s, i, line, now, seed).launches == s.launches
    ensures OnLine(s, i, line, now, seed).pushes == s.pushes
  {
    if s.made[i].phase == Running {
      RunningLineSteady(s, i, line);
    } else {
      OtherLineSteady(s, i, line, now, seed);
    }
    hide SlotOk;
    hide Steady;
    if s.made[i].phase == Running {
      SteadyKeeps(s, OnRunning(s, i, line));
    } else {
      SteadyKeeps(s, OnLine(s, i, line, now, seed));
    }
  }

  lemma OtherLineSteady(s: Server, i: nat, line: Uplink, now: real, seed: int)
    requires SlotsExist(s) && i < |s.made| && s.made[i].phase != Running
    requires !(s.made[i].phase == Init && line == ReadyLine)
    requires !(s.made[i].phase == VarsReceived && line == VarsReceivedLine)
    ensures SteadyStep(s, OnLine(s, i, line, now, seed))
  {
  }

  lemma RunningLineSteady(s: Server, i: nat, line: Uplink)
    requires SlotsExist(s) && i < |s.made|
    ensures SteadyStep(s, OnRunning(s, i, line))
  {
  }

  lemma PushKeeps(s: Server)
    requires BarrierInv(s) && PushEnabled(s)
    ensures BarrierInv(PushStep(s))
  {
    if s.push.next < |s.made| {
      assert SlotOk(s, s.push.next);
    }
    hide SlotOk;
    SteadyKeeps(s, PushStep(s));
  }

  lemma StartFrame(s: Server, now: real)
    requires SlotsExist(s) && s.pendingStarts > 0
    ensures var r := StartStep(s, now);
            && r == s.(pendingStarts := s.pendingStarts - 1, startTime := r.startTime, made := r.made, byId := r.byId,
                     failed := r.failed)
            && SlotsExist(r) && |r.made| == |s.made|
            && forall x :: 0 <= x < |s.made| ==> SameOrBegun(s.made[x], r.made[x], x in s.ready)
  {
    hide TellFirst;
    TellFirstFrame(s, |s.ready|, now + s.delay);
  }

  lemma StartKeeps(s: Server, now: real)
    requires BarrierInv(s) && s.pendingStarts > 0
    ensures BarrierInv(StartStep(s, now))
  {
    StartFrame(s, now);
    var r := StartStep(s, now);
    forall x | 0 <= x < |r.made| ensures SlotOk(r, x) {
      assert SlotOk(s, x);
    }
  }

  lemma LoseKeeps(s: Server, i: nat)
    requires BarrierInv(s) && i < |s.made|
    ensures BarrierInv(Unregister(s, i))
  {
    RemoveFirstFrame(s.ready, i);
    RemoveFirstFrame(s.received, i);
    var r := Unregister(s, i);
    forall k | 0 <= k < |r.ready| ensures r.ready[k] < |r.made| {
      assert r.ready[k] in r.ready;
    }
    forall k | 0 <= k < |r.received| ensures r.received[k] < |r.made| {
      assert r.received[k] in r.received;
    }
    forall x | 0 <= x < |r.made| ensures SlotOk(r, x) {
      assert SlotOk(s, x);
    }
  }

  lemma ReadKeeps(s: Server, i: nat)
    requires BarrierInv(s) && Enabled(s, Read(i))
    ensures BarrierInv(Apply(s, Read(i)))
  {
    hide SlotOk;
    SteadyKeeps(s, Apply(s, Read(i)));
  }

  /** A step keeps the invariant, and launches the start only when everyone acknowledged and nobody is lost. */
  lemma StepKeeps(s: Server, step: ServerStep)
    requires BarrierInv(s) && Enabled(s, step)
    ensures BarrierInv(Apply(s, step))
    ensures var r := Apply(s, step);
            r.launches > s.launches ==>
              && s.launches == 0 && r.pushes == 1 && |r.made| == r.expected
              && forall x :: 0 <= x < |r.made| ==> x in r.received && !r.made[x].lost
  {
    match step
    case Accept(host) => AcceptKeeps(s, host);
    case Receive(i, line, now, seed) =>
      if s.made[i].phase == Init && line == ReadyLine {
        ReadyLineKeeps(s, i, now, seed);
      } else if s.made[i].phase == VarsReceived && line == VarsReceivedLine {
        ReceivedLineKeeps(s, i, now, seed);
      } else {
        OtherLineKeeps(s, i, line, now, seed);
      }
    case PushIds => PushKeeps(s);
    case StartBody(now) =>
      StartKeeps(s, now);
    case Lose(i) => LoseKeeps(s, i);
    case Read(i) => ReadKeeps(s, i);
  }

  lemma {:induction false} RunKeeps(run: seq<Server>, steps: seq<ServerStep>, k: nat)
    requires IsRun(run, steps) && k < |run|
    ensures BarrierInv(run[k])
  {
    if k > 0 {
      RunKeeps(run, steps, k - 1);
      StepKeeps(run[k - 1], steps[k - 1]);
    }
  }

  /**
   In every state of every run: received within ready within made without duplicates, the table pushed at
   most once, the start launched at most once and only after the push.
   */
  lemma BarrierSafety(run: seq<Server>, steps: seq<ServerStep>, k: nat)
    requires IsRun(run, steps) && k < |run|
    ensures Counting.Distinct(run[k].ready) && Counting.Distinct(run[k].received)
    ensures forall x :: x in run[k].received ==> x in run[k].ready
    ensures forall x :: x in run[k].ready ==> x < |run[k].made| && !run[k].made[x].lost
    ensures run[k].launches <= run[k].pushes <= 1
  {
    RunKeeps(run, steps, k);
    var s := run[k];
    forall x | x in s.ready ensures x < |s.made| && !s.made[x].lost {
      assert SlotOk(s, x);
    }
    forall x | x in s.received ensures x in s.ready {
      assert SlotOk(s, x);
    }
  }

  /** The step that launches the start finds all N subscribers connected, acknowledged and not lost. */
  lemma LaunchOnlyWhenComplete(run: seq<Server>, steps: seq<ServerStep>, k: nat)
    requires IsRun(run, steps) && k < |steps|
    requires run[k + 1].launches > run[k].launches
    ensures var s := run[k + 1];
            |s.made| == s.expected && forall x :: 0 <= x < |s.made| ==> x in s.received && !s.made[x].lost
    ensures forall m :: 0 <= m <= k ==> run[m].launches == 0
  {
    RunKeeps(run, steps, k);
    StepKeeps(run[k], steps[k]);
    forall m | 0 <= m <= k ensures run[m].launches == 0 {
      LaunchesGrow(run, steps, m, k);
    }
  }

  lemma {:induction false} LaunchesGrow(run: seq<Server>, steps: seq<ServerStep>, m: nat, k: nat)
    requires IsRun(run, steps) && m <= k < |run|
    ensures run[m].launches <= run[k].launches
  {
    hide Apply;
    if m < k {
      LaunchesGrow(run, steps, m, k - 1);
      LaunchesStep(run[k - 1], steps[k - 1]);
    }
  }

  lemma LaunchesStep(s: Server, step: ServerStep)
    requires Enabled(s, step)
    ensures Apply(s, step).launches >= s.launches
  {
    if step.StartBody? {
      StartFrame(s, step.now);
    }
  }

  // ---------------------------------------------------------------------------------------------
  // What keeps the start from coming
  // ---------------------------------------------------------------------------------------------

  /** A line that a connection in this state has no use for: the connection is done, or an exception is all there is. */
  lemma UnexpectedLine(s: Server, i: nat, line: Uplink, now: real, seed: int)
    requires SlotsExist(s) && i < |s.made|
    ensures var r, done := OnLine(s, i, line, now, seed), s.(made := s.made[i := s.made[i].(phase := Done)]);
            match s.made[i].phase
            case Init =>
              && (line.VarsReceivedLine? || line.MsgLine? || line.BrokenMsg? || line.OtherUp? ==> r == done)
              && (line.BrokenSetup? ==> r == s.(failed := true))
            case VarsReceived => line != VarsReceivedLine ==> r == done
            case Wait => r == done
            case Running =>
              && (line.BrokenMsg? || (line.MsgLine? && line.to !in s.byId) ==> r == s.(failed := true))
              && (!line.BrokenMsg? && !line.MsgLine? ==> r == s)
            case Done => r == s.(stopped := true)
  {
  }

  /** A loss takes the connection off the two lists, where the others keep their order, and marks it; that is all. */
  lemma LossIs(s: Server, i: nat)
    requires i < |s.made|
    ensures var r := Unregister(s, i);
            && r == s.(made := s.made[i := s.made[i].(lost := true)], ready := r.ready, received := r.received)
            && WithoutFirst(s.ready, i, r.ready) && WithoutFirst(s.received, i, r.received)
  {
    RemoveFirstIs(s.ready, i);
    RemoveFirstIs(s.received, i);
  }

  /** `r` is `s` without the first `x`, if there is one. */
  ghost predicate WithoutFirst(s: seq<nat>, x: nat, r: seq<nat>) {
    if x in s then exists p :: 0 <= p < |s| && s[p] == x && x !in s[..p] && r == s[..p] + s[p + 1..] else r == s
  }

  lemma WithoutFirstMore(y: nat, s: seq<nat>, x: nat, r: seq<nat>)
    requires y != x && WithoutFirst(s, x, r)
    ensures WithoutFirst([y] + s, x, [y] + r)
  {
    var s', r' := [y] + s, [y] + r;
    if x in s {
      var p :| 0 <= p < |s| && s[p] == x && x !in s[..p] && r == s[..p] + s[p + 1..];
      var q := p + 1;
      assert s'[q] == x && s'[..q] == [y] + s[..p] && s'[q + 1..] == s[p + 1..];
      Grouped([y], s[..p], s[p + 1..]);
      assert x !in s'[..q] && r' == s'[..q] + s'[q + 1..];
    }
  }

  lemma {:induction false} RemoveFirstIs(s: seq<nat>, x: nat)
    ensures WithoutFirst(s, x, RemoveFirst(s, x))
  {
    if s != [] && s[0] != x {
      RemoveFirstIs(s[1..], x);
      WithoutFirstMore(s[0], s[1..], x, RemoveFirst(s[1..], x));
      FirstAndRest(s);
      hide WithoutFirst;
    } else if s != [] {
      assert s[0] == x && x !in s[..0] && s[1..] == s[..0] + s[0 + 1..];
    }
  }

  /** A connection without which the start does not come: lost, or done without having acknowledged. */
  predicate Out(s: Server, x: nat) {
    x < |s.made| && (s.made[x].lost || (s.made[x].phase == Done && x !in s.received))
  }

  lemma OutStays(s: Server, step: ServerStep, x: nat)
    requires BarrierInv(s) && Enabled(s, step) && s.launches == 0 && Out(s, x)
    ensures Apply(s, step).launches == 0 && Out(Apply(s, step), x)
  {
    StepKeeps(s, step);
    match step
    case Accept(_) =>
    case Receive(i, line, now, seed) => OutStaysOnLine(s, i, line, now, seed, x);
    case PushIds =>
    case StartBody(_) => assert false;
    case Lose(i) =>
      RemoveFirstFrame(s.ready, i);
      RemoveFirstFrame(s.received, i);
    case Read(_) =>
  }

  lemma OutStaysOnLine(s: Server, i: nat, line: Uplink, now: real, seed: int, x: nat)
    requires BarrierInv(s) && i < |s.made| && !s.made[i].lost && Out(s, x)
    ensures Out(OnLine(s, i, line, now, seed), x)
  {
    if s.made[i].phase == Init && line == ReadyLine {
      assert SlotOk(s, i);
      ReadyLineEffect(s, i, now, seed);
    } else if s.made[i].phase == VarsReceived && line == VarsReceivedLine {
      ReceivedLineEffect(s, i, now, seed);
    } else if s.made[i].phase == Running {
      RunningLineSteady(s, i, line);
    } else {
      UnexpectedLine(s, i, line, now, seed);
    }
  }

  /** In every run: once a connection is out before the start was launched, it never is. */
  lemma {:induction false} OutMeansNoStart(run: seq<Server>, steps: seq<ServerStep>, m: nat, k: nat, x: nat)
    requires IsRun(run, steps) && m <= k < |run| && Out(run[m], x) && run[m].launches == 0
    ensures run[k].launches == 0 && Out(run[k], x)
  {
    hide Apply;
    hide Out;
    if m < k {
      OutMeansNoStart(run, steps, m, k - 1, x);
      RunKeeps(run, steps, k - 1);
      OutStays(run[k - 1], steps[k - 1], x);
    }
  }

  // ---------------------------------------------------------------------------------------------
  // When the start raises
  // ---------------------------------------------------------------------------------------------

  lemma {:induction false} StartRaisesAt(s: Server, k: nat, start: real)
    requires SlotsExist(s) && k <= |s.ready|
    ensures TellFirst(s, k, start).raised <==> exists m :: 0 <= m < k && !HasOffset(s.made[s.ready[m]])
  {
    hide BegunConn;
    hide HasOffset;
    if k > 0 {
      StartRaisesAt(s, k - 1, start);
      OffsetKept(s, k - 1, start, s.ready[k - 1]);
    }
  }

  lemma OffsetKept(s: Server, k: nat, start: real, i: nat)
    requires SlotsExist(s) && k <= |s.ready| && i < |s.made|
    ensures HasOffset(TellFirst(s, k, start).made[i]) <==> HasOffset(s.made[i])
  {
    hide TellFirst;
    TellFirstFrame(s, k, start);
    assert SameOrBegun(s.made[i], TellFirst(s, k, start).made[i], i in s.ready);
  }

  /**
   start_experiment raises, leaving later subscribers without go, exactly when some ready subscriber has no
   numeric offset: it never sent a time line, or a later set line replaced the offset by text.
   */
  lemma StartRaisesIff(s: Server, now: real)
    requires SlotsExist(s) && s.pendingStarts > 0 && !s.failed
    ensures StartStep(s, now).failed <==> exists m :: 0 <= m < |s.ready| && !HasOffset(s.made[s.ready[m]])
  {
    hide TellFirst;
    StartRaisesAt(s, |s.ready|, now + s.delay);
  }

  /** A set line for time_offset makes the offset text. */
  lemma SetShadowsOffset(s: Server, i: nat, value: string, now: real, seed: int)
    requires SlotsExist(s) && i < |s.made| && s.made[i].phase == Init
    ensures !HasOffset(OnLine(s, i, SetLine(TIME_OFFSET, value), now, seed).made[i])
  {
  }
}
