/**
 Set-up terminates: every set-up step lowers the measure of SyncProgress by exactly one and no other step
 changes it, so all runs from one start have the same number of set-up steps before set-up is over.
 */
module SyncTermination {
  import opened SyncModel
  import opened SyncRun
  import opened SyncProgress

  /** Rank of one client and server rank decide the measure of a step that touches one client. */
  lemma OneClientStep(s: Sys, r: Sys, x: nat, d: nat)
    requires |s.clients| == |r.clients| && x < |s.clients|
    requires forall i :: 0 <= i < |s.clients| && i != x ==> RankAt(s, i) == RankAt(r, i)
    requires RankAt(s, x) == RankAt(r, x) + d
    requires ServerRank(s.server) == ServerRank(r.server)
    ensures Measure(s) == Measure(r) + d
  {
    SumLess(s, r, |s.clients|, x, d);
  }

  lemma ConnectMeasure(s: Sys, i: nat, now: real)
    requires Core(s) && Enabled(s, Connect(i, now))
    ensures Measure(s) == Measure(Apply(s, Connect(i, now))) + 1
  {
    assert PairOk(s, i);
    OneClientStep(s, Apply(s, Connect(i, now)), i, 1);
  }

  lemma AcceptMeasure(s: Sys)
    requires Core(s) && Enabled(s, Accept)
    ensures Measure(s) == Measure(Apply(s, Accept)) + 1
  {
    var m := |s.server.made|;
    assert PairOk(s, m);
    var c := s.clients[m];
    assert c.out + ToCome(c) == Script(c);
    var r := Apply(s, Accept);
    forall i | 0 <= i < |s.clients| && i != m ensures RankAt(s, i) == RankAt(r, i) {
      if i < m {
        assert SlotOk(s.server, i);
      }
    }
    OneClientStep(s, r, m, 1);
  }

  lemma PushMeasure(s: Sys)
    requires Core(s) && Enabled(s, PushIds)
    ensures Measure(s) == Measure(Apply(s, PushIds)) + 1
  {
    SumSame(s, Apply(s, PushIds), |s.clients|);
  }

  lemma WriteJobMeasure(s: Sys, i: nat)
    requires Core(s) && Enabled(s, WriteJob(i))
    ensures Measure(s) == Measure(Apply(s, WriteJob(i))) + 1
  {
    assert PairOk(s, i);
    OneClientStep(s, Apply(s, WriteJob(i)), i, 1);
  }

  lemma SendMeasure(s: Sys, i: nat, m: Message)
    requires Core(s) && Enabled(s, Send(i, m))
    ensures Measure(s) == Measure(Apply(s, Send(i, m)))
  {
    assert PairOk(s, i);
    OneClientStep(s, Apply(s, Send(i, m)), i, 0);
  }

  lemma StartMeasure(s: Sys, now: real)
    requires Inv(s) && Enabled(s, StartBody(now))
    ensures Measure(s) == Measure(Apply(s, StartBody(now))) + 1
  {
    AllWait(s);
    StartEffect(s, now);
    hide StartStep;
    var r := Apply(s, StartBody(now));
    forall i | 0 <= i < |s.clients| ensures RankAt(s, i) == RankAt(r, i) {
      assert PairOk(s, i);
    }
    SumSame(s, r, |s.clients|);
  }

  lemma ClientReadsMeasure(s: Sys, i: nat, now: real)
    requires Core(s) && Enabled(s, ClientReads(i, now))
    ensures Measure(s) == Measure(Apply(s, ClientReads(i, now))) + One(s.clients[i].phase != Active)
  {
    hide Paired;
    hide OnDownlink;
    hide Rank;
    hide ServerOk;
    assert PairOk(s, i);
    var r := Apply(s, ClientReads(i, now));
    ReadRank(s.clients[i], s.server.made[i], Pushed(s.server, i), Tabled(s.server), Ids(s.server.made), now);
    OneClientStep(s, r, i, One(s.clients[i].phase != Active));
  }

  lemma ReadRank(c: Client, p: Conn, pushed: bool, tabled: bool, ids: seq<int>, now: real)
    requires Paired(c, p, pushed, tabled, ids) && p.out != [] && c.phase != Offline
    ensures Rank(c, true, p.phase) == Rank(OnDownlink(c, p.out[0], now), true, p.phase) + One(c.phase != Active)
  {
  }

  lemma ServerReadsMeasure(s: Sys, i: nat, now: real, seed: int)
    requires Core(s) && Enabled(s, ServerReads(i, now, seed))
    ensures Measure(s)
         == Measure(Apply(s, ServerReads(i, now, seed))) + One(s.server.made[i].phase != Running)
  {
    ReadPhase(s, i);
    hide PairOk;
    hide Apply;
    hide Measure;
    match s.server.made[i].phase
    case Init =>
      if s.clients[i].out[0] == ReadyLine {
        ReadyMeasure(s, i, now, seed);
      } else {
        SetupMeasure(s, i, now, seed);
      }
    case VarsReceived => ReceivedMeasure(s, i, now, seed);
    case Running => MessageMeasure(s, i, now, seed);
    case _ =>
  }

  lemma SetupMeasure(s: Sys, i: nat, now: real, seed: int)
    requires Core(s) && Enabled(s, ServerReads(i, now, seed))
    requires s.server.made[i].phase == Init && s.clients[i].out[0] != ReadyLine
    ensures Measure(s) == Measure(Apply(s, ServerReads(i, now, seed))) + 1
  {
    assert PairOk(s, i);
    ScriptHead(s.clients[i]);
    OneClientStep(s, Apply(s, ServerReads(i, now, seed)), i, 1);
  }

  lemma ReadyMeasure(s: Sys, i: nat, now: real, seed: int)
    requires Core(s) && Enabled(s, ServerReads(i, now, seed))
    requires s.server.made[i].phase == Init && s.clients[i].out[0] == ReadyLine
    ensures Measure(s) == Measure(Apply(s, ServerReads(i, now, seed))) + 1
  {
    hide OnLine;
    hide Paired;
    ReadyComesInOrder(s, i);
    ReadyEffect(s.server, i, now, seed);
    var r := Apply(s, ServerReads(i, now, seed));
    OneClientStep(s, r, i, 1);
  }

  lemma ReceivedMeasure(s: Sys, i: nat, now: real, seed: int)
    requires Core(s) && Enabled(s, ServerReads(i, now, seed))
    requires s.server.made[i].phase == VarsReceived
    ensures Measure(s) == Measure(Apply(s, ServerReads(i, now, seed))) + 1
  {
    assert PairOk(s, i) && SlotOk(s.server, i);
    OneClientStep(s, Apply(s, ServerReads(i, now, seed)), i, 1);
  }

  lemma MessageMeasure(s: Sys, i: nat, now: real, seed: int)
    requires Core(s) && Enabled(s, ServerReads(i, now, seed))
    requires s.server.made[i].phase == Running
    ensures Measure(s) == Measure(Apply(s, ServerReads(i, now, seed)))
  {
    assert PairOk(s, i) && SlotOk(s.server, i);
    var r := Apply(s, ServerReads(i, now, seed));
    OneClientStep(s, r, i, 0);
  }

  /** Every set-up step lowers the measure by one; the others leave it alone. */
  lemma StepMeasure(s: Sys, step: Step)
    requires Core(s) && Enabled(s, step) && (step.StartBody? ==> AllPlain(s))
    ensures Measure(s) == Measure(Apply(s, step)) + One(IsSetup(s, step))
  {
    hide Core;
    hide Apply;
    hide Measure;
    match step
    case Connect(i, now) => ConnectMeasure(s, i, now);
    case Accept => AcceptMeasure(s);
    case PushIds => PushMeasure(s);
    case ServerReads(i, now, seed) => ServerReadsMeasure(s, i, now, seed);
    case StartBody(now) => StartMeasure(s, now);
    case ClientReads(i, now) => ClientReadsMeasure(s, i, now);
    case WriteJob(i) => WriteJobMeasure(s, i);
    case Send(i, message) => SendMeasure(s, i, message);
  }

  /** The number of set-up steps among the first k steps of a run. */
  ghost function SetupSteps(run: seq<Sys>, steps: seq<Step>, k: nat): nat
    requires IsRun(run, steps) && k <= |steps|
  {
    if k == 0 then 0 else SetupSteps(run, steps, k - 1) + One(IsSetup(run[k - 1], steps[k - 1]))
  }

  /** In every run, set-up steps taken and measure left add up to the measure at the start. */
  lemma {:induction false} SetupStepsTaken(run: seq<Sys>, steps: seq<Step>, k: nat)
    requires IsRun(run, steps) && k <= |steps|
    ensures SetupSteps(run, steps, k) + Measure(run[k]) == Measure(run[0])
  {
    hide Core;
    hide Apply;
    hide Measure;
    if k > 0 {
      SetupStepsTaken(run, steps, k - 1);
      RunKeeps(run, steps, k - 1);
      StepMeasure(run[k - 1], steps[k - 1]);
    }
  }

  /** A run that cannot set up any further has all N clients and all N connections running. */
  lemma MaximalRunsFinish(run: seq<Sys>, steps: seq<Step>)
    requires IsRun(run, steps)
    ensures SetupSteps(run, steps, |steps|) <= Measure(run[0])
    ensures !CanSetUp(run[|steps|]) <==> SetUpOver(run[|steps|])
  {
    hide Core;
    hide Apply;
    hide Measure;
    SetupStepsTaken(run, steps, |steps|);
    RunKeeps(run, steps, |steps|);
    Progress(run[|steps|]);
  }

  /** The measure is used up exactly when set-up is over, so all finished runs are equally long. */
  lemma FinishedMeansZero(s: Sys)
    requires Inv(s) && s.clients != []
    ensures SetUpOver(s) <==> Measure(s) == 0
  {
    if SetUpOver(s) {
      forall i | 0 <= i < |s.clients| ensures RankAt(s, i) == 0 {
        assert PairOk(s, i);
      }
      SumZero(s, |s.clients|);
      assert SlotOk(s.server, 0);
      assert PairOk(s, 0);
    } else {
      Progress(s);
      var step :| Enabled(s, step) && IsSetup(s, step);
      StepMeasure(s, step);
    }
  }

  lemma {:induction false} SumZero(s: Sys, n: nat)
    requires n <= |s.clients|
    requires forall i :: 0 <= i < n ==> RankAt(s, i) == 0
    ensures SumRanks(s, n) == 0
  {
    hide RankAt;
    if n > 0 {
      SumZero(s, n - 1);
    }
  }

  /**
   From every state with the invariant, so from every state of every run, set-up steps alone lead to a state in which
   set-up is over; there are as many of them as the measure loses.
   */
  lemma {:induction false} CanFinish(s: Sys) returns (run: seq<Sys>, steps: seq<Step>)
    requires Inv(s)
    ensures Continues(run, steps) && run[0] == s
    ensures forall k :: 0 <= k < |steps| ==> IsSetup(run[k], steps[k])
    ensures Inv(run[|steps|]) && SetUpOver(run[|steps|])
    ensures |steps| + Measure(run[|steps|]) == Measure(s)
    decreases Measure(s)
  {
    hide Core;
    hide Apply;
    hide Measure;
    hide Enabled;
    hide IsSetup;
    hide SetUpOver;
    Progress(s);
    if SetUpOver(s) {
      run, steps := [s], [];
    } else {
      var step :| Enabled(s, step) && IsSetup(s, step);
      StepKeeps(s, step);
      StepMeasure(s, step);
      var rest, more := CanFinish(Apply(s, step));
      run, steps := [s] + rest, [step] + more;
      forall k | 0 <= k < |steps|
        ensures Enabled(run[k], steps[k]) && IsSetup(run[k], steps[k]) && run[k + 1] == Apply(run[k], steps[k])
      {
        if k > 0 {
          assert Enabled(rest[k - 1], more[k - 1]) && IsSetup(rest[k - 1], more[k - 1]);
        }
      }
    }
  }
}
