/**
 Runs of clients whose variables may have any names.  A variable named time_offset replaces the clock difference that
 the server computed by text: nothing is noticed until the start, which raises exactly if some client has such a
 variable and tells just those subscribers to go that come before the first such client.
 */
module SyncShadow {
  import opened SyncModel
  import opened SyncRun
  import opened SyncProgress
  import SyncTermination

  ghost predicate IsAnyRun(run: seq<Sys>, steps: seq<Step>) {
    Continues(run, steps) && Unconnected(run[0])
  }

  /** The start has not run yet. */
  predicate NoStart(steps: seq<Step>) {
    forall k :: 0 <= k < |steps| ==> !steps[k].StartBody?
  }

  ghost predicate SameVars(s: Sys, r: Sys) {
    |s.clients| == |r.clients| && forall i :: 0 <= i < |s.clients| ==> r.clients[i].vars == s.clients[i].vars
  }

  predicate NothingRaised(s: Sys) {
    !s.server.failed && !s.server.stopped && forall i :: 0 <= i < |s.clients| ==> !s.clients[i].failed
  }

  predicate PlainUpTo(s: Sys, x: nat)
    requires x < |s.clients|
  {
    forall y :: 0 <= y <= x ==> Plain(s.clients[y])
  }

  // ---------------------------------------------------------------------------------------------
  // Up to the start
  // ---------------------------------------------------------------------------------------------

  lemma {:induction false} CoreBeforeStart(run: seq<Sys>, steps: seq<Step>, k: nat)
    requires IsAnyRun(run, steps) && k < |run| && NoStart(steps[..k])
    ensures Core(run[k]) && SameVars(run[0], run[k])
  {
    hide Core;
    hide Apply;
    if k == 0 {
      InitialCore(run[0]);
    } else {
      assert !steps[..k][k - 1].StartBody?;
      assert steps[..k - 1] == steps[..k][..k - 1];
      CoreBeforeStart(run, steps, k - 1);
      StepKeepsCore(run[k - 1], steps[k - 1]);
      StepKeepsVars(run[k - 1], steps[k - 1]);
    }
  }

  /** Whatever the variables are called, nothing raises before the start. */
  lemma NothingRaisesBefore(run: seq<Sys>, steps: seq<Step>, k: nat)
    requires IsAnyRun(run, steps) && k < |run| && NoStart(steps[..k])
    ensures NothingRaised(run[k])
  {
    CoreBeforeStart(run, steps, k);
    forall i | 0 <= i < |run[k].clients| ensures !run[k].clients[i].failed {
      assert PairOk(run[k], i);
    }
  }

  // ---------------------------------------------------------------------------------------------
  // The start
  // ---------------------------------------------------------------------------------------------

  predicate OffsetsBelow(made: seq<Conn>, k: nat)
    requires k <= |made|
  {
    forall y :: 0 <= y < k ==> HasOffset(made[y])
  }

  /** The loop tells the subscribers before the first one without a number. */
  lemma {:induction false} ToldPrefix(s: Server, k: nat, start: real)
    requires SlotsExist(s) && Iota(s.ready) && k <= |s.ready| <= |s.made|
    ensures var t := TellFirst(s, k, start);
            && (t.raised <==> !OffsetsBelow(s.made, k))
            && forall x :: 0 <= x < |s.made| ==>
                 t.made[x] == if x < k && OffsetsBelow(s.made, x + 1) then BegunConn(s.made[x], start) else s.made[x]
  {
    hide BegunConn;
    hide HasOffset;
    if k > 0 {
      ToldPrefix(s, k - 1, start);
    }
  }

  lemma StartOutcome(s: Sys, now: real)
    requires Core(s) && s.server.pendingStarts > 0
    ensures |s.server.made| == |s.clients|
    ensures StartStep(s.server, now).failed <==> !AllPlain(s)
    ensures forall x :: 0 <= x < |s.clients| ==>
              (StartStep(s.server, now).made[x].phase == Running <==> PlainUpTo(s, x))
  {
    AllWait(s);
    ToldPrefix(s.server, |s.server.ready|, now + s.server.delay);
    hide TellFirst;
    hide Plain;
  }

  /**
   The first start of a run: it raises if and only if some client has a variable named time_offset, and a subscriber is
   told to go if and only if neither its client nor an earlier one has.
   */
  lemma StartRaisesIff(run: seq<Sys>, steps: seq<Step>, k: nat)
    requires IsAnyRun(run, steps) && k < |steps| && steps[k].StartBody? && NoStart(steps[..k])
    ensures run[k + 1].server.failed
       <==> exists i, v :: 0 <= i < |run[0].clients| && 0 <= v < |run[0].clients[i].vars|
                           && run[0].clients[i].vars[v].0 == TIME_OFFSET
    ensures |run[k + 1].server.made| == |run[0].clients|
    ensures forall x :: 0 <= x < |run[0].clients| ==>
              (run[k + 1].server.made[x].phase == Running <==> PlainUpTo(run[0], x))
  {
    CoreBeforeStart(run, steps, k);
    hide Core;
    StartOutcome(run[k], steps[k].now);
    hide StartStep;
    assert AllPlain(run[k]) <==> AllPlain(run[0]);
    forall x | 0 <= x < |run[0].clients| ensures PlainUpTo(run[k], x) <==> PlainUpTo(run[0], x) {
    }
  }

  // ---------------------------------------------------------------------------------------------
  // The start comes
  // ---------------------------------------------------------------------------------------------

  lemma NotBegunYet(s: Sys, step: Step)
    requires Core(s) && !Begun(s.server) && Enabled(s, step) && !step.StartBody?
    ensures !Begun(Apply(s, step).server)
  {
    hide SendAll;
    hide TableOf;
    hide PairOk;
    hide SlotOk;
  }

  /** Set-up steps lead to a state in which the start is scheduled. */
  lemma {:induction false} CanStart(s: Sys) returns (run: seq<Sys>, steps: seq<Step>)
    requires Core(s) && !Begun(s.server) && s.clients != []
    ensures Continues(run, steps) && run[0] == s && NoStart(steps) && Enabled(run[|steps|], StartBody(0.0))
    decreases Measure(s)
  {
    hide Apply;
    hide Measure;
    if Enabled(s, StartBody(0.0)) {
      run, steps := [s], [];
    } else {
      var step := NextStep(s);
      hide Enabled;
      hide Core;
      hide Begun;
      NotBegunYet(s, step);
      StepKeepsCore(s, step);
      StepKeepsVars(s, step);
      SyncTermination.StepMeasure(s, step);
      var rest, more := CanStart(Apply(s, step));
      run, steps := [s] + rest, [step] + more;
      forall k | 0 <= k < |steps| ensures Enabled(run[k], steps[k]) && run[k + 1] == Apply(run[k], steps[k]) {
        if k > 0 {
          assert Enabled(rest[k - 1], more[k - 1]);
        }
      }
    }
  }

  lemma NextStep(s: Sys) returns (step: Step)
    requires Core(s) && !Begun(s.server) && s.clients != [] && !Enabled(s, StartBody(0.0))
    ensures Enabled(s, step) && IsSetup(s, step) && !step.StartBody?
  {
    Progress(s);
    assert !SetUpOver(s) by {
      assert |s.server.made| > 0 ==> SlotOk(s.server, 0);
    }
    step :| Enabled(s, step) && IsSetup(s, step);
  }

  lemma ShadowRaises(s: Sys) returns (run: seq<Sys>, steps: seq<Step>)
    requires Unconnected(s) && !AllPlain(s)
    ensures IsAnyRun(run, steps) && run[0] == s && !NothingRaised(run[|steps|])
  {
    InitialCore(s);
    hide Core;
    hide Enabled;
    hide Apply;
    run, steps := CanStart(s);
    var n := |steps|;
    var last := Apply(run[n], StartBody(0.0));
    var run', steps' := run + [last], steps + [StartBody(0.0)];
    forall k | 0 <= k < |steps'| ensures Enabled(run'[k], steps'[k]) && run'[k + 1] == Apply(run'[k], steps'[k]) {
      if k < n {
        assert Enabled(run[k], steps[k]);
      }
    }
    assert steps'[..n] == steps;
    StartRaisesIff(run', steps', n);
    run, steps := run', steps';
  }

  /** From given clients no run ever raises, if and only if none of them has a variable named time_offset. */
  lemma NothingRaisesIff(s: Sys)
    requires Unconnected(s)
    ensures (forall run, steps :: IsAnyRun(run, steps) && run[0] == s ==> NothingRaised(run[|steps|])) <==> AllPlain(s)
  {
    if AllPlain(s) {
      forall run: seq<Sys>, steps: seq<Step> | IsAnyRun(run, steps) && run[0] == s ensures NothingRaised(run[|steps|]) {
        LinesAccepted(run, steps, |steps|);
      }
    } else {
      var run, steps := ShadowRaises(s);
      assert IsAnyRun(run, steps);
    }
  }
}
