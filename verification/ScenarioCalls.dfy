/**
 What reading a line does to the calls of a run (gumby/scenario.py, run, and gumby/experiment.py, set), on the lists of
 calls themselves: a command with a time adds one scheduled call for each of its callbacks and nothing else, an
 immediate one makes these calls at once, up to a set that raises, and an immediate set changes one variable.
 */
module ScenarioCalls {
  import opened Wrappers
  import opened Text
  import opened Expansion
  import opened Scenario
  import opened ScenarioLines
  import PeerSpec

  /** One call of the command for each callback, in the order in which they were registered. */
  function Invoked(command: Command, targets: seq<Target>): (r: seq<Invocation>)
    ensures |r| == |targets|
  {
    seq(|targets|, k requires 0 <= k < |targets| => Invocation(command, targets[k]))
  }

  lemma InvokedMore(command: Command, targets: seq<Target>)
    requires targets != []
    ensures Invoked(command, targets)
         == Invoked(command, targets[..|targets| - 1]) + [Invocation(command, targets[|targets| - 1])]
  {
  }

  // ---------------------------------------------------------------------------------------------
  // One command
  // ---------------------------------------------------------------------------------------------

  lemma {:induction false} TimedSchedules(st: State, command: Command, targets: seq<Target>)
    requires !st.raised && command.begin >= 0.0
    ensures Perform(st, command, targets) == st.(timed := st.timed + Invoked(command, targets))
  {
    if targets == [] {
      assert st.timed + Invoked(command, targets) == st.timed;
    } else {
      TimedSchedules(st, command, targets[..|targets| - 1]);
      InvokedMore(command, targets);
    }
  }

  /** Immediate calls; `name` and `value` are what set binds, if it is among the callbacks. */
  lemma {:induction false} ImmediateCalls(st: State, command: Command, targets: seq<Target>, name: string,
                                          value: string)
    requires !st.raised && command.begin < 0.0
    requires SetVariable in targets ==> Binds(command.args, name, value)
    ensures Perform(st, command, targets)
         == st.(calls := st.calls + Invoked(command, targets),
                vars := if SetVariable in targets then st.vars[name := value] else st.vars)
  {
    SetArgsIff(command.args, name, value);
    hide SetArgs;
    hide Binds;
    if targets == [] {
      assert st.calls + Invoked(command, targets) == st.calls;
    } else {
      var init, last := targets[..|targets| - 1], targets[|targets| - 1];
      assert targets == init + [last];
      ImmediateCalls(st, command, init, name, value);
      InvokedMore(command, targets);
      assert st.vars[name := value][name := value] == st.vars[name := value];
    }
  }

  /** A set that cannot bind its arguments raises; only the callbacks registered before it are called. */
  lemma {:induction false} ImmediateRaises(st: State, command: Command, targets: seq<Target>, p: nat)
    requires !st.raised && command.begin < 0.0
    requires forall name, value :: !Binds(command.args, name, value)
    requires p < |targets| && targets[p] == SetVariable && SetVariable !in targets[..p]
    ensures Perform(st, command, targets)
         == st.(calls := st.calls + Invoked(command, targets[..p]), raised := true)
  {
    NothingBound(command.args);
    hide SetArgs;
    hide Binds;
    if p < |targets| - 1 {
      var init := targets[..|targets| - 1];
      assert init[..p] == targets[..p];
      ImmediateRaises(st, command, init, p);
    } else {
      ImmediateCalls(st, command, targets[..p], "", "");
    }
  }

  lemma NothingBound(args: Args)
    ensures SetArgs(args).None? <==> forall name, value :: !Binds(args, name, value)
  {
    if SetArgs(args).Some? {
      SetArgsIff(args, SetArgs(args).value.0, SetArgs(args).value.1);
    }
    forall name, value | Binds(args, name, value) ensures SetArgs(args).Some? {
      SetArgsIff(args, name, value);
    }
  }

  // ---------------------------------------------------------------------------------------------
  // A line of a run
  // ---------------------------------------------------------------------------------------------

  /** From `s` to `r` the command did what it should: scheduled, called, set, raised. */
  ghost predicate Did(s: State, r: State, command: Command, targets: seq<Target>) {
    if command.begin >= 0.0 then
      r == s.(timed := s.timed + Invoked(command, targets))
    else if SetVariable !in targets then
      r == s.(calls := s.calls + Invoked(command, targets))
    else if exists name, value :: Binds(command.args, name, value) then
      exists name, value ::
        Binds(command.args, name, value)
        && r == s.(calls := s.calls + Invoked(command, targets), vars := s.vars[name := value])
    else
      exists p ::
        0 <= p < |targets| && targets[p] == SetVariable && SetVariable !in targets[..p]
        && r == s.(calls := s.calls + Invoked(command, targets[..p]), raised := true)
  }

  lemma CommandDid(s: State, command: Command, targets: seq<Target>)
    requires !s.raised
    ensures Did(s, Perform(s, command, targets), command, targets)
  {
    hide Perform;
    hide Binds;
    if command.begin >= 0.0 {
      TimedSchedules(s, command, targets);
    } else if SetVariable !in targets {
      ImmediateCalls(s, command, targets, "", "");
    } else if name, value :| Binds(command.args, name, value) {
      ImmediateCalls(s, command, targets, name, value);
    } else {
      var p := FirstSet(targets);
      ImmediateRaises(s, command, targets, p);
    }
  }

  lemma {:induction false} FirstSet(targets: seq<Target>) returns (p: nat)
    requires SetVariable in targets
    ensures p < |targets| && targets[p] == SetVariable && SetVariable !in targets[..p]
  {
    var init := targets[..|targets| - 1];
    if SetVariable in init {
      p := FirstSet(init);
      assert init[..p] == targets[..p];
    } else {
      p := |targets| - 1;
    }
  }

  /** What one more line of a run does, with the variables that the lines before it left. */
  lemma LineDid(st: State, before: seq<string>, line: string, registered: Callables, me: int, out: Outside)
    ensures var s, r := RunFrom(st, before, registered, me, out), RunFrom(st, before + [line], registered, me, out);
            if s.raised then
              r == s
            else
              match ReadLine(line, s.vars, me, out)
              case Raises => r == s.(raised := true)
              case Nothing => r == s
              case Runs(command) =>
                if command.callable in registered then Did(s, r, command, registered[command.callable]) else r == s
  {
    var s := RunFrom(st, before, registered, me, out);
    assert (before + [line])[..|before|] == before;
    assert RunFrom(st, before + [line], registered, me, out) == Step(s, line, registered, me, out);
    hide RunFrom;
    hide ReadLine;
    hide Did;
    match ReadLine(line, s.vars, me, out)
    case Runs(command) =>
      if !s.raised && command.callable in registered {
        CommandDid(s, command, registered[command.callable]);
      }
    case _ =>
  }

  // ---------------------------------------------------------------------------------------------
  // Documented lines in a run
  // ---------------------------------------------------------------------------------------------

  /**
   A line of the documented layout, reached in a run in which nothing has raised: at exactly the peers that it names,
   and if something is registered under its callable, it does what its command should, and otherwise nothing.
   */
  lemma DocumentedLine(st: State, before: seq<string>, w: When, callable: string, args: string,
                       items: seq<PeerSpec.Item>, pad: string, registered: Callables, me: int, out: Outside)
    requires Wellformed(w, out) && ' ' !in callable && '$' !in callable
    requires out.toArgs(args).Some? && '$' !in args
    requires items != [] && Blank(pad) && exists x :: PeerSpec.Listed(items, x)
    requires !RunFrom(st, before, registered, me, out).raised
    ensures var line := ShowCommand(w, callable, args) + ['{'] + PeerSpec.ShowSpec(items, pad) + ['}'];
            var s, r := RunFrom(st, before, registered, me, out), RunFrom(st, before + [line], registered, me, out);
            var command := Command(TimeOf(w, out), callable, out.toArgs(args).value);
            if PeerSpec.Listed(items, me) && callable in registered then Did(s, r, command, registered[callable])
            else r == s
  {
    hide *;
    var line := ShowCommand(w, callable, args) + ['{'] + PeerSpec.ShowSpec(items, pad) + ['}'];
    var s := RunFrom(st, before, registered, me, out);
    LineReadsBack(w, callable, args, items, pad, s.vars, me, out);
    LineDid(st, before, line, registered, me, out);
    ExpectedIs(PeerSpec.Listed(items, me), w, callable, args, out);
  }

  lemma ExpectedIs(applies: bool, w: When, callable: string, args: string, out: Outside)
    requires Wellformed(w, out) && out.toArgs(args).Some?
    ensures Expected(applies, w, callable, args, out)
         == if applies then Runs(Command(TimeOf(w, out), callable, out.toArgs(args).value)) else Nothing
  {
  }

  /** After an immediate set its name expands to its value, whatever was there before. */
  lemma SetThenExpands(st: State, before: seq<string>, line: string, name: string, value: string,
                       registered: Callables, me: int, out: Outside)
    requires var s := RunFrom(st, before, registered, me, out);
             && !s.raised
             && ReadLine(line, s.vars, me, out).Runs?
             && var command := ReadLine(line, s.vars, me, out).command;
                && command.begin < 0.0 && Binds(command.args, name, value)
                && command.callable in registered && SetVariable in registered[command.callable]
    requires name != "" && forall k :: 0 <= k < |name| ==> IsWord(name[k])
    ensures Expand(['$'] + name, RunFrom(st, before + [line], registered, me, out).vars, out.environ) == value
  {
    hide ReadLine;
    hide Binds;
    var s, r := RunFrom(st, before, registered, me, out), RunFrom(st, before + [line], registered, me, out);
    LineDid(st, before, line, registered, me, out);
    var command := ReadLine(line, s.vars, me, out).command;
    SetArgsIff(command.args, name, value);
    forall n, v | Binds(command.args, n, v) ensures n == name && v == value {
      SetArgsIff(command.args, n, v);
    }
    hide SetArgs;
    hide RunFrom;
    assert name in r.vars && r.vars[name] == value;
    OneName(name, r.vars, out.environ);
  }

  lemma OneName(name: string, user: Table, env: Table)
    requires name != "" && (forall k :: 0 <= k < |name| ==> IsWord(name[k])) && name in user
    ensures Expand(['$'] + name, user, env) == user[name]
  {
    var line := ['$'] + name;
    assert line[1..] == name;
    AllWords(name);
    assert line[1..|name| + 1] == name && line[|name| + 1..] == "";
    assert Tokens(line) == [name] + Tokens("");
    assert [name][..0] == [];
    assert ReplaceAll(line, [], user, env) == line;
    ReplaceOwn(name, "", user[name]);
    assert line + "" == line;
  }

  lemma {:induction false} AllWords(s: string)
    requires forall k :: 0 <= k < |s| ==> IsWord(s[k])
    ensures WordRun(s) == |s|
  {
    if s != "" {
      AllWords(s[1..]);
    }
  }
}
