/**
 Running a scenario (gumby/scenario.py).  Lines are parsed one by one while the runner executes immediate
 calls, so that a set command changes how the lines after it are expanded.
 */
module Scenario {
  import opened Wrappers
  import opened Text
  import opened Expansion
  import PeerSpec

  /** Arguments of a line as shlex and the named-argument pattern give them. */
  datatype Args = Args(unnamed: seq<string>, named: map<string, string>)

  /** What the runner takes from outside: the environment, float, and the argument tokeniser. */
  datatype Outside = Outside(
    environ: Table,
    toFloat: string -> Option<real>,
    toArgs: string -> Option<Args>)

  /** A parsed line.  A negative time stands for an immediate call. */
  datatype Command = Command(begin: real, callable: string, args: Args)

  // ---------------------------------------------------------------------------------------------
  // Parsing a line
  // ---------------------------------------------------------------------------------------------

  /** rfind. */
  function LastIndexOf(s: string, c: char): (i: int)
    ensures -1 <= i < |s|
    ensures i >= 0 ==> s[i] == c
    ensures forall k :: i < k < |s| ==> s[k] != c
  {
    if s == "" then -1 else if s[|s| - 1] == c then |s| - 1 else LastIndexOf(s[..|s| - 1], c)
  }

  /** The command part of a line and its peer specification. */
  function CutPeerspec(line: string): (string, string) {
    if line != "" && line[|line| - 1] == '}' then
      var brace := LastIndexOf(line, '{');
      (if brace < 0 then line[..|line| - 1] else line[..brace], line[brace + 1..|line| - 1])
    else
      (line, "")
  }

  /** The time a line asks for, in seconds; None where the code raises. */
  function ParseTime(timespec: string, out: Outside): Option<real> {
    if |timespec| > 1 && timespec[0] == '@' && timespec[1] == '!' then
      Some(-1.0)
    else if timespec == "" then
      None
    else
      ParsePieces(Text.Split(if timespec[0] == '@' then timespec[1..] else timespec, ':'), out)
  }

  /** Seconds, minutes and hours, from the last piece on; pieces before those are ignored. */
  function ParsePieces(pieces: seq<string>, out: Outside): Option<real>
    requires pieces != []
  {
    var n := |pieces|;
    match out.toFloat(pieces[n - 1])
    case None => None
    case Some(seconds) =>
      if n == 1 then
        Some(seconds)
      else
        match ParseInt(pieces[n - 2])
        case None => None
        case Some(minutes) =>
          if n == 2 then
            Some(seconds + (minutes * 60) as real)
          else
            match ParseInt(pieces[n - 3])
            case None => None
            case Some(hours) => Some(seconds + (minutes * 60) as real + (hours * 3600) as real)
  }

  /** _parse_scenario_line after the expansion: None for a blank or invalid line. */
  function ParseCommand(text: string, peerspec: string, out: Outside): Option<Command> {
    var parts := SplitN(text, ' ', 2);
    if |parts| == 1 then
      None
    else
      match ParseTime(parts[0], out)
      case None => None
      case Some(begin) =>
        if |peerspec| > 1 && peerspec[0] == '$' && IsWord(peerspec[1]) then
          None
        else
          match out.toArgs(if |parts| == 3 then parts[2] else "")
          case None => None
          case Some(args) => Some(Command(begin, parts[1], args))
  }

  /** What a line comes to with the variables at hand: an exception, nothing, or a command. */
  datatype Outcome = Raises | Nothing | Runs(command: Command)

  function ReadLine(line: string, vars: Table, me: int, out: Outside): Outcome {
    var (text, peerspec) := CutPeerspec(line);
    match PeerSpec.ForThisPeer(peerspec, me)
    case None => Raises
    case Some(false) => Nothing
    case Some(true) =>
      match ParseCommand(Expand(text, vars, out.environ), peerspec, out)
      case None => Nothing
      case Some(command) => Runs(command)
  }

  // ---------------------------------------------------------------------------------------------
  // Running the lines
  // ---------------------------------------------------------------------------------------------

  const NAME: string := "variable_name"
  const VALUE: string := "variable_value"

  /** How set binds its arguments; None where the call raises TypeError. */
  function SetArgs(args: Args): Option<(string, string)> {
    var u, n := args.unnamed, args.named;
    if |u| == 2 && n.Keys == {} then Some((u[0], u[1]))
    else if |u| == 1 && n.Keys == {VALUE} then Some((u[0], n[VALUE]))
    else if |u| == 0 && n.Keys == {NAME, VALUE} then Some((n[NAME], n[VALUE]))
    else None
  }

  /** The calls that bind the two parameters of set: both by position, the value by name, or both by name. */
  predicate Binds(args: Args, name: string, value: string) {
    || args == Args([name, value], map[])
    || args == Args([name], map[VALUE := value])
    || args == Args([], map[NAME := name, VALUE := value])
  }

  lemma SetArgsIff(args: Args, name: string, value: string)
    ensures SetArgs(args) == Some((name, value)) <==> Binds(args, name, value)
  {
    var u, n := args.unnamed, args.named;
    assert NAME != VALUE by {
      assert NAME[9] != VALUE[9];
    }
    if SetArgs(args) == Some((name, value)) {
      assert n.Keys == {} ==> n == map[];
      assert n.Keys == {VALUE} ==> n == map[VALUE := n[VALUE]];
      assert n.Keys == {NAME, VALUE} ==> n == map[NAME := n[NAME], VALUE := n[VALUE]];
      assert |u| == 2 ==> u == [u[0], u[1]];
    }
    if Binds(args, name, value) {
      assert map[VALUE := value].Keys == {VALUE};
      assert map[NAME := name, VALUE := value].Keys == {NAME, VALUE};
    }
  }

  /** A callback: set of the experiment client, or one of a module, of which only the call is modelled. */
  datatype Target = SetVariable | Foreign(callback: string)

  /** The callbacks under each name, in the order in which they were registered. */
  type Callables = map<string, seq<Target>>

  datatype Invocation = Invocation(command: Command, target: Target)

  /** The variables, the calls scheduled for later, the calls made at once, and whether an exception ended it. */
  datatype State = State(vars: Table, timed: seq<Invocation>, calls: seq<Invocation>, raised: bool)

  /** One callback of a command. */
  function PerformOne(st: State, command: Command, target: Target): State {
    if command.begin >= 0.0 then
      st.(timed := st.timed + [Invocation(command, target)])
    else if target == SetVariable then
      match SetArgs(command.args)
      case None => st.(raised := true)
      case Some((name, value)) =>
        st.(vars := st.vars[name := value], calls := st.calls + [Invocation(command, target)])
    else
      st.(calls := st.calls + [Invocation(command, target)])
  }

  /** All callbacks of a command, until one raises. */
  function Perform(st: State, command: Command, targets: seq<Target>): State {
    if targets == [] then
      st
    else
      var r := Perform(st, command, targets[..|targets| - 1]);
      if r.raised then r else PerformOne(r, command, targets[|targets| - 1])
  }

  function Step(st: State, line: string, registered: Callables, me: int, out: Outside): State {
    if st.raised then
      st
    else
      match ReadLine(line, st.vars, me, out)
      case Raises => st.(raised := true)
      case Nothing => st
      case Runs(command) =>
        if command.callable in registered then Perform(st, command, registered[command.callable]) else st
  }

  function RunFrom(st: State, lines: seq<string>, registered: Callables, me: int, out: Outside): State {
    if lines == [] then
      st
    else
      Step(RunFrom(st, lines[..|lines| - 1], registered, me, out), lines[|lines| - 1], registered, me, out)
  }

  /** The runner with the parser it inherits from. */
  class ScenarioRunner {
    const peernumber: int
    const outside: Outside
    var lineBuffer: seq<string>
    var userDefinedVars: Table
    var callables: Callables
    var timed: seq<Invocation>
    var calls: seq<Invocation>

    constructor (peernumber: int, outside: Outside)
      ensures this.peernumber == peernumber && this.outside == outside
      ensures lineBuffer == [] && userDefinedVars == map[] && callables == map[] && timed == [] && calls == []
    {
      this.peernumber := peernumber;
      this.outside := outside;
      lineBuffer, userDefinedVars, callables, timed, calls := [], map[], map[], [], [];
    }

    method Register(callback: Target, name: string)
      modifies this`callables
      ensures callables.Keys == old(callables).Keys + {name}
      ensures callables[name] == (if name in old(callables) then old(callables)[name] else []) + [callback]
      ensures forall n :: n in old(callables) && n != name ==> callables[n] == old(callables)[n]
    {
      if name !in callables {
        callables := callables[name := []];
      }
      callables := callables[name := callables[name] + [callback]];
    }

    ghost function Now(raised: bool): State
      reads this
    {
      State(userDefinedVars, timed, calls, raised)
    }

    /** set of the experiment client. */
    method Set(variableName: string, variableValue: string)
      modifies this`userDefinedVars
      ensures userDefinedVars == old(userDefinedVars)[variableName := variableValue]
    {
      userDefinedVars := userDefinedVars[variableName := variableValue];
    }

    /** One element of the generator _parse_scenario, drawn when the runner asks for it. */
    method NextCommand(line: string) returns (r: Outcome)
      ensures r == ReadLine(line, userDefinedVars, peernumber, outside)
    {
      var (text, peerspec) := CutPeerspec(line);
      match PeerSpec.ForThisPeer(peerspec, peernumber) {
        case None => r := Raises;
        case Some(applies) =>
          if !applies {
            r := Nothing;
          } else {
            var expanded := ExpandLine(text, userDefinedVars, outside.environ);
            match ParseCommand(expanded, peerspec, outside) {
              case None => r := Nothing;
              case Some(command) => r := Runs(command);
            }
          }
      }
    }

    /** The body of the loop of run for a command with callbacks. */
    method Call(command: Command) returns (raised: bool)
      requires command.callable in callables
      modifies this`userDefinedVars, this`timed, this`calls
      ensures Now(raised) == Perform(old(Now(false)), command, callables[command.callable])
    {
      raised := false;
      var targets := callables[command.callable];
      for k := 0 to |targets|
        invariant Now(raised) == Perform(old(Now(false)), command, targets[..k])
      {
        assert targets[..k + 1][..k] == targets[..k];
        if !raised {
          raised := CallOne(command, targets[k]);
        }
      }
      assert targets[..|targets|] == targets;
    }

    method CallOne(command: Command, target: Target) returns (raised: bool)
      modifies this`userDefinedVars, this`timed, this`calls
      ensures Now(raised) == PerformOne(old(Now(false)), command, target)
    {
      raised := false;
      if command.begin >= 0.0 {
        timed := timed + [Invocation(command, target)];
      } else if target == SetVariable {
        match SetArgs(command.args) {
          case None => raised := true;
          case Some(binding) =>
            Set(binding.0, binding.1);
            calls := calls + [Invocation(command, target)];
        }
      } else {
        calls := calls + [Invocation(command, target)];
      }
    }

    /** run. */
    method Run() returns (raised: bool)
      modifies this`userDefinedVars, this`timed, this`calls
      ensures Now(raised) == RunFrom(old(Now(false)), lineBuffer, callables, peernumber, outside)
    {
      hide ReadLine;
      hide Perform;
      ghost var start := Now(false);
      raised := false;
      for k := 0 to |lineBuffer|
        invariant Now(raised) == RunFrom(start, lineBuffer[..k], callables, peernumber, outside)
      {
        assert lineBuffer[..k + 1][..k] == lineBuffer[..k];
        if !raised {
          var next := NextCommand(lineBuffer[k]);
          match next {
            case Raises => raised := true;
            case Nothing =>
            case Runs(command) =>
              if command.callable in callables {
                raised := Call(command);
              }
          }
        }
      }
      assert lineBuffer[..|lineBuffer|] == lineBuffer;
    }
  }

  // ---------------------------------------------------------------------------------------------
  // The scope of variables
  // ---------------------------------------------------------------------------------------------

  /** The variable a line sets at once when it is reached in state `st`, if it is an immediate set for this peer. */
  function SetBy(st: State, line: string, registered: Callables, me: int, out: Outside): Option<(string, string)> {
    if st.raised then
      None
    else
      match ReadLine(line, st.vars, me, out)
      case Runs(command) =>
        if command.callable in registered && command.begin < 0.0 && SetVariable in registered[command.callable] then
          SetArgs(command.args)
        else
          None
      case _ => None
  }

  /** The value given to `name` by the latest of the first `i` lines that sets it. */
  function LatestSet(st: State, lines: seq<string>, i: nat, name: string, registered: Callables, me: int,
                     out: Outside): Option<string>
    requires i <= |lines|
  {
    if i == 0 then
      None
    else
      match SetBy(RunFrom(st, lines[..i - 1], registered, me, out), lines[i - 1], registered, me, out)
      case Some((n, value)) => if n == name then Some(value) else LatestSet(st, lines, i - 1, name, registered, me, out)
      case None => LatestSet(st, lines, i - 1, name, registered, me, out)
  }

  lemma {:induction false} PerformVars(st: State, command: Command, targets: seq<Target>)
    requires !st.raised
    ensures Perform(st, command, targets).vars
         == if command.begin < 0.0 && SetVariable in targets && SetArgs(command.args).Some? then
              st.vars[SetArgs(command.args).value.0 := SetArgs(command.args).value.1]
            else
              st.vars
    ensures Perform(st, command, targets).raised
       <==> command.begin < 0.0 && SetVariable in targets && SetArgs(command.args).None?
  {
    hide SetArgs;
    if targets != [] {
      PerformVars(st, command, targets[..|targets| - 1]);
    }
  }

  lemma StepVars(st: State, line: string, registered: Callables, me: int, out: Outside)
    ensures Step(st, line, registered, me, out).vars
         == match SetBy(st, line, registered, me, out)
            case None => st.vars
            case Some((name, value)) => st.vars[name := value]
  {
    hide ReadLine;
    hide SetArgs;
    match ReadLine(line, st.vars, me, out)
    case Runs(command) =>
      if !st.raised && command.callable in registered {
        PerformVars(st, command, registered[command.callable]);
      }
    case _ =>
  }

  /**
   The value of a variable in line i: that of the latest earlier immediate set for this peer, else the one it
   had before the run, else the one in the environment.
   */
  lemma {:induction false} LatestSetDecides(st: State, lines: seq<string>, i: nat, name: string,
                                            registered: Callables, me: int, out: Outside)
    requires i <= |lines|
    ensures var before, now := out.environ + st.vars, out.environ + RunFrom(st, lines[..i], registered, me, out).vars;
            match LatestSet(st, lines, i, name, registered, me, out)
            case Some(value) => name in now && now[name] == value
            case None => (name in now <==> name in before) && (name in now ==> now[name] == before[name])
  {
    hide Step;
    hide SetBy;
    if i > 0 {
      LatestSetDecides(st, lines, i - 1, name, registered, me, out);
      assert lines[..i][..i - 1] == lines[..i - 1];
      StepVars(RunFrom(st, lines[..i - 1], registered, me, out), lines[i - 1], registered, me, out);
    }
  }

  lemma {:induction false} RunConcat(st: State, a: seq<string>, b: seq<string>, registered: Callables, me: int,
                                     out: Outside)
    ensures RunFrom(st, a + b, registered, me, out)
         == RunFrom(RunFrom(st, a, registered, me, out), b, registered, me, out)
  {
    hide Step;
    if b == [] {
      assert a + b == a;
    } else {
      assert (a + b)[..|a + b| - 1] == a + b[..|b| - 1];
      RunConcat(st, a, b[..|b| - 1], registered, me, out);
    }
  }

  /** What lines add to a state depends on the variables alone. */
  ghost predicate SameEffect(st: State, r: State, st': State, r': State) {
    && r.vars == r'.vars
    && r.raised == r'.raised
    && st.timed <= r.timed && st'.timed <= r'.timed && r.timed[|st.timed|..] == r'.timed[|st'.timed|..]
    && st.calls <= r.calls && st'.calls <= r'.calls && r.calls[|st.calls|..] == r'.calls[|st'.calls|..]
  }

  lemma AppendBoth<T>(o: seq<T>, s: seq<T>, o': seq<T>, s': seq<T>, x: T)
    requires o <= s && o' <= s' && s[|o|..] == s'[|o'|..]
    ensures o <= s + [x] && o' <= s' + [x] && (s + [x])[|o|..] == (s' + [x])[|o'|..]
  {
    assert (s + [x])[|o|..] == s[|o|..] + [x];
    assert (s' + [x])[|o'|..] == s'[|o'|..] + [x];
  }

  lemma StepEffect(o: State, st: State, o': State, st': State, line: string, registered: Callables, me: int,
                   out: Outside)
    requires SameEffect(o, st, o', st')
    ensures SameEffect(o, Step(st, line, registered, me, out), o', Step(st', line, registered, me, out))
  {
    hide ReadLine;
    match ReadLine(line, st.vars, me, out)
    case Runs(command) =>
      if command.callable in registered {
        PerformEffect(o, st, o', st', command, registered[command.callable]);
      }
    case _ =>
  }

  lemma {:induction false} PerformEffect(o: State, st: State, o': State, st': State, command: Command,
                                         targets: seq<Target>)
    requires SameEffect(o, st, o', st')
    ensures SameEffect(o, Perform(st, command, targets), o', Perform(st', command, targets))
  {
    hide PerformOne;
    hide SameEffect;
    if targets != [] {
      var init, last := targets[..|targets| - 1], targets[|targets| - 1];
      PerformEffect(o, st, o', st', command, init);
      var r, r' := Perform(st, command, init), Perform(st', command, init);
      OneEffect(o, r, o', r', command, last);
    }
  }

  lemma OneEffect(o: State, st: State, o': State, st': State, command: Command, target: Target)
    requires SameEffect(o, st, o', st')
    ensures st.raised == st'.raised
    ensures SameEffect(o, PerformOne(st, command, target), o', PerformOne(st', command, target))
  {
    hide SetArgs;
    AppendBoth(o.timed, st.timed, o'.timed, st'.timed, Invocation(command, target));
    AppendBoth(o.calls, st.calls, o'.calls, st'.calls, Invocation(command, target));
  }

  lemma {:induction false} RunEffect(st: State, st': State, lines: seq<string>, registered: Callables, me: int,
                                     out: Outside)
    requires st.vars == st'.vars && st.raised == st'.raised
    ensures SameEffect(st, RunFrom(st, lines, registered, me, out), st', RunFrom(st', lines, registered, me, out))
  {
    hide Step;
    if lines != [] {
      var init := lines[..|lines| - 1];
      RunEffect(st, st', init, registered, me, out);
      StepEffect(st, RunFrom(st, init, registered, me, out), st', RunFrom(st', init, registered, me, out),
                 lines[|lines| - 1], registered, me, out);
    }
  }

  /** A later line changes nothing of what the lines before it did. */
  lemma LaterLinesIrrelevant(st: State, a: seq<string>, b: seq<string>, registered: Callables, me: int, out: Outside)
    ensures RunFrom(st, a, registered, me, out).timed <= RunFrom(st, a + b, registered, me, out).timed
    ensures RunFrom(st, a, registered, me, out).calls <= RunFrom(st, a + b, registered, me, out).calls
  {
    hide RunFrom;
    RunConcat(st, a, b, registered, me, out);
    var mid := RunFrom(st, a, registered, me, out);
    RunEffect(mid, mid, b, registered, me, out);
  }

  /**
   A line that sets nothing at once, such as a timed set or a set for another peer, leaves what every later line
   does unchanged.
   */
  lemma OnlyImmediateSetsMatter(st: State, a: seq<string>, line: string, b: seq<string>, registered: Callables,
                                me: int, out: Outside)
    requires SetBy(RunFrom(st, a, registered, me, out), line, registered, me, out).None?
    requires !RunFrom(st, a + [line], registered, me, out).raised
    ensures SameEffect(RunFrom(st, a, registered, me, out), RunFrom(st, a + b, registered, me, out),
                       RunFrom(st, a + [line], registered, me, out),
                       RunFrom(st, a + [line] + b, registered, me, out))
  {
    var mid, with := RunFrom(st, a, registered, me, out), RunFrom(st, a + [line], registered, me, out);
    assert (a + [line])[..|a|] == a;
    StepVars(mid, line, registered, me, out);
    assert with == Step(mid, line, registered, me, out);
    RunConcat(st, a, b, registered, me, out);
    RunConcat(st, a + [line], b, registered, me, out);
    assert !mid.raised;
    hide Step;
    hide SetBy;
    RunEffect(mid, with, b, registered, me, out);
  }

  /** A set with a time is scheduled; it sets nothing while the lines are read. */
  lemma TimedSetSetsNothing(st: State, line: string, registered: Callables, me: int, out: Outside)
    requires var r := ReadLine(line, st.vars, me, out); r.Runs? ==> r.command.begin >= 0.0
    ensures SetBy(st, line, registered, me, out).None?
    ensures Step(st, line, registered, me, out).vars == st.vars
  {
    StepVars(st, line, registered, me, out);
    hide ReadLine;
  }
}
