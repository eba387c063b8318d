/**
 The layout of a scenario line (gumby/scenario.py, documentation of ScenarioParser): a line written in that layout
 is read back as what was written.
 */
module ScenarioLines {
  import opened Wrappers
  import opened Text
  import opened Expansion
  import opened Scenario
  import PeerSpec

  /** @[[H:]M:]S, or @! for an immediate call. */
  datatype When = AtOnce | Seconds(s: string) | Minutes(m: nat, s: string) | Hours(h: nat, m: nat, s: string)

  function ShowPieces(w: When): seq<string>
    requires !w.AtOnce?
  {
    match w
    case Seconds(s) => [s]
    case Minutes(m, s) => [Decimal(m), s]
    case Hours(h, m, s) => [Decimal(h), Decimal(m), s]
  }

  function ShowWhen(w: When): string {
    if w.AtOnce? then "@!" else ['@'] + JoinWith(ShowPieces(w), ':')
  }

  /** The seconds part is a word that float accepts, and stays clear of the characters with a meaning. */
  predicate Wellformed(w: When, out: Outside) {
    w.AtOnce?
    || (out.toFloat(w.s).Some? && w.s != "" && w.s[0] != '!' && ':' !in w.s && ' ' !in w.s && '$' !in w.s)
  }

  function TimeOf(w: When, out: Outside): real
    requires Wellformed(w, out)
  {
    match w
    case AtOnce => -1.0
    case Seconds(s) => out.toFloat(s).value
    case Minutes(m, s) => out.toFloat(s).value + (m * 60) as real
    case Hours(h, m, s) => out.toFloat(s).value + (m * 60) as real + (h * 3600) as real
  }

  predicate PlainPiece(s: string) {
    s != "" && s[0] != '!' && ':' !in s && ' ' !in s && '$' !in s
  }

  lemma DecimalPlain(n: nat)
    ensures PlainPiece(Decimal(n)) && ParseInt(Decimal(n)) == Some(n)
  {
    ParseShow(n);
    hide ParseInt;
    hide Decimal;
  }

  /** The pieces of a time are told apart. */
  lemma PiecesReadBack(parts: seq<string>, out: Outside)
    requires parts != [] && parts[0] != "" && parts[0][0] != '!'
    requires forall k :: 0 <= k < |parts| ==> ':' !in parts[k]
    ensures ParseTime(['@'] + JoinWith(parts, ':'), out) == ParsePieces(parts, out)
  {
    SplitJoined(parts, ':');
    var rest := JoinWith(parts, ':');
    var spec := ['@'] + rest;
    assert spec[1..] == rest;
    assert spec[1] == rest[0] == parts[0][0];
    hide JoinWith;
    hide Split;
    hide ParsePieces;
  }

  lemma SecondsPlain(w: When, out: Outside)
    requires Wellformed(w, out) && !w.AtOnce?
    ensures PlainPiece(w.s)
  {
  }

  lemma PiecesPlain(w: When, out: Outside)
    requires Wellformed(w, out) && !w.AtOnce?
    ensures ShowPieces(w) != []
    ensures forall k :: 0 <= k < |ShowPieces(w)| ==> PlainPiece(ShowPieces(w)[k])
  {
    hide Wellformed;
    hide Decimal;
    hide ParseInt;
    hide PlainPiece;
    SecondsPlain(w, out);
    match w
    case Seconds(s) =>
    case Minutes(m, s) =>
      DecimalPlain(m);
    case Hours(h, m, s) =>
      DecimalPlain(m);
      DecimalPlain(h);
  }

  lemma PiecesAdd(w: When, out: Outside)
    requires Wellformed(w, out) && !w.AtOnce?
    ensures ParsePieces(ShowPieces(w), out) == Some(TimeOf(w, out))
  {
    hide ParseInt;
    hide Decimal;
    match w
    case Seconds(s) =>
    case Minutes(m, s) =>
      DecimalPlain(m);
    case Hours(h, m, s) =>
      DecimalPlain(m);
      DecimalPlain(h);
  }

  /** The time of a line is read back in seconds. */
  lemma TimeReadsBack(w: When, out: Outside)
    requires Wellformed(w, out)
    ensures ParseTime(ShowWhen(w), out) == Some(TimeOf(w, out))
  {
    if !w.AtOnce? {
      PiecesPlain(w, out);
      PiecesReadBack(ShowPieces(w), out);
      PiecesAdd(w, out);
      hide ParseTime;
    }
  }

  lemma WhenPlain(w: When, out: Outside)
    requires Wellformed(w, out)
    ensures ' ' !in ShowWhen(w) && '$' !in ShowWhen(w)
  {
    if !w.AtOnce? {
      PiecesPlain(w, out);
      JoinLacks(ShowPieces(w), ':', ' ');
      JoinLacks(ShowPieces(w), ':', '$');
    }
  }

  /** TIMESPEC CALLABLE ARGS */
  function ShowCommand(w: When, callable: string, args: string): string {
    ShowWhen(w) + [' '] + (callable + [' '] + args)
  }

  /** Time, callable and arguments are told apart, whatever the arguments contain. */
  lemma CommandReadsBack(w: When, callable: string, args: string, spec: string, out: Outside)
    requires Wellformed(w, out) && ' ' !in callable
    requires out.toArgs(args).Some? && '$' !in spec
    ensures ParseCommand(ShowCommand(w, callable, args), spec, out)
         == Some(Command(TimeOf(w, out), callable, out.toArgs(args).value))
  {
    TimeReadsBack(w, out);
    WhenPlain(w, out);
    SplitNAfter(ShowWhen(w), ' ', callable + [' '] + args, 2);
    SplitNAfter(callable, ' ', args, 1);
    assert SplitN(args, ' ', 0) == [args];
    hide ParseTime;
    hide TimeOf;
    hide ShowWhen;
    hide Wellformed;
  }

  /** TIMESPEC CALLABLE */
  function ShowAlone(w: When, callable: string): string {
    ShowWhen(w) + [' '] + callable
  }

  /** Without arguments and without a space after the callable. */
  lemma AloneReadsBack(w: When, callable: string, spec: string, out: Outside)
    requires Wellformed(w, out) && ' ' !in callable
    requires out.toArgs("").Some? && '$' !in spec
    ensures ParseCommand(ShowAlone(w, callable), spec, out)
         == Some(Command(TimeOf(w, out), callable, out.toArgs("").value))
  {
    TimeReadsBack(w, out);
    WhenPlain(w, out);
    SplitNAfter(ShowWhen(w), ' ', callable, 2);
    OnePart(callable, ' ', 1);
    hide ParseTime;
    hide TimeOf;
    hide ShowWhen;
    hide Wellformed;
  }

  lemma OnePart(s: string, c: char, n: nat)
    requires c !in s
    ensures SplitN(s, c, n) == [s]
  {
  }

  // ---------------------------------------------------------------------------------------------
  // Times that are not written in the layout, and lines that are dropped
  // ---------------------------------------------------------------------------------------------

  /** The mark before a time makes no difference. */
  lemma AtOptional(time: string, out: Outside)
    requires time != "" && time[0] != '@' && time[0] != '!'
    ensures ParseTime(['@'] + time, out) == ParseTime(time, out)
  {
    assert (['@'] + time)[1..] == time;
    hide Split;
    hide ParsePieces;
  }

  /** What stands before hours, minutes and seconds is not looked at. */
  lemma ExtraPieces(extra: seq<string>, pieces: seq<string>, out: Outside)
    requires |pieces| == 3
    ensures ParsePieces(extra + pieces, out) == ParsePieces(pieces, out)
  {
    var all := extra + pieces;
    assert forall k :: 0 <= k < 3 ==> all[|all| - 3 + k] == pieces[k];
    assert all[|all| - 3] == pieces[0] && all[|all| - 2] == pieces[1] && all[|all| - 1] == pieces[2];
    hide ParseInt;
  }

  /** A time is refused if and only if a piece that counts is no number. */
  lemma TimeRefusedIff(pieces: seq<string>, out: Outside)
    requires pieces != []
    ensures var n := |pieces|;
            ParsePieces(pieces, out).None?
            <==> || out.toFloat(pieces[n - 1]).None?
                 || (n > 1 && ParseInt(pieces[n - 2]).None?)
                 || (n > 2 && ParseInt(pieces[n - 3]).None?)
  {
    hide ParseInt;
  }

  ghost predicate StartsWithVariable(spec: string) {
    exists c, rest :: IsWord(c) && spec == ['$', c] + rest
  }

  lemma StartsWithVariableIff(spec: string)
    ensures StartsWithVariable(spec) <==> |spec| > 1 && spec[0] == '$' && IsWord(spec[1])
  {
    if |spec| > 1 && spec[0] == '$' && IsWord(spec[1]) {
      assert spec == ['$', spec[1]] + spec[2..];
    }
  }

  /** A command is dropped if and only if its time or its arguments are refused, or its specification is a variable. */
  lemma DroppedIff(time: string, callable: string, args: string, spec: string, out: Outside)
    requires ' ' !in time && ' ' !in callable
    ensures ParseCommand(time + [' '] + (callable + [' '] + args), spec, out).None?
       <==> ParseTime(time, out).None? || out.toArgs(args).None? || StartsWithVariable(spec)
  {
    SplitNAfter(time, ' ', callable + [' '] + args, 2);
    SplitNAfter(callable, ' ', args, 1);
    assert SplitN(args, ' ', 0) == [args];
    StartsWithVariableIff(spec);
    hide ParseTime;
    hide SplitN;
    hide StartsWithVariable;
  }

  /** The same without arguments; a single word is always dropped. */
  lemma AloneDroppedIff(time: string, callable: string, spec: string, out: Outside)
    requires ' ' !in time && ' ' !in callable
    ensures ParseCommand(time + [' '] + callable, spec, out).None?
       <==> ParseTime(time, out).None? || out.toArgs("").None? || StartsWithVariable(spec)
    ensures ParseCommand(time, spec, out).None?
  {
    SplitNAfter(time, ' ', callable, 2);
    OnePart(callable, ' ', 1);
    OnePart(time, ' ', 2);
    StartsWithVariableIff(spec);
    hide ParseTime;
    hide SplitN;
    hide StartsWithVariable;
  }

  /** The specification is cut off at the last opening brace. */
  lemma CutReadsBack(text: string, spec: string)
    requires '{' !in spec
    ensures CutPeerspec(text + ['{'] + spec + ['}']) == (text, spec)
    ensures text == "" || text[|text| - 1] != '}' ==> CutPeerspec(text) == (text, "")
  {
    var line := text + ['{'] + spec + ['}'];
    var brace := LastIndexOf(line, '{');
    assert line[|text|] == '{';
    assert forall k :: |text| < k < |line| ==> line[k] != '{';
    assert brace == |text|;
    assert line[..brace] == text && line[brace + 1..|line| - 1] == spec;
  }

  /** A text without dollar signs is left as it is. */
  lemma {:induction false} NoNames(text: string)
    requires '$' !in text
    ensures Tokens(text) == []
  {
    if text != "" {
      NoNames(text[1..]);
    }
  }

  lemma PlainTextStays(text: string, user: Table, env: Table)
    requires '$' !in text
    ensures Expand(text, user, env) == text
  {
    NoNames(text);
  }

  /** What a line for the given peers comes to at peer `me`. */
  function Expected(applies: bool, w: When, callable: string, args: string, out: Outside): Outcome
    requires Wellformed(w, out) && out.toArgs(args).Some?
  {
    if applies then Runs(Command(TimeOf(w, out), callable, out.toArgs(args).value)) else Nothing
  }

  lemma WithSpecReadsBack(w: When, callable: string, args: string, spec: string, applies: bool, vars: Table, me: int,
                          out: Outside)
    requires Wellformed(w, out) && ' ' !in callable && '$' !in callable
    requires out.toArgs(args).Some? && '$' !in args
    requires '{' !in spec && '$' !in spec && PeerSpec.ForThisPeer(spec, me) == Some(applies)
    ensures ReadLine(ShowCommand(w, callable, args) + ['{'] + spec + ['}'], vars, me, out)
         == Expected(applies, w, callable, args, out)
  {
    var text := ShowCommand(w, callable, args);
    CommandPlain(w, callable, args, out);
    CutReadsBack(text, spec);
    CommandReadsBack(w, callable, args, spec, out);
    ReadsAs(text + ['{'] + spec + ['}'], text, spec, applies, ParseCommand(text, spec, out).value, vars, me, out);
  }

  /** Without a specification, at every peer. */
  lemma WithoutSpecReadsBack(w: When, callable: string, args: string, vars: Table, me: int, out: Outside)
    requires Wellformed(w, out) && ' ' !in callable && '$' !in callable
    requires out.toArgs(args).Some? && '$' !in args && (args == "" || args[|args| - 1] != '}')
    ensures ReadLine(ShowCommand(w, callable, args), vars, me, out) == Expected(true, w, callable, args, out)
  {
    var text := ShowCommand(w, callable, args);
    CommandPlain(w, callable, args, out);
    CutReadsBack(text, "");
    CommandReadsBack(w, callable, args, "", out);
    ReadsAs(text, text, "", true, ParseCommand(text, "", out).value, vars, me, out);
  }

  lemma CommandPlain(w: When, callable: string, args: string, out: Outside)
    requires Wellformed(w, out) && '$' !in callable && '$' !in args
    ensures var text := ShowCommand(w, callable, args);
            '$' !in text && text != "" && text[|text| - 1] == if args == "" then ' ' else args[|args| - 1]
  {
    WhenPlain(w, out);
    hide ShowWhen;
    hide Wellformed;
  }

  lemma ReadsAs(line: string, text: string, spec: string, applies: bool, command: Command, vars: Table, me: int,
                out: Outside)
    requires CutPeerspec(line) == (text, spec) && PeerSpec.ForThisPeer(spec, me) == Some(applies)
    requires '$' !in text && ParseCommand(text, spec, out) == Some(command)
    ensures ReadLine(line, vars, me, out) == if applies then Runs(command) else Nothing
  {
    PlainTextStays(text, vars, out.environ);
    hide CutPeerspec;
    hide Expand;
    hide ParseCommand;
    hide PeerSpec.ForThisPeer;
  }

  lemma SpecFacts(items: seq<PeerSpec.Item>, pad: string, me: int)
    requires items != [] && Blank(pad)
    ensures var spec, marked := PeerSpec.ShowSpec(items, pad), ['!'] + PeerSpec.ShowSpec(items, pad);
            && '{' !in spec && '$' !in spec && '{' !in marked && '$' !in marked
            && ((exists x :: PeerSpec.Listed(items, x)) ==>
                  PeerSpec.ForThisPeer(spec, me) == Some(PeerSpec.Listed(items, me)))
            && PeerSpec.ForThisPeer(marked, me) == Some(!PeerSpec.Listed(items, me))
  {
    hide PeerSpec.ForThisPeer;
    hide PeerSpec.ShowSpec;
    hide PeerSpec.Listed;
    PeerSpec.RunsIffListed(items, pad, me);
    PeerSpec.NoForeign(items, pad, '{');
    PeerSpec.PlainText(items, pad);
  }

  /**
   A line of the documented layout without variables gives exactly the command that was written, at exactly the
   peers that it names.
   */
  lemma LineReadsBack(w: When, callable: string, args: string, items: seq<PeerSpec.Item>, pad: string, vars: Table,
                      me: int, out: Outside)
    requires Wellformed(w, out) && ' ' !in callable && '$' !in callable
    requires out.toArgs(args).Some? && '$' !in args
    requires items != [] && Blank(pad) && exists x :: PeerSpec.Listed(items, x)
    ensures ReadLine(ShowCommand(w, callable, args) + ['{'] + PeerSpec.ShowSpec(items, pad) + ['}'], vars, me, out)
         == Expected(PeerSpec.Listed(items, me), w, callable, args, out)
  {
    hide *;
    SpecFacts(items, pad, me);
    WithSpecReadsBack(w, callable, args, PeerSpec.ShowSpec(items, pad), PeerSpec.Listed(items, me), vars, me, out);
  }

  /** With the mark, at exactly the others. */
  lemma MarkedLineReadsBack(w: When, callable: string, args: string, items: seq<PeerSpec.Item>, pad: string,
                            vars: Table, me: int, out: Outside)
    requires Wellformed(w, out) && ' ' !in callable && '$' !in callable
    requires out.toArgs(args).Some? && '$' !in args
    requires items != [] && Blank(pad)
    ensures ReadLine(ShowCommand(w, callable, args) + ['{'] + (['!'] + PeerSpec.ShowSpec(items, pad)) + ['}'],
                     vars, me, out)
         == Expected(!PeerSpec.Listed(items, me), w, callable, args, out)
  {
    hide *;
    SpecFacts(items, pad, me);
    WithSpecReadsBack(w, callable, args, ['!'] + PeerSpec.ShowSpec(items, pad), !PeerSpec.Listed(items, me),
                      vars, me, out);
  }

  // ---------------------------------------------------------------------------------------------
  // Lines without arguments
  // ---------------------------------------------------------------------------------------------

  lemma AlonePlain(w: When, callable: string, out: Outside)
    requires Wellformed(w, out) && '$' !in callable
    ensures var text := ShowAlone(w, callable);
            '$' !in text && text != "" && text[|text| - 1] == if callable == "" then ' ' else callable[|callable| - 1]
  {
    WhenPlain(w, out);
    hide ShowWhen;
    hide Wellformed;
  }

  lemma AloneWithSpec(w: When, callable: string, spec: string, applies: bool, vars: Table, me: int, out: Outside)
    requires Wellformed(w, out) && ' ' !in callable && '$' !in callable && out.toArgs("").Some?
    requires '{' !in spec && '$' !in spec && PeerSpec.ForThisPeer(spec, me) == Some(applies)
    ensures ReadLine(ShowAlone(w, callable) + ['{'] + spec + ['}'], vars, me, out)
         == Expected(applies, w, callable, "", out)
  {
    var text := ShowAlone(w, callable);
    AlonePlain(w, callable, out);
    CutReadsBack(text, spec);
    AloneReadsBack(w, callable, spec, out);
    ReadsAs(text + ['{'] + spec + ['}'], text, spec, applies, ParseCommand(text, spec, out).value, vars, me, out);
  }

  /** A time and a callable alone, for exactly the peers named, for exactly the others, and for everybody. */
  lemma AloneLineReadsBack(w: When, callable: string, items: seq<PeerSpec.Item>, pad: string, vars: Table, me: int,
                           out: Outside)
    requires Wellformed(w, out) && ' ' !in callable && '$' !in callable && out.toArgs("").Some?
    requires items != [] && Blank(pad)
    ensures (exists x :: PeerSpec.Listed(items, x)) ==>
              ReadLine(ShowAlone(w, callable) + ['{'] + PeerSpec.ShowSpec(items, pad) + ['}'], vars, me, out)
              == Expected(PeerSpec.Listed(items, me), w, callable, "", out)
    ensures ReadLine(ShowAlone(w, callable) + ['{'] + (['!'] + PeerSpec.ShowSpec(items, pad)) + ['}'], vars, me, out)
         == Expected(!PeerSpec.Listed(items, me), w, callable, "", out)
  {
    hide *;
    SpecFacts(items, pad, me);
    var spec, marked := PeerSpec.ShowSpec(items, pad), ['!'] + PeerSpec.ShowSpec(items, pad);
    if exists x :: PeerSpec.Listed(items, x) {
      AloneWithSpec(w, callable, spec, PeerSpec.Listed(items, me), vars, me, out);
    }
    AloneWithSpec(w, callable, marked, !PeerSpec.Listed(items, me), vars, me, out);
  }

  lemma AloneWithoutSpecReadsBack(w: When, callable: string, vars: Table, me: int, out: Outside)
    requires Wellformed(w, out) && ' ' !in callable && '$' !in callable && out.toArgs("").Some?
    requires callable == "" || callable[|callable| - 1] != '}'
    ensures ReadLine(ShowAlone(w, callable), vars, me, out) == Expected(true, w, callable, "", out)
  {
    var text := ShowAlone(w, callable);
    AlonePlain(w, callable, out);
    CutReadsBack(text, "");
    AloneReadsBack(w, callable, "", out);
    ReadsAs(text, text, "", true, ParseCommand(text, "", out).value, vars, me, out);
  }

  // ---------------------------------------------------------------------------------------------
  // Specifications that name nobody
  // ---------------------------------------------------------------------------------------------

  /**
   A specification with a variable in it is for everybody, like an empty one, which is like none at all; but a line
   whose specification starts with a variable is dropped everywhere.
   */
  lemma VariableSpec(text: string, spec: string, vars: Table, me: int, out: Outside)
    requires '{' !in spec && '$' in spec
    ensures ReadLine(text + ['{'] + spec + ['}'], vars, me, out)
         == if StartsWithVariable(spec) then Nothing else ReadLine(text + ['{'] + "" + ['}'], vars, me, out)
    ensures text == "" || text[|text| - 1] != '}' ==>
              ReadLine(text + ['{'] + "" + ['}'], vars, me, out) == ReadLine(text, vars, me, out)
  {
    CutReadsBack(text, spec);
    CutReadsBack(text, "");
    StartsWithVariableIff(spec);
    hide CutPeerspec;
    hide Expand;
    hide ParseTime;
    hide SplitN;
    hide StartsWithVariable;
  }
}
