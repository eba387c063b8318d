/**
 Variables in scenario lines (gumby/scenario.py, _expand_line): the code replaces one name after the other
 through the whole text; what is meant is that every name is replaced once, where it stands.
 */
module Expansion {
  import opened Sequences
  import opened Wrappers
  import opened Text

  type Table = map<string, string>

  predicate IsWord(c: char) {
    'a' <= c <= 'z' || 'A' <= c <= 'Z' || '0' <= c <= '9' || c == '_'
  }

  /** How many word characters a text starts with. */
  function WordRun(s: string): (n: nat)
    ensures n <= |s|
    ensures forall k :: 0 <= k < n ==> IsWord(s[k])
    ensures n < |s| ==> !IsWord(s[n])
  {
    if s == "" || !IsWord(s[0]) then 0 else 1 + WordRun(s[1..])
  }

  /** User-defined variables come before the environment. */
  function Lookup(name: string, user: Table, env: Table): Option<string> {
    if name in user then Some(user[name]) else if name in env then Some(env[name]) else None
  }

  // ---------------------------------------------------------------------------------------------
  // The code
  // ---------------------------------------------------------------------------------------------

  /** The names matched by \$\w+, from left to right. */
  function Tokens(line: string): seq<string> {
    if line == "" then
      []
    else if line[0] == '$' && WordRun(line[1..]) > 0 then
      var n := WordRun(line[1..]);
      [line[1..n + 1]] + Tokens(line[n + 1..])
    else
      Tokens(line[1..])
  }

  /** line.replace(pattern, value). */
  function Replace(line: string, pattern: string, value: string): string
    requires pattern != ""
  {
    if line == "" then
      ""
    else if pattern <= line then
      value + Replace(line[|pattern|..], pattern, value)
    else
      [line[0]] + Replace(line[1..], pattern, value)
  }

  function ReplaceName(line: string, name: string, user: Table, env: Table): string {
    match Lookup(name, user, env)
    case None => line
    case Some(value) => Replace(line, ['$'] + name, value)
  }

  function ReplaceAll(line: string, names: seq<string>, user: Table, env: Table): string {
    if names == [] then
      line
    else
      ReplaceName(ReplaceAll(line, names[..|names| - 1], user, env), names[|names| - 1], user, env)
  }

  function Expand(line: string, user: Table, env: Table): string {
    ReplaceAll(line, Tokens(line), user, env)
  }

  /**
   The variables of the user and the environment count as one table in which the former go first, and a line stays as it
   is without variables.
   */
  lemma ExpandMerged(line: string, user: Table, env: Table)
    ensures Expand(line, user, env) == Expand(line, env + user, map[])
    ensures Expand(line, map[], map[]) == line
  {
    ReplaceAllMerged(line, Tokens(line), user, env);
    ReplaceAllNone(line, Tokens(line));
  }

  lemma {:induction false} ReplaceAllMerged(line: string, names: seq<string>, user: Table, env: Table)
    ensures ReplaceAll(line, names, user, env) == ReplaceAll(line, names, env + user, map[])
  {
    if names != [] {
      ReplaceAllMerged(line, names[..|names| - 1], user, env);
    }
  }

  lemma {:induction false} ReplaceAllNone(line: string, names: seq<string>)
    ensures ReplaceAll(line, names, map[], map[]) == line
  {
    if names != [] {
      ReplaceAllNone(line, names[..|names| - 1]);
    }
  }

  /** _expand_line. */
  method ExpandLine(line: string, userDefinedVars: Table, environ: Table) returns (expanded: string)
    ensures expanded == Expand(line, userDefinedVars, environ)
  {
    expanded := line;
    var substitutions := Tokens(line);
    for k := 0 to |substitutions|
      invariant expanded == ReplaceAll(line, substitutions[..k], userDefinedVars, environ)
    {
      var substitution := substitutions[k];
      if substitution in userDefinedVars {
        expanded := Replace(expanded, ['$'] + substitution, userDefinedVars[substitution]);
      } else if substitution in environ {
        expanded := Replace(expanded, ['$'] + substitution, environ[substitution]);
      }
      assert substitutions[..k + 1][..k] == substitutions[..k];
    }
    assert substitutions[..|substitutions|] == substitutions;
  }

  // ---------------------------------------------------------------------------------------------
  // What is meant
  // ---------------------------------------------------------------------------------------------

  /** Every name in the table replaced once, where it stands; an unknown name stays. */
  function Substituted(line: string, table: Table): string {
    if line == "" then
      ""
    else if line[0] == '$' && WordRun(line[1..]) > 0 then
      var n := WordRun(line[1..]);
      var name := line[1..n + 1];
      (if name in table then table[name] else line[..n + 1]) + Substituted(line[n + 1..], table)
    else
      [line[0]] + Substituted(line[1..], table)
  }

  /** Every dollar sign starts a name. */
  predicate DollarsName(line: string) {
    forall i :: 0 <= i < |line| && line[i] == '$' ==> i + 1 < |line| && IsWord(line[i + 1])
  }

  /** No name in the line is a proper prefix of another. */
  predicate PrefixFree(names: seq<string>) {
    forall a, b :: 0 <= a < |names| && 0 <= b < |names| && names[a] <= names[b] ==> names[a] == names[b]
  }

  /** The values of the names hold no dollar sign. */
  predicate PlainValues(names: seq<string>, table: Table) {
    forall k :: 0 <= k < |names| && names[k] in table ==> '$' !in table[names[k]]
  }

  // ---------------------------------------------------------------------------------------------
  // Texts as segments
  // ---------------------------------------------------------------------------------------------

  datatype Seg = Ch(c: char) | Var(name: string)

  function Chars(s: string): seq<Seg> {
    if s == "" then [] else [Ch(s[0])] + Chars(s[1..])
  }

  function SegText(seg: Seg): string {
    match seg
    case Ch(c) => [c]
    case Var(name) => ['$'] + name
  }

  function Render(segs: seq<Seg>): string {
    if segs == [] then "" else SegText(segs[0]) + Render(segs[1..])
  }

  function Parse(line: string): seq<Seg> {
    if line == "" then
      []
    else if line[0] == '$' && WordRun(line[1..]) > 0 then
      var n := WordRun(line[1..]);
      [Var(line[1..n + 1])] + Parse(line[n + 1..])
    else
      [Ch(line[0])] + Parse(line[1..])
  }

  predicate IsName(s: string) {
    s != "" && forall k :: 0 <= k < |s| ==> s[k] != '$'
  }

  /** The names among the segments are drawn from `names`, and no dollar sign stands alone. */
  predicate Good(segs: seq<Seg>, names: seq<string>) {
    forall k :: 0 <= k < |segs| ==>
      match segs[k]
      case Ch(c) => c != '$'
      case Var(name) => name in names
  }

  predicate GoodNames(names: seq<string>) {
    PrefixFree(names) && forall k :: 0 <= k < |names| ==> IsName(names[k])
  }

  /** Name `n` filled in by `v`. */
  function FillName(segs: seq<Seg>, n: string, v: string): seq<Seg> {
    if segs == [] then
      []
    else
      (if segs[0] == Var(n) then Chars(v) else [segs[0]]) + FillName(segs[1..], n, v)
  }

  function FillKnown(segs: seq<Seg>, n: string, table: Table): seq<Seg> {
    if n in table then FillName(segs, n, table[n]) else segs
  }

  function FillAll(segs: seq<Seg>, names: seq<string>, table: Table): seq<Seg> {
    if names == [] then
      segs
    else
      FillKnown(FillAll(segs, names[..|names| - 1], table), names[|names| - 1], table)
  }

  lemma {:induction false} RenderConcat(a: seq<Seg>, b: seq<Seg>)
    ensures Render(a + b) == Render(a) + Render(b)
  {
    if a == [] {
      assert a + b == b;
    } else {
      assert (a + b)[1..] == a[1..] + b;
      RenderConcat(a[1..], b);
    }
  }

  lemma {:induction false} RenderChars(s: string)
    ensures Render(Chars(s)) == s
    ensures |Chars(s)| == |s| && forall k :: 0 <= k < |s| ==> Chars(s)[k] == Ch(s[k])
  {
    if s != "" {
      RenderChars(s[1..]);
    }
  }

  lemma RenderOne(seg: Seg, rest: seq<Seg>)
    ensures Render([seg] + rest) == SegText(seg) + Render(rest)
  {
    assert ([seg] + rest)[1..] == rest;
  }

  lemma ParseFirst(line: string) returns (seg: Seg)
    requires line != ""
    ensures SegText(seg) != "" && SegText(seg) <= line
    ensures Parse(line) == [seg] + Parse(line[|SegText(seg)|..])
  {
    if line[0] == '$' && WordRun(line[1..]) > 0 {
      seg := Var(line[1..WordRun(line[1..]) + 1]);
    } else {
      seg := Ch(line[0]);
    }
  }

  lemma {:induction false} RenderParse(line: string)
    ensures Render(Parse(line)) == line
    decreases |line|
  {
    if line != "" {
      hide *;
      var seg := ParseFirst(line);
      var rest := line[|SegText(seg)|..];
      RenderParse(rest);
      RenderOne(seg, Parse(rest));
      Prefixed(SegText(seg), line);
    }
  }

  /** A parsed line is made of its names and of characters that are no dollar sign. */
  lemma {:induction false} ParseGood(line: string)
    requires DollarsName(line)
    ensures Good(Parse(line), Tokens(line))
    ensures forall k :: 0 <= k < |Tokens(line)| ==> IsName(Tokens(line)[k])
    decreases |line|
  {
    if line != "" {
      if line[0] == '$' && WordRun(line[1..]) > 0 {
        var n := WordRun(line[1..]);
        var rest := line[n + 1..];
        assert forall i :: 0 <= i < |rest| ==> rest[i] == line[n + 1 + i];
        ParseGood(rest);
        assert Tokens(line) == [line[1..n + 1]] + Tokens(rest);
        assert Parse(line) == [Var(line[1..n + 1])] + Parse(rest);
      } else {
        var rest := line[1..];
        assert forall i :: 0 <= i < |rest| ==> rest[i] == line[1 + i];
        ParseGood(rest);
        assert |line| > 1 && IsWord(line[1]) ==> WordRun(line[1..]) > 0;
        assert Parse(line) == [Ch(line[0])] + Parse(rest);
      }
    }
  }

  // ---------------------------------------------------------------------------------------------
  // A textual replace fills in one name
  // ---------------------------------------------------------------------------------------------

  /** Text without a dollar sign is passed over. */
  lemma {:induction false} ReplaceSkips(w: string, rest: string, pattern: string, value: string)
    requires pattern != "" && pattern[0] == '$' && '$' !in w
    ensures Replace(w + rest, pattern, value) == w + Replace(rest, pattern, value)
  {
    if w == "" {
      assert w + rest == rest;
    } else {
      assert (w + rest)[0] == w[0] && (w + rest)[1..] == w[1..] + rest;
      ReplaceSkips(w[1..], rest, pattern, value);
    }
  }

  /** The pattern of a name matches at a name only if it is that name. */
  lemma MatchesOwnName(m: string, n: string, rest: string)
    requires !(n <= m) && !(m <= n)
    ensures !(['$'] + n <= ['$'] + m + rest)
  {
    var text := ['$'] + m + rest;
    var pattern := ['$'] + n;
    if |n| <= |m| {
      var k :| 0 <= k < |n| && n[k] != m[k];
      assert pattern[k + 1] == n[k] && text[k + 1] == m[k];
    } else {
      var k :| 0 <= k < |m| && n[k] != m[k];
      assert pattern[k + 1] == n[k] && text[k + 1] == m[k];
    }
  }

  lemma {:induction false} ReplaceFills(segs: seq<Seg>, n: string, v: string, names: seq<string>)
    requires GoodNames(names) && Good(segs, names) && n in names
    ensures Replace(Render(segs), ['$'] + n, v) == Render(FillName(segs, n, v))
  {
    if segs != [] {
      var rest := segs[1..];
      ReplaceFills(rest, n, v, names);
      match segs[0]
      case Ch(c) =>
        ReplaceSkips([c], Render(rest), ['$'] + n, v);
        RenderConcat([segs[0]], FillName(rest, n, v));
      case Var(m) =>
        if m == n {
          ReplaceOwn(n, Render(rest), v);
          RenderChars(v);
          RenderConcat(Chars(v), FillName(rest, n, v));
        } else {
          NameHasNoDollar(names, m);
          ReplaceOther(m, Render(rest), n, v);
          RenderConcat([segs[0]], FillName(rest, n, v));
        }
    }
  }

  lemma ReplaceOwn(n: string, rest: string, v: string)
    ensures Replace(['$'] + n + rest, ['$'] + n, v) == v + Replace(rest, ['$'] + n, v)
  {
    var text, pattern := ['$'] + n + rest, ['$'] + n;
    assert pattern <= text && text[|pattern|..] == rest;
  }

  lemma ReplaceOther(m: string, rest: string, n: string, v: string)
    requires !(n <= m) && !(m <= n) && '$' !in m
    ensures Replace(['$'] + m + rest, ['$'] + n, v) == ['$'] + m + Replace(rest, ['$'] + n, v)
  {
    var text := ['$'] + m + rest;
    MatchesOwnName(m, n, rest);
    assert text[0] == '$' && text[1..] == m + rest;
    ReplaceSkips(m, rest, ['$'] + n, v);
    assert ['$'] + (m + Replace(rest, ['$'] + n, v)) == ['$'] + m + Replace(rest, ['$'] + n, v);
  }

  lemma NameHasNoDollar(names: seq<string>, m: string)
    requires GoodNames(names) && m in names
    ensures '$' !in m
  {
    var k :| 0 <= k < |names| && names[k] == m;
    assert IsName(names[k]);
  }

  lemma {:induction false} FillNameGood(segs: seq<Seg>, n: string, v: string, names: seq<string>)
    requires Good(segs, names) && '$' !in v
    ensures Good(FillName(segs, n, v), names)
  {
    if segs != [] {
      FillNameGood(segs[1..], n, v, names);
      RenderChars(v);
    }
  }

  /** The loop over the names, on segments: the variables of the user go before those of the environment. */
  lemma {:induction false} LoopFills(segs: seq<Seg>, done: seq<string>, names: seq<string>, user: Table, env: Table)
    requires GoodNames(names) && Good(segs, names) && PlainValues(names, env + user)
    requires forall k :: 0 <= k < |done| ==> done[k] in names
    ensures Good(FillAll(segs, done, env + user), names)
    ensures ReplaceAll(Render(segs), done, user, env) == Render(FillAll(segs, done, env + user))
  {
    if done != [] {
      var n, table := done[|done| - 1], env + user;
      var before := FillAll(segs, done[..|done| - 1], table);
      LoopFills(segs, done[..|done| - 1], names, user, env);
      if n in table {
        ValueIsPlain(n, names, table);
        ReplaceFills(before, n, table[n], names);
        FillNameGood(before, n, table[n], names);
      }
    }
  }

  lemma ValueIsPlain(n: string, names: seq<string>, table: Table)
    requires PlainValues(names, table) && n in names && n in table
    ensures '$' !in table[n]
  {
    var k :| 0 <= k < |names| && names[k] == n;
  }

  // ---------------------------------------------------------------------------------------------
  // Filling in all names, one after the other or each where it stands
  // ---------------------------------------------------------------------------------------------

  lemma {:induction false} FillNameConcat(a: seq<Seg>, b: seq<Seg>, n: string, v: string)
    ensures FillName(a + b, n, v) == FillName(a, n, v) + FillName(b, n, v)
  {
    if a == [] {
      assert a + b == b;
    } else {
      assert (a + b)[1..] == a[1..] + b;
      FillNameConcat(a[1..], b, n, v);
    }
  }

  lemma {:induction false} FillAllConcat(a: seq<Seg>, b: seq<Seg>, names: seq<string>, table: Table)
    ensures FillAll(a + b, names, table) == FillAll(a, names, table) + FillAll(b, names, table)
  {
    if names != [] {
      var init, n := names[..|names| - 1], names[|names| - 1];
      FillAllConcat(a, b, init, table);
      if n in table {
        FillNameConcat(FillAll(a, init, table), FillAll(b, init, table), n, table[n]);
      }
    }
  }

  lemma {:induction false} CharsStay(s: string, n: string, v: string)
    ensures FillName(Chars(s), n, v) == Chars(s)
  {
    if s != "" {
      CharsStay(s[1..], n, v);
    }
  }

  lemma {:induction false} AllCharsStay(s: string, names: seq<string>, table: Table)
    ensures FillAll(Chars(s), names, table) == Chars(s)
  {
    if names != [] {
      var n := names[|names| - 1];
      AllCharsStay(s, names[..|names| - 1], table);
      if n in table {
        CharsStay(s, n, table[n]);
      }
    }
  }

  /** What the whole loop does to a single name. */
  lemma {:induction false} FillOne(m: string, names: seq<string>, table: Table)
    ensures FillAll([Var(m)], names, table)
         == if m in names && m in table then Chars(table[m]) else [Var(m)]
  {
    if names != [] {
      var init, n := names[..|names| - 1], names[|names| - 1];
      FillOne(m, init, table);
      assert names == init + [n];
      if n in table {
        var v := table[n];
        if m in init && m in table {
          CharsStay(table[m], n, v);
        } else {
          assert FillName([Var(m)], n, v) == if m == n then Chars(v) else [Var(m)];
        }
      }
    }
  }

  /** A line that starts with a name. */
  lemma FirstVar(line: string, table: Table) returns (name: string, rest: string)
    requires line != "" && line[0] == '$' && WordRun(line[1..]) > 0
    ensures |rest| < |line|
    ensures Tokens(line) == [name] + Tokens(rest) && Parse(line) == [Var(name)] + Parse(rest)
    ensures Substituted(line, table) == (if name in table then table[name] else ['$'] + name) + Substituted(rest, table)
  {
    var n := WordRun(line[1..]);
    name, rest := line[1..n + 1], line[n + 1..];
    assert line[..n + 1] == ['$'] + name;
  }

  /** Filling in every name of the line, whatever else is in the list, is the simultaneous substitution. */
  lemma {:induction false} FillsLine(line: string, names: seq<string>, table: Table)
    requires forall name :: name in Tokens(line) ==> name in names
    ensures Render(FillAll(Parse(line), names, table)) == Substituted(line, table)
    decreases |line|
  {
    if line == "" {
      AllCharsStay("", names, table);
    } else if line[0] == '$' && WordRun(line[1..]) > 0 {
      hide *;
      var name, rest := FirstVar(line, table);
      assert name in Tokens(line) && forall m :: m in Tokens(rest) ==> m in Tokens(line);
      FillsLine(rest, names, table);
      FillsVar(name, Parse(rest), names, table);
    } else {
      var rest := line[1..];
      assert Tokens(line) == Tokens(rest) && Parse(line) == [Ch(line[0])] + Parse(rest);
      assert Substituted(line, table) == [line[0]] + Substituted(rest, table);
      hide *;
      FillsLine(rest, names, table);
      FillsChar(line[0], Parse(rest), names, table);
    }
  }

  lemma FillsVar(name: string, rest: seq<Seg>, names: seq<string>, table: Table)
    requires name in names
    ensures Render(FillAll([Var(name)] + rest, names, table))
         == (if name in table then table[name] else ['$'] + name)
            + Render(FillAll(rest, names, table))
  {
    FillAllConcat([Var(name)], rest, names, table);
    FillOne(name, names, table);
    RenderConcat(FillAll([Var(name)], names, table), FillAll(rest, names, table));
    if name in table {
      RenderChars(table[name]);
    }
  }

  lemma FillsChar(c: char, rest: seq<Seg>, names: seq<string>, table: Table)
    ensures Render(FillAll([Ch(c)] + rest, names, table)) == [c] + Render(FillAll(rest, names, table))
  {
    FillAllConcat([Ch(c)], rest, names, table);
    assert Chars([c]) == [Ch(c)];
    AllCharsStay([c], names, table);
    RenderOne(Ch(c), FillAll(rest, names, table));
  }

  /**
   The sequence of textual replaces is the simultaneous substitution when every dollar sign starts a name, the
   values hold no dollar sign, and no name in the line is a proper prefix of another name in it.
   */
  lemma ExpandIsSubstitution(line: string, user: Table, env: Table)
    requires DollarsName(line) && PrefixFree(Tokens(line)) && PlainValues(Tokens(line), env + user)
    ensures Expand(line, user, env) == Substituted(line, env + user)
  {
    var names := Tokens(line);
    RenderParse(line);
    ParseGood(line);
    LoopFills(Parse(line), names, names, user, env);
    FillsLine(line, names, env + user);
  }

  /** Without the condition on prefixes the two differ: filling in a also damages ab. */
  lemma PrefixDamages()
    ensures Expand("$a$ab", map["a" := "x", "ab" := "y"], map[]) == "xxb"
    ensures Substituted("$a$ab", map["a" := "x", "ab" := "y"]) == "xy"
  {
    var user: Table := map["a" := "x", "ab" := "y"];
    ParsesAB(user);
    ReplacesAB();
    hide *;
    ExpandTwo("$a$ab", "a", "ab", user);
    assert ['$'] + "a" == "$a" && ['$'] + "ab" == "$ab" && "a" != "ab";
  }

  lemma ExpandTwo(line: string, a: string, b: string, user: Table)
    requires Tokens(line) == [a, b] && a in user && b in user
    ensures Expand(line, user, map[]) == Replace(Replace(line, ['$'] + a, user[a]), ['$'] + b, user[b])
  {
    hide Tokens;
    hide Replace;
    assert [a, b][..1] == [a] && [a][..0] == [];
    assert ReplaceAll(line, [a], user, map[]) == Replace(line, ['$'] + a, user[a]);
  }

  lemma ParsesAB(user: Table)
    requires user == map["a" := "x", "ab" := "y"]
    ensures Tokens("$a$ab") == ["a", "ab"]
    ensures Substituted("$a$ab", user) == "xy"
  {
    var line := "$a$ab";
    assert line[1..] == "a$ab" && "a$ab"[1..] == "$ab" && "$ab"[1..] == "ab" && "ab"[1..] == "b" && "b"[1..] == "";
    assert WordRun("b") == 1 && WordRun("ab") == 2 && WordRun("$ab") == 0 && WordRun("a$ab") == 1;
    assert line[2..] == "$ab" && "$ab"[3..] == "" && line[1..2] == "a" && "$ab"[1..3] == "ab";
    assert Tokens("$ab") == ["ab"];
    assert "a" != "ab";
    assert Substituted("$ab", user) == "y";
  }

  lemma ReplacesAB()
    ensures Replace("$a$ab", "$a", "x") == "xxb"
    ensures Replace("xxb", "$ab", "y") == "xxb"
  {
    assert "$ab"[2..] == "b" && "b"[1..] == "" && "$a$ab"[2..] == "$ab";
    assert Replace("b", "$a", "x") == "b";
    assert Replace("$ab", "$a", "x") == "xb";
    assert "xxb"[1..] == "xb" && "xb"[1..] == "b";
    assert Replace("b", "$ab", "y") == "b";
    assert Replace("xb", "$ab", "y") == "xb";
  }
}
