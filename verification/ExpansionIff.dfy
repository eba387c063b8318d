/**
 When the replaces of _expand_line are a substitution whatever the variables hold (gumby/scenario.py): exactly when no
 name in the line is a proper prefix of another.  Where one is, emptying it takes away more dollar signs than it should.
 */
module ExpansionIff {
  import opened Wrappers
  import opened Expansion

  function Dollars(s: string): nat {
    if s == "" then 0 else (if s[0] == '$' then 1 else 0) + Dollars(s[1..])
  }

  lemma {:induction false} DollarsConcat(a: string, b: string)
    ensures Dollars(a + b) == Dollars(a) + Dollars(b)
  {
    if a == "" {
      assert a + b == b;
    } else {
      assert (a + b)[1..] == a[1..] + b;
      DollarsConcat(a[1..], b);
    }
  }

  lemma {:induction false} NoDollars(s: string)
    requires '$' !in s
    ensures Dollars(s) == 0
  {
    if s != "" {
      NoDollars(s[1..]);
    }
  }

  /** How many of the names are not `n`. */
  function OtherThan(names: seq<string>, n: string): nat {
    if names == [] then 0 else (if names[0] == n then 0 else 1) + OtherThan(names[1..], n)
  }

  /** How many of the names do not start with `n`. */
  function NotFrom(names: seq<string>, n: string): nat {
    if names == [] then 0 else (if n <= names[0] then 0 else 1) + NotFrom(names[1..], n)
  }

  lemma {:induction false} FewerNotFrom(names: seq<string>, n: string, m: string)
    requires n <= m && n != m
    ensures NotFrom(names, n) <= OtherThan(names, n)
    ensures m in names ==> NotFrom(names, n) < OtherThan(names, n)
  {
    if names != [] {
      FewerNotFrom(names[1..], n, m);
    }
  }

  // ---------------------------------------------------------------------------------------------
  // The first name of a line
  // ---------------------------------------------------------------------------------------------

  predicate AllWord(s: string) {
    forall k :: 0 <= k < |s| ==> IsWord(s[k])
  }

  /** A line that starts with a name: the name, and what follows it. */
  predicate StartsWith(line: string, name: string, rest: string) {
    && line == ['$'] + name + rest
    && name != "" && AllWord(name)
    && (rest != "" ==> !IsWord(rest[0]))
    && DollarsName(rest)
  }

  lemma FirstName(line: string) returns (name: string, rest: string)
    requires DollarsName(line) && line != "" && line[0] == '$'
    ensures StartsWith(line, name, rest) && Tokens(line) == [name] + Tokens(rest)
    ensures |name| == WordRun(line[1..])
  {
    var n := WordRun(line[1..]);
    assert n > 0;
    name, rest := line[1..n + 1], line[n + 1..];
    assert name == line[1..][..n];
    assert line == ['$'] + name + rest;
    assert rest != "" ==> rest[0] == line[1..][n];
    assert forall i :: 0 <= i < |rest| ==> rest[i] == line[n + 1 + i];
  }

  lemma SubstitutedFirst(line: string, name: string, rest: string, table: Table)
    requires StartsWith(line, name, rest) && |name| == WordRun(line[1..])
    ensures Substituted(line, table) == (if name in table then table[name] else ['$'] + name) + Substituted(rest, table)
  {
    var n := |name|;
    assert line[1..n + 1] == name && line[n + 1..] == rest && line[..n + 1] == ['$'] + name;
  }

  lemma {:induction false} TokensAreWords(line: string)
    requires DollarsName(line)
    ensures forall k :: 0 <= k < |Tokens(line)| ==> Tokens(line)[k] != "" && AllWord(Tokens(line)[k])
    decreases |line|
  {
    if line != "" && line[0] == '$' {
      var name, rest := FirstName(line);
      TokensAreWords(rest);
    } else if line != "" {
      assert DollarsName(line[1..]);
      TokensAreWords(line[1..]);
    }
  }

  // ---------------------------------------------------------------------------------------------
  // Counting dollar signs
  // ---------------------------------------------------------------------------------------------

  /** Emptying one name where it stands leaves the dollar signs of the others. */
  lemma {:induction false} SubstitutedDollars(line: string, n: string)
    requires DollarsName(line)
    ensures Dollars(Substituted(line, map[n := ""])) == OtherThan(Tokens(line), n)
    decreases |line|
  {
    if line == "" {
    } else if line[0] == '$' {
      var name, rest := FirstName(line);
      SubstitutedDollars(rest, n);
      SubstitutedFirst(line, name, rest, map[n := ""]);
      hide Substituted;
      NoDollars(name);
      var value := if name == n then "" else ['$'] + name;
      assert (['$'] + name)[1..] == name;
      DollarsConcat(value, Substituted(rest, map[n := ""]));
    } else {
      SubstitutedDollars(line[1..], n);
      DollarsConcat([line[0]], Substituted(line[1..], map[n := ""]));
    }
  }

  lemma NotFirst(n: string, name: string, rest: string)
    requires AllWord(n) && (rest != "" ==> !IsWord(rest[0])) && !(n <= name)
    ensures !(n <= name + rest)
  {
    var w := name + rest;
    assert |name| < |n| <= |w| ==> w[|name|] == rest[0];
  }

  /** Replacing one name by nothing leaves the dollar signs of the names that do not start with it. */
  lemma {:induction false} ReplacedDollars(line: string, n: string)
    requires DollarsName(line) && n != "" && AllWord(n)
    ensures Dollars(Replace(line, ['$'] + n, "")) == NotFrom(Tokens(line), n)
    decreases |line|
  {
    if line == "" {
    } else if line[0] == '$' {
      var name, rest := FirstName(line);
      ReplacedDollars(rest, n);
      ReplacedName(line, name, rest, n);
    } else {
      assert DollarsName(line[1..]);
      ReplacedDollars(line[1..], n);
      assert !(['$'] + n <= line);
      DollarsConcat([line[0]], Replace(line[1..], ['$'] + n, ""));
    }
  }

  lemma ReplacedName(line: string, name: string, rest: string, n: string)
    requires StartsWith(line, name, rest) && n != "" && AllWord(n)
    ensures Dollars(Replace(line, ['$'] + n, ""))
         == (if n <= name then 0 else 1) + Dollars(Replace(rest, ['$'] + n, ""))
  {
    if n <= name {
      ReplacedOwn(name, rest, n);
    } else {
      ReplacedOther(name, rest, n);
    }
  }

  lemma ReplacedOwn(name: string, rest: string, n: string)
    requires n <= name && '$' !in name
    ensures Dollars(Replace(['$'] + name + rest, ['$'] + n, "")) == Dollars(Replace(rest, ['$'] + n, ""))
  {
    var tail := name[|n|..];
    assert ['$'] + name + rest == ['$'] + n + (tail + rest);
    ReplaceOwn(n, tail + rest, "");
    ReplaceSkips(tail, rest, ['$'] + n, "");
    hide Replace;
    assert "" + Replace(tail + rest, ['$'] + n, "") == Replace(tail + rest, ['$'] + n, "");
    NoDollars(tail);
    DollarsConcat(tail, Replace(rest, ['$'] + n, ""));
  }

  lemma ReplacedOther(name: string, rest: string, n: string)
    requires !(n <= name) && AllWord(n) && '$' !in name && (rest != "" ==> !IsWord(rest[0]))
    ensures Dollars(Replace(['$'] + name + rest, ['$'] + n, "")) == 1 + Dollars(Replace(rest, ['$'] + n, ""))
  {
    var line, pattern := ['$'] + name + rest, ['$'] + n;
    assert line[1..] == name + rest;
    assert !(pattern <= line) by {
      assert pattern <= line ==> n == line[1..][..|n|];
      NotFirst(n, name, rest);
    }
    ReplaceSkips(name, rest, pattern, "");
    assert Replace(line, pattern, "") == ['$'] + (name + Replace(rest, pattern, ""));
    hide Replace;
    NoDollars(name);
    DollarsConcat(name, Replace(rest, pattern, ""));
    DollarsConcat(['$'], name + Replace(rest, pattern, ""));
  }

  lemma {:induction false} ReplaceTakes(s: string, n: string)
    ensures Dollars(Replace(s, ['$'] + n, "")) <= Dollars(s)
    decreases |s|
  {
    var pattern := ['$'] + n;
    if s == "" {
    } else if pattern <= s {
      var rest := s[|pattern|..];
      assert s == pattern + rest;
      DollarsConcat(pattern, rest);
      ReplaceTakes(rest, n);
      assert "" + Replace(rest, pattern, "") == Replace(rest, pattern, "");
    } else {
      ReplaceTakes(s[1..], n);
      DollarsConcat([s[0]], Replace(s[1..], pattern, ""));
    }
  }

  /** The whole loop, with one variable that is empty. */
  lemma {:induction false} LoopTakes(line: string, names: seq<string>, n: string)
    ensures n !in names ==> ReplaceAll(line, names, map[n := ""], map[]) == line
    ensures n in names ==>
              Dollars(ReplaceAll(line, names, map[n := ""], map[])) <= Dollars(Replace(line, ['$'] + n, ""))
  {
    if names != [] {
      var init, last := names[..|names| - 1], names[|names| - 1];
      LoopTakes(line, init, n);
      ReplaceTakes(ReplaceAll(line, init, map[n := ""], map[]), n);
    }
  }

  /** A name in the line that is a proper prefix of another: emptying it makes the difference. */
  lemma PrefixTellsApart(line: string, n: string, m: string)
    requires DollarsName(line) && n in Tokens(line) && m in Tokens(line) && n <= m && n != m
    ensures PlainValues(Tokens(line), map[n := ""])
    ensures Expand(line, map[n := ""], map[]) != Substituted(line, map[n := ""])
  {
    TokensAreWords(line);
    SubstitutedDollars(line, n);
    ReplacedDollars(line, n);
    LoopTakes(line, Tokens(line), n);
    FewerNotFrom(Tokens(line), n, m);
  }

  /**
   In a line in which every dollar sign starts a name, the replaces are the simultaneous substitution for all variables
   without dollar signs if and only if no name in the line is a proper prefix of another.
   */
  lemma PrefixFreeIff(line: string)
    requires DollarsName(line)
    ensures PrefixFree(Tokens(line))
       <==> forall user, env :: PlainValues(Tokens(line), env + user) ==>
                                  Expand(line, user, env) == Substituted(line, env + user)
  {
    if PrefixFree(Tokens(line)) {
      forall user, env | PlainValues(Tokens(line), env + user)
        ensures Expand(line, user, env) == Substituted(line, env + user)
      {
        ExpandIsSubstitution(line, user, env);
      }
    } else {
      var names := Tokens(line);
      var a, b :| 0 <= a < |names| && 0 <= b < |names| && names[a] <= names[b] && names[a] != names[b];
      PrefixTellsApart(line, names[a], names[b]);
      assert map[] + map[names[a] := ""] == map[names[a] := ""];
    }
  }
}
