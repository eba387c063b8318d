/** The pieces of Python's string handling that the parsers use: strip, split, int and %d. */
module Text {
  import opened Sequences
  import opened Wrappers

  // ---------------------------------------------------------------------------------------------
  // strip
  // ---------------------------------------------------------------------------------------------

  predicate IsSpace(c: char) {
    c == ' ' || c == '\t' || c == '\n' || c == '\r' || c == '\U{000B}' || c == '\U{000C}'
  }

  function LStrip(s: string): (r: string)
    ensures |r| <= |s| && r == s[|s| - |r|..]
    ensures r != "" ==> !IsSpace(r[0])
  {
    if s != "" && IsSpace(s[0]) then LStrip(s[1..]) else s
  }

  function RStrip(s: string): (r: string)
    ensures r <= s
    ensures r != "" ==> !IsSpace(r[|r| - 1])
  {
    if s != "" && IsSpace(s[|s| - 1]) then RStrip(s[..|s| - 1]) else s
  }

  function Strip(s: string): string {
    RStrip(LStrip(s))
  }

  /** Stripping stops at the last character that is no space. */
  lemma {:induction false} RStripAfter(a: string, b: string)
    requires a != "" && !IsSpace(a[|a| - 1])
    ensures RStrip(a + b) == a + RStrip(b)
  {
    if b == "" {
      assert a + b == a;
    } else {
      var n := |b| - 1;
      assert (a + b)[..|a + b| - 1] == a + b[..n];
      assert (a + b)[|a + b| - 1] == b[n];
      RStripAfter(a, b[..n]);
    }
  }

  /** A string with no space at either end. */
  predicate Trimmed(s: string) {
    s != "" ==> !IsSpace(s[0]) && !IsSpace(s[|s| - 1])
  }

  lemma StripTrimmed(s: string)
    requires Trimmed(s)
    ensures Strip(s) == s
  {
  }

  predicate Blank(s: string) {
    forall k :: 0 <= k < |s| ==> IsSpace(s[k])
  }

  /** Stripping takes off the space at both ends and nothing else. */
  lemma {:induction false} StripIs(pre: string, core: string, post: string)
    requires Blank(pre) && Blank(post) && Trimmed(core)
    ensures Strip(pre + core + post) == core
  {
    assert pre + core + post == pre + (core + post);
    LStripBlank(pre, core + post);
    if core == "" {
      LStripBlank(post, "");
      assert core + post == post && post + "" == post;
    } else {
      assert (core + post)[0] == core[0];
      RStripIs(core, post);
    }
  }

  lemma {:induction false} RStripIs(core: string, post: string)
    requires Blank(post) && (core != "" ==> !IsSpace(core[|core| - 1]))
    ensures RStrip(core + post) == core
  {
    RStripBlank(core, post);
  }

  lemma {:induction false} LStripBlank(pre: string, s: string)
    requires Blank(pre)
    ensures LStrip(pre + s) == LStrip(s)
  {
    if pre == "" {
      assert pre + s == s;
    } else {
      assert (pre + s)[1..] == pre[1..] + s;
      LStripBlank(pre[1..], s);
    }
  }

  lemma {:induction false} RStripBlank(s: string, post: string)
    requires Blank(post)
    ensures RStrip(s + post) == RStrip(s)
  {
    if post == "" {
      assert s + post == s;
    } else {
      var n := |post| - 1;
      assert (s + post)[..|s + post| - 1] == s + post[..n] && (s + post)[|s + post| - 1] == post[n];
      RStripBlank(s, post[..n]);
    }
  }

  /** Every string is what stripping leaves, between space. */
  lemma StripParts(s: string) returns (pre: string, post: string)
    ensures Blank(pre) && Blank(post) && Trimmed(Strip(s)) && s == pre + Strip(s) + post
  {
    pre := LStripParts(s);
    post := RStripParts(LStrip(s));
    Grouped(pre, Strip(s), post);
  }

  lemma {:induction false} LStripParts(s: string) returns (pre: string)
    ensures Blank(pre) && s == pre + LStrip(s)
  {
    if s == "" || !IsSpace(s[0]) {
      pre := "";
    } else {
      assert LStrip(s) == LStrip(s[1..]);
      hide LStrip;
      var rest := LStripParts(s[1..]);
      pre := [s[0]] + rest;
      Grouped([s[0]], rest, LStrip(s[1..]));
      FirstAndRest(s);
    }
  }

  lemma {:induction false} RStripParts(s: string) returns (post: string)
    ensures Blank(post) && s == RStrip(s) + post
  {
    if s == "" || !IsSpace(s[|s| - 1]) {
      post := "";
    } else {
      var n := |s| - 1;
      assert RStrip(s) == RStrip(s[..n]);
      hide RStrip;
      var rest := RStripParts(s[..n]);
      post := rest + [s[n]];
      Grouped(RStrip(s[..n]), rest, [s[n]]);
      InitAndLast(s);
    }
  }

  // ---------------------------------------------------------------------------------------------
  // split
  // ---------------------------------------------------------------------------------------------

  /** Where `c` first occurs, or the length. */
  function IndexOf(s: string, c: char): (i: nat)
    ensures i <= |s|
    ensures i < |s| ==> s[i] == c
    ensures forall k :: 0 <= k < i ==> s[k] != c
  {
    if s == "" || s[0] == c then 0 else 1 + IndexOf(s[1..], c)
  }

  /** split(c, n): at most n cuts. */
  function SplitN(s: string, c: char, n: nat): (parts: seq<string>)
    ensures parts != []
  {
    var i := IndexOf(s, c);
    if n == 0 || i == |s| then [s] else [s[..i]] + SplitN(s[i + 1..], c, n - 1)
  }

  /** split(c). */
  function Split(s: string, c: char): (parts: seq<string>)
    ensures parts != []
    decreases |s|
  {
    var i := IndexOf(s, c);
    if i == |s| then [s] else [s[..i]] + Split(s[i + 1..], c)
  }

  /** c.join(parts). */
  function JoinWith(parts: seq<string>, c: char): string {
    if parts == [] then "" else if |parts| == 1 then parts[0] else parts[0] + [c] + JoinWith(parts[1..], c)
  }

  lemma IndexAfter(a: string, c: char, b: string)
    requires c !in a
    ensures IndexOf(a + [c] + b, c) == |a|
  {
    var s := a + [c] + b;
    assert s[|a|] == c;
    assert forall k :: 0 <= k < |a| ==> s[k] == a[k];
  }

  lemma SplitNAfter(a: string, c: char, b: string, n: nat)
    requires c !in a && n > 0
    ensures SplitN(a + [c] + b, c, n) == [a] + SplitN(b, c, n - 1)
  {
    IndexAfter(a, c, b);
    var s := a + [c] + b;
    assert s[..|a|] == a && s[|a| + 1..] == b;
  }

  /** Splitting undoes joining. */
  lemma {:induction false} SplitJoined(parts: seq<string>, c: char)
    requires parts != []
    requires forall k :: 0 <= k < |parts| ==> c !in parts[k]
    ensures Split(JoinWith(parts, c), c) == parts
  {
    if |parts| == 1 {
      assert IndexOf(parts[0], c) == |parts[0]|;
    } else {
      var rest := JoinWith(parts[1..], c);
      IndexAfter(parts[0], c, rest);
      var s := parts[0] + [c] + rest;
      assert s[..|parts[0]|] == parts[0] && s[|parts[0]| + 1..] == rest;
      SplitJoined(parts[1..], c);
    }
  }

  /** Joining brings in no character but the separator. */
  lemma {:induction false} JoinLacks(parts: seq<string>, sep: char, c: char)
    requires c != sep && forall k :: 0 <= k < |parts| ==> c !in parts[k]
    ensures c !in JoinWith(parts, sep)
  {
    if |parts| > 1 {
      JoinLacks(parts[1..], sep, c);
    }
  }

  // ---------------------------------------------------------------------------------------------
  // int and %d
  // ---------------------------------------------------------------------------------------------

  predicate IsDigit(c: char) {
    '0' <= c <= '9'
  }

  predicate AllDigits(s: string) {
    forall k :: 0 <= k < |s| ==> IsDigit(s[k])
  }

  function DigitChar(d: nat): (c: char)
    requires d < 10
    ensures IsDigit(c) && c as int - '0' as int == d
  {
    ('0' as int + d) as char
  }

  function Decimal(n: nat): (s: string)
    ensures s != "" && AllDigits(s)
  {
    if n < 10 then [DigitChar(n)] else Decimal(n / 10) + [DigitChar(n % 10)]
  }

  /** %d. */
  function Show(n: int): (s: string)
    ensures s != ""
    ensures forall k :: 0 <= k < |s| ==> IsDigit(s[k]) || s[k] == '-'
    ensures n >= 0 ==> AllDigits(s)
  {
    if n < 0 then "-" + Decimal(-n) else Decimal(n)
  }

  function DigitsValue(s: string): (n: nat)
    requires AllDigits(s)
  {
    if s == "" then 0 else 10 * DigitsValue(s[..|s| - 1]) + (s[|s| - 1] as int - '0' as int)
  }

  /** int(s): surrounding space, a sign, digits; otherwise ValueError. */
  function ParseInt(s: string): Option<int> {
    SignedValue(Strip(s))
  }

  function SignedValue(t: string): Option<int> {
    if t != "" && (t[0] == '-' || t[0] == '+') then
      if |t| > 1 && AllDigits(t[1..]) then
        var n: int := DigitsValue(t[1..]);
        Some(if t[0] == '-' then -n else n)
      else
        None
    else if t != "" && AllDigits(t) then
      Some(DigitsValue(t))
    else
      None
  }

  lemma {:induction false} DecimalValue(n: nat)
    ensures DigitsValue(Decimal(n)) == n
  {
    if n >= 10 {
      DecimalValue(n / 10);
      assert Decimal(n)[..|Decimal(n)| - 1] == Decimal(n / 10);
    } else {
      assert Decimal(n)[..0] == "";
    }
  }

  lemma ShowTrimmed(n: int)
    ensures Trimmed(Show(n))
  {
  }

  /** int undoes %d. */
  lemma ParseShow(n: int)
    ensures ParseInt(Show(n)) == Some(n)
  {
    hide ParseInt;
    if n < 0 {
      ParseNegative(-n);
    } else {
      ShowTrimmed(n);
      StripTrimmed(Decimal(n));
      DecimalValue(n);
      ParseUnsigned(Decimal(n));
    }
  }

  lemma ParseNegative(n: nat)
    requires n > 0
    ensures ParseInt(['-'] + Decimal(n)) == Some(-(n as int))
  {
    hide ParseInt;
    hide Strip;
    var digits := Decimal(n);
    assert IsDigit(digits[|digits| - 1]);
    var s := ['-'] + digits;
    assert s[0] == '-' && s[|s| - 1] == digits[|digits| - 1];
    StripTrimmed(s);
    DecimalValue(n);
    ParseSigned(digits);
  }

  lemma ParseUnsigned(digits: string)
    requires digits != "" && AllDigits(digits) && Strip(digits) == digits
    ensures ParseInt(digits) == Some(DigitsValue(digits))
  {
    hide Strip;
    assert IsDigit(digits[0]);
  }

  lemma ParseSigned(digits: string)
    requires digits != "" && AllDigits(digits) && Strip(['-'] + digits) == ['-'] + digits
    ensures ParseInt(['-'] + digits) == Some(-(DigitsValue(digits) as int))
  {
    hide Strip;
    assert (['-'] + digits)[1..] == digits;
  }

  // ---------------------------------------------------------------------------------------------
  // Which strings int accepts
  // ---------------------------------------------------------------------------------------------

  /** Leading zeros make no difference. */
  lemma {:induction false} LeadingZero(digits: string)
    requires AllDigits(digits)
    ensures DigitsValue(['0'] + digits) == DigitsValue(digits)
  {
    var s := ['0'] + digits;
    if digits == "" {
      assert s[..0] == "";
    } else {
      assert s[..|s| - 1] == ['0'] + digits[..|digits| - 1];
      LeadingZero(digits[..|digits| - 1]);
    }
  }

  /** A number as int accepts it: digits, perhaps a sign before them, and space around. */
  ghost predicate Writes(s: string, n: int) {
    exists pre, sign, digits, post :: WrittenAs(s, pre, sign, digits, post, n)
  }

  predicate WrittenAs(s: string, pre: string, sign: string, digits: string, post: string, n: int) {
    && s == pre + (sign + digits) + post
    && Blank(pre) && Blank(post)
    && digits != "" && AllDigits(digits)
    && ((sign == "" && n == DigitsValue(digits))
        || (sign == "+" && n == DigitsValue(digits))
        || (sign == "-" && n == -(DigitsValue(digits) as int)))
  }

  /** What int makes of a number without space around it. */
  lemma {:induction false} SignedIs(sign: string, digits: string, n: int)
    requires WrittenAs(sign + digits, "", sign, digits, "", n)
    ensures Trimmed(sign + digits) && sign + digits != ""
    ensures SignedValue(sign + digits) == Some(n)
  {
    var t := sign + digits;
    assert IsDigit(digits[0]) && IsDigit(digits[|digits| - 1]);
    assert t[|t| - 1] == digits[|digits| - 1];
    hide DigitsValue;
    if sign == "" {
      assert t == digits;
    } else {
      assert t[1..] == digits;
    }
  }

  lemma {:induction false} SignedParts(t: string, n: int) returns (sign: string, digits: string)
    requires SignedValue(t) == Some(n)
    ensures WrittenAs(t, "", sign, digits, "", n)
  {
    hide DigitsValue;
    if t[0] == '-' || t[0] == '+' {
      sign, digits := [t[0]], t[1..];
      assert t == sign + digits;
    } else {
      sign, digits := "", t;
      assert t == "" + t;
    }
    assert "" + (sign + digits) + "" == t;
  }

  /** int(s) is the number that s writes, and raises ValueError exactly if s writes none. */
  lemma {:induction false} ParseIntIff(s: string, n: int)
    ensures ParseInt(s) == Some(n) <==> Writes(s, n)
  {
    hide Strip;
    hide DigitsValue;
    hide SignedValue;
    hide AllDigits;
    if ParseInt(s) == Some(n) {
      var pre, post := StripParts(s);
      var sign, digits := SignedParts(Strip(s), n);
      assert "" + (sign + digits) + "" == sign + digits;
      assert WrittenAs(s, pre, sign, digits, post, n);
    }
    if Writes(s, n) {
      var pre, sign, digits, post :| WrittenAs(s, pre, sign, digits, post, n);
      assert "" + (sign + digits) + "" == sign + digits;
      SignedIs(sign, digits, n);
      StripIs(pre, sign + digits, post);
    }
  }
}
