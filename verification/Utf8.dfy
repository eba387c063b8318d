/**
 Python's encode and decode with UTF-8 (section 3 of RFC 3629), bytes as characters up to 255.  Handlers decode
 what they log, and a byte string that does not decode raises.
 */
module Utf8 {

  // ---------------------------------------------------------------------------------------------
  // encode
  // ---------------------------------------------------------------------------------------------

  /** A character that a string can be encoded with: no surrogate. */
  predicate IsScalar(n: int) {
    0 <= n < 0xD800 || 0xE000 <= n < 0x11_0000
  }

  function Byte(n: int): char
    requires 0 <= n < 256
  {
    n as char
  }

  function EncodeOne(n: int): (s: string)
    requires IsScalar(n)
    ensures 1 <= |s| <= 4
  {
    if n < 0x80 then
      [Byte(n)]
    else if n < 0x800 then
      [Byte(0xC0 + n / 64), Byte(0x80 + n % 64)]
    else if n < 0x1_0000 then
      [Byte(0xE0 + n / 4096), Byte(0x80 + n / 64 % 64), Byte(0x80 + n % 64)]
    else
      [Byte(0xF0 + n / 262144), Byte(0x80 + n / 4096 % 64), Byte(0x80 + n / 64 % 64), Byte(0x80 + n % 64)]
  }

  predicate IsText(text: seq<int>) {
    forall k :: 0 <= k < |text| ==> IsScalar(text[k])
  }

  function Encode(text: seq<int>): string
    requires IsText(text)
  {
    if text == [] then "" else EncodeOne(text[0]) + Encode(text[1..])
  }

  // ---------------------------------------------------------------------------------------------
  // decode
  // ---------------------------------------------------------------------------------------------

  predicate Between(c: char, low: int, high: int) {
    low <= c as int <= high
  }

  /** A continuation byte stands at `k`. */
  predicate Continuation(s: string, k: nat) {
    k < |s| && Between(s[k], 0x80, 0xBF)
  }

  /** The length of the character that a string of bytes starts with; 0 where decode raises UnicodeDecodeError. */
  function FirstChar(s: string): (n: nat)
    ensures n <= |s|
  {
    if s == "" then
      0
    else if Between(s[0], 0x00, 0x7F) then
      1
    else if Between(s[0], 0xC2, 0xDF) then
      if Continuation(s, 1) then 2 else 0
    else if Between(s[0], 0xE0, 0xEF) then
      if Continuation(s, 1) && Continuation(s, 2)
         && (s[0] as int == 0xE0 ==> s[1] as int >= 0xA0) && (s[0] as int == 0xED ==> s[1] as int <= 0x9F) then 3 else 0
    else if Between(s[0], 0xF0, 0xF4) then
      if Continuation(s, 1) && Continuation(s, 2) && Continuation(s, 3)
         && (s[0] as int == 0xF0 ==> s[1] as int >= 0x90) && (s[0] as int == 0xF4 ==> s[1] as int <= 0x8F) then 4 else 0
    else
      0
  }

  /** decode does not raise. */
  predicate Decodes(s: string)
    decreases |s|
  {
    s == "" || (FirstChar(s) > 0 && Decodes(s[FirstChar(s)..]))
  }

  // ---------------------------------------------------------------------------------------------
  // What decodes is what was encoded
  // ---------------------------------------------------------------------------------------------

  lemma FirstEncoded(n: int, rest: string)
    requires IsScalar(n)
    ensures FirstChar(EncodeOne(n) + rest) == |EncodeOne(n)|
  {
    var s := EncodeOne(n) + rest;
    assert forall k :: 0 <= k < |EncodeOne(n)| ==> s[k] == EncodeOne(n)[k];
  }

  /** The character that the first bytes encode. */
  function FirstScalar(s: string): int
    requires FirstChar(s) > 0
  {
    var b := (k: nat) requires k < |s| => s[k] as int;
    match FirstChar(s)
    case 1 => b(0)
    case 2 => (b(0) - 0xC0) * 64 + b(1) - 0x80
    case 3 => (b(0) - 0xE0) * 4096 + (b(1) - 0x80) * 64 + b(2) - 0x80
    case _ => (b(0) - 0xF0) * 262144 + (b(1) - 0x80) * 4096 + (b(2) - 0x80) * 64 + b(3) - 0x80
  }

  /** Digits to the base 64. */
  lemma Digit(n: int, high: int, low: int)
    requires n == high * 64 + low && 0 <= low < 64
    ensures n / 64 == high && n % 64 == low
  {
  }

  lemma FirstDecoded(s: string)
    requires FirstChar(s) > 0
    ensures IsScalar(FirstScalar(s)) && EncodeOne(FirstScalar(s)) == s[..FirstChar(s)]
  {
    hide EncodeOne;
    hide IsScalar;
    match FirstChar(s)
    case 1 => OneDecoded(s[0] as int);
    case 2 => TwoDecoded(s[0] as int - 0xC0, s[1] as int - 0x80);
    case 3 => ThreeDecoded(s[0] as int - 0xE0, s[1] as int - 0x80, s[2] as int - 0x80);
    case _ => FourDecoded(s[0] as int - 0xF0, s[1] as int - 0x80, s[2] as int - 0x80, s[3] as int - 0x80);
  }

  lemma OneDecoded(a: int)
    requires 0 <= a < 0x80
    ensures IsScalar(a) && EncodeOne(a) == [Byte(a)]
  {
  }

  lemma TwoDecoded(a: int, b: int)
    requires 2 <= a < 32 && 0 <= b < 64
    ensures var n := a * 64 + b;
            IsScalar(n) && EncodeOne(n) == [Byte(0xC0 + a), Byte(0x80 + b)]
  {
    Digit(a * 64 + b, a, b);
  }

  lemma ThreeDecoded(a: int, b: int, c: int)
    requires 0 <= a < 16 && 0 <= b < 64 && 0 <= c < 64 && (a == 0 ==> b >= 32) && (a == 13 ==> b < 32)
    ensures var n := a * 4096 + b * 64 + c;
            IsScalar(n) && EncodeOne(n) == [Byte(0xE0 + a), Byte(0x80 + b), Byte(0x80 + c)]
  {
    var n := a * 4096 + b * 64 + c;
    Digit(n, a * 64 + b, c);
    Digit(a * 64 + b, a, b);
    assert n / 4096 == n / 64 / 64;
  }

  lemma FourDecoded(a: int, b: int, c: int, d: int)
    requires 0 <= a < 5 && 0 <= b < 64 && 0 <= c < 64 && 0 <= d < 64 && (a == 0 ==> b >= 16) && (a == 4 ==> b < 16)
    ensures var n := a * 262144 + b * 4096 + c * 64 + d;
            && IsScalar(n)
            && EncodeOne(n) == [Byte(0xF0 + a), Byte(0x80 + b), Byte(0x80 + c), Byte(0x80 + d)]
  {
    var n := a * 262144 + b * 4096 + c * 64 + d;
    Digit(n, a * 4096 + b * 64 + c, d);
    Digit(a * 4096 + b * 64 + c, a * 64 + b, c);
    Digit(a * 64 + b, a, b);
    assert n / 4096 == n / 64 / 64 && n / 262144 == n / 4096 / 64;
  }

  lemma {:induction false} EncodedDecodes(text: seq<int>)
    requires IsText(text)
    ensures Decodes(Encode(text))
  {
    if text != [] {
      EncodedDecodes(text[1..]);
      FirstEncoded(text[0], Encode(text[1..]));
      var s, n := Encode(text), |EncodeOne(text[0])|;
      assert s[n..] == Encode(text[1..]);
    }
  }

  lemma {:induction false} DecodedText(s: string) returns (text: seq<int>)
    requires Decodes(s)
    ensures IsText(text) && Encode(text) == s
    decreases |s|
  {
    hide FirstChar;
    hide FirstScalar;
    hide EncodeOne;
    hide IsScalar;
    if s == "" {
      text := [];
    } else {
      var n := FirstChar(s);
      var rest := DecodedText(s[n..]);
      FirstDecoded(s);
      text := [FirstScalar(s)] + rest;
      assert text[1..] == rest;
      assert s == s[..n] + s[n..];
    }
  }

  /** Bytes decode exactly when they are the encoding of some text. */
  lemma DecodesIff(s: string)
    ensures Decodes(s) <==> exists text :: IsText(text) && Encode(text) == s
  {
    if Decodes(s) {
      var text := DecodedText(s);
    }
    forall text | IsText(text) && Encode(text) == s ensures Decodes(s) {
      EncodedDecodes(text);
    }
  }

  /** The single byte 255, for one, does not decode. */
  lemma NoSuchByte()
    ensures !Decodes("\U{0000FF}")
  {
  }
}
