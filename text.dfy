/** The string operations the services rely on, over ASCII: case mapping,
    substring search, last-index search, decimal rendering and parsing. */
module Text {
  import opened Wrappers

  function LowerChar(c: char): char {
    if 'A' <= c <= 'Z' then (c as int + 32) as char else c
  }

  function UpperChar(c: char): char {
    if 'a' <= c <= 'z' then (c as int - 32) as char else c
  }

  /** `String.toLowerCase` restricted to ASCII letters. */
  function ToLower(s: string): (r: string)
    ensures |r| == |s|
    ensures forall i :: 0 <= i < |s| ==> r[i] == LowerChar(s[i])
  {
    seq(|s|, i requires 0 <= i < |s| => LowerChar(s[i]))
  }

  /** `String.toUpperCase` restricted to ASCII letters. */
  function ToUpper(s: string): (r: string)
    ensures |r| == |s|
    ensures forall i :: 0 <= i < |s| ==> r[i] == UpperChar(s[i])
  {
    seq(|s|, i requires 0 <= i < |s| => UpperChar(s[i]))
  }

  /** `String.equalsIgnoreCase` restricted to ASCII letters. */
  predicate EqualsIgnoreCase(a: string, b: string) {
    ToUpper(a) == ToUpper(b)
  }

  /** `needle` occurs as a contiguous part of `hay`. */
  predicate Contains(hay: string, needle: string) {
    exists i :: 0 <= i <= |hay| && needle <= hay[i..]
  }

  lemma ContainsAt(hay: string, needle: string, i: nat)
    requires i <= |hay| && needle <= hay[i..]
    ensures Contains(hay, needle)
  {
  }

  /** The middle part of a concatenation occurs in it. */
  lemma ContainsMiddle(a: string, b: string, c: string)
    ensures Contains(a + b + c, b)
  {
    assert (a + b + c)[|a|..] == b + c;
    ContainsAt(a + b + c, b, |a|);
  }

  /** Java's `lastIndexOf(c)`: the index of the last `c`, or -1. */
  function LastIndexOf(s: string, c: char): (r: int)
    ensures -1 <= r < |s|
    ensures r >= 0 ==> s[r] == c
    ensures forall i :: r < i < |s| ==> s[i] != c
  {
    if s == [] then -1
    else if s[|s| - 1] == c then |s| - 1
    else LastIndexOf(s[..|s| - 1], c)
  }

  predicate IsDigit(c: char) {
    '0' <= c <= '9'
  }

  predicate AllDigits(s: string) {
    forall i :: 0 <= i < |s| ==> IsDigit(s[i])
  }

  function DigitChar(d: nat): char
    requires d < 10
  {
    ('0' as int + d) as char
  }

  /** The number a non-empty or empty run of decimal digits denotes. */
  function DigitsValue(s: string): nat
    requires AllDigits(s)
  {
    if s == [] then 0
    else DigitsValue(s[..|s| - 1]) * 10 + (s[|s| - 1] as int - '0' as int)
  }

  /** `Long.toString` on a non-negative value: decimal, no sign, no leading zeros. */
  function NatToString(n: nat): (r: string)
    ensures |r| > 0 && AllDigits(r)
  {
    if n < 10 then [DigitChar(n)] else NatToString(n / 10) + [DigitChar(n % 10)]
  }

  /** `Long.toString` / `String.valueOf` on any integer. */
  function IntToString(n: int): (r: string)
    ensures |r| > 0
  {
    if n < 0 then "-" + NatToString(-n) else NatToString(n)
  }

  const IntMin: int := -0x8000_0000
  const IntMax: int := 0x7FFF_FFFF
  const LongMin: int := -0x8000_0000_0000_0000
  const LongMax: int := 0x7FFF_FFFF_FFFF_FFFF

  /** Java's decimal integer parsing: an optional '+' or '-', at least one ASCII
      digit and nothing else, and a value inside [lo, hi]; None plays the part of
      NumberFormatException. */
  function ParseInteger(s: string, lo: int, hi: int): (r: Option<int>)
    ensures r.Some? ==> lo <= r.value <= hi
    ensures r.Some? ==> |s| > 0 && (AllDigits(s) || ((s[0] == '+' || s[0] == '-') && AllDigits(s[1..])))
    ensures s != [] && AllDigits(s) ==>
              r == if lo <= DigitsValue(s) <= hi then Some(DigitsValue(s) as int) else None
    ensures |s| > 1 && s[0] == '+' && AllDigits(s[1..]) ==> r == ParseInteger(s[1..], lo, hi)
    ensures |s| > 1 && s[0] == '-' && AllDigits(s[1..]) ==>
              var v := 0 - (DigitsValue(s[1..]) as int);
              r == if lo <= v <= hi then Some(v) else None
  {
    var signed := |s| > 0 && (s[0] == '-' || s[0] == '+');
    var digits := if signed then s[1..] else s;
    if digits == [] || !AllDigits(digits) then None
    else
      var v: int := if |s| > 0 && s[0] == '-' then 0 - (DigitsValue(digits) as int) else DigitsValue(digits);
      if lo <= v <= hi then Some(v) else None
  }

  /** `Long.parseLong`. */
  function ParseLong(s: string): Option<int> {
    ParseInteger(s, LongMin, LongMax)
  }

  /** `Integer.parseInt`. */
  function ParseInt(s: string): Option<int> {
    ParseInteger(s, IntMin, IntMax)
  }

  /** Leading zeros and a '+' sign are accepted; a bare sign, an empty
      string and a stray character are rejected. */
  lemma ParseExamples()
    ensures ParseLong("007") == Some(7)
    ensures ParseLong("+5") == Some(5) && ParseLong("-12") == Some(-12)
    ensures ParseLong("-") == None && ParseLong("") == None && ParseLong("1a") == None && ParseLong("+-5") == None
  {
    assert DigitsValue("007") == 7 by {
      assert "007"[..2] == "00" && "00"[..1] == "0" && "0"[..0] == "";
    }
    assert ("+5")[1..] == "5" && "5"[..0] == "";
    assert ("-12")[1..] == "12" && "12"[..1] == "1" && "1"[..0] == "";
    assert !AllDigits("1a") by { assert !IsDigit("1a"[1]); }
    assert ("+-5")[1..] == "-5" && !IsDigit("-5"[0]);
  }

  lemma {:induction false} DigitsOfNat(n: nat)
    ensures DigitsValue(NatToString(n)) == n
  {
    if n >= 10 {
      DigitsOfNat(n / 10);
      var s := NatToString(n);
      assert s[..|s| - 1] == NatToString(n / 10);
    }
  }

  /** The digits of a natural number parse back to it. */
  lemma ParseDigitsOf(m: nat, lo: int, hi: int)
    requires lo <= m <= hi
    ensures ParseInteger(NatToString(m), lo, hi) == Some(m)
  {
    DigitsOfNat(m);
  }

  /** A minus sign before the digits of `m` parses to -m. */
  lemma ParseNegated(m: nat, lo: int, hi: int)
    requires m > 0 && lo <= 0 - (m as int) <= hi
    ensures ParseInteger("-" + NatToString(m), lo, hi) == Some(0 - (m as int))
  {
    DigitsOfNat(m);
    assert ("-" + NatToString(m))[1..] == NatToString(m);
  }

  /** Rendering an in-range integer and parsing it back gives the integer again. */
  lemma ParseRendered(n: int, lo: int, hi: int)
    requires lo <= n <= hi
    ensures ParseInteger(IntToString(n), lo, hi) == Some(n)
  {
    if n < 0 {
      ParseNegated(-n, lo, hi);
    } else {
      ParseDigitsOf(n, lo, hi);
    }
  }

  /** Distinct integers render to distinct strings, so an id's rendering identifies it. */
  lemma RenderingInjective(a: int, b: int)
    requires IntToString(a) == IntToString(b)
    ensures a == b
  {
    var lo, hi := if a < b then a else b, if a < b then b else a;
    ParseRendered(a, lo, hi);
    ParseRendered(b, lo, hi);
  }
}
