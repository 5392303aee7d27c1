/** String helpers standing in for the parts of Go's fmt and strings packages
  * that the client's formatting and message handling rely on. Strings are
  * sequences of characters; Go's byte strings are modelled character by
  * character. */
module Text {
  import opened Bytes

  function Digit(d: nat): (c: char)
    requires d < 10
    ensures '0' <= c <= '9' && (c as int) - ('0' as int) == d
  {
    (('0' as int) + d) as char
  }

  predicate AllDigits(s: string)
  {
    forall i :: 0 <= i < |s| ==> '0' <= s[i] <= '9'
  }

  /** fmt's "%d" of a non-negative integer: decimal, no leading zeros. */
  function NatToString(n: nat): (s: string)
    ensures 1 <= |s| && AllDigits(s)
    ensures |s| == 1 <==> n < 10
    ensures s[0] == '0' ==> n == 0
    decreases n
  {
    if n < 10 then [Digit(n)] else NatToString(n / 10) + [Digit(n % 10)]
  }

  /** The value of a string of decimal digits (strconv.Atoi on such input). */
  function DigitsValue(s: string): nat
    requires AllDigits(s)
  {
    if s == [] then 0 else DigitsValue(s[..|s| - 1]) * 10 + ((s[|s| - 1] as int) - ('0' as int))
  }

  lemma {:induction false} DigitsValueOfNatToString(n: nat)
    ensures DigitsValue(NatToString(n)) == n
    decreases n
  {
    if n >= 10 {
      var s := NatToString(n);
      assert s[..|s| - 1] == NatToString(n / 10);
      DigitsValueOfNatToString(n / 10);
    }
  }

  /** Distinct numbers print differently, so "%d" can be read back. */
  lemma NatToStringInjective(a: nat, b: nat)
    requires NatToString(a) == NatToString(b)
    ensures a == b
  {
    DigitsValueOfNatToString(a);
    DigitsValueOfNatToString(b);
  }

  /** fmt's "%d" of any integer. */
  function IntToString(x: int): (s: string)
    ensures 1 <= |s|
    ensures x >= 0 ==> s == NatToString(x)
    ensures x < 0 ==> s == "-" + NatToString(-x)
  {
    if x < 0 then "-" + NatToString(-x) else NatToString(x)
  }

  const MinInt64: int := -0x8000_0000_0000_0000
  const MaxInt64: int := 0x7FFF_FFFF_FFFF_FFFF

  /** strconv.Atoi on a 64-bit platform: an optional sign and at least one
    * decimal digit, whose value fits in an int; anything else is an error. */
  function ParseInt(s: string): (r: Option<int>)
    ensures r.Some? ==> MinInt64 <= r.value <= MaxInt64
    ensures r.Some? ==> |s| >= 1 && (s[0] == '-' || s[0] == '+' || '0' <= s[0] <= '9')
    ensures s == [] ==> r.None?
  {
    var signed := |s| > 0 && (s[0] == '-' || s[0] == '+');
    var body := if signed then s[1..] else s;
    if body == [] || !AllDigits(body) then None
    else
      var d: int := DigitsValue(body);
      var v := if signed && s[0] == '-' then -d else d;
      if MinInt64 <= v <= MaxInt64 then Some(v) else None
  }

  /** What "%d" prints, strconv.Atoi reads back. */
  lemma ParseIntOfIntToString(x: int)
    requires MinInt64 <= x <= MaxInt64
    ensures ParseInt(IntToString(x)) == Some(x)
  {
    DigitsValueOfNatToString(if x < 0 then -x else x);
    if x < 0 {
      ParseNegative(NatToString(-x), -x);
    } else {
      ParseUnsigned(NatToString(x), x);
    }
  }

  /** A minus sign before digits of value d, d within range, reads back as -d. */
  lemma ParseNegative(n: string, d: int)
    requires |n| > 0 && AllDigits(n) && DigitsValue(n) == d && -d >= MinInt64
    ensures ParseInt("-" + n) == Some(-d)
  {
    assert ("-" + n)[0] == '-' && ("-" + n)[1..] == n;
  }

  /** Digits of value d, d within range, read back as d. */
  lemma ParseUnsigned(n: string, d: nat)
    requires |n| > 0 && AllDigits(n) && DigitsValue(n) == d && d <= MaxInt64
    ensures ParseInt(n) == Some(d)
  {
    assert '0' <= n[0] <= '9' by {
      assert AllDigits(n);
    }
  }

  /** fmt's "%02d" of a non-negative integer. */
  function Pad2(n: nat): (s: string)
    ensures n < 100 ==> |s| == 2
    ensures AllDigits(s) && DigitsValue(s) == n
  {
    DigitsValueOfNatToString(n);
    if n < 10 then
      var s := "0" + NatToString(n);
      assert s[..|s| - 1] == "0";
      s
    else NatToString(n)
  }

  /** strings.ReplaceAll(s, string(from), string(to)) for one-character patterns. */
  function ReplaceChar(s: string, from: char, to: char): (r: string)
    ensures |r| == |s|
    ensures forall i :: 0 <= i < |s| ==> r[i] == (if s[i] == from then to else s[i])
  {
    if s == [] then [] else [if s[0] == from then to else s[0]] + ReplaceChar(s[1..], from, to)
  }

  /** strings.ReplaceAll(s, string(c), ""): every c removed, every other character kept, in order. */
  function RemoveChar(s: string, c: char): (r: string)
    ensures c !in r
    ensures forall x :: x != c ==> multiset(r)[x] == multiset(s)[x]
    ensures |r| == |s| - multiset(s)[c]
  {
    if s == [] then []
    else if s[0] == c then
      assert s == [s[0]] + s[1..];
      RemoveChar(s[1..], c)
    else
      assert s == [s[0]] + s[1..];
      [s[0]] + RemoveChar(s[1..], c)
  }

  /** Removal works piece by piece, so the kept characters stay in their order:
    * removing c from s + t is removing it from s, then from t, joined. */
  lemma {:induction false} RemoveCharConcat(s: string, t: string, c: char)
    ensures RemoveChar(s + t, c) == RemoveChar(s, c) + RemoveChar(t, c)
    decreases |s|
  {
    if s == [] {
      assert s + t == t;
    } else {
      assert (s + t)[0] == s[0] && (s + t)[1..] == s[1..] + t;
      RemoveCharConcat(s[1..], t, c);
    }
  }

  predicate HasPrefix(s: string, p: string)
  {
    |p| <= |s| && s[..|p|] == p
  }

  predicate HasSuffix(s: string, p: string)
  {
    |p| <= |s| && s[|s| - |p|..] == p
  }
}
