/**
  Java's 32-bit `int` and the decimal text that `StringBuilder.append(int)`
  (that is, `Integer.toString`) produces for it, with a parser that proves the
  text determines the number.
*/
module JavaInt {

  /** Java's signed 32-bit `int`. */
  newtype int32 = x: int | -0x8000_0000 <= x < 0x8000_0000

  predicate IsDigit(c: char) {
    '0' <= c <= '9'
  }

  /** True if no character of `s` is a comma. */
  predicate CommaFree(s: string) {
    forall i :: 0 <= i < |s| ==> s[i] != ','
  }

  function DigitChar(d: int): (c: char)
    requires 0 <= d < 10
    ensures IsDigit(c) && c as int - '0' as int == d
  {
    ('0' as int + d) as char
  }

  /** Decimal digits of `n`, most significant first, without leading zeros. */
  function NatToString(n: nat): (s: string)
    ensures |s| > 0
    ensures forall i :: 0 <= i < |s| ==> IsDigit(s[i])
    ensures s[0] == '0' ==> n == 0 && s == "0"
    decreases n
  {
    if n < 10 then [DigitChar(n)] else NatToString(n / 10) + [DigitChar(n % 10)]
  }

  /** The text Java appends for an `int`: a minus sign for negative values,
      then the decimal digits of the magnitude. */
  function IntToString(x: int32): (s: string)
    ensures |s| > 0
    ensures s[0] == '-' <==> x < 0
    ensures forall i :: 0 <= i < |s| ==> IsDigit(s[i]) || (i == 0 && s[i] == '-')
  {
    if x < 0 then "-" + NatToString(-(x as int)) else NatToString(x as int)
  }

  /** Reads back a string of decimal digits. */
  function ParseNat(s: string): nat
    requires forall i :: 0 <= i < |s| ==> IsDigit(s[i])
  {
    if s == [] then 0
    else
      assert IsDigit(s[|s| - 1]);
      ParseNat(s[..|s| - 1]) * 10 + (s[|s| - 1] as int - '0' as int)
  }

  /** Reads back an optionally signed string of decimal digits. */
  function ParseInt(s: string): int
    requires forall i :: 0 <= i < |s| ==> IsDigit(s[i]) || (i == 0 && s[i] == '-')
  {
    if |s| > 0 && s[0] == '-' then -(ParseNat(s[1..]) as int) else ParseNat(s)
  }

  lemma {:induction false} NatToStringRoundTrip(n: nat)
    ensures ParseNat(NatToString(n)) == n
    decreases n
  {
    if n >= 10 {
      var s := NatToString(n);
      assert s[..|s| - 1] == NatToString(n / 10);
      NatToStringRoundTrip(n / 10);
    }
  }

  /** The decimal text of an `int` determines it. */
  lemma IntToStringRoundTrip(x: int32)
    ensures ParseInt(IntToString(x)) == x as int
  {
    if x < 0 {
      var s := IntToString(x);
      assert s[1..] == NatToString(-(x as int));
      NatToStringRoundTrip(-(x as int));
    } else {
      NatToStringRoundTrip(x as int);
    }
  }

  lemma IntToStringInjective(x: int32, y: int32)
    ensures IntToString(x) == IntToString(y) <==> x == y
  {
    IntToStringRoundTrip(x);
    IntToStringRoundTrip(y);
  }

  lemma IntToStringCommaFree(x: int32)
    ensures CommaFree(IntToString(x))
  {
  }

  /** Splitting at the last comma: when what follows the comma is comma-free
      on both sides, both parts agree. */
  lemma SplitAtLastComma(a: string, b: string, c: string, d: string)
    requires CommaFree(b) && CommaFree(d)
    requires a + "," + b == c + "," + d
    ensures a == c && b == d
  {
    var s := a + "," + b;
    assert s[|a|] == ',';
    assert s[|c|] == ',';
    assert a == s[..|a|];
    assert c == s[..|c|];
    assert b == s[|a| + 1..];
    assert d == s[|c| + 1..];
  }

  /** Splitting at the first comma: when what precedes the comma is
      comma-free on both sides, both parts agree. */
  lemma SplitAtFirstComma(a: string, b: string, c: string, d: string)
    requires CommaFree(a) && CommaFree(c)
    requires a + "," + b == c + "," + d
    ensures a == c && b == d
  {
    var s := a + "," + b;
    assert s[|a|] == ',';
    assert s[|c|] == ',';
    assert a == s[..|a|];
    assert c == s[..|c|];
    assert b == s[|a| + 1..];
    assert d == s[|c| + 1..];
  }
}
