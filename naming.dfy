/** Default object names (models/object.py:19-22): "object" followed by the
    decimal form of the construction counter plus one, as Python's
    `"object{}".format(n)` writes an int. */
module Naming {
  import opened Wrappers

  /** An ASCII decimal digit, '0' to '9'. */
  predicate IsDigit(ch: char) { '0' <= ch <= '9' }

  function DigitChar(d: nat): (ch: char)
    requires d < 10
    ensures IsDigit(ch)
  {
    ('0' as int + d) as char
  }

  function DigitValue(ch: char): nat
    requires IsDigit(ch)
  {
    ch as int - '0' as int
  }

  /** Decimal digits of n, most significant first, without leading zeros. */
  function NatDigits(n: nat): (s: string)
    ensures s != []
    ensures forall i :: 0 <= i < |s| ==> IsDigit(s[i])
    ensures |s| > 1 ==> s[0] != '0'
    decreases n
  {
    if n < 10 then [DigitChar(n)] else NatDigits(n / 10) + [DigitChar(n % 10)]
  }

  /** Python's str() of an int: a '-' for negative numbers, then the digits. */
  function Decimal(n: int): string
  {
    if n < 0 then "-" + NatDigits(-n) else NatDigits(n)
  }

  /** The value of a string of decimal digits. */
  function DigitsValue(s: string): nat
    requires forall i :: 0 <= i < |s| ==> IsDigit(s[i])
  {
    if s == [] then 0 else DigitsValue(s[..|s| - 1]) * 10 + DigitValue(s[|s| - 1])
  }

  /** Reads back what Decimal writes; None for anything else. */
  function ParseDecimal(s: string): Option<int>
  {
    if |s| > 0 && s[0] == '-' then
      var t := s[1..];
      if t != [] && forall i :: 0 <= i < |t| ==> IsDigit(t[i]) then Some(-(DigitsValue(t) as int)) else None
    else if s != [] && forall i :: 0 <= i < |s| ==> IsDigit(s[i]) then Some(DigitsValue(s))
    else None
  }

  lemma {:induction false} NatDigitsRoundTrip(n: nat)
    ensures DigitsValue(NatDigits(n)) == n
    decreases n
  {
    if n >= 10 {
      NatDigitsRoundTrip(n / 10);
      var s := NatDigits(n);
      assert s[..|s| - 1] == NatDigits(n / 10);
    }
  }

  /** Decimal loses nothing: parsing it gives the number back. */
  lemma DecimalRoundTrip(n: int)
    ensures ParseDecimal(Decimal(n)) == Some(n)
  {
    if n < 0 {
      NatDigitsRoundTrip(-n);
      assert Decimal(n)[1..] == NatDigits(-n);
    } else {
      NatDigitsRoundTrip(n);
    }
  }

  const DefaultPrefix := "object"

  /** The name `default_name` gives when the counter stands at total. */
  function DefaultName(total: int): string
  {
    DefaultPrefix + Decimal(total + 1)
  }

  /** Different counter values give different default names, so objects built
      one after the other without explicit names never share a default name. */
  lemma DefaultNameInjective(a: int, b: int)
    requires DefaultName(a) == DefaultName(b)
    ensures a == b
  {
    var k := |DefaultPrefix|;
    assert Decimal(a + 1) == DefaultName(a)[k..];
    assert Decimal(b + 1) == DefaultName(b)[k..];
    DecimalRoundTrip(a + 1);
    DecimalRoundTrip(b + 1);
  }

  /** The very first default name is "object0": the counter starts at -1. */
  lemma FirstDefaultName()
    ensures DefaultName(-1) == "object0"
  {
  }
}
