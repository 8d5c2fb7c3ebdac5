/** Decimal text of Java integers: `String.valueOf(int)` (also what `"%d"` and
    string concatenation print) and `Integer.parseInt(String)`. */
module Decimal {
  import opened Lang
  import opened JavaInt

  predicate IsDigit(c: char)
  {
    '0' <= c <= '9'
  }

  predicate AllDigits(s: string)
  {
    forall i :: 0 <= i < |s| ==> IsDigit(s[i])
  }

  function DigitChar(d: nat): (c: char)
    requires d < 10
    ensures IsDigit(c)
  {
    (d + '0' as int) as char
  }

  function DigitValue(c: char): (d: nat)
    requires IsDigit(c)
    ensures d < 10
  {
    c as int - '0' as int
  }

  /** The decimal digits of n, most significant first, without leading zeros. */
  function NatString(n: nat): (s: string)
    ensures |s| >= 1 && AllDigits(s)
  {
    if n < 10 then [DigitChar(n)] else NatString(n / 10) + [DigitChar(n % 10)]
  }

  /** `String.valueOf(n)`. */
  function IntString(n: int): string
  {
    if n < 0 then "-" + NatString(-n) else NatString(n)
  }

  /** The value of a string of decimal digits. */
  function DigitsValue(s: string): nat
    requires AllDigits(s)
  {
    if s == [] then 0 else 10 * DigitsValue(s[..|s| - 1]) + DigitValue(s[|s| - 1])
  }

  /** `Integer.parseInt(s)`: an optional sign, then at least one digit, and the
      value must fit in an int; anything else is a NumberFormatException. */
  function ParseInt(s: string): (r: Result<i32>)
    ensures r.Ok? ==> |s| >= 1
    ensures r.Throws? ==> r.error.kind == NumberFormat
  {
    if |s| == 0 then Throws(Jdk(NumberFormat))
    else
      var negative := s[0] == '-';
      var digits := if s[0] == '-' || s[0] == '+' then s[1..] else s;
      if |digits| == 0 || !AllDigits(digits) then Throws(Jdk(NumberFormat))
      else
        var v: int := if negative then 0 - DigitsValue(digits) else DigitsValue(digits);
        if -0x8000_0000 <= v < 0x8000_0000 then Ok(v) else Throws(Jdk(NumberFormat))
  }

  /** Reading back the digits of n gives n. */
  lemma {:induction false} DigitsValueOfNatString(n: nat)
    ensures DigitsValue(NatString(n)) == n
  {
    if n >= 10 {
      var s := NatString(n);
      assert s[..|s| - 1] == NatString(n / 10);
      DigitsValueOfNatString(n / 10);
    }
  }

  /** `Integer.parseInt(String.valueOf(n)) == n` for every int n. */
  lemma ParseIntString(n: i32)
    ensures ParseInt(IntString(n)) == Ok(n)
  {
    var s := IntString(n);
    if n < 0 {
      var m: nat := 0 - n as int;
      var digits := NatString(m);
      assert s == "-" + digits && s[0] == '-' && s[1..] == digits;
      DigitsValueOfNatString(m);
    } else {
      assert s == NatString(n) && IsDigit(s[0]);
      DigitsValueOfNatString(n);
    }
  }
}
