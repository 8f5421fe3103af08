/**
 * The `%d` verb of Go's fmt package applied to an `int`: an optional minus sign
 * followed by the decimal digits of the magnitude, without leading zeros ("0" for zero).
 * ParseInt accepts exactly the strings FormatInt produces, which makes it FormatInt's inverse.
 */
module GoFmt {
  import opened Wrappers

  predicate IsDigit(c: char)
  {
    '0' <= c <= '9'
  }

  function DigitChar(d: int): (c: char)
    requires 0 <= d < 10
    ensures IsDigit(c) && (c == '0' <==> d == 0)
  {
    (('0' as int) + d) as char
  }

  function DigitValue(c: char): (d: int)
    requires IsDigit(c)
    ensures 0 <= d < 10 && DigitChar(d) == c
  {
    (c as int) - ('0' as int)
  }

  /** The decimal digits of n, most significant first. */
  function NatToDecimal(n: nat): (s: string)
    ensures |s| >= 1 && forall i :: 0 <= i < |s| ==> IsDigit(s[i])
    ensures s[0] == '0' <==> n == 0
    decreases n
  {
    if n < 10 then [DigitChar(n)] else NatToDecimal(n / 10) + [DigitChar(n % 10)]
  }

  /** `fmt.Sprintf("%d", n)`. */
  function FormatInt(n: int): (s: string)
    ensures |s| >= 1 && forall i :: 0 <= i < |s| ==> IsDigit(s[i]) || s[i] == '-'
    ensures s[0] == '-' <==> n < 0
  {
    if n < 0 then "-" + NatToDecimal(-n) else NatToDecimal(n)
  }

  predicate AllDigits(s: string)
  {
    |s| >= 1 && forall i :: 0 <= i < |s| ==> IsDigit(s[i])
  }

  /** The value of a digit string, read most significant digit first. */
  function DigitsValue(s: string): nat
    requires AllDigits(s)
    decreases |s|
  {
    if |s| == 1 then DigitValue(s[0])
    else 10 * DigitsValue(s[..|s| - 1]) + DigitValue(s[|s| - 1])
  }

  /** A digit string without a leading zero (except "0" itself), read as a natural number. */
  function ParseNat(s: string): Option<nat>
  {
    if AllDigits(s) && (s[0] != '0' || |s| == 1) then Some(DigitsValue(s)) else None
  }

  /** The inverse of FormatInt: accepts an optional '-' before a canonical non-zero magnitude. */
  function ParseInt(s: string): Option<int>
  {
    if |s| > 0 && s[0] == '-' then
      var magnitude: Option<int> := ParseNat(s[1..]);
      if magnitude.Some? && magnitude.value > 0 then Some(-magnitude.value) else None
    else
      var n: Option<int> := ParseNat(s);
      n
  }

  lemma {:induction false} ParseNatOfNatToDecimal(n: nat)
    ensures ParseNat(NatToDecimal(n)) == Some(n)
    decreases n
  {
    var s := NatToDecimal(n);
    if n >= 10 {
      ParseNatOfNatToDecimal(n / 10);
      assert s[..|s| - 1] == NatToDecimal(n / 10);
      assert DigitsValue(s) == 10 * (n / 10) + n % 10;
    }
  }

  /** A digit string that does not start with '0' denotes a positive number. */
  lemma {:induction false} DigitsValuePositive(s: string)
    requires AllDigits(s) && s[0] != '0'
    ensures DigitsValue(s) > 0
    decreases |s|
  {
    if |s| > 1 {
      DigitsValuePositive(s[..|s| - 1]);
    }
  }

  lemma {:induction false} NatToDecimalOfParseNat(s: string)
    requires ParseNat(s).Some?
    ensures NatToDecimal(ParseNat(s).value) == s
    decreases |s|
  {
    var n := DigitsValue(s);
    if |s| > 1 {
      var init := s[..|s| - 1];
      DigitsValuePositive(init);
      NatToDecimalOfParseNat(init);
      var d := DigitValue(s[|s| - 1]);
      assert n / 10 == DigitsValue(init) && n % 10 == d;
      assert s == init + [s[|s| - 1]];
    }
  }

  /** Reading back what `%d` printed gives the original number. */
  lemma ParseIntOfFormatInt(n: int)
    ensures ParseInt(FormatInt(n)) == Some(n)
  {
    var s := FormatInt(n);
    if n < 0 {
      assert s[1..] == NatToDecimal(-n);
      ParseNatOfNatToDecimal(-n);
    } else {
      ParseNatOfNatToDecimal(n);
    }
  }

  /** Every string ParseInt accepts is the one `%d` prints for its value. */
  lemma FormatIntOfParseInt(s: string)
    requires ParseInt(s).Some?
    ensures FormatInt(ParseInt(s).value) == s
  {
    if |s| > 0 && s[0] == '-' {
      NatToDecimalOfParseNat(s[1..]);
      assert s == "-" + s[1..];
    } else {
      NatToDecimalOfParseNat(s);
    }
  }

  /** `%d` prints different numbers differently. */
  lemma FormatIntInjective(m: int, n: int)
    requires FormatInt(m) == FormatInt(n)
    ensures m == n
  {
    ParseIntOfFormatInt(m);
    ParseIntOfFormatInt(n);
  }
}
