/** Base-10 rendering of integers as Go's `strconv.FormatInt(v, 10)` and `fmt`'s `%d`
    produce it, with a parser as its partner. */
module Decimal {
  import opened Base

  predicate IsDigit(c: char)
  {
    '0' <= c <= '9'
  }

  predicate AllDigits(s: string)
  {
    forall i :: 0 <= i < |s| ==> IsDigit(s[i])
  }

  function DigitChar(d: nat): (c: char)
    requires d < 10
    ensures IsDigit(c)
    ensures c as int - '0' as int == d
  {
    ('0' as int + d) as char
  }

  /** The canonical decimal digits of `n`: at least one digit, and no leading zero
      except for zero itself. */
  function FormatNat(n: nat): (s: string)
    ensures |s| >= 1
    ensures AllDigits(s)
    ensures s[0] == '0' ==> n == 0 && s == "0"
    decreases n
  {
    if n < 10 then [DigitChar(n)]
    else FormatNat(n / 10) + [DigitChar(n % 10)]
  }

  /** `strconv.FormatInt(v, 10)`: a minus sign for negative values, then the digits
      of the magnitude. */
  function FormatInt(v: int): (s: string)
    ensures |s| >= 1
    ensures v < 0 <==> s[0] == '-'
    ensures v < 0 ==> |s| >= 2 && AllDigits(s[1..])
    ensures v >= 0 ==> AllDigits(s)
  {
    if v < 0 then "-" + FormatNat(-v) else FormatNat(v)
  }

  /** The value of a digit string, read most significant digit first; the empty string
      has value 0 (`ParseInt` rejects it before reading). */
  function DigitsValue(s: string): nat
    requires AllDigits(s)
    decreases |s|
  {
    if |s| == 0 then 0
    else 10 * DigitsValue(s[..|s| - 1]) + (s[|s| - 1] as int - '0' as int)
  }

  /** Reads an optionally negative decimal integer; `None` for anything else. */
  function ParseInt(s: string): Option<int>
  {
    if |s| >= 2 && s[0] == '-' && AllDigits(s[1..]) then Some(0 - DigitsValue(s[1..]) as int)
    else if |s| >= 1 && AllDigits(s) then Some(DigitsValue(s) as int)
    else None
  }

  lemma {:induction false} DigitsValueFormatNat(n: nat)
    ensures DigitsValue(FormatNat(n)) == n
    decreases n
  {
    var s := FormatNat(n);
    if n < 10 {
      assert s[..0] == [];
    } else {
      DigitsValueFormatNat(n / 10);
      assert s[..|s| - 1] == FormatNat(n / 10);
    }
  }

  /** Round trip: the parser recovers every rendered integer. */
  lemma ParseFormatInt(v: int)
    ensures ParseInt(FormatInt(v)) == Some(v)
  {
    if v < 0 {
      assert FormatInt(v)[1..] == FormatNat(-v);
      DigitsValueFormatNat(-v);
    } else {
      DigitsValueFormatNat(v);
    }
  }

  /** Distinct integers have distinct renderings. */
  lemma FormatIntInjective(v: int, w: int)
    requires FormatInt(v) == FormatInt(w)
    ensures v == w
  {
    ParseFormatInt(v);
    ParseFormatInt(w);
  }
}
