/**
  The number parser the submission handler applies to answers and
  coefficients (`parseFloat`), restricted to whole decimal numerals: an
  optional sign, digits, and an optional fraction. A string that is not such a
  numeral stands for `NaN` and parses to `None`.
*/
module Numbers {
  import opened Maybe
  import opened Text

  /** The value of a string of decimal digits (0 for the empty string). */
  function DigitsValue(s: string): nat
    requires AllDigits(s)
  {
    if |s| == 0 then 0
    else DigitsValue(s[..|s| - 1]) * 10 + (s[|s| - 1] as int - '0' as int)
  }

  function Pow10(n: nat): (r: nat)
    ensures r >= 1
  {
    if n == 0 then 1 else 10 * Pow10(n - 1)
  }

  /** An unsigned numeral: `digits`, `digits.digits`, `digits.` or `.digits`. */
  function ParseUnsigned(s: string): (r: Option<real>)
    ensures r.Some? ==> r.value >= 0.0
  {
    if '.' !in s then
      if |s| > 0 && AllDigits(s) then Some(DigitsValue(s) as real) else None
    else
      var i := IndexOf(s, '.');
      var whole, fraction := s[..i], s[i + 1..];
      if AllDigits(whole) && AllDigits(fraction) && |whole| + |fraction| > 0 then
        Some(DigitsValue(whole) as real + DigitsValue(fraction) as real / Pow10(|fraction|) as real)
      else None
  }

  /** `parseFloat(s)`, with `None` for `NaN`. */
  function ParseNumber(s: string): (r: Option<real>)
    ensures r.Some? ==> |s| > 0
    ensures |s| > 0 && AllDigits(s) ==> r == Some(DigitsValue(s) as real)
    ensures |s| > 0 && !IsDigit(s[0]) && s[0] !in "+-." ==> r.None?
  {
    if |s| > 0 && (s[0] == '-' || s[0] == '+') then
      match ParseUnsigned(s[1..])
      case None => None
      case Some(v) => Some(if s[0] == '-' then -v else v)
    else ParseUnsigned(s)
  }
}
