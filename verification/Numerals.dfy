/** Decimal numerals: `std::to_string` on non-negative numbers and `std::stoi`. */
module Numerals {
  import opened Wrappers

  predicate IsDecimal(c: char) { '0' <= c <= '9' }

  function DigitChar(d: nat): char
    requires d < 10
  {
    ('0' as int + d) as char
  }

  /** `std::to_string` */
  function NatText(n: nat): (s: string)
    ensures s != "" && forall c :: c in s ==> IsDecimal(c)
  {
    if n < 10 then [DigitChar(n)] else NatText(n / 10) + [DigitChar(n % 10)]
  }

  /** The value of a run of decimal digits. */
  function DigitsValue(s: string): (n: nat)
    requires forall c :: c in s ==> IsDecimal(c)
  {
    if s == "" then 0
    else
      assert IsDecimal(s[|s| - 1]);
      DigitsValue(s[..|s| - 1]) * 10 + (s[|s| - 1] as int - '0' as int)
  }

  lemma {:induction false} NatTextValue(n: nat)
    ensures DigitsValue(NatText(n)) == n
  {
    var s := NatText(n);
    if n >= 10 {
      NatTextValue(n / 10);
      assert s[..|s| - 1] == NatText(n / 10);
    } else {
      assert s[..|s| - 1] == "";
    }
  }
}
