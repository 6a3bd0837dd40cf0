/** Decimal integers as text. */
module Numbers {
  import opened Wrappers
  import opened Text

  /** The value of a string of decimal digits. */
  function DigitsValue(s: string): nat {
    if s == [] then 0
    else 10 * DigitsValue(s[..|s| - 1]) + (if IsDigit(s[|s| - 1]) then s[|s| - 1] as int - '0' as int else 0)
  }

  const I64_MIN := -9223372036854775808
  const I64_MAX := 9223372036854775807

  predicate AllDigits(s: string) { s != [] && forall i :: 0 <= i < |s| ==> IsDigit(s[i]) }

  predicate Signed(s: string) { s != [] && (s[0] == '-' || s[0] == '+') }

  /** `str::parse::<i64>`: an optional sign, digits, and a value that fits. */
  function ParseInt(s: string): Option<int> {
    var digits := if Signed(s) then s[1..] else s;
    if !AllDigits(digits) then None
    else
      var v := if s[0] == '-' then 0 - DigitsValue(digits) else DigitsValue(digits);
      if I64_MIN <= v <= I64_MAX then Some(v) else None
  }

  function DigitChar(n: nat): char
    requires n < 10
  {
    ('0' as int + n) as char
  }

  function Decimal(n: nat): (r: string)
    ensures AllDigits(r)
  {
    if n < 10 then [DigitChar(n)] else Decimal(n / 10) + [DigitChar(n % 10)]
  }

  function IntText(n: int): string { if n < 0 then "-" + Decimal(-n) else Decimal(n) }

  lemma {:induction false} DecimalValue(n: nat)
    ensures DigitsValue(Decimal(n)) == n
  {
    var s := Decimal(n);
    if n < 10 {
      assert s[..0] == [];
    } else {
      DecimalValue(n / 10);
      assert s[..|s| - 1] == Decimal(n / 10);
    }
  }

  lemma IntTextShape(n: int)
    ensures IntText(n) != [] && (n < 0 ==> IntText(n)[0] == '-' && IntText(n)[1..] == Decimal(-n))
    ensures n >= 0 ==> IsDigit(IntText(n)[0])
    ensures forall i :: 0 <= i < |IntText(n)| ==> IsDigit(IntText(n)[i]) || IntText(n)[i] == '-'
  {
  }

  /** Printed integers are read as themselves. */
  lemma ParseIntText(n: int)
    requires I64_MIN <= n <= I64_MAX
    ensures ParseInt(IntText(n)) == Some(n)
  {
    IntTextShape(n);
    DecimalValue(if n < 0 then -n else n);
  }
}
