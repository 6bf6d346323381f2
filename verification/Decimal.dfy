/** Decimal text of integers: Go's `%d` and `strconv.FormatInt`, and `strconv.ParseInt(s, 10, 64)`. */
module Decimal {
  import opened Options

  const MAX_INT64: int := 0x7fff_ffff_ffff_ffff
  const MIN_INT64: int := -0x8000_0000_0000_0000

  function Min(a: int, b: int): int {
    if a <= b then a else b
  }

  predicate IsDigit(c: char) {
    '0' <= c <= '9'
  }

  function DigitChar(d: nat): (c: char)
    requires d < 10
    ensures IsDigit(c) && DigitValue(c) == d
  {
    '0' + d as char
  }

  function DigitValue(c: char): nat
    requires IsDigit(c)
  {
    c as int - '0' as int
  }

  predicate AllDigits(s: string) {
    forall i :: 0 <= i < |s| ==> IsDigit(s[i])
  }

  function FormatNat(n: nat): (s: string)
    ensures s != [] && AllDigits(s)
  {
    if n < 10 then [DigitChar(n)] else FormatNat(n / 10) + [DigitChar(n % 10)]
  }

  function FormatInt(n: int): string {
    if n < 0 then "-" + FormatNat(-n) else FormatNat(n)
  }

  function DigitsValue(s: string): nat
    requires AllDigits(s)
  {
    if s == [] then 0 else 10 * DigitsValue(s[..|s| - 1]) + DigitValue(s[|s| - 1])
  }

  /** Digits only, at least one. */
  function ParseNat(s: string): Option<nat> {
    if s != [] && AllDigits(s) then Some(DigitsValue(s)) else None
  }

  /** An optional sign and digits, within the range of a 64-bit integer. */
  function ParseInt(s: string): Option<int> {
    if s != [] && (s[0] == '-' || s[0] == '+') then
      match ParseNat(s[1..])
      case None => None
      case Some(n) =>
        var v: int := if s[0] == '-' then -(n as int) else n;
        if MIN_INT64 <= v <= MAX_INT64 then Some(v) else None
    else
      match ParseNat(s)
      case None => None
      case Some(n) => if n <= MAX_INT64 then Some(n) else None
  }

  lemma {:induction false} ParseFormatNat(n: nat)
    ensures ParseNat(FormatNat(n)) == Some(n)
  {
    var s := FormatNat(n);
    if n < 10 {
      assert s[..|s| - 1] == [] && DigitsValue(s[..|s| - 1]) == 0;
    } else {
      ParseFormatNat(n / 10);
      assert s[..|s| - 1] == FormatNat(n / 10) && DigitValue(s[|s| - 1]) == n % 10;
    }
  }

  /** Reading a printed 64-bit integer gives it back. */
  lemma ParseFormatInt(n: int)
    requires MIN_INT64 <= n <= MAX_INT64
    ensures ParseInt(FormatInt(n)) == Some(n)
  {
    if n < 0 {
      ParseFormatNat(-n);
      assert FormatInt(n)[1..] == FormatNat(-n);
    } else {
      ParseFormatNat(n);
    }
  }
}
