/** Small vocabulary shared by the modules that read or write text. */
module Text {

  datatype Option<+T> = None | Some(value: T)

  datatype Result<+T, +E> = Ok(value: T) | Err(error: E)

  predicate IsDigit(c: char) { '0' <= c <= '9' }

  predicate IsAlpha(c: char) { 'a' <= c <= 'z' || 'A' <= c <= 'Z' }

  predicate AllDigits(s: string) { forall i | 0 <= i < |s| :: IsDigit(s[i]) }

  function DigitValue(c: char): nat
    requires IsDigit(c)
  {
    c as int - '0' as int
  }

  /** The number a string of decimal digits denotes, most significant first. */
  function DigitsValue(s: string): nat
    requires AllDigits(s)
  {
    if s == "" then 0 else 10 * DigitsValue(s[..|s| - 1]) + DigitValue(s[|s| - 1])
  }

  const UINT32_LIMIT := 0x1_0000_0000

  /** std::from_chars for an unsigned 32-bit integer, required to consume the whole text. */
  function ParseUInt32(s: string): Option<nat> {
    if s == "" || !AllDigits(s) || DigitsValue(s) >= UINT32_LIMIT
    then None
    else Some(DigitsValue(s))
  }

  function DigitChar(d: nat): (c: char)
    requires d < 10
    ensures IsDigit(c) && DigitValue(c) == d
  {
    '0' + d as char
  }

  /** Decimal text of a natural number without leading zeros. */
  function FormatNat(n: nat): (s: string)
    ensures s != "" && AllDigits(s)
  {
    if n < 10 then [DigitChar(n)] else FormatNat(n / 10) + [DigitChar(n % 10)]
  }

  lemma {:induction false} FormatNatValue(n: nat)
    ensures DigitsValue(FormatNat(n)) == n
  {
    var s := FormatNat(n);
    if n < 10 {
      assert s[..0] == "";
    } else {
      FormatNatValue(n / 10);
      assert s[..|s| - 1] == FormatNat(n / 10);
    }
  }

  /** Printing an unsigned 32-bit integer and reading it back is the identity. */
  lemma UInt32RoundTrip(n: nat)
    requires n < UINT32_LIMIT
    ensures ParseUInt32(FormatNat(n)) == Some(n)
  {
    FormatNatValue(n);
  }

  function PowerOfTen(n: nat): nat { if n == 0 then 1 else 10 * PowerOfTen(n - 1) }

  /** The digits by the place they stand at. */
  function PlaceValue(s: string): nat
    requires AllDigits(s)
  {
    if s == "" then 0 else (s[0] as int - '0' as int) * PowerOfTen(|s| - 1) + PlaceValue(s[1..])
  }

  /** Reading digits is decimal: each counts ten times what it would one place to its right. */
  lemma {:induction false} DigitsAreDecimal(s: string)
    requires AllDigits(s)
    ensures DigitsValue(s) == PlaceValue(s)
    decreases |s|
  {
    if |s| == 1 {
      assert s[..0] == "" && s[1..] == "";
      assert PowerOfTen(0) == 1;
    } else if s != "" {
      var n := |s| - 1;
      var front, back := s[..n], s[1..];
      assert front[1..] == back[..n - 1] && front[0] == s[0] && back[n - 1] == s[n];
      DigitsAreDecimal(front);
      DigitsAreDecimal(back);
      DigitsAreDecimal(front[1..]);
      TenTimes(s[0] as int - '0' as int, PowerOfTen(n - 1));
    }
  }

  lemma TenTimes(d: int, p: nat)
    ensures 10 * (d * p) == d * (10 * p)
  {}
}
