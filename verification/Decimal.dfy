/** Decimal numerals without a sign. */
module Decimal {
  /** The limit of u64, and of usize on the 64-bit targets that are modelled. */
  const U64_LIMIT := 0x1_0000_0000_0000_0000

  predicate IsDigit(ch: char) { '0' <= ch <= '9' }

  ghost predicate IsNumeral(s: string) {
    forall i :: 0 <= i < |s| ==> IsDigit(s[i])
  }

  function DigitValue(ch: char): nat
    requires IsDigit(ch)
  {
    ch as int - '0' as int
  }

  function Value(s: string): nat
    requires forall i :: 0 <= i < |s| ==> IsDigit(s[i])
  {
    if s == "" then 0 else 10 * Value(s[..|s| - 1]) + DigitValue(s[|s| - 1])
  }

  /** The numeral of n, without leading zeros. */
  function Print(n: nat): (s: string)
    ensures s != "" && IsNumeral(s) && Value(s) == n
  {
    var digit := ('0' as int + n % 10) as char;
    if n < 10 then
      assert [digit][..0] == "";
      [digit]
    else
      var s := Print(n / 10) + [digit];
      assert s[..|s| - 1] == Print(n / 10);
      s
  }
}
