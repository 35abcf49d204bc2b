/** Decimal numerals, as Rust prints and parses unsigned integers. */
module Decimal {
  import opened Common

  predicate IsDigit(c: char) { '0' <= c <= '9' }

  predicate AllDigits(text: string) {
    forall i :: 0 <= i < |text| ==> IsDigit(text[i])
  }

  function DigitChar(d: nat): (c: char)
    requires d < 10
    ensures IsDigit(c) && c as nat - '0' as nat == d
  {
    '0' + d as char
  }

  function Print(n: nat): (text: string)
    ensures text != "" && forall i :: 0 <= i < |text| ==> IsDigit(text[i])
  {
    if n < 10 then [DigitChar(n)] else Print(n / 10) + [DigitChar(n % 10)]
  }

  /** The number a digit string denotes, most significant digit first. */
  function Value(text: string): nat
    requires forall i :: 0 <= i < |text| ==> IsDigit(text[i])
  {
    if text == "" then 0
    else
      var last := text[|text| - 1];
      assert IsDigit(last);
      10 * Value(text[..|text| - 1]) + (last as nat - '0' as nat)
  }

  lemma {:induction false} ValueOfPrint(n: nat)
    ensures Value(Print(n)) == n
  {
    if n >= 10 {
      ValueOfPrint(n / 10);
      assert Print(n)[..|Print(n)| - 1] == Print(n / 10);
    } else {
      assert Print(n)[..0] == "";
    }
  }

  /** `str::parse::<u64>` of a tag value: digits only (a leading plus is accepted), not too large. */
  function ParseUint64(text: string): Option<uint64> {
    var digits := if text != "" && text[0] == '+' then text[1..] else text;
    if digits == "" || !AllDigits(digits) then None
    else if Value(digits) < 0x1_0000_0000_0000_0000 then Some(Value(digits))
    else None
  }

  /** Adding a digit at the end multiplies by ten and adds it. */
  lemma ValueMore(text: string, c: char)
    requires forall i :: 0 <= i < |text| ==> IsDigit(text[i])
    requires '0' <= c <= '9'
    ensures Value("") == 0 && Value(text + [c]) == 10 * Value(text) + (c as nat - '0' as nat)
  {
    assert (text + [c])[..|text|] == text;
  }

  /** A numeral below 2^64 is read back, with or without a plus. */
  lemma ParseOfPrint(n: nat)
    ensures n < 0x1_0000_0000_0000_0000 ==> ParseUint64(Print(n)) == Some(n) == ParseUint64("+" + Print(n))
    ensures n >= 0x1_0000_0000_0000_0000 ==> ParseUint64(Print(n)) == None
  {
    ValueOfPrint(n);
    assert Print(n)[0] != '+' && ("+" + Print(n))[1..] == Print(n);
  }

  /** A text without any digit is refused. */
  lemma EmptyIsRefused()
    ensures ParseUint64("") == None && ParseUint64("+") == None
  {
    assert "+"[1..] == "";
  }

  /** And anything but digits, save a plus in front. */
  lemma OthersAreRefused(text: string, i: nat)
    requires i < |text| && !('0' <= text[i] <= '9') && (i > 0 || text[i] != '+')
    ensures ParseUint64(text) == None
  {
    var digits := if text != "" && text[0] == '+' then text[1..] else text;
    var k := if text[0] == '+' then i - 1 else i;
    assert digits[k] == text[i];
    assert !IsDigit(digits[k]);
  }
}
