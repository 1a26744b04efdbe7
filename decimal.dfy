/**
 * Rust's fixed-width integers and their decimal text: `u64::from_str` and the
 * `Display` of unsigned and signed integers. Digits and letters are the ASCII
 * ones.
 */
module Decimal {
  import opened Wrappers

  const U64_MAX: nat := 0xFFFF_FFFF_FFFF_FFFF

  newtype u64 = x: int | 0 <= x <= 0xFFFF_FFFF_FFFF_FFFF
  newtype u16 = x: int | 0 <= x <= 0xFFFF
  newtype i32 = x: int | -0x8000_0000 <= x <= 0x7FFF_FFFF

  predicate IsDigit(c: char) { '0' <= c <= '9' }

  predicate IsLetter(c: char) { 'a' <= c <= 'z' || 'A' <= c <= 'Z' }

  predicate AllDigits(s: string) { forall i :: 0 <= i < |s| ==> IsDigit(s[i]) }

  predicate AllLetters(s: string) { forall i :: 0 <= i < |s| ==> IsLetter(s[i]) }

  /** A decimal numeral as `Display` writes it: digits, with no leading zero except in "0". */
  predicate Canonical(s: string) {
    |s| > 0 && AllDigits(s) && (s[0] == '0' ==> |s| == 1)
  }

  function DigitValue(c: char): (d: nat)
    requires IsDigit(c)
    ensures d < 10
  {
    c as int - '0' as int
  }

  function DigitChar(d: nat): (c: char)
    requires d < 10
    ensures IsDigit(c) && DigitValue(c) == d
  {
    ('0' as int + d) as char
  }

  /** The number a string of decimal digits denotes, most significant digit first. */
  function Value(s: string): nat
    requires AllDigits(s)
  {
    if s == [] then 0 else Value(s[..|s| - 1]) * 10 + DigitValue(s[|s| - 1])
  }

  /** The `Display` of an unsigned integer: its shortest decimal numeral. */
  function Show(n: nat): (r: string)
    ensures Canonical(r) && Value(r) == n
  {
    if n < 10 then [DigitChar(n)]
    else
      var r := Show(n / 10) + [DigitChar(n % 10)];
      assert r[..|r| - 1] == Show(n / 10);
      r
  }

  /** `s.parse::<u64>()`: an optional `+`, then one or more digits whose value fits in 64 bits. */
  function ParseU64(s: string): (r: Option<u64>)
  {
    var digits := if s != [] && s[0] == '+' then s[1..] else s;
    if digits != [] && AllDigits(digits) && Value(digits) <= U64_MAX then Some(Value(digits) as u64)
    else None
  }

  /** `parse` accepts one leading plus sign and ignores it, and refuses a minus sign. */
  lemma ParseU64Sign(d: string)
    requires AllDigits(d)
    ensures ParseU64("+" + d) == ParseU64(d)
    ensures ParseU64("-" + d).None?
  {
    assert ("+" + d)[1..] == d;
    assert !IsDigit(("-" + d)[0]);
  }

  /** `parse` accepts nothing but digits, possibly after one plus sign. */
  lemma ParseU64Only(s: string)
    ensures ParseU64(s).Some? ==> s != [] && (AllDigits(s) || (s[0] == '+' && AllDigits(s[1..])))
  {
  }

  /** On a string of digits, `parse` succeeds exactly when the value fits, and returns that value. */
  lemma ParseU64Digits(s: string)
    requires AllDigits(s)
    ensures ParseU64(s).Some? <==> s != [] && Value(s) <= U64_MAX
    ensures ParseU64(s).Some? ==> ParseU64(s).value as nat == Value(s)
  {
    if s != [] {
      assert IsDigit(s[0]);
    }
  }

  /** A non-empty numeral with a non-zero leading digit denotes a positive number. */
  lemma {:induction false} ValuePositive(s: string)
    requires |s| > 0 && AllDigits(s) && s[0] != '0'
    ensures Value(s) > 0
  {
    if |s| > 1 {
      ValuePositive(s[..|s| - 1]);
    }
  }

  /** Printing the value of a canonical numeral gives the numeral back. */
  lemma {:induction false} ShowValue(s: string)
    requires Canonical(s)
    ensures Show(Value(s)) == s
  {
    if |s| > 1 {
      var init := s[..|s| - 1];
      ValuePositive(init);
      ShowValue(init);
      var n := Value(s);
      assert n / 10 == Value(init) && n % 10 == DigitValue(s[|s| - 1]);
      assert s == init + [s[|s| - 1]];
    }
  }

  /** Reading back the `Display` of a 64-bit value gives that value. */
  lemma ParseShow(n: u64)
    ensures ParseU64(Show(n as nat)) == Some(n)
  {
    ParseU64Digits(Show(n as nat));
  }

  /** The `Display` of a signed integer: a minus sign for negatives, then the magnitude. */
  function ShowInt(i: int): (r: string)
    ensures |r| > 0
    ensures (r[0] == '-') == (i < 0)
    ensures Canonical(if i < 0 then r[1..] else r)
    ensures forall k :: 0 <= k < |r| ==> IsDigit(r[k]) || r[k] == '-'
  {
    if i < 0 then "-" + Show(-i) else Show(i)
  }

  /** The number a signed numeral denotes. */
  function IntValue(s: string): int
    requires |s| > 0 && AllDigits(s[1..]) && (s[0] == '-' || IsDigit(s[0]))
  {
    if s[0] == '-' then -(Value(s[1..]) as int) else Value(s)
  }

  /** Reading back the `Display` of a signed integer gives that integer. */
  lemma IntValueShowInt(i: int)
    ensures var r := ShowInt(i); AllDigits(r[1..]) && (r[0] == '-' || IsDigit(r[0])) && IntValue(r) == i
  {
    if i < 0 {
      assert ShowInt(i)[1..] == Show(-i);
    }
  }
}
