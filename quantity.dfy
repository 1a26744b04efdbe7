/**
 * The split both unit parsers make: the value part is the input without its
 * trailing letters, the unit part is the input without its leading digits.
 * The two parts overlap; these lemmas say what they are on well-formed input.
 */
module Quantity {
  import opened Wrappers
  import opened Decimal
  import opened Text

  /** `s.trim_end_matches(char::is_alphabetic)`. */
  function ValuePart(s: string): string
  {
    TrimEndMatches(s, IsLetter)
  }

  /** `s.trim_start_matches(char::is_numeric)`. */
  function UnitPart(s: string): string
  {
    TrimStartMatches(s, IsDigit)
  }

  /** On digits followed by letters the two parts are exactly the digits and the letters. */
  lemma PartsOfConcat(d: string, u: string)
    requires d != [] && AllDigits(d) && AllLetters(u)
    ensures ValuePart(d + u) == d && UnitPart(d + u) == u
  {
    assert !IsLetter(d[|d| - 1]);
    TrimEndMatchesConcat(d, u, IsLetter);
    TrimStartMatchesConcat(d, u, IsDigit);
  }

  /**
   * When the value part parses and the unit part is made of letters, the
   * input is a non-empty run of digits holding that value, then the unit part.
   */
  lemma PartsSound(s: string)
    requires ParseU64(ValuePart(s)).Some? && AllLetters(UnitPart(s))
    ensures var unit := UnitPart(s);
      && |unit| < |s| && EndsWith(s, unit) && IsDigit(s[0])
      && AllDigits(s[..|s| - |unit|])
      && Value(s[..|s| - |unit|]) == ParseU64(ValuePart(s)).value as nat
  {
    var unit := UnitPart(s);
    var d := s[..|s| - |unit|];
    assert s == d + unit;
    TrimEndMatchesConcat(d, unit, IsLetter);
    ParseU64Digits(d);
  }

  /**
   * Digits followed by a unit, with no leading zero, are the display of the
   * digits' value followed by that unit.
   */
  lemma NoLeadingZero(s: string, unit: string)
    requires |unit| < |s| && EndsWith(s, unit) && AllDigits(s[..|s| - |unit|])
    requires !(|s| >= 2 && s[0] == '0' && IsDigit(s[1]))
    ensures Show(Value(s[..|s| - |unit|])) + unit == s
  {
    var d := s[..|s| - |unit|];
    if |d| >= 2 {
      assert d[0] == s[0] && d[1] == s[1];
    }
    ShowValue(d);
    assert s == d + unit;
  }
}
