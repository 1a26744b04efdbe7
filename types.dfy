/**
 * `TimeUnit`: a duration threshold such as "5min", parsed from and printed to
 * text. The magnitude is kept in the unit it was written in.
 */
module Types {
  import opened Wrappers
  import opened Decimal
  import opened Text
  import opened Quantity

  datatype TimeUnit =
    | Microseconds(value: u64)
    | Milliseconds(value: u64)
    | Seconds(value: u64)
    | Minutes(value: u64)
    | Hours(value: u64)
    | Days(value: u64)

  datatype ParseTimeUnitError = ParseTimeUnitError

  /** The unit suffixes `from_str` accepts, matched case-sensitively. */
  const Suffixes: seq<string> := ["us", "ms", "s", "min", "h", "d"]

  /** The suffix `Display` writes after the magnitude. */
  function Suffix(t: TimeUnit): string
  {
    match t
    case Microseconds(_) => "us"
    case Milliseconds(_) => "ms"
    case Seconds(_) => "s"
    case Minutes(_) => "min"
    case Hours(_) => "h"
    case Days(_) => "d"
  }

  /** Every suffix `Display` writes is in the table, is not empty and is made of letters. */
  lemma SuffixInTable(t: TimeUnit)
    ensures Suffix(t) in Suffixes && |Suffix(t)| > 0 && AllLetters(Suffix(t))
  {
  }

  /** The suffix table of `from_str`: the time unit a suffix names, holding `value`. */
  function WithSuffix(unit: string, value: u64): (r: Option<TimeUnit>)
    ensures r.Some? ==> Suffix(r.value) == unit && r.value.value == value
  {
    if unit == "us" then Some(Microseconds(value))
    else if unit == "ms" then Some(Milliseconds(value))
    else if unit == "s" then Some(Seconds(value))
    else if unit == "min" then Some(Minutes(value))
    else if unit == "h" then Some(Hours(value))
    else if unit == "d" then Some(Days(value))
    else None
  }

  /** The table accepts exactly the suffixes in `Suffixes`. */
  lemma WithSuffixTable(unit: string, value: u64)
    ensures WithSuffix(unit, value).Some? <==> unit in Suffixes
  {
  }

  /** The suffix table gives back the unit whose suffix it is looking up. */
  lemma WithSuffixOf(t: TimeUnit)
    ensures WithSuffix(Suffix(t), t.value) == Some(t)
  {
    match t
    case Microseconds(_) =>
    case Milliseconds(_) =>
    case Seconds(_) =>
    case Minutes(_) =>
    case Hours(_) =>
    case Days(_) =>
  }

  /** The same suffix and magnitude make the same time unit. */
  lemma SuffixDetermines(a: TimeUnit, b: TimeUnit)
    requires Suffix(a) == Suffix(b) && a.value == b.value
    ensures a == b
  {
  }

  /**
   * `from_str`: the value part must parse as a `u64` and the unit part must be
   * one of `Suffixes`.
   */
  function FromStr(s: string): Result<TimeUnit, ParseTimeUnitError>
  {
    match ParseU64(ValuePart(s))
    case None => Err(ParseTimeUnitError)
    case Some(value) =>
      match WithSuffix(UnitPart(s), value)
      case None => Err(ParseTimeUnitError)
      case Some(t) => Ok(t)
  }

  /** `From<&str>`: the same as `from_str` on accepted input, a panic on anything else. */
  function From(s: string): (r: Conversion<TimeUnit>)
    ensures r.Converted? <==> FromStr(s).Ok?
    ensures r.Converted? ==> r.value == FromStr(s).value
  {
    match ParseU64(ValuePart(s))
    case None => Panicked(UnwrapOnErr)
    case Some(value) =>
      match WithSuffix(UnitPart(s), value)
      case None => Panicked(Explicit("Invalid amount of storage"))
      case Some(t) => Converted(t)
  }

  /** `Display`: the decimal magnitude followed by the unit suffix; only digits and letters. */
  function Display(t: TimeUnit): (r: string)
    ensures forall i :: 0 <= i < |r| ==> IsDigit(r[i]) || IsLetter(r[i])
  {
    SuffixInTable(t);
    Show(t.value as nat) + Suffix(t)
  }

  /** What `from_str` read when it accepted: the value part parsed to the magnitude, and the unit part was the suffix. */
  lemma FromStrParts(s: string, t: TimeUnit)
    requires FromStr(s) == Ok(t)
    ensures ParseU64(ValuePart(s)).Some?
    ensures ParseU64(ValuePart(s)).value == t.value
    ensures UnitPart(s) == Suffix(t)
  {
    var value := ParseU64(ValuePart(s)).value;
    assert WithSuffix(UnitPart(s), value) == Some(t);
  }

  /** Parsing digits `d` followed by the suffix of `t` accepts, with magnitude `d`'s value and `t`'s unit. */
  lemma FromStrAccepts(d: string, t: TimeUnit)
    requires d != [] && AllDigits(d) && Value(d) <= U64_MAX
    ensures FromStr(d + Suffix(t)).Ok?
    ensures Suffix(FromStr(d + Suffix(t)).value) == Suffix(t)
    ensures FromStr(d + Suffix(t)).value.value as nat == Value(d)
  {
    SuffixInTable(t);
    PartsOfConcat(d, Suffix(t));
    ParseU64Digits(d);
    var parsed := t.(value := ParseU64(d).value);
    WithSuffixOf(parsed);
    assert Suffix(parsed) == Suffix(t);
    assert FromStr(d + Suffix(t)) == Ok(parsed);
  }

  /** Parsing the display of any time unit gives it back. */
  lemma FromStrDisplay(t: TimeUnit)
    ensures FromStr(Display(t)) == Ok(t)
  {
    FromStrAccepts(Show(t.value as nat), t);
    SuffixDetermines(FromStr(Display(t)).value, t);
  }

  /**
   * Everything `from_str` accepts is a non-empty run of digits whose value
   * fits in 64 bits, followed by the suffix of the resulting unit, and the
   * magnitude is the value of those digits.
   */
  lemma FromStrOnlyAccepts(s: string, t: TimeUnit)
    requires FromStr(s) == Ok(t)
    ensures |Suffix(t)| < |s| && EndsWith(s, Suffix(t)) && IsDigit(s[0])
    ensures var d := s[..|s| - |Suffix(t)|]; AllDigits(d) && Value(d) == t.value as nat
  {
    FromStrParts(s, t);
    SuffixInTable(t);
    PartsSound(s);
  }

  /** There is no default time unit: a bare number, such as "5", is rejected. */
  lemma BareNumberRejected(s: string)
    requires AllDigits(s)
    ensures FromStr(s).Err?
  {
    if FromStr(s).Ok? {
      SuffixInTable(FromStr(s).value);
      FromStrOnlyAccepts(s, FromStr(s).value);
    }
  }

  /** Input that does not start with a digit, signs included, is rejected. */
  lemma NonDigitStartRejected(s: string)
    requires s == [] || !IsDigit(s[0])
    ensures FromStr(s).Err?
  {
    if FromStr(s).Ok? {
      FromStrOnlyAccepts(s, FromStr(s).value);
    }
  }

  /** Input that does not end in a suffix of the table is rejected. */
  lemma UnknownSuffixRejected(s: string)
    requires forall t: TimeUnit :: !EndsWith(s, Suffix(t))
    ensures FromStr(s).Err?
  {
    if FromStr(s).Ok? {
      FromStrOnlyAccepts(s, FromStr(s).value);
    }
  }

  /** Suffixes are matched case-sensitively: "5MIN" is refused. */
  lemma CaseSensitiveExample()
    ensures FromStr("5MIN").Err?
  {
    UnknownSuffixRejected("5MIN");
  }

  /** Unknown units are refused: "5xyz" is refused. */
  lemma UnknownUnitExample()
    ensures FromStr("5xyz").Err?
  {
    UnknownSuffixRejected("5xyz");
  }

  /** Signs, missing digits and missing units are refused. */
  lemma MalformedExamples()
    ensures FromStr("abc").Err? && FromStr("").Err?
    ensures FromStr("+5min").Err? && FromStr("-5min").Err?
    ensures FromStr("5").Err?
  {
    NonDigitStartRejected("abc");
    NonDigitStartRejected("");
    NonDigitStartRejected("+5min");
    NonDigitStartRejected("-5min");
    BareNumberRejected("5");
  }

  /** The magnitude is kept in the written unit: "90s" is ninety seconds, not one and a half minutes. */
  lemma NotNormalised()
    ensures FromStr("90s") == Ok(Seconds(90))
  {
    FromStrAccepts("90", Seconds(0));
    assert "90" + "s" == "90s";
    SuffixDetermines(FromStr("90s").value, Seconds(90));
  }

  /** Displaying what was parsed gives the input back when its magnitude has no leading zero. */
  lemma DisplayFromStr(s: string, t: TimeUnit)
    requires FromStr(s) == Ok(t)
    requires !(|s| >= 2 && s[0] == '0' && IsDigit(s[1]))
    ensures Display(t) == s
  {
    FromStrOnlyAccepts(s, t);
    NoLeadingZero(s, Suffix(t));
  }

  /** A leading zero is dropped on the way back: "05min" displays as "5min". */
  lemma LeadingZeroDropped()
    ensures FromStr("05min") == Ok(Minutes(5)) && Display(Minutes(5)) == "5min"
  {
    FromStrAccepts("05", Minutes(0));
    assert "05" + "min" == "05min";
    SuffixDetermines(FromStr("05min").value, Minutes(5));
  }
}
