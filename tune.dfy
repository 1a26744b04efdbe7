/**
 * `StorageUnit`: a memory size such as "32GB", parsed from and printed to
 * text, with its byte count; the command-line parser built on it; and the
 * command-line names of the time units.
 */
module Tune {
  import opened Wrappers
  import opened Decimal
  import opened Text
  import opened Quantity
  import Types

  datatype StorageUnit =
    | B(value: u64)
    | KiB(value: u64)
    | MiB(value: u64)
    | GiB(value: u64)
    | TiB(value: u64)

  datatype ParseStorageUnitError = ParseStorageUnitError

  /** The `Display` of the parse error. */
  function ErrorMessage(e: ParseStorageUnitError): string
  {
    "Invalid storage unit"
  }

  /** The unit suffixes `from_str` accepts, matched case-sensitively; bytes have none. */
  const Suffixes: seq<string> := ["", "kB", "MB", "GB", "TB"]

  /** The suffix `Display` writes after the magnitude. */
  function Suffix(u: StorageUnit): (r: string)
  {
    match u
    case B(_) => ""
    case KiB(_) => "kB"
    case MiB(_) => "MB"
    case GiB(_) => "GB"
    case TiB(_) => "TB"
  }

  /** The power of 1024 a unit stands for. */
  function Exponent(u: StorageUnit): (k: nat)
    ensures k <= 4
  {
    match u
    case B(_) => 0
    case KiB(_) => 1
    case MiB(_) => 2
    case GiB(_) => 3
    case TiB(_) => 4
  }

  function Pow(base: nat, k: nat): (r: nat)
    ensures base > 0 ==> r > 0
  {
    if k == 0 then 1 else base * Pow(base, k - 1)
  }

  /** Every suffix `Display` writes is in the table and made of letters. */
  lemma SuffixInTable(u: StorageUnit)
    ensures Suffix(u) in Suffixes && AllLetters(Suffix(u))
  {
  }

  /** The suffix table of `from_str`: the storage unit a suffix names, holding `value`. */
  function WithSuffix(unit: string, value: u64): (r: Option<StorageUnit>)
    ensures r.Some? ==> Suffix(r.value) == unit && r.value.value == value
  {
    if unit == "" then Some(B(value))
    else if unit == "kB" then Some(KiB(value))
    else if unit == "MB" then Some(MiB(value))
    else if unit == "GB" then Some(GiB(value))
    else if unit == "TB" then Some(TiB(value))
    else None
  }

  /**
   * `from_str`: the value part must parse as a `u64` and the unit part must be
   * one of `Suffixes`.
   */
  function FromStr(s: string): Result<StorageUnit, ParseStorageUnitError>
  {
    match ParseU64(ValuePart(s))
    case None => Err(ParseStorageUnitError)
    case Some(value) =>
      match WithSuffix(UnitPart(s), value)
      case None => Err(ParseStorageUnitError)
      case Some(u) => Ok(u)
  }

  /** `From<&str>`: the same as `from_str` on accepted input, a panic on anything else. */
  function From(s: string): (r: Conversion<StorageUnit>)
    ensures r.Converted? <==> FromStr(s).Ok?
    ensures r.Converted? ==> r.value == FromStr(s).value
  {
    match ParseU64(ValuePart(s))
    case None => Panicked(UnwrapOnErr)
    case Some(value) =>
      match WithSuffix(UnitPart(s), value)
      case None => Panicked(Explicit("Invalid amount of storage"))
      case Some(u) => Converted(u)
  }

  /** `storage_unit_parser`: `from_str` with its error turned into a message for the command line. */
  function StorageUnitParser(s: string): (r: Result<StorageUnit, string>)
    ensures r.Ok? <==> FromStr(s).Ok?
    ensures r.Ok? ==> r.value == FromStr(s).value
    ensures r.Err? ==> r.error == ErrorMessage(ParseStorageUnitError)
  {
    match FromStr(s)
    case Ok(u) => Ok(u)
    case Err(_) => Err("Invalid storage unit")
  }

  /** `Display`: the decimal magnitude followed by the unit suffix; only digits and letters. */
  function Display(u: StorageUnit): (r: string)
    ensures forall i :: 0 <= i < |r| ==> IsDigit(r[i]) || IsLetter(r[i])
  {
    SuffixInTable(u);
    Show(u.value as nat) + Suffix(u)
  }

  /** The byte count `n_bytes` computes, as an unbounded number. */
  function ByteCount(u: StorageUnit): nat
  {
    u.value as nat * Pow(1024, Exponent(u))
  }

  /** `n_bytes`, defined where the 64-bit product does not overflow. */
  function NBytes(u: StorageUnit): (r: u64)
    requires ByteCount(u) <= U64_MAX
    ensures r as nat == u.value as nat * Pow(1024, Exponent(u))
  {
    PowersOf1024();
    match u
    case B(v) => v
    case KiB(v) => v * 1024
    case MiB(v) => v * 1048576
    case GiB(v) => v * 1073741824
    case TiB(v) => v * 1099511627776
  }

  /** The multipliers of the five units, written out. */
  lemma PowersOf1024()
    ensures Pow(1024, 0) == 1 && Pow(1024, 1) == 1024 && Pow(1024, 2) == 1048576
    ensures Pow(1024, 3) == 1073741824 && Pow(1024, 4) == 1099511627776
  {
  }

  /** The table accepts exactly the suffixes in `Suffixes`. */
  lemma WithSuffixTable(unit: string, value: u64)
    ensures WithSuffix(unit, value).Some? <==> unit in Suffixes
  {
  }

  /** The suffix table gives back the unit whose suffix it is looking up. */
  lemma WithSuffixOf(u: StorageUnit)
    ensures WithSuffix(Suffix(u), u.value) == Some(u)
  {
    match u
    case B(_) =>
    case KiB(_) =>
    case MiB(_) =>
    case GiB(_) =>
    case TiB(_) =>
  }

  /** The same suffix and magnitude make the same storage unit. */
  lemma SuffixDetermines(a: StorageUnit, b: StorageUnit)
    requires Suffix(a) == Suffix(b) && a.value == b.value
    ensures a == b
  {
  }

  /** Parsing the display of any storage unit gives it back. */
  lemma FromStrDisplay(u: StorageUnit)
    ensures FromStr(Display(u)) == Ok(u)
  {
    FromStrAccepts(Show(u.value as nat), u);
    SuffixDetermines(FromStr(Display(u)).value, u);
  }

  /** Parsing digits `d` followed by the suffix of `u` accepts, with magnitude `d`'s value and `u`'s unit. */
  lemma FromStrAccepts(d: string, u: StorageUnit)
    requires d != [] && AllDigits(d) && Value(d) <= U64_MAX
    ensures FromStr(d + Suffix(u)).Ok?
    ensures Suffix(FromStr(d + Suffix(u)).value) == Suffix(u)
    ensures FromStr(d + Suffix(u)).value.value as nat == Value(d)
  {
    SuffixInTable(u);
    PartsOfConcat(d, Suffix(u));
    ParseU64Digits(d);
    var parsed := u.(value := ParseU64(d).value);
    WithSuffixOf(parsed);
    assert Suffix(parsed) == Suffix(u);
    assert FromStr(d + Suffix(u)) == Ok(parsed);
  }

  /** What `from_str` read when it accepted: the value part parsed, and the unit part was the suffix. */
  lemma FromStrParts(s: string, u: StorageUnit)
    requires FromStr(s) == Ok(u)
    ensures ParseU64(ValuePart(s)).Some?
    ensures ParseU64(ValuePart(s)).value == u.value
    ensures UnitPart(s) == Suffix(u)
  {
    var value := ParseU64(ValuePart(s)).value;
    assert WithSuffix(UnitPart(s), value) == Some(u);
  }

  /**
   * Everything `from_str` accepts is a non-empty run of digits whose value
   * fits in 64 bits, followed by the suffix of the resulting unit, and the
   * magnitude is the value of those digits.
   */
  lemma FromStrOnlyAccepts(s: string, u: StorageUnit)
    requires FromStr(s) == Ok(u)
    ensures |Suffix(u)| < |s| && EndsWith(s, Suffix(u)) && IsDigit(s[0])
    ensures var d := s[..|s| - |Suffix(u)|]; AllDigits(d) && Value(d) == u.value as nat
  {
    FromStrParts(s, u);
    SuffixInTable(u);
    PartsSound(s);
  }

  /** A bare number is a count of bytes: "5" is `B(5)`, and bytes display with no suffix. */
  lemma BareNumberIsBytes()
    ensures FromStr("5") == Ok(B(5)) && Display(B(5)) == "5"
  {
    FromStrAccepts("5", B(0));
    assert "5" + "" == "5";
    SuffixDetermines(FromStr("5").value, B(5));
  }

  /** Displaying what was parsed gives the input back when its magnitude has no leading zero. */
  lemma DisplayFromStr(s: string, u: StorageUnit)
    requires FromStr(s) == Ok(u)
    requires !(|s| >= 2 && s[0] == '0' && IsDigit(s[1]))
    ensures Display(u) == s
  {
    FromStrOnlyAccepts(s, u);
    NoLeadingZero(s, Suffix(u));
  }

  /** A leading zero is dropped on the way back: "05kB" displays as "5kB". */
  lemma LeadingZeroDropped()
    ensures FromStr("05kB") == Ok(KiB(5)) && Display(KiB(5)) == "5kB"
  {
    FromStrAccepts("05", KiB(0));
    assert "05" + "kB" == "05kB";
    SuffixDetermines(FromStr("05kB").value, KiB(5));
  }

  /** Input that does not start with a digit, signs included, is rejected. */
  lemma NonDigitStartRejected(s: string)
    requires s == [] || !IsDigit(s[0])
    ensures FromStr(s).Err?
  {
    if FromStr(s).Ok? {
      FromStrOnlyAccepts(s, FromStr(s).value);
    }
  }

  /** Input that is not all digits and does not end in a non-empty suffix of the table is rejected. */
  lemma UnknownSuffixRejected(s: string)
    requires !AllDigits(s)
    requires forall k :: k in Suffixes && k != "" ==> !EndsWith(s, k)
    ensures FromStr(s).Err?
  {
    if FromStr(s).Ok? {
      FromStrOnlyAccepts(s, FromStr(s).value);
    }
  }

  /** Suffixes are matched case-sensitively: "5kb" is refused. */
  lemma CaseSensitiveExample()
    ensures FromStr("5kb").Err?
  {
    assert !IsDigit("5kb"[1]);
    UnknownSuffixRejected("5kb");
  }

  /** Binary-prefix spellings are not suffixes: "5KiB" is refused. */
  lemma BinaryPrefixExample()
    ensures FromStr("5KiB").Err?
  {
    assert !IsDigit("5KiB"[1]);
    UnknownSuffixRejected("5KiB");
  }

  /** Unknown units are refused: "5xyz" is refused. */
  lemma UnknownUnitExample()
    ensures FromStr("5xyz").Err?
  {
    assert !IsDigit("5xyz"[1]);
    UnknownSuffixRejected("5xyz");
  }

  /** Input without digits is refused. */
  lemma MalformedExamples()
    ensures FromStr("abc").Err? && FromStr("").Err? && FromStr("+5kB").Err?
  {
    NonDigitStartRejected("abc");
    NonDigitStartRejected("");
    NonDigitStartRejected("+5kB");
  }

  /** The multipliers are binary: "2kB" is 2048 bytes and "1GB" is 1073741824 bytes. */
  lemma BinaryMultipliers()
    ensures FromStr("2kB") == Ok(KiB(2)) && ByteCount(KiB(2)) == 2048
    ensures FromStr("1GB") == Ok(GiB(1)) && ByteCount(GiB(1)) == 1073741824
  {
    PowersOf1024();
    FromStrAccepts("2", KiB(0));
    assert "2" + "kB" == "2kB";
    SuffixDetermines(FromStr("2kB").value, KiB(2));
    FromStrAccepts("1", GiB(0));
    assert "1" + "GB" == "1GB";
    SuffixDetermines(FromStr("1GB").value, GiB(1));
  }

  /**
   * `n_bytes` stays within 64 bits exactly when the magnitude is at most the
   * largest `u64` divided by the unit's multiplier; above that the product
   * overflows, as it does for 16777216TB.
   */
  lemma NBytesInRange(u: StorageUnit)
    ensures ByteCount(u) <= U64_MAX <==> u.value as nat <= U64_MAX / Pow(1024, Exponent(u))
    ensures ByteCount(TiB(16777215)) <= U64_MAX && ByteCount(TiB(16777216)) > U64_MAX
  {
    var m := Pow(1024, Exponent(u));
    assert m > 0;
    var v := u.value as nat;
    if v <= U64_MAX / m {
      assert v * m <= (U64_MAX / m) * m <= U64_MAX;
    } else {
      assert v >= U64_MAX / m + 1;
      assert v * m >= (U64_MAX / m + 1) * m > U64_MAX;
    }
  }

  /**
   * `to_possible_value` for the time units: the command-line name of each
   * unit, which is exactly the suffix its `Display` writes.
   */
  function PossibleValue(t: Types.TimeUnit): (r: Option<string>)
    ensures r == Some(Types.Suffix(t))
    ensures r.Some? && Types.Display(t) == Show(t.value as nat) + r.value
  {
    match t
    case Microseconds(_) => Some("us")
    case Milliseconds(_) => Some("ms")
    case Seconds(_) => Some("s")
    case Minutes(_) => Some("min")
    case Hours(_) => Some("h")
    case Days(_) => Some("d")
  }

  /** `value_variants`: every time unit, each with magnitude zero. */
  function ValueVariants(): (r: seq<Types.TimeUnit>)
    ensures |r| == |Types.Suffixes|
    ensures forall i :: 0 <= i < |r| ==> r[i].value == 0 && PossibleValue(r[i]) == Some(Types.Suffixes[i])
  {
    [Types.Microseconds(0), Types.Milliseconds(0), Types.Seconds(0),
     Types.Minutes(0), Types.Hours(0), Types.Days(0)]
  }
}
