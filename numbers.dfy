/** The two value parsers the scrapers call: Python's `float(...)` on the
    decimal texts the sites serve, and `date.fromisoformat(...)` with
    `date.isoformat()` for calendar dates. */
module Numbers {
  import opened Outcomes
  import opened Text

  // ------------------------------------------------------------------ float

  /** `float(s)` for plain decimal notation: an optional sign, then digits
      with an optional fractional part (`"52"`, `"52."`, `".5"`, `"-21.0"`),
      with at least one digit. Anything else is rejected. */
  function ParseFloat(s: string): (r: Option<real>)
    ensures s != [] && IsDigit(s[0]) && |s| == 1 ==> r == Some(DigitValue(s[0]) as real)
  {
    var signed := s != [] && (s[0] == '-' || s[0] == '+');
    var body := if signed then s[1..] else s;
    match ParseUnsigned(body)
    case None => None
    case Some(v) => Some(if signed && s[0] == '-' then -v else v)
  }

  function ParseUnsigned(s: string): (r: Option<real>)
    ensures r.Some? ==> r.value >= 0.0
  {
    if '.' in s then
      var k := IndexOf(s, '.');
      var whole, frac := s[..k], s[k + 1..];
      if AllDigits(whole) && AllDigits(frac) && |whole| + |frac| > 0
      then Some(DigitsValue(whole) as real + DigitsValue(frac) as real / Pow10(|frac|) as real)
      else None
    else if s != [] && AllDigits(s) then Some(DigitsValue(s) as real)
    else None
  }

  /** `float()` rejects the empty text and text without a digit, and reads a
      string of digits as its decimal value. */
  lemma FloatOfDigits(s: string)
    ensures s == [] ==> ParseFloat(s).None?
    ensures s != [] && AllDigits(s) ==> ParseFloat(s) == Some(DigitsValue(s) as real)
    ensures ParseFloat(s).Some? ==> exists k :: 0 <= k < |s| && IsDigit(s[k])
  {
  }

  /** A two-digit whole part, a point and at least one fractional digit parse
      to a number in [10 * lead, 10 * lead + 10), where `lead` is the first digit. */
  lemma TwoDigitDecimal(s: string)
    requires |s| >= 4 && IsDigit(s[0]) && IsDigit(s[1]) && s[2] == '.' && AllDigits(s[3..])
    ensures ParseFloat(s).Some?
    ensures 10.0 * DigitValue(s[0]) as real <= ParseFloat(s).value < 10.0 * DigitValue(s[0]) as real + 10.0
  {
    assert '.' !in s[..2];
    assert '.' in s;
    var k := IndexOf(s, '.');
    assert k == 2;
    var whole, frac := s[..2], s[3..];
    assert whole[..1] == [s[0]];
    assert DigitsValue(whole) == 10 * DigitValue(s[0]) + DigitValue(s[1]);
    FractionBelowOne(DigitsValue(frac), Pow10(|frac|));
  }

  lemma FractionBelowOne(n: nat, d: nat)
    requires n < d
    ensures 0.0 <= n as real / d as real < 1.0
  {
    var q := n as real / d as real;
    assert q * d as real == n as real;
  }

  // ------------------------------------------------------------------- date

  datatype Ymd = Ymd(year: int, month: int, day: int)

  predicate IsLeapYear(y: int) {
    y % 4 == 0 && (y % 100 != 0 || y % 400 == 0)
  }

  function DaysInMonth(y: int, m: int): int
    requires 1 <= m <= 12
  {
    if m == 2 then (if IsLeapYear(y) then 29 else 28)
    else if m == 4 || m == 6 || m == 9 || m == 11 then 30
    else 31
  }

  /** A day of the proleptic Gregorian calendar in Python's range of years. */
  predicate ValidDate(d: Ymd) {
    1 <= d.year <= 9999 && 1 <= d.month <= 12 && 1 <= d.day <= DaysInMonth(d.year, d.month)
  }

  type Date = d: Ymd | ValidDate(d) witness Ymd(1, 1, 1)

  /** `d.isoformat()`: `YYYY-MM-DD`, zero-padded. */
  function IsoFormat(d: Date): (s: string)
    ensures |s| == 10 && s[4] == '-' && s[7] == '-'
  {
    Padded(d.year, 4) + "-" + Padded(d.month, 2) + "-" + Padded(d.day, 2)
  }

  /** `date.fromisoformat(s)` for the extended calendar form `YYYY-MM-DD`;
      None where Python raises. */
  function ParseIsoDate(s: string): (r: Option<Date>)
    ensures r.Some? ==> |s| == 10
  {
    if |s| == 10 && s[4] == '-' && s[7] == '-'
       && AllDigits(s[..4]) && AllDigits(s[5..7]) && AllDigits(s[8..])
    then
      var d := Ymd(DigitsValue(s[..4]), DigitsValue(s[5..7]), DigitsValue(s[8..]));
      if ValidDate(d) then Some(d) else None
    else None
  }

  /** Formatting a date and parsing the text gives the date back. */
  lemma IsoRoundTrip(d: Date)
    ensures ParseIsoDate(IsoFormat(d)) == Some(d)
  {
    var s := IsoFormat(d);
    assert s[..4] == Padded(d.year, 4);
    assert s[5..7] == Padded(d.month, 2);
    assert s[8..] == Padded(d.day, 2);
    PaddedValue(d.year, 4);
    PaddedValue(d.month, 2);
    PaddedValue(d.day, 2);
  }

  /** Every text the parser accepts is the canonical text of its date. */
  lemma IsoCanonical(s: string)
    requires ParseIsoDate(s).Some?
    ensures IsoFormat(ParseIsoDate(s).value) == s
  {
    ValuePadded(s[..4]);
    ValuePadded(s[5..7]);
    ValuePadded(s[8..]);
    assert s == s[..4] + "-" + s[5..7] + "-" + s[8..];
  }

  /** The all-zero sentinel is not a date: year 0 and month 0 do not exist. */
  lemma SentinelIsNotADate()
    ensures ParseIsoDate(Sentinel) == None
  {
  }

  /** The text the sites store for "no date". */
  const Sentinel := "0000-00-00"

  /** A date cell: `None` for the sentinel, otherwise `date.fromisoformat`,
      whose rejection is fatal. */
  function DateField(v: string): (r: Result<Option<Date>>)
    ensures r == Ok(None) <==> v == Sentinel
    ensures r.Err? <==> v != Sentinel && ParseIsoDate(v).None?
    ensures r.Ok? && r.value.Some? ==> IsoFormat(r.value.value) == v
  {
    if v == Sentinel then Ok(None)
    else match ParseIsoDate(v)
      case None => Err(BadDate)
      case Some(d) =>
        IsoCanonical(v);
        Ok(Some(d))
  }
}
