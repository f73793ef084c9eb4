/** The experience length of the resume parser (`compute_years` in logic/resume_parser.py,
    repeated in dataPreprocess/resumeParser.py): a start and an end date, each `YYYY-MM`,
    `YYYY` or a word for "now", give the years between them. Today's date is a parameter. */
module ResumeDates {
  import opened Wrappers
  import opened PyStr
  import opened PyJson
  import PyRound

  /** A calendar month: what `datetime.strptime` keeps of a date the parser reads. */
  datatype Date = Date(year: int, month: int)

  /** A date `datetime` accepts: years 1 to 9999, months 1 to 12. */
  predicate ValidDate(d: Date) { 1 <= d.year <= 9999 && 1 <= d.month <= 12 }

  /** The words `parse_date` reads as today, compared after `strip().lower()`. */
  const NowWords: seq<string> := ["present", "hi\U{1EC7}n t\U{1EA1}i", "current", "now"]

  /** The month field of `strptime`'s `%m`: the pattern `1[0-2]|0[1-9]|[1-9]` tried in that
      order, which must use up the whole rest of the text. */
  function ParseMonth(s: string): (r: Option<int>)
    ensures r.Some? ==> 1 <= r.value <= 12
  {
    if |s| >= 2 && s[0] == '1' && '0' <= s[1] <= '2' then
      (if |s| == 2 then Some(10 + DigitValue(s[1])) else None)
    else if |s| >= 2 && s[0] == '0' && '1' <= s[1] <= '9' then
      (if |s| == 2 then Some(DigitValue(s[1])) else None)
    else if |s| >= 1 && '1' <= s[0] <= '9' then
      (if |s| == 1 then Some(DigitValue(s[0])) else None)
    else None
  }

  /** The year field of `%Y`: exactly four digits, and `datetime` refuses the year 0. */
  function ParseYear(s: string): (r: Option<int>)
    ensures r.Some? ==> 1 <= r.value <= 9999
  {
    if |s| == 4 && AllDigits(s) && DecimalValue(s) >= 1 then
      assert DecimalValue(s) <= 9999 by { DecimalBound(s); }
      Some(DecimalValue(s))
    else None
  }

  lemma {:induction false} DecimalBound(s: string)
    requires AllDigits(s)
    ensures DecimalValue(s) < Pow10(|s|)
  {
    if s != [] {
      DecimalBound(s[..|s| - 1]);
    }
  }

  function Pow10(n: nat): nat {
    if n == 0 then 1 else 10 * Pow10(n - 1)
  }

  /** `datetime.strptime(d, "%Y-%m")`, then `datetime.strptime(d, "%Y")`. */
  function ParseNumericDate(d: string): (r: Option<Date>)
    ensures r.Some? ==> ValidDate(r.value)
  {
    if |d| > 5 && d[4] == '-' && ParseYear(d[..4]).Some? && ParseMonth(d[5..]).Some? then
      Some(Date(ParseYear(d[..4]).value, ParseMonth(d[5..]).value))
    else if ParseYear(d).Some? then Some(Date(ParseYear(d).value, 1))
    else None
  }

  /** `parse_date(d)`: nothing for a falsy value; for a string, today for the "now" words,
      else the `YYYY-MM` or `YYYY` date, else nothing. A truthy value that is not a string
      has no `strip` and raises. */
  function ParseDate(d: Json, today: Date): (r: Result<Option<Date>, PyError>)
    ensures !Truthy(d) ==> r == Success(None)
    ensures Truthy(d) && !d.JStr? ==> r == Failure(AttributeError)
    ensures d.JStr? ==> r.Success?
    ensures r.Success? && r.value.Some? && r.value.value != today ==> ValidDate(r.value.value)
  {
    if !Truthy(d) then Success(None)
    else if !d.JStr? then Failure(AttributeError)
    else
      var t := Lower(Strip(d.s));
      if t in NowWords then Success(Some(today))
      else Success(ParseNumericDate(t))
  }

  /** The years from `start` to `end` as `compute_years` computes them before rounding. */
  function YearsBetween(start: Date, end: Date): real {
    (end.year - start.year) as real + (end.month - start.month) as real / 12.0
  }

  /** `compute_years(start_date, end_date)` with `datetime.today()` read as `today`: 0 for a
      falsy or unreadable start, today for a falsy or unreadable end, the difference rounded
      to two decimals. */
  function ComputeYears(startDate: Json, endDate: Json, today: Date): (r: Result<real, PyError>)
    ensures !Truthy(startDate) ==> r == Success(0.0)
    ensures Truthy(startDate) && !startDate.JStr? ==> r == Failure(AttributeError)
    ensures startDate.JStr? && (endDate.JStr? || !Truthy(endDate)) ==> r.Success?
    ensures (startDate.JStr? && ParseDate(startDate, today) == Success(None)
      && ParseDate(endDate, today).Success?) ==> r == Success(0.0)
  {
    if !Truthy(startDate) then Success(0.0)
    else
      match ParseDate(startDate, today)
      case Failure(e) => Failure(e)
      case Success(start) =>
        match ParseDate(endDate, today)
        case Failure(e) => Failure(e)
        case Success(end) =>
          if start.None? then Success(0.0)
          else Success(PyRound.Round2(YearsBetween(start.value, if end.Some? then end.value else today)))
  }

  // ---------------------------------------------------------------------------
  // Properties
  // ---------------------------------------------------------------------------

  /** The digit character of a number below ten. */
  function Digit(n: nat): (c: char)
    requires n < 10
    ensures IsDigit(c) && DigitValue(c) == n
  {
    ('0' as int + n) as char
  }

  /** A year written with four digits, zero-padded. */
  function FourDigits(y: int): (s: string)
    requires 0 <= y <= 9999
    ensures |s| == 4 && AllDigits(s)
  {
    var q := y / 10;
    var q2 := q / 10;
    [Digit(q2 / 10), Digit(q2 % 10), Digit(q % 10), Digit(y % 10)]
  }

  lemma FourDigitsValue(y: int)
    requires 0 <= y <= 9999
    ensures DecimalValue(FourDigits(y)) == y
  {
    var s := FourDigits(y);
    assert s[..3][..2][..1][..0] == [];
    assert DecimalValue(s[..3][..2][..1]) == DigitValue(s[0]);
    assert DecimalValue(s[..3][..2]) == 10 * DigitValue(s[0]) + DigitValue(s[1]);
    assert DecimalValue(s[..3]) == 100 * DigitValue(s[0]) + 10 * DigitValue(s[1]) + DigitValue(s[2]);
  }

  /** A date written `YYYY-MM`, zero-padded. */
  function FormatDate(d: Date): (s: string)
    requires ValidDate(d)
    ensures |s| == 7 && s[4] == '-' && s[..4] == FourDigits(d.year)
  {
    FourDigits(d.year) + ['-', Digit(d.month / 10), Digit(d.month % 10)]
  }

  /** A date written `YYYY-MM` reads back as that date. */
  lemma ParseFormatDate(d: Date, today: Date)
    requires ValidDate(d)
    ensures ParseDate(JStr(FormatDate(d)), today) == Success(Some(d))
  {
    var s := FormatDate(d);
    assert forall i | 0 <= i < |s| :: IsDigit(s[i]) || s[i] == '-' by {
      assert s[..4] == FourDigits(d.year);
      assert IsDigit(s[5]) && IsDigit(s[6]);
    }
    DateTextPlain(s, today);
    NumericFormatDate(d);
  }

  /** The numeric reading of a date written `YYYY-MM`. */
  lemma NumericFormatDate(d: Date)
    requires ValidDate(d)
    ensures ParseNumericDate(FormatDate(d)) == Some(d)
  {
    var s := FormatDate(d);
    FourDigitsValue(d.year);
    assert ParseYear(s[..4]) == Some(d.year);
    assert ParseMonth(s[5..]) == Some(d.month);
  }

  /** A text of digits and dashes that starts with a digit is read as a numeric date. */
  lemma DateTextPlain(s: string, today: Date)
    requires s != [] && IsDigit(s[0])
    requires forall i | 0 <= i < |s| :: IsDigit(s[i]) || s[i] == '-'
    ensures ParseDate(JStr(s), today) == Success(ParseNumericDate(s))
  {
    StripWithUnchanged(s, Whitespace);
    DateTextLower(s);
    NotNowWord(s);
    var t := Lower(Strip(s));
    assert t == s;
  }

  /** Lower-casing leaves digits and dashes alone. */
  lemma DateTextLower(s: string)
    requires forall i | 0 <= i < |s| :: IsDigit(s[i]) || s[i] == '-'
    ensures Lower(s) == s
  {
    forall i | 0 <= i < |s| ensures Lower(s)[i] == s[i] {
      assert LowerChar(s[i]) == s[i];
    }
  }

  /** No "now" word starts with a digit. */
  lemma NotNowWord(s: string)
    requires s != [] && IsDigit(s[0])
    ensures s !in NowWords
  {
    assert forall w | w in NowWords :: !IsDigit(w[0]);
  }

  /** A year written `YYYY` reads back as January of that year. */
  lemma ParseYearOnly(y: int, today: Date)
    requires 1 <= y <= 9999
    ensures ParseDate(JStr(FourDigits(y)), today) == Success(Some(Date(y, 1)))
  {
    var s := FourDigits(y);
    DateTextPlain(s, today);
    FourDigitsValue(y);
    assert ParseYear(s) == Some(y);
  }

  /** Two dates written `YYYY-MM` are the stated number of years apart, rounded to two
      decimals. */
  lemma ComputeYearsOfFormatted(a: Date, b: Date, today: Date)
    requires ValidDate(a) && ValidDate(b)
    ensures ComputeYears(JStr(FormatDate(a)), JStr(FormatDate(b)), today) == Success(PyRound.Round2(YearsBetween(a, b)))
  {
    ParseFormatDate(a, today);
    ParseFormatDate(b, today);
  }

  /** The years are always reported with at most two decimals. */
  lemma ComputeYearsHundredths(startDate: Json, endDate: Json, today: Date)
    ensures var r := ComputeYears(startDate, endDate, today);
      r.Success? ==> PyRound.Hundredths(r.value)
  {
    assert PyRound.Hundredths(0.0);
  }

  /** Consecutive months are 0.08 years apart, not a twelfth. */
  lemma NextMonthIsRounded(a: Date, today: Date)
    requires ValidDate(a) && a.month < 12
    ensures ComputeYears(JStr(FormatDate(a)), JStr(FormatDate(Date(a.year, a.month + 1))), today) == Success(0.08)
  {
    ComputeYearsOfFormatted(a, Date(a.year, a.month + 1), today);
    assert YearsBetween(a, Date(a.year, a.month + 1)) == 1.0 / 12.0;
    PyRound.Round2OfTwelfth();
  }

  /** The months field accepts exactly the month numbers, with or without a leading zero. */
  lemma ParseMonthExactly(s: string, m: int)
    requires 1 <= m <= 12
    ensures ParseMonth(s) == Some(m) <==> s == NatToDecimal(m) || (m <= 9 && s == ['0'] + NatToDecimal(m))
  {
    if m >= 10 {
      assert NatToDecimal(m) == ['1', Digit(m % 10)] by { assert NatToDecimal(m / 10) == ['1']; }
    }
  }

  /** A start and end written as the same month give no experience. */
  lemma SameMonthIsZero(d: Date, today: Date)
    requires ValidDate(d)
    ensures ComputeYears(JStr(FormatDate(d)), JStr(FormatDate(d)), today) == Success(0.0)
  {
    ComputeYearsOfFormatted(d, d, today);
    PyRound.Round2OfHundredths(0);
  }

  /** A missing or unreadable end date counts up to today. */
  lemma MissingEndIsToday(start: Date, end: Json, today: Date)
    requires ValidDate(start)
    requires ParseDate(end, today) == Success(None)
    ensures ComputeYears(JStr(FormatDate(start)), end, today) == Success(PyRound.Round2(YearsBetween(start, today)))
  {
    ParseFormatDate(start, today);
  }
}
