/**
 * The date check of `add_expense`: `datetime.strptime(date, "%Y-%m-%d")`
 * succeeds or raises `ValueError`. CPython matches `%Y` as exactly four
 * digits, `%m` as `1[0-2]|0[1-9]|[1-9]` and `%d` as
 * `3[01]|[12]\d|0[1-9]|[1-9]| [1-9]`, requires the match to cover the
 * whole text, and then builds a `datetime.date`, which rejects year 0 and a
 * day past the end of its month (Gregorian leap years).
 */
module Dates {
  import opened Options
  import opened Text

  datatype Date = Date(year: int, month: int, day: int)

  predicate IsLeapYear(year: int) {
    year % 4 == 0 && (year % 100 != 0 || year % 400 == 0)
  }

  function DaysInMonth(year: int, month: int): (n: int)
    requires 1 <= month <= 12
    ensures 28 <= n <= 31
    ensures month == 2 ==> (n == 29 <==> IsLeapYear(year))
  {
    if month == 2 then (if IsLeapYear(year) then 29 else 28)
    else if month == 4 || month == 6 || month == 9 || month == 11 then 30
    else 31
  }

  /** A date `datetime.date` accepts. */
  predicate IsCalendarDate(d: Date) {
    && 1 <= d.year <= 9999
    && 1 <= d.month <= 12
    && 1 <= d.day <= DaysInMonth(d.year, d.month)
  }

  /** The ranges the `%Y`, `%m` and `%d` patterns alone admit. */
  predicate InFieldRanges(d: Date) {
    0 <= d.year <= 9999 && 1 <= d.month <= 12 && 1 <= d.day <= 31
  }

  /** The `%m` field: one or two digits naming a month. */
  function MonthField(t: string): (r: Option<int>)
    ensures r.Some? ==> 1 <= r.value <= 12
  {
    if 1 <= |t| <= 2 && AllDigits(t) && 1 <= DigitsToNat(t) <= 12 then Some(DigitsToNat(t))
    else None
  }

  /** The `%d` field, which must end the text: one or two digits from 1 to 31, or a space and a digit. */
  function DayField(t: string): (r: Option<int>)
    ensures r.Some? ==> 1 <= r.value <= 31
  {
    if |t| == 2 && t[0] == ' ' && '1' <= t[1] <= '9' then Some(DigitValue(t[1]))
    else if 1 <= |t| <= 2 && AllDigits(t) && 1 <= DigitsToNat(t) <= 31 then Some(DigitsToNat(t))
    else None
  }

  /**
   * The pattern match of `%Y-%m-%d` over the whole text. The month field
   * ends at the second `-`, whichever of its one- or two-digit
   * alternatives the matcher settles on.
   */
  function DateFields(s: string): (r: Option<Date>)
    ensures r.Some? ==> InFieldRanges(r.value)
  {
    if |s| < 5 || !AllDigits(s[..4]) || s[4] != '-' then None
    else
      var rest := s[5..];
      var monthLength := if |rest| >= 2 && rest[1] == '-' then 1
                         else if |rest| >= 3 && rest[2] == '-' then 2
                         else 0;
      if monthLength == 0 then None
      else
        match (MonthField(rest[..monthLength]), DayField(rest[monthLength + 1..]))
        case (Some(month), Some(day)) =>
          DigitsLessThan(s[..4]);
          Some(Date(DigitsToNat(s[..4]), month, day))
        case _ => None
  }

  lemma DigitsLessThan(s: string)
    requires |s| == 4 && AllDigits(s)
    ensures DigitsToNat(s) <= 9999
  {
    DigitsBound(s);
    assert Pow10(4) == 10 * (10 * (10 * (10 * Pow10(0))));
  }

  /** `datetime.strptime(s, "%Y-%m-%d")`: the date read, or None where it raises `ValueError`. */
  function ParseDate(s: string): (r: Option<Date>)
    ensures r.Some? ==> IsCalendarDate(r.value)
    ensures r.Some? ==> DateFields(s) == r
  {
    match DateFields(s)
    case Some(d) => if IsCalendarDate(d) then Some(d) else None
    case None => None
  }

  /** The canonical spelling `YYYY-MM-DD`, zero-padded, as the date picker shows it. */
  function FormatDate(d: Date): string
    requires InFieldRanges(d)
  {
    PadZeros(NatToDigits(d.year), 4) + "-" + PadZeros(NatToDigits(d.month), 2) + "-"
      + PadZeros(NatToDigits(d.day), 2)
  }

  /** The pattern reads the canonical spelling back field by field. */
  lemma FieldsRoundTrip(d: Date)
    requires InFieldRanges(d)
    ensures DateFields(FormatDate(d)) == Some(d)
  {
    var y := PadZeros(NatToDigits(d.year), 4);
    var m := PadZeros(NatToDigits(d.month), 2);
    var dd := PadZeros(NatToDigits(d.day), 2);
    DigitsLength(d.year, 4);
    DigitsLength(d.month, 2);
    DigitsLength(d.day, 2);
    PaddedRoundTrip(d.year, 4);
    PaddedRoundTrip(d.month, 2);
    PaddedRoundTrip(d.day, 2);
    assert FormatDate(d) == y + ("-" + (m + ("-" + dd)));
    FieldsOf(y, m, dd);
  }

  /** Four digits, a dash, two digits, a dash and two digits read as those three numbers. */
  lemma FieldsOf(y: string, m: string, dd: string)
    requires |y| == 4 && |m| == 2 && |dd| == 2 && AllDigits(y) && AllDigits(m) && AllDigits(dd)
    requires 1 <= DigitsToNat(m) <= 12 && 1 <= DigitsToNat(dd) <= 31
    ensures DateFields(y + ("-" + (m + ("-" + dd)))) == Some(Date(DigitsToNat(y), DigitsToNat(m), DigitsToNat(dd)))
  {
    var s := y + ("-" + (m + ("-" + dd)));
    assert s[..4] == y && s[4] == '-';
    var rest := s[5..];
    assert rest == m + ("-" + dd);
    assert rest[2] == '-' && rest[1] != '-';
    assert rest[..2] == m && rest[3..] == dd;
    assert dd[0] != ' ';
  }

  /**
   * A canonically spelled date is accepted exactly when it is a real
   * calendar date: month lengths and leap years decide, nothing else.
   */
  lemma ParseFormatted(d: Date)
    requires InFieldRanges(d)
    ensures ParseDate(FormatDate(d)) == if IsCalendarDate(d) then Some(d) else None
  {
    FieldsRoundTrip(d);
  }

  /** February 29th is accepted exactly in leap years. */
  lemma LeapDay(year: int)
    requires 1 <= year <= 9999
    ensures ParseDate(FormatDate(Date(year, 2, 29))).Some? <==> IsLeapYear(year)
  {
    ParseFormatted(Date(year, 2, 29));
  }
}
