/**
 * Calendar dates in the `YYYY-MM-DD` form the certificate request carries, read the way
 * `datetime.strptime(s, "%Y-%m-%d")` reads them: four digits, a dash, a month of one or two
 * digits, a dash, a day of one or two digits (or a space and one digit), and a date that
 * exists in the proleptic Gregorian calendar between years 1 and 9999.
 */
module Dates {
  import opened Wrappers
  import opened Text

  datatype Date = Date(year: nat, month: nat, day: nat)

  predicate IsLeapYear(y: nat) {
    y % 4 == 0 && (y % 100 != 0 || y % 400 == 0)
  }

  function DaysInMonth(y: nat, m: nat): nat
    requires 1 <= m <= 12
  {
    if m == 2 then (if IsLeapYear(y) then 29 else 28)
    else if m == 4 || m == 6 || m == 9 || m == 11 then 30
    else 31
  }

  /** The dates `datetime` can represent. */
  predicate IsValid(d: Date) {
    1 <= d.year <= 9999 && 1 <= d.month <= 12 && 1 <= d.day <= DaysInMonth(d.year, d.month)
  }

  /** The month field: one or two digits. */
  function MonthField(t: string): Option<nat> {
    if 1 <= |t| <= 2 && AllDigits(t) then Some(Value(t)) else None
  }

  /** The day field: one or two digits, or a space followed by a non-zero digit. */
  function DayField(t: string): Option<nat> {
    if 1 <= |t| <= 2 && AllDigits(t) then Some(Value(t))
    else if |t| == 2 && t[0] == ' ' && '1' <= t[1] <= '9' then Some(DigitValue(t[1]))
    else None
  }

  function BuildDate(year: nat, month: string, day: string): Option<Date> {
    match (MonthField(month), DayField(day))
    case (Some(m), Some(d)) => if IsValid(Date(year, m, d)) then Some(Date(year, m, d)) else None
    case _ => None
  }

  /** The date `s` denotes, or `None` where `strptime` would raise. */
  function ParseDate(s: string): (r: Option<Date>)
    ensures r.Some? ==> IsValid(r.value)
    ensures r.Some? ==> 8 <= |s| <= 10 && s[4] == '-' && AllDigits(s[..4]) && r.value.year == Value(s[..4])
  {
    if |s| < 8 || s[4] != '-' || !AllDigits(s[..4]) then None
    else
      var rest := s[5..];
      if rest[1] == '-' then BuildDate(Value(s[..4]), rest[..1], rest[2..])
      else if rest[2] == '-' then BuildDate(Value(s[..4]), rest[..2], rest[3..])
      else None
  }

  /** The canonical `YYYY-MM-DD` spelling of a date. */
  function IsoText(d: Date): string {
    Padded(d.year, 4) + "-" + Padded(d.month, 2) + "-" + Padded(d.day, 2)
  }

  /** An accepted date is the one its text spells: the month is the value of the one or two
      digits between the dashes, and the day is what the day field after the second dash reads. */
  lemma ParseFields(s: string)
    requires ParseDate(s).Some?
    ensures var d := ParseDate(s).value;
      || (s[6] == '-' && AllDigits(s[5..6]) && Value(s[5..6]) == d.month && DayField(s[7..]) == Some(d.day))
      || (s[6] != '-' && s[7] == '-' && AllDigits(s[5..7]) && Value(s[5..7]) == d.month
          && DayField(s[8..]) == Some(d.day))
  {
    var rest := s[5..];
    if rest[1] == '-' {
      assert s[5..6] == rest[..1] && s[7..] == rest[2..];
    } else {
      assert s[5..7] == rest[..2] && s[8..] == rest[3..];
    }
  }

  /** Text in the shape `YYYY-MM-DD` is read field by field: the year is its four digits, and
      the month and day fields decide the rest. */
  lemma ParseTwoDigitFields(y: string, m: string, dd: string)
    requires |y| == 4 && |m| == 2 && |dd| == 2 && AllDigits(y) && AllDigits(m) && AllDigits(dd)
    ensures ParseDate(y + "-" + m + "-" + dd) == BuildDate(Value(y), m, dd)
  {
    var rest := m + ("-" + dd);
    var s := y + ("-" + rest);
    assert y + "-" + m + "-" + dd == s;
    Halves(y, "-" + rest);
    Halves(m, "-" + dd);
    assert s[5..] == rest;
    assert rest[1] == m[1] && rest[2] == '-';
  }

  /** Every valid date is read back from its canonical spelling. */
  lemma ParseIsoText(d: Date)
    requires IsValid(d)
    ensures ParseDate(IsoText(d)) == Some(d)
  {
    var y, m, dd := Padded(d.year, 4), Padded(d.month, 2), Padded(d.day, 2);
    ParseTwoDigitFields(y, m, dd);
    PaddedValue(d.year, 4);
    PaddedValue(d.month, 2);
    PaddedValue(d.day, 2);
    assert MonthField(m) == Some(d.month);
    assert DayField(dd) == Some(d.day);
  }

  /** Whatever spelling was accepted, the canonical spelling denotes the same date. */
  lemma ParseNormalises(s: string)
    requires ParseDate(s).Some?
    ensures ParseDate(IsoText(ParseDate(s).value)) == ParseDate(s)
  {
    ParseIsoText(ParseDate(s).value);
  }
}
