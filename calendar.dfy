/**
 * The part of java.time the booking core uses: LocalDate, LocalTime and
 * LocalDateTime as plain values, their natural order, LocalDate.plusDays(1),
 * and the ISO-8601 extended texts read by ISO_LOCAL_DATE, ISO_LOCAL_TIME
 * and ISO_LOCAL_DATE_TIME (restricted to four-digit years and to times
 * without fractional seconds) and written by toString().
 */
module Calendar {
  import opened Wrappers
  import opened Text

  /** A proleptic-Gregorian calendar date (java.time.LocalDate). */
  datatype Date = Date(year: int, month: int, day: int)

  /** A time of day to the second (java.time.LocalTime without nanoseconds). */
  datatype Time = Time(hour: int, minute: int, second: int)

  /** java.time.LocalDateTime, as a pair that may or may not name a real instant. */
  datatype DateTime = DateTime(date: Date, time: Time)

  predicate IsLeapYear(year: int) {
    year % 4 == 0 && (year % 100 != 0 || year % 400 == 0)
  }

  function DaysInMonth(year: int, month: int): (n: int)
    requires 1 <= month <= 12
    ensures 28 <= n <= 31
  {
    if month == 2 then (if IsLeapYear(year) then 29 else 28)
    else if month == 4 || month == 6 || month == 9 || month == 11 then 30
    else 31
  }

  predicate ValidDate(d: Date) {
    1 <= d.month <= 12 && 1 <= d.day <= DaysInMonth(d.year, d.month)
  }

  predicate ValidTime(t: Time) {
    0 <= t.hour <= 23 && 0 <= t.minute <= 59 && 0 <= t.second <= 59
  }

  /** The values a LocalDateTime can hold: a valid date with a valid time of day. */
  type ValidDateTime = dt: DateTime | ValidDate(dt.date) && ValidTime(dt.time)
    witness DateTime(Date(2000, 1, 1), Time(0, 0, 0))

  // ---------------------------------------------------------------------
  // Order: compareTo of LocalDate, LocalTime and LocalDateTime
  // ---------------------------------------------------------------------

  /** LocalDate.isBefore: year, then month, then day. */
  predicate DateBefore(a: Date, b: Date) {
    a.year < b.year
    || (a.year == b.year && (a.month < b.month || (a.month == b.month && a.day < b.day)))
  }

  predicate TimeBefore(a: Time, b: Time) {
    a.hour < b.hour
    || (a.hour == b.hour && (a.minute < b.minute || (a.minute == b.minute && a.second < b.second)))
  }

  /** LocalDateTime.isBefore: the date first, the time of day on equal dates. */
  predicate DateTimeBefore(a: DateTime, b: DateTime) {
    DateBefore(a.date, b.date) || (a.date == b.date && TimeBefore(a.time, b.time))
  }

  /** The order is asymmetric and total: of two distinct date-times, exactly one is before the other. */
  lemma DateTimeOrderIsTotal(a: DateTime, b: DateTime)
    ensures !(DateTimeBefore(a, b) && DateTimeBefore(b, a))
    ensures a == b || DateTimeBefore(a, b) || DateTimeBefore(b, a)
  {
  }

  /** The order is transitive; with DateTimeOrderIsTotal, a strict total order, as a comparator needs. */
  lemma DateTimeOrderIsTransitive(a: DateTime, b: DateTime, c: DateTime)
    requires DateTimeBefore(a, b) && DateTimeBefore(b, c)
    ensures DateTimeBefore(a, c)
  {
  }

  /** LocalDate.plusDays(1): the immediate successor among valid dates. */
  function NextDay(d: Date): (r: Date)
    requires ValidDate(d)
    ensures ValidDate(r) && DateBefore(d, r)
    ensures forall x :: ValidDate(x) ==> !(DateBefore(d, x) && DateBefore(x, r))
  {
    if d.day < DaysInMonth(d.year, d.month) then Date(d.year, d.month, d.day + 1)
    else if d.month < 12 then Date(d.year, d.month + 1, 1)
    else Date(d.year + 1, 1, 1)
  }

  /** Being before tomorrow is the same as not being after today. */
  lemma BeforeNextDay(a: Date, today: Date)
    requires ValidDate(a) && ValidDate(today)
    ensures DateBefore(a, NextDay(today)) <==> !DateBefore(today, a)
  {
    var tomorrow := NextDay(today);
    if DateBefore(today, a) {
      assert !DateBefore(a, tomorrow);
    }
  }

  // ---------------------------------------------------------------------
  // Text forms
  // ---------------------------------------------------------------------

  /** A year that ISO_LOCAL_DATE writes and reads in four digits, without a sign. */
  predicate FourDigitYear(d: Date) { 0 <= d.year <= 9999 }

  /** LocalDate.toString(): YYYY-MM-DD. */
  function FormatDate(d: Date): (s: string)
    requires ValidDate(d) && FourDigitYear(d)
    ensures |s| == 10 && IsDigit(s[0])
  {
    var s := PadDecimal(d.year, 4) + "-" + PadDecimal(d.month, 2) + "-" + PadDecimal(d.day, 2);
    assert s[0] == PadDecimal(d.year, 4)[0];
    s
  }

  /**
   * LocalDate.parse(s) with ISO_LOCAL_DATE and its strict resolver: exactly
   * YYYY-MM-DD in ASCII digits naming a date that exists; anything else is
   * a parse failure (None).
   */
  function ParseDate(s: string): (r: Option<Date>)
    ensures r.Some? ==> ValidDate(r.value) && FourDigitYear(r.value)
  {
    if |s| == 10 && AllDigits(s[..4]) && s[4] == '-' && AllDigits(s[5..7]) && s[7] == '-' && AllDigits(s[8..]) then
      var d := Date(DecimalValue(s[..4]), DecimalValue(s[5..7]), DecimalValue(s[8..]));
      if ValidDate(d) then Some(d) else None
    else None
  }

  /** Only the text FormatDate writes parses: the date form has no variants. */
  lemma ParsedDateIsCanonical(s: string)
    requires ParseDate(s).Some?
    ensures FormatDate(ParseDate(s).value) == s
  {
    PadDecimalOfValue(s[..4]);
    PadDecimalOfValue(s[5..7]);
    PadDecimalOfValue(s[8..]);
    assert s == s[..4] + "-" + s[5..7] + "-" + s[8..];
  }

  /** Parsing inverts writing. */
  lemma ParseFormatDate(d: Date)
    requires ValidDate(d) && FourDigitYear(d)
    ensures ParseDate(FormatDate(d)) == Some(d)
  {
    var s := FormatDate(d);
    assert s[..4] == PadDecimal(d.year, 4);
    assert s[5..7] == PadDecimal(d.month, 2);
    assert s[8..] == PadDecimal(d.day, 2);
  }

  /** HH:MM of a time. */
  function HourMinute(t: Time): (s: string)
    requires ValidTime(t)
    ensures |s| == 5
  {
    PadDecimal(t.hour, 2) + ":" + PadDecimal(t.minute, 2)
  }

  /** HH:MM:SS of a time. */
  function HourMinuteSecond(t: Time): (s: string)
    requires ValidTime(t)
    ensures |s| == 8
  {
    HourMinute(t) + ":" + PadDecimal(t.second, 2)
  }

  /** LocalTime.toString() for whole seconds: the seconds are written only when not zero. */
  function FormatTime(t: Time): (s: string)
    requires ValidTime(t)
    ensures |s| >= 5 && IsDigit(s[0])
  {
    var s := if t.second == 0 then HourMinute(t) else HourMinuteSecond(t);
    assert s[0] == PadDecimal(t.hour, 2)[0];
    s
  }

  /** The hour and minute digits at the front of a time text are what HourMinute writes. */
  lemma HourMinuteOfText(s: string, t: Time)
    requires |s| >= 5 && AllDigits(s[..2]) && s[2] == ':' && AllDigits(s[3..5])
    requires ValidTime(t) && t.hour == DecimalValue(s[..2]) && t.minute == DecimalValue(s[3..5])
    ensures HourMinute(t) == s[..5]
  {
    PadDecimalOfValue(s[..2]);
    PadDecimalOfValue(s[3..5]);
    assert s[..5] == s[..2] + ":" + s[3..5];
  }

  /** Hour-minute text followed by ":SS" is what HourMinuteSecond writes. */
  lemma HourMinuteSecondOfText(s: string, t: Time)
    requires ValidTime(t) && |s| == 8 && HourMinute(t) == s[..5]
    requires s[5] == ':' && AllDigits(s[6..]) && t.second == DecimalValue(s[6..])
    ensures HourMinuteSecond(t) == s
  {
    PadDecimalOfValue(s[6..]);
    assert s == s[..5] + ":" + s[6..];
  }

  /**
   * LocalTime.parse(s) with ISO_LOCAL_TIME and its strict resolver, for
   * HH:MM and HH:MM:SS: two ASCII digits each, hour 00-23, minute and
   * second 00-59. A missing second is zero.
   */
  function ParseTime(s: string): (r: Option<Time>)
    ensures r.Some? ==> ValidTime(r.value)
  {
    if (|s| == 5 || |s| == 8) && AllDigits(s[..2]) && s[2] == ':' && AllDigits(s[3..5])
       && (|s| == 8 ==> s[5] == ':' && AllDigits(s[6..]))
    then
      var t := Time(DecimalValue(s[..2]), DecimalValue(s[3..5]), if |s| == 8 then DecimalValue(s[6..]) else 0);
      if ValidTime(t) then Some(t) else None
    else None
  }

  /** Only HH:MM and HH:MM:SS as HourMinute and HourMinuteSecond write them parse. */
  lemma ParsedTimeIsCanonical(s: string)
    requires ParseTime(s).Some?
    ensures s == HourMinute(ParseTime(s).value) || s == HourMinuteSecond(ParseTime(s).value)
  {
    var t := ParseTime(s).value;
    HourMinuteOfText(s, t);
    if |s| == 8 {
      HourMinuteSecondOfText(s, t);
    } else {
      assert s == s[..5];
    }
  }

  /** Parsing inverts writing, in the short form and in the long form. */
  lemma ParseFormatTime(t: Time)
    requires ValidTime(t)
    ensures ParseTime(FormatTime(t)) == Some(t)
    ensures ParseTime(HourMinuteSecond(t)) == Some(t)
  {
    var s := HourMinuteSecond(t);
    assert s[..2] == PadDecimal(t.hour, 2);
    assert s[3..5] == PadDecimal(t.minute, 2);
    assert s[6..] == PadDecimal(t.second, 2);
    var h := HourMinute(t);
    assert h[..2] == PadDecimal(t.hour, 2);
    assert h[3..5] == PadDecimal(t.minute, 2);
  }

  /**
   * LocalDateTime.parse(s) with ISO_LOCAL_DATE_TIME: a date, the letter T
   * (read case-insensitively), a time.
   */
  function ParseDateTime(s: string): (r: Option<DateTime>)
    ensures r.Some? ==> ValidDate(r.value.date) && ValidTime(r.value.time)
  {
    if |s| >= 11 && (s[10] == 'T' || s[10] == 't') then
      match (ParseDate(s[..10]), ParseTime(s[11..]))
      case (Some(d), Some(t)) => Some(DateTime(d, t))
      case _ => None
    else None
  }

  /** A date text and a time text that parse on their own parse when joined with T. */
  lemma ParseJoinedDateTime(dateText: string, timeText: string)
    requires ParseDate(dateText).Some? && ParseTime(timeText).Some?
    ensures ParseDateTime(dateText + "T" + timeText)
            == Some(DateTime(ParseDate(dateText).value, ParseTime(timeText).value))
  {
    var s := dateText + "T" + timeText;
    ParsedDateIsCanonical(dateText);
    assert s[..10] == dateText;
    assert s[11..] == timeText;
  }
}
