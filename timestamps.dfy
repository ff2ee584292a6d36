/** The two `datetime.strptime` formats the records use, `%Y/%m/%d` and
    `%Y/%m/%d %H:%M`, as a fixed-format parser: a four-digit year from 1,
    a month and a day of one or two digits that form a real calendar date,
    one space, an hour (0-23) and a minute (0-59) of one or two digits.
    Also the minute arithmetic that `timedelta.total_seconds() / 60` does
    on such times. */
module Timestamps {
  import opened Wrappers
  import opened Text

  datatype Date = Date(year: int, month: int, day: int)

  /** A `datetime` of minute precision, the only precision the formats carry. */
  datatype DateTime = DateTime(date: Date, hour: int, minute: int)

  predicate IsLeapYear(y: int) {
    (y % 4 == 0 && y % 100 != 0) || y % 400 == 0
  }

  function DaysInMonth(y: int, m: int): (n: int)
    requires 1 <= m <= 12
    ensures 28 <= n <= 31
  {
    if m == 2 then (if IsLeapYear(y) then 29 else 28)
    else if m == 4 || m == 6 || m == 9 || m == 11 then 30
    else 31
  }

  /** What `datetime` accepts: MINYEAR is 1, a four-digit year is at most 9999. */
  predicate ValidDate(d: Date) {
    1 <= d.year <= 9999 && 1 <= d.month <= 12 && 1 <= d.day <= DaysInMonth(d.year, d.month)
  }

  predicate ValidDateTime(t: DateTime) {
    ValidDate(t.date) && 0 <= t.hour <= 23 && 0 <= t.minute <= 59
  }

  /** A field of `minWidth` to `maxWidth` decimal digits, and its value. */
  function ParseField(s: string, minWidth: nat, maxWidth: nat): (r: Option<nat>)
    ensures r.Some? <==> minWidth <= |s| <= maxWidth && AllDigits(s)
    ensures r.Some? ==> r.value == DigitsValue(s) && r.value < Pow10(|s|)
  {
    if minWidth <= |s| <= maxWidth && AllDigits(s) then
      DigitsValueBound(s);
      Some(DigitsValue(s))
    else None
  }

  /** `datetime.strptime(s, '%Y/%m/%d')`, None where it raises ValueError. */
  function ParseDate(s: string): (r: Option<Date>)
    ensures r.Some? ==> ValidDate(r.value)
  {
    var parts := SplitOn(s, '/');
    if |parts| != 3 then None
    else
      var y := ParseField(parts[0], 4, 4);
      var m := ParseField(parts[1], 1, 2);
      var d := ParseField(parts[2], 1, 2);
      if y.Some? && m.Some? && d.Some? && ValidDate(Date(y.value, m.value, d.value))
      then Some(Date(y.value, m.value, d.value))
      else None
  }

  /** `datetime.strptime(s, '%Y/%m/%d %H:%M')`, None where it raises ValueError. */
  function ParseMinuteTime(s: string): (r: Option<DateTime>)
    ensures r.Some? ==> ValidDateTime(r.value)
    ensures s == [] ==> r.None?
  {
    var parts := SplitOn(s, ' ');
    if |parts| != 2 then None
    else
      var date := ParseDate(parts[0]);
      var clock := SplitOn(parts[1], ':');
      if date.None? || |clock| != 2 then None
      else
        var h := ParseField(clock[0], 1, 2);
        var mi := ParseField(clock[1], 1, 2);
        if h.Some? && mi.Some? && h.value <= 23 && mi.value <= 59
        then Some(DateTime(date.value, h.value, mi.value))
        else None
  }

  /** The canonical spelling `YYYY/MM/DD` of a date. */
  function FormatDate(d: Date): (s: string)
    requires ValidDate(d)
    ensures |s| == 10
  {
    PaddedDigits(d.year, 4) + ['/'] + PaddedDigits(d.month, 2) + ['/'] + PaddedDigits(d.day, 2)
  }

  /** The canonical spelling `YYYY/MM/DD HH:MM` of a minute-precision time. */
  function FormatMinuteTime(t: DateTime): (s: string)
    requires ValidDateTime(t)
    ensures |s| == 16
  {
    FormatDate(t.date) + [' '] + PaddedDigits(t.hour, 2) + [':'] + PaddedDigits(t.minute, 2)
  }

  lemma DigitsHaveNoSeparator(s: string, c: char)
    requires AllDigits(s) && !IsDigit(c)
    ensures c !in s
  {
  }

  lemma {:induction false} ParseFormatDate(d: Date)
    requires ValidDate(d)
    ensures ParseDate(FormatDate(d)) == Some(d)
  {
    var y, m, dd := PaddedDigits(d.year, 4), PaddedDigits(d.month, 2), PaddedDigits(d.day, 2);
    SplitDateFields(y, m, dd);
    PaddedDigitsValue(d.year, 4);
    PaddedDigitsValue(d.month, 2);
    PaddedDigitsValue(d.day, 2);
  }

  /** `%Y/%m/%d` reads any four-digit year, one- or two-digit month and
      one- or two-digit day as the date those fields denote, and refuses
      the text exactly when that is no calendar date. */
  lemma {:induction false} ParseDateFields(y: string, m: string, d: string)
    requires AllDigits(y) && AllDigits(m) && AllDigits(d)
    requires |y| == 4 && 1 <= |m| <= 2 && 1 <= |d| <= 2
    ensures var date := Date(DigitsValue(y), DigitsValue(m), DigitsValue(d));
      ParseDate(y + ['/'] + m + ['/'] + d) == if ValidDate(date) then Some(date) else None
  {
    SplitDateFields(y, m, d);
    assert ParseField(y, 4, 4) == Some(DigitsValue(y));
    assert ParseField(m, 1, 2) == Some(DigitsValue(m));
    assert ParseField(d, 1, 2) == Some(DigitsValue(d));
  }

  /** Digit fields joined by `/` split back into those fields. */
  lemma {:induction false} SplitDateFields(y: string, m: string, d: string)
    requires AllDigits(y) && AllDigits(m) && AllDigits(d)
    ensures SplitOn(y + ['/'] + m + ['/'] + d, '/') == [y, m, d]
  {
    DigitsHaveNoSeparator(y, '/');
    DigitsHaveNoSeparator(m, '/');
    DigitsHaveNoSeparator(d, '/');
    SplitOnNoSeparator(y, '/');
    SplitOnJoin(y, m, '/');
    SplitOnJoin(y + ['/'] + m, d, '/');
  }

  /** The shortest spelling of a month, day, hour or minute: one digit below
      10, two from 10 on. */
  function Unpadded(n: nat): (s: string)
    requires n < 100
    ensures AllDigits(s) && 1 <= |s| <= 2 && DigitsValue(s) == n
  {
    if n < 10 then
      assert DigitsValue([DigitChar(n)]) == n by {
        assert [DigitChar(n)][..0] == [];
      }
      [DigitChar(n)]
    else
      PaddedDigitsValue(n, 2);
      PaddedDigits(n, 2)
  }

  /** The spelling `2025/9/19`: month and day without leading zeros. */
  function FormatDateUnpadded(d: Date): string
    requires ValidDate(d)
  {
    PaddedDigits(d.year, 4) + ['/'] + Unpadded(d.month) + ['/'] + Unpadded(d.day)
  }

  /** Dates written without leading zeros, as in `2025/9/19`, are read as
      the dates they denote. */
  lemma ParseUnpaddedDate(d: Date)
    requires ValidDate(d)
    ensures ParseDate(FormatDateUnpadded(d)) == Some(d)
  {
    PaddedDigitsValue(d.year, 4);
    ParseDateFields(PaddedDigits(d.year, 4), Unpadded(d.month), Unpadded(d.day));
  }

  /** `2025/9/19` is 19 September 2025. */
  lemma ParseDateExample()
    ensures ParseDate("2025/9/19") == Some(Date(2025, 9, 19))
  {
    ParseUnpaddedDate(Date(2025, 9, 19));
    assert FormatDateUnpadded(Date(2025, 9, 19)) == "2025/9/19";
  }

  /** `%Y/%m/%d %H:%M` reads a date, one space, and an hour and a minute of
      one or two digits each as the time those fields denote, and refuses
      the text exactly when the date does not parse or the clock is out of
      range. */
  lemma {:induction false} ParseMinuteTimeFields(date: string, h: string, mi: string)
    requires ' ' !in date
    requires AllDigits(h) && AllDigits(mi) && 1 <= |h| <= 2 && 1 <= |mi| <= 2
    ensures ParseMinuteTime(date + [' '] + h + [':'] + mi)
         == if ParseDate(date).Some? && DigitsValue(h) <= 23 && DigitsValue(mi) <= 59
            then Some(DateTime(ParseDate(date).value, DigitsValue(h), DigitsValue(mi)))
            else None
  {
    var clock := h + [':'] + mi;
    ClockSplits(h, mi);
    SplitOnNoSeparator(date, ' ');
    assert date + [' '] + h + [':'] + mi == date + [' '] + clock;
    SplitOnJoin(date, clock, ' ');
  }

  /** Times written without leading zeros, as in `2025/9/19 7:05` or
      `2025/9/19 7:5`, are read as the times they denote. */
  lemma ParseUnpaddedMinuteTime(t: DateTime)
    requires ValidDateTime(t)
    ensures ParseMinuteTime(FormatDateUnpadded(t.date) + [' '] + Unpadded(t.hour) + [':'] + Unpadded(t.minute))
         == Some(t)
  {
    var y, m, d := PaddedDigits(t.date.year, 4), Unpadded(t.date.month), Unpadded(t.date.day);
    DigitsHaveNoSeparator(y, ' ');
    DigitsHaveNoSeparator(m, ' ');
    DigitsHaveNoSeparator(d, ' ');
    assert ' ' !in FormatDateUnpadded(t.date) by {
      assert FormatDateUnpadded(t.date) == y + ['/'] + m + ['/'] + d;
    }
    ParseUnpaddedDate(t.date);
    ParseMinuteTimeFields(FormatDateUnpadded(t.date), Unpadded(t.hour), Unpadded(t.minute));
  }

  /** The canonical spelling of a date holds no space. */
  lemma FormatDateNoSpace(d: Date)
    requires ValidDate(d)
    ensures ' ' !in FormatDate(d)
  {
    var y, m, dd := PaddedDigits(d.year, 4), PaddedDigits(d.month, 2), PaddedDigits(d.day, 2);
    DigitsHaveNoSeparator(y, ' ');
    DigitsHaveNoSeparator(m, ' ');
    DigitsHaveNoSeparator(dd, ' ');
  }

  /** `HH:MM` holds no space and splits at its colon into hour and minute. */
  lemma ClockSplits(h: string, mi: string)
    requires AllDigits(h) && AllDigits(mi)
    ensures ' ' !in h + [':'] + mi
    ensures SplitOn(h + [':'] + mi, ':') == [h, mi]
  {
    DigitsHaveNoSeparator(h, ' ');
    DigitsHaveNoSeparator(mi, ' ');
    DigitsHaveNoSeparator(h, ':');
    DigitsHaveNoSeparator(mi, ':');
    SplitOnNoSeparator(h, ':');
    SplitOnJoin(h, mi, ':');
  }

  /** Parsing is the inverse of the canonical spelling: every valid time
      written as `YYYY/MM/DD HH:MM` is read back as itself. */
  lemma {:induction false} ParseFormatMinuteTime(t: DateTime)
    requires ValidDateTime(t)
    ensures ParseMinuteTime(FormatMinuteTime(t)) == Some(t)
  {
    var date := FormatDate(t.date);
    var h, mi := PaddedDigits(t.hour, 2), PaddedDigits(t.minute, 2);
    var clock := h + [':'] + mi;
    ClockSplits(h, mi);
    FormatDateNoSpace(t.date);
    SplitOnNoSeparator(date, ' ');
    assert FormatMinuteTime(t) == date + [' '] + clock;
    SplitOnJoin(date, clock, ' ');
    ParseFormatDate(t.date);
    PaddedDigitsValue(t.hour, 2);
    PaddedDigitsValue(t.minute, 2);
  }

  /** `HH:MM:rest` holds at least two colons, so it splits into at least
      three clock fields. */
  lemma ClockWithSecondsSplits(h: string, mi: string, rest: string)
    ensures |SplitOn(h + [':'] + mi + [':'] + rest, ':')| >= 3
  {
    SplitOnCount(h + [':'] + mi + [':'] + rest, ':');
    OccurrencesAppend(h + [':'] + mi + [':'], rest, ':');
    OccurrencesAppend(h + [':'] + mi, [':'], ':');
    OccurrencesAppend(h + [':'], mi, ':');
    OccurrencesAppend(h, [':'], ':');
    assert Occurrences([':'], ':') == 1;
  }

  /** `date clock` with a space-free date splits at spaces into two parts
      exactly when the clock holds no space, and then into date and clock. */
  lemma SpaceAfterDate(date: string, clock: string)
    requires ' ' !in date
    ensures |SplitOn(date + [' '] + clock, ' ')| == 2 ==> SplitOn(date + [' '] + clock, ' ') == [date, clock]
  {
    SplitOnCount(date + [' '] + clock, ' ');
    OccurrencesAppend(date + [' '], clock, ' ');
    OccurrencesAppend(date, [' '], ' ');
    OccurrencesAbsent(date, ' ');
    assert Occurrences([' '], ' ') == 1;
    if Occurrences(clock, ' ') == 0 {
      OccurrencesAbsentConverse(clock, ' ');
      SplitOnNoSeparator(date, ' ');
      SplitOnJoin(date, clock, ' ');
    }
  }

  /** A time written with a seconds field never parses: whatever follows
      `HH:MM:` adds a third clock field or a third space-separated part. */
  lemma {:induction false} SecondsFieldRejected(t: DateTime, rest: string)
    requires ValidDateTime(t)
    ensures ParseMinuteTime(FormatMinuteTime(t) + [':'] + rest) == None
  {
    var date := FormatDate(t.date);
    var h, mi := PaddedDigits(t.hour, 2), PaddedDigits(t.minute, 2);
    var clock := h + [':'] + mi + [':'] + rest;
    assert FormatMinuteTime(t) + [':'] + rest == date + [' '] + clock;
    FormatDateNoSpace(t.date);
    SpaceAfterDate(date, clock);
    ClockWithSecondsSplits(h, mi, rest);
  }

  /** The canonical spelling of a date holds no whitespace. */
  lemma FormatDateHasNoSpace(d: Date)
    requires ValidDate(d)
    ensures forall i :: 0 <= i < |FormatDate(d)| ==> !IsSpace(FormatDate(d)[i])
  {
    var y, m, dd := PaddedDigits(d.year, 4), PaddedDigits(d.month, 2), PaddedDigits(d.day, 2);
    var s := FormatDate(d);
    assert s == y + ['/'] + m + ['/'] + dd;
    forall i | 0 <= i < |s| ensures !IsSpace(s[i]) {
      if i < 4 {
        assert s[i] == y[i];
      } else if i == 4 || i == 7 {
        assert s[i] == '/';
      } else if i < 7 {
        assert s[i] == m[i - 5];
      } else {
        assert s[i] == dd[i - 8];
      }
    }
  }

  /** The first whitespace-separated word of a canonical minute time is its
      date, spelled canonically. */
  lemma FirstWordOfMinuteTime(t: DateTime)
    requires ValidDateTime(t)
    ensures FirstWord(FormatMinuteTime(t)) == Some(FormatDate(t.date))
  {
    var date := FormatDate(t.date);
    var clock := PaddedDigits(t.hour, 2) + [':'] + PaddedDigits(t.minute, 2);
    var s := FormatMinuteTime(t);
    assert s == date + [' '] + clock;
    FormatDateHasNoSpace(t.date);
    FirstWordOfSpaced(date, clock);
  }

  // ---------------------------------------------------------------------
  // Minute arithmetic
  // ---------------------------------------------------------------------

  function DaysBeforeMonth(y: int, m: int): (n: nat)
    requires 1 <= m <= 13
  {
    if m == 1 then 0 else DaysBeforeMonth(y, m - 1) + DaysInMonth(y, m - 1)
  }

  /** Days from 0001/01/01 to `d` in the proleptic Gregorian calendar
      (`date.toordinal() - 1`). */
  function DayNumber(d: Date): int
    requires ValidDate(d)
  {
    var y := d.year - 1;
    365 * y + y / 4 - y / 100 + y / 400 + DaysBeforeMonth(d.year, d.month) + d.day - 1
  }

  /** Minutes since 0001/01/01 00:00. */
  function MinuteNumber(t: DateTime): int
    requires ValidDateTime(t)
  {
    DayNumber(t.date) * 1440 + t.hour * 60 + t.minute
  }

  /** `abs((a - b).total_seconds() / 60)`, exact for minute-precision times. */
  function MinutesApart(a: DateTime, b: DateTime): (n: nat)
    requires ValidDateTime(a) && ValidDateTime(b)
    ensures a == b ==> n == 0
  {
    var d := MinuteNumber(a) - MinuteNumber(b);
    if d < 0 then -d else d
  }

  /** The calendar day after `d`. */
  function NextDay(d: Date): (n: Date)
    requires ValidDate(d)
  {
    if d.day < DaysInMonth(d.year, d.month) then Date(d.year, d.month, d.day + 1)
    else if d.month < 12 then Date(d.year, d.month + 1, 1)
    else Date(d.year + 1, 1, 1)
  }

  /** The day count starts at 0001/01/01. */
  lemma FirstDayNumber()
    ensures DayNumber(Date(1, 1, 1)) == 0
  {
  }

  /** The day count counts calendar days: the next day, whether in the same
      month, the next month or the next year, is one more. */
  lemma DayNumberOfNextDay(d: Date)
    requires ValidDate(d) && d != Date(9999, 12, 31)
    ensures ValidDate(NextDay(d))
    ensures DayNumber(NextDay(d)) == DayNumber(d) + 1
  {
    if d.day < DaysInMonth(d.year, d.month) {
      WithinMonth(d);
    } else if d.month < 12 {
      MonthEnd(d.year, d.month);
    } else {
      YearEnd(d.year);
    }
  }

  lemma WithinMonth(d: Date)
    requires ValidDate(d) && d.day < DaysInMonth(d.year, d.month)
    ensures DayNumber(Date(d.year, d.month, d.day + 1)) == DayNumber(d) + 1
  {
  }

  lemma MonthEnd(y: int, m: int)
    requires 1 <= y <= 9999 && 1 <= m < 12
    ensures DayNumber(Date(y, m + 1, 1)) == DayNumber(Date(y, m, DaysInMonth(y, m))) + 1
  {
  }

  lemma YearEnd(y: int)
    requires 1 <= y < 9999
    ensures DayNumber(Date(y + 1, 1, 1)) == DayNumber(Date(y, 12, 31)) + 1
  {
    DaysBeforeDecember(y);
    assert y / 4 - (y - 1) / 4 == if y % 4 == 0 then 1 else 0;
    assert y / 100 - (y - 1) / 100 == if y % 100 == 0 then 1 else 0;
    assert y / 400 - (y - 1) / 400 == if y % 400 == 0 then 1 else 0;
  }

  lemma DaysBeforeDecember(y: int)
    ensures DaysBeforeMonth(y, 12) == if IsLeapYear(y) then 335 else 334
  {
    var feb := if IsLeapYear(y) then 29 else 28;
    assert DaysBeforeMonth(y, 2) == 31;
    assert DaysBeforeMonth(y, 3) == 31 + feb;
    assert DaysBeforeMonth(y, 4) == 62 + feb;
    assert DaysBeforeMonth(y, 5) == 92 + feb;
    assert DaysBeforeMonth(y, 6) == 123 + feb;
    assert DaysBeforeMonth(y, 7) == 153 + feb;
    assert DaysBeforeMonth(y, 8) == 184 + feb;
    assert DaysBeforeMonth(y, 9) == 215 + feb;
    assert DaysBeforeMonth(y, 10) == 245 + feb;
    assert DaysBeforeMonth(y, 11) == 276 + feb;
  }

  /** The minute after `t`, moving to the next day after 23:59. */
  function NextMinute(t: DateTime): DateTime
    requires ValidDateTime(t)
  {
    if t.minute < 59 then DateTime(t.date, t.hour, t.minute + 1)
    else if t.hour < 23 then DateTime(t.date, t.hour + 1, 0)
    else DateTime(NextDay(t.date), 0, 0)
  }

  /** The minute count counts minutes, across midnight too. */
  lemma MinuteNumberOfNextMinute(t: DateTime)
    requires ValidDateTime(t) && !(t.date == Date(9999, 12, 31) && t.hour == 23 && t.minute == 59)
    ensures ValidDateTime(NextMinute(t))
    ensures MinuteNumber(NextMinute(t)) == MinuteNumber(t) + 1
  {
    if t.minute == 59 && t.hour == 23 {
      DayNumberOfNextDay(t.date);
    }
  }

  /** The distance in minutes is symmetric, and consecutive minutes are one
      minute apart. */
  lemma MinutesApartProperties(a: DateTime, b: DateTime)
    requires ValidDateTime(a) && ValidDateTime(b)
    ensures MinutesApart(a, b) == MinutesApart(b, a)
    ensures !(a.date == Date(9999, 12, 31) && a.hour == 23 && a.minute == 59) ==>
      MinutesApart(a, NextMinute(a)) == 1
  {
    if !(a.date == Date(9999, 12, 31) && a.hour == 23 && a.minute == 59) {
      MinuteNumberOfNextMinute(a);
    }
  }

  /** Minutes are counted across midnight: 23:50 is 30 minutes before 00:20
      of the next day, 23:49 is 31. */
  lemma MinutesAcrossMidnight(d: Date)
    requires ValidDate(d) && d != Date(9999, 12, 31)
    ensures ValidDateTime(DateTime(NextDay(d), 0, 20))
    ensures MinutesApart(DateTime(d, 23, 50), DateTime(NextDay(d), 0, 20)) == 30
    ensures MinutesApart(DateTime(d, 23, 49), DateTime(NextDay(d), 0, 20)) == 31
  {
    DayNumberOfNextDay(d);
  }
}
