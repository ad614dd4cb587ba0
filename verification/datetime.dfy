/** The two uses of `datetime.strptime(...).strftime(...)` in the scheduler:
    `validate_date` with the pattern `%Y-%m-%d` and `validate_time` with `%H:%M`.
    Parsing follows the regular expressions Python's `_strptime` builds for
    these directives (first matching alternative; the whole string must be
    consumed); formatting zero-pads every field. */
module DateTime {
  import opened Outcomes
  import opened Digits

  datatype Date = Date(year: int, month: int, day: int)

  predicate IsLeapYear(y: int) {
    y % 4 == 0 && (y % 100 != 0 || y % 400 == 0)
  }

  function DaysInMonth(y: int, m: int): (n: int)
    requires 1 <= m <= 12
    ensures 28 <= n <= 31
    ensures n == 29 <==> m == 2 && IsLeapYear(y)
  {
    if m == 2 then (if IsLeapYear(y) then 29 else 28)
    else if m == 4 || m == 6 || m == 9 || m == 11 then 30
    else 31
  }

  /** A date `datetime.date` accepts: years 1 to 9999, real month, real day. */
  predicate IsCalendarDate(d: Date) {
    1 <= d.year <= 9999 && 1 <= d.month <= 12 && 1 <= d.day <= DaysInMonth(d.year, d.month)
  }

  /** `%m`: the pattern `1[0-2]|0[1-9]|[1-9]` at position `i`, giving the month
      and the position after it. Backtracking to a later alternative can never
      help the `-` that must follow, so the first match is the only one. */
  function MonthField(s: string, i: nat): (r: Option<(int, nat)>)
    ensures r.Some? ==> 1 <= r.value.0 <= 12 && i < r.value.1 <= |s|
  {
    if i + 1 < |s| && s[i] == '1' && '0' <= s[i + 1] <= '2' then Some((TwoDigits(s[i], s[i + 1]), i + 2))
    else if i + 1 < |s| && s[i] == '0' && '1' <= s[i + 1] <= '9' then Some((TwoDigits(s[i], s[i + 1]), i + 2))
    else if i < |s| && '1' <= s[i] <= '9' then Some((DigitValue(s[i]), i + 1))
    else None
  }

  /** `%d`: the pattern `3[01]|[12]\d|0[1-9]|[1-9]| [1-9]` at position `i`. It
      ends the format, so the first alternative that matches is taken. */
  function DayField(s: string, i: nat): (r: Option<(int, nat)>)
    ensures r.Some? ==> 1 <= r.value.0 <= 31 && i < r.value.1 <= |s|
  {
    if i + 1 < |s| && s[i] == '3' && '0' <= s[i + 1] <= '1' then Some((TwoDigits(s[i], s[i + 1]), i + 2))
    else if i + 1 < |s| && '1' <= s[i] <= '2' && IsDigit(s[i + 1]) then Some((TwoDigits(s[i], s[i + 1]), i + 2))
    else if i + 1 < |s| && s[i] == '0' && '1' <= s[i + 1] <= '9' then Some((TwoDigits(s[i], s[i + 1]), i + 2))
    else if i < |s| && '1' <= s[i] <= '9' then Some((DigitValue(s[i]), i + 1))
    else if i + 1 < |s| && s[i] == ' ' && '1' <= s[i + 1] <= '9' then Some((DigitValue(s[i + 1]), i + 2))
    else None
  }

  /** `datetime.strptime(s, "%Y-%m-%d")`: `None` where it raises ValueError
      (no match, unconverted data remains, or a year/day out of range). */
  function ParseDate(s: string): (d: Option<Date>)
    ensures d.Some? ==> IsCalendarDate(d.value)
  {
    if |s| < 5 || !IsDigit(s[0]) || !IsDigit(s[1]) || !IsDigit(s[2]) || !IsDigit(s[3]) || s[4] != '-' then None
    else
      var year := 100 * TwoDigits(s[0], s[1]) + TwoDigits(s[2], s[3]);
      match MonthField(s, 5)
      case None => None
      case Some((month, j)) =>
        if j >= |s| || s[j] != '-' then None
        else
          match DayField(s, j + 1)
          case None => None
          case Some((day, k)) =>
            if k != |s| then None
            else if year < 1 || day > DaysInMonth(year, month) then None
            else Some(Date(year, month, day))
  }

  /** `date.strftime("%Y-%m-%d")`, with the year written in four digits. */
  function FormatDate(d: Date): (s: string)
    requires IsCalendarDate(d)
    ensures |s| == 10 && s[4] == '-' && s[7] == '-'
  {
    Pad2(d.year / 100) + Pad2(d.year % 100) + "-" + Pad2(d.month) + "-" + Pad2(d.day)
  }

  /** `validate_date`: the string survives a parse and reformat unchanged.
      A failed parse is `false`, never an exception. */
  predicate ValidateDate(s: string) {
    match ParseDate(s)
    case None => false
    case Some(d) => FormatDate(d) == s
  }

  /** A zero-padded `YYYY-MM-DD` that names a real Gregorian date. */
  predicate IsIsoDate(s: string) {
    && |s| == 10 && s[4] == '-' && s[7] == '-'
    && IsDigit(s[0]) && IsDigit(s[1]) && IsDigit(s[2]) && IsDigit(s[3])
    && IsDigit(s[5]) && IsDigit(s[6]) && IsDigit(s[8]) && IsDigit(s[9])
    && var year := 100 * TwoDigits(s[0], s[1]) + TwoDigits(s[2], s[3]);
       var month := TwoDigits(s[5], s[6]);
       var day := TwoDigits(s[8], s[9]);
       && 1 <= year
       && 1 <= month <= 12
       && 1 <= day <= DaysInMonth(year, month)
  }

  /** A formatted date is a zero-padded `YYYY-MM-DD` whose fields are the date's. */
  lemma FormattedDateIsIso(d: Date)
    requires IsCalendarDate(d)
    ensures var s := FormatDate(d);
      && IsIsoDate(s)
      && 100 * TwoDigits(s[0], s[1]) + TwoDigits(s[2], s[3]) == d.year
      && TwoDigits(s[5], s[6]) == d.month
      && TwoDigits(s[8], s[9]) == d.day
  {
    var s := FormatDate(d);
    assert s[0..2] == Pad2(d.year / 100) && s[2..4] == Pad2(d.year % 100);
    assert s[5..7] == Pad2(d.month) && s[8..10] == Pad2(d.day);
  }

  /** A zero-padded `YYYY-MM-DD` naming a real date parses to that date and
      formats back to itself. */
  lemma IsoDateParses(s: string)
    requires IsIsoDate(s)
    ensures var d := Date(100 * TwoDigits(s[0], s[1]) + TwoDigits(s[2], s[3]), TwoDigits(s[5], s[6]), TwoDigits(s[8], s[9]));
      ParseDate(s) == Some(d) && FormatDate(d) == s
  {
    var year := 100 * TwoDigits(s[0], s[1]) + TwoDigits(s[2], s[3]);
    var d := Date(year, TwoDigits(s[5], s[6]), TwoDigits(s[8], s[9]));
    assert MonthField(s, 5) == Some((d.month, 7));
    assert DayField(s, 8) == Some((d.day, 10));
    Pad2OfDigits(s[0], s[1]);
    Pad2OfDigits(s[2], s[3]);
    Pad2OfDigits(s[5], s[6]);
    Pad2OfDigits(s[8], s[9]);
    assert year / 100 == TwoDigits(s[0], s[1]) && year % 100 == TwoDigits(s[2], s[3]);
  }

  /** Writing a real date and parsing it back gives the same date. */
  lemma DateRoundTrip(d: Date)
    requires IsCalendarDate(d)
    ensures ParseDate(FormatDate(d)) == Some(d)
    ensures ValidateDate(FormatDate(d))
  {
    FormattedDateIsIso(d);
    IsoDateParses(FormatDate(d));
  }

  /** `validate_date` accepts exactly the zero-padded `YYYY-MM-DD` strings that
      name a real date: "2024-2-5" and "2024-02-30" are both refused. */
  lemma ValidateDateIff(s: string)
    ensures ValidateDate(s) <==> IsIsoDate(s)
  {
    if ValidateDate(s) {
      FormattedDateIsIso(ParseDate(s).value);
    }
    if IsIsoDate(s) {
      IsoDateParses(s);
    }
  }

  datatype Clock = Clock(hour: int, minute: int)

  /** `%H`: the pattern `2[0-3]|[0-1]\d|\d`. Backtracking to a later
      alternative can never help the `:` that must follow. */
  function HourField(s: string, i: nat): (r: Option<(int, nat)>)
    ensures r.Some? ==> 0 <= r.value.0 <= 23 && i < r.value.1 <= |s|
  {
    if i + 1 < |s| && s[i] == '2' && '0' <= s[i + 1] <= '3' then Some((TwoDigits(s[i], s[i + 1]), i + 2))
    else if i + 1 < |s| && '0' <= s[i] <= '1' && IsDigit(s[i + 1]) then Some((TwoDigits(s[i], s[i + 1]), i + 2))
    else if i < |s| && IsDigit(s[i]) then Some((DigitValue(s[i]), i + 1))
    else None
  }

  /** `%M`: the pattern `[0-5]\d|\d`; it ends the format. */
  function MinuteField(s: string, i: nat): (r: Option<(int, nat)>)
    ensures r.Some? ==> 0 <= r.value.0 <= 59 && i < r.value.1 <= |s|
  {
    if i + 1 < |s| && '0' <= s[i] <= '5' && IsDigit(s[i + 1]) then Some((TwoDigits(s[i], s[i + 1]), i + 2))
    else if i < |s| && IsDigit(s[i]) then Some((DigitValue(s[i]), i + 1))
    else None
  }

  /** `datetime.strptime(s, "%H:%M")`: `None` where it raises ValueError. */
  function ParseTime(s: string): (t: Option<Clock>)
    ensures t.Some? ==> 0 <= t.value.hour <= 23 && 0 <= t.value.minute <= 59
  {
    match HourField(s, 0)
    case None => None
    case Some((hour, j)) =>
      if j >= |s| || s[j] != ':' then None
      else
        match MinuteField(s, j + 1)
        case None => None
        case Some((minute, k)) =>
          if k != |s| then None else Some(Clock(hour, minute))
  }

  /** `strftime("%H:%M")`. */
  function FormatTime(t: Clock): (s: string)
    requires 0 <= t.hour <= 23 && 0 <= t.minute <= 59
    ensures |s| == 5 && s[2] == ':'
  {
    Pad2(t.hour) + ":" + Pad2(t.minute)
  }

  const QuarterMarks: seq<string> := ["00", "15", "30", "45"]

  /** `validate_time`, three-way: a string that does not survive the `%H:%M`
      parse and reformat raises ValueError (`Err`); a well-formed time is
      `Ok(true)` on a quarter-hour mark and `Ok(false)` otherwise. The minutes
      are `time_string.split(':')[1]`, which is `s[3..]` once `s` is `HH:MM`. */
  function ValidateTime(s: string): Result<bool> {
    match ParseTime(s)
    case None => Err(Crashed(TimeFormat))
    case Some(t) =>
      if FormatTime(t) != s then Err(Crashed(TimeFormat))
      else Ok(s[3..] in QuarterMarks)
  }

  /** A zero-padded 24-hour `HH:MM`. */
  predicate IsClockTime(s: string) {
    && |s| == 5 && s[2] == ':'
    && IsDigit(s[0]) && IsDigit(s[1]) && IsDigit(s[3]) && IsDigit(s[4])
    && TwoDigits(s[0], s[1]) <= 23 && TwoDigits(s[3], s[4]) <= 59
  }

  /** A formatted time is a zero-padded `HH:MM` whose fields are the time's. */
  lemma FormattedTimeIsClock(t: Clock)
    requires 0 <= t.hour <= 23 && 0 <= t.minute <= 59
    ensures var s := FormatTime(t);
      IsClockTime(s) && TwoDigits(s[0], s[1]) == t.hour && TwoDigits(s[3], s[4]) == t.minute
  {
    var s := FormatTime(t);
    assert s[0..2] == Pad2(t.hour) && s[3..5] == Pad2(t.minute);
  }

  /** `validate_time` raises on anything but a zero-padded `HH:MM` ("9:15" and
      "25:00" included) and otherwise answers whether the minute is 0, 15, 30
      or 45. */
  lemma ValidateTimeIff(s: string)
    ensures ValidateTime(s) ==
      if IsClockTime(s) then Ok(TwoDigits(s[3], s[4]) % 15 == 0) else Err(Crashed(TimeFormat))
  {
    if IsClockTime(s) {
      var t := Clock(TwoDigits(s[0], s[1]), TwoDigits(s[3], s[4]));
      assert HourField(s, 0) == Some((t.hour, 2));
      assert MinuteField(s, 3) == Some((t.minute, 5));
      assert ParseTime(s) == Some(t);
      Pad2OfDigits(s[0], s[1]);
      Pad2OfDigits(s[3], s[4]);
      assert FormatTime(t) == s;
      MinutesOnQuarter(s[3], s[4]);
      assert s[3..] == [s[3], s[4]];
    } else if ParseTime(s).Some? {
      FormattedTimeIsClock(ParseTime(s).value);
    }
  }

  /** The two minute digits are one of the four marks exactly when the minute
      is a multiple of 15. */
  lemma MinutesOnQuarter(a: char, b: char)
    requires IsDigit(a) && IsDigit(b) && TwoDigits(a, b) <= 59
    ensures [a, b] in QuarterMarks <==> TwoDigits(a, b) % 15 == 0
  {
  }
}
