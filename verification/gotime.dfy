/** The part of Go's time.Parse that the scoring rules use: the date layout
    "2006-01-02", the clock layout "15:04", the zero Time and the
    Before/After comparisons. Every Time here is in UTC. */
module GoTime {
  import opened Wrappers
  import opened Text

  /** A time.Time reduced to the fields the two layouts can set; seconds and
      the zone are always zero and UTC. */
  datatype Time = Time(year: int, month: int, day: int, hour: int, minute: int)

  /** time.Time{}: January 1 of year 1, 00:00 UTC. */
  const ZeroTime := Time(1, 1, 1, 0, 0)

  /** `t.Before(u)`: t is the earlier instant. */
  predicate Before(t: Time, u: Time) {
    if t.year != u.year then t.year < u.year
    else if t.month != u.month then t.month < u.month
    else if t.day != u.day then t.day < u.day
    else if t.hour != u.hour then t.hour < u.hour
    else t.minute < u.minute
  }

  /** `t.After(u)`: t is the later instant. */
  predicate After(t: Time, u: Time) { Before(u, t) }

  /** Minutes since midnight. */
  function MinuteOfDay(t: Time): int { t.hour * 60 + t.minute }

  /** Before is a strict order on instants: irreflexive, asymmetric and transitive. */
  lemma {:induction false} BeforeIsStrictOrder(t: Time, u: Time, v: Time)
    ensures !Before(t, t)
    ensures Before(t, u) ==> !Before(u, t)
    ensures Before(t, u) && Before(u, v) ==> Before(t, v)
  {
  }

  /** Two instants of the same day compare as their minutes since midnight. */
  lemma {:induction false} BeforeSameDay(t: Time, u: Time)
    requires t.year == u.year && t.month == u.month && t.day == u.day
    requires 0 <= t.minute < 60 && 0 <= u.minute < 60
    ensures Before(t, u) <==> MinuteOfDay(t) < MinuteOfDay(u)
  {
  }

  /** The Gregorian leap-year rule Go's calendar uses. */
  predicate IsLeap(year: int) { year % 4 == 0 && (year % 100 != 0 || year % 400 == 0) }

  /** The number of days in a month of a year. */
  function DaysIn(month: int, year: int): (n: int)
    requires 1 <= month <= 12
    ensures 28 <= n <= 31
    ensures n == 29 <==> month == 2 && IsLeap(year)
  {
    if month == 2 then (if IsLeap(year) then 29 else 28)
    else if month == 4 || month == 6 || month == 9 || month == 11 then 30
    else 31
  }

  /** A calendar date that time.Parse accepts. */
  predicate ValidDate(year: int, month: int, day: int) {
    0 <= year < 10000 && 1 <= month <= 12 && 1 <= day <= DaysIn(month, year)
  }

  /** `time.Parse("2006-01-02", s)`: exactly four year digits, '-', two month
      digits, '-', two day digits and nothing more; the month must lie in
      1..12 and the day in 1..DaysIn(month, year). None is the parse error. */
  function ParseDate(s: string): (r: Option<Time>)
    ensures r.Some? ==> ValidDate(r.value.year, r.value.month, r.value.day)
    ensures r.Some? ==> r.value.hour == 0 && r.value.minute == 0
    ensures r.Some? ==> |s| == 10 && s[4] == '-' && s[7] == '-'
  {
    if |s| == 10 && AllDigits(s[..4]) && s[4] == '-' && AllDigits(s[5..7]) && s[7] == '-'
       && AllDigits(s[8..])
    then
      var year, month, day := DigitsValue(s[..4]), DigitsValue(s[5..7]), DigitsValue(s[8..]);
      if ValidDate(year, month, day) then Some(Time(year, month, day, 0, 0)) else None
    else None
  }

  /** The number of hour digits time.Parse reads for "15": two when the
      second character is a digit, one when only the first is, none otherwise. */
  function HourDigits(s: string): (n: nat)
    ensures n <= 2 && n <= |s|
    ensures AllDigits(s[..n])
  {
    if |s| >= 1 && IsDigit(s[0]) then (if |s| >= 2 && IsDigit(s[1]) then 2 else 1) else 0
  }

  /** `time.Parse("15:04", s)`: one or two hour digits, ':', exactly two
      minute digits and nothing more; the hour must lie in 0..23 and the
      minute in 0..59. The date part is January 1 of year 0. None is the parse
      error. */
  function ParseClock(s: string): (r: Option<Time>)
    ensures r.Some? ==> r.value.year == 0 && r.value.month == 1 && r.value.day == 1
    ensures r.Some? ==> 0 <= r.value.hour < 24 && 0 <= r.value.minute < 60
    ensures r.Some? ==> 4 <= |s| <= 5 && s[|s| - 3] == ':'
  {
    var n := HourDigits(s);
    if n > 0 && |s| == n + 3 && s[n] == ':' && AllDigits(s[n + 1..]) then
      var hour, minute := DigitsValue(s[..n]), DigitsValue(s[n + 1..]);
      if hour < 24 && minute < 60 then Some(Time(0, 1, 1, hour, minute)) else None
    else None
  }

  /** `t, _ := time.Parse(...)`: the parsed instant, or the zero Time after an
      error. */
  function OrZero(r: Option<Time>): (t: Time)
    ensures r.None? ==> t == ZeroTime
    ensures r.Some? ==> t == r.value
  {
    r.GetOr(ZeroTime)
  }

  /** A valid date rendered with the layout "2006-01-02". */
  function FormatDate(year: nat, month: nat, day: nat): (s: string)
    requires ValidDate(year, month, day)
    ensures |s| == 10
  {
    Pad4(year) + "-" + Pad2(month) + "-" + Pad2(day)
  }

  /** Parsing a rendered date gives the date back, at midnight. */
  lemma {:induction false} ParseFormatDate(year: nat, month: nat, day: nat)
    requires ValidDate(year, month, day)
    ensures ParseDate(FormatDate(year, month, day)) == Some(Time(year, month, day, 0, 0))
  {
    var s := FormatDate(year, month, day);
    assert s[..4] == Pad4(year);
    assert s[5..7] == Pad2(month);
    assert s[8..] == Pad2(day);
  }

  /** Every accepted date is the rendering of the date it parses to, so the
      ten characters are the four year digits, '-', the two month digits,
      '-' and the two day digits of that date. */
  lemma {:induction false} FormatParseDate(s: string)
    ensures ParseDate(s).Some? ==>
              var t := ParseDate(s).value; s == FormatDate(t.year, t.month, t.day)
  {
    if ParseDate(s).Some? {
      var t := ParseDate(s).value;
      var f := FormatDate(t.year, t.month, t.day);
      assert f[..4] == Pad4(t.year) && f[5..7] == Pad2(t.month) && f[8..] == Pad2(t.day);
      DigitsInjective(s[..4], f[..4]);
      DigitsInjective(s[5..7], f[5..7]);
      DigitsInjective(s[8..], f[8..]);
      assert s == s[..4] + [s[4]] + s[5..7] + [s[7]] + s[8..];
      assert f == f[..4] + [f[4]] + f[5..7] + [f[7]] + f[8..];
    }
  }

  /** A valid clock time rendered with the layout "15:04". */
  function FormatClock(hour: nat, minute: nat): (s: string)
    requires hour < 24 && minute < 60
    ensures |s| == 5
  {
    Pad2(hour) + ":" + Pad2(minute)
  }

  /** Parsing a rendered clock time gives it back, on January 1 of year 0. */
  lemma {:induction false} ParseFormatClock(hour: nat, minute: nat)
    requires hour < 24 && minute < 60
    ensures ParseClock(FormatClock(hour, minute)) == Some(Time(0, 1, 1, hour, minute))
  {
    var s := FormatClock(hour, minute);
    assert HourDigits(s) == 2;
    assert s[..2] == Pad2(hour);
    assert s[3..] == Pad2(minute);
  }

  /** Every accepted clock text is the rendering of the time it parses to,
      with the hour written in two digits or, below 10, in one. */
  lemma {:induction false} FormatParseClock(s: string)
    ensures ParseClock(s).Some? ==>
              var t := ParseClock(s).value;
              s == FormatClock(t.hour, t.minute) ||
              (t.hour < 10 && s == [DigitChar(t.hour)] + ":" + Pad2(t.minute))
  {
    if ParseClock(s).Some? {
      var t := ParseClock(s).value;
      var n := HourDigits(s);
      DigitsInjective(s[n + 1..], Pad2(t.minute));
      if n == 2 {
        var f := FormatClock(t.hour, t.minute);
        assert f[..2] == Pad2(t.hour) && f[3..] == Pad2(t.minute);
        DigitsInjective(s[..2], f[..2]);
        assert s == s[..2] + [s[2]] + s[3..];
        assert f == f[..2] + [f[2]] + f[3..];
      } else {
        DigitsValueSnoc([], s[0]);
        assert [] + [s[0]] == s[..1];
        assert s == [s[0]] + [s[1]] + s[2..];
      }
    }
  }

  /** A single hour digit is accepted too: "9:05" is 09:05. */
  lemma {:induction false} ParseClockOneHourDigit(hour: nat, minute: nat)
    requires hour < 10 && minute < 60
    ensures ParseClock([DigitChar(hour)] + ":" + Pad2(minute)) == Some(Time(0, 1, 1, hour, minute))
  {
    var s := [DigitChar(hour)] + ":" + Pad2(minute);
    assert HourDigits(s) == 1;
    assert s[..1] == [DigitChar(hour)];
    DigitsValueSnoc([], DigitChar(hour));
    assert [] + [DigitChar(hour)] == [DigitChar(hour)];
    assert s[2..] == Pad2(minute);
  }
}
