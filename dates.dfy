/** Calendar dates as Python's `datetime.date` handles them: the proleptic
    Gregorian calendar over years 1..9999, day numbers as `date.toordinal()`
    gives them, the `"%d.%m.%Y"`, `"%H:%M:%S"` and ISO renderings, and
    `datetime.strptime(s, "%d.%m.%Y")`. */
module Dates {
  import opened Outcomes
  import opened Text

  datatype Date = Date(year: int, month: int, day: int)

  predicate IsLeap(y: int)
  {
    y % 4 == 0 && (y % 100 != 0 || y % 400 == 0)
  }

  function DaysInMonth(y: int, m: int): (n: int)
    requires 1 <= m <= 12
    ensures 28 <= n <= 31
  {
    if m == 2 then (if IsLeap(y) then 29 else 28)
    else if m == 4 || m == 6 || m == 9 || m == 11 then 30
    else 31
  }

  /** `datetime.date(year, month, day)` accepts these and raises ValueError otherwise. */
  predicate IsValid(d: Date)
  {
    1 <= d.year <= 9999 && 1 <= d.month <= 12 && 1 <= d.day <= DaysInMonth(d.year, d.month)
  }

  type CivilDate = d: Date | IsValid(d) witness Date(1970, 1, 1)

  /** `date.max.toordinal()` */
  const MaxOrdinal := 3652059

  function DaysBeforeYear(y: int): int
    requires 1 <= y
  {
    var z := y - 1;
    z * 365 + z / 4 - z / 100 + z / 400
  }

  function DaysBeforeMonth(y: int, m: int): (n: int)
    requires 1 <= m <= 12
    ensures 0 <= n <= 335
  {
    var table := [0, 31, 59, 90, 120, 151, 181, 212, 243, 273, 304, 334];
    table[m - 1] + (if m > 2 && IsLeap(y) then 1 else 0)
  }

  /** `date.toordinal()`: 1 January of year 1 is day 1. */
  function Ordinal(d: CivilDate): (o: int)
    ensures 1 <= o <= MaxOrdinal
  {
    OrdinalBounds(d);
    DaysBeforeYear(d.year) + DaysBeforeMonth(d.year, d.month) + d.day
  }

  lemma OrdinalBounds(d: CivilDate)
    ensures 1 <= DaysBeforeYear(d.year) + DaysBeforeMonth(d.year, d.month) + d.day <= MaxOrdinal
  {
    var z := d.year - 1;
    assert z / 400 <= z / 100;
    if d.year < 9999 {
      assert z * 365 + z / 4 <= 9997 * 365 + 2499;
    } else {
      assert DaysBeforeYear(d.year) == 3651694;
      assert !IsLeap(9999);
    }
  }

  /** A reading of the wall clock (`datetime.now()`). */
  datatype Moment = Moment(date: CivilDate, hour: int, minute: int, second: int)

  type Clock = t: Moment | 0 <= t.hour < 24 && 0 <= t.minute < 60 && 0 <= t.second < 60
    witness Moment(Date(1970, 1, 1), 0, 0, 0)

  /** `strftime("%d.%m.%Y")` */
  function FormatDmy(d: CivilDate): (s: string)
    ensures |s| == 10 && s[2] == '.' && s[5] == '.'
  {
    Pad2(d.day) + "." + Pad2(d.month) + "." + Pad4(d.year)
  }

  /** `strftime("%H:%M:%S")` */
  function FormatTime(t: Clock): (s: string)
    ensures |s| == 8 && s[2] == ':' && s[5] == ':'
    ensures AllDigits(s[..2]) && DigitsValue(s[..2]) == t.hour
    ensures AllDigits(s[3..5]) && DigitsValue(s[3..5]) == t.minute
    ensures AllDigits(s[6..]) && DigitsValue(s[6..]) == t.second
  {
    var h, m, sec := Pad2(t.hour), Pad2(t.minute), Pad2(t.second);
    var s := h + ":" + m + ":" + sec;
    assert s[..2] == h && s[3..5] == m && s[6..] == sec;
    s
  }

  /** `str(date)`, the ISO form `YYYY-MM-DD`. */
  function FormatIso(d: CivilDate): (s: string)
    ensures |s| == 10 && s[4] == '-' && s[7] == '-'
    ensures AllDigits(s[..4]) && DigitsValue(s[..4]) == d.year
    ensures AllDigits(s[5..7]) && DigitsValue(s[5..7]) == d.month
    ensures AllDigits(s[8..]) && DigitsValue(s[8..]) == d.day
  {
    var y, m, day := Pad4(d.year), Pad2(d.month), Pad2(d.day);
    var s := y + "-" + m + "-" + day;
    assert s[..4] == y && s[5..7] == m && s[8..] == day;
    s
  }

  /** The `%d` directive of strptime: `3[01]|[12]\d|0[1-9]|[1-9]| [1-9]`. */
  function DayToken(t: string): (r: Option<int>)
    ensures r.Some? ==> 1 <= r.value <= 31
  {
    if |t| == 1 && '1' <= t[0] <= '9' then Some(DigitValue(t[0]))
    else if |t| != 2 then None
    else if t[0] == '3' && (t[1] == '0' || t[1] == '1') then Some(30 + DigitValue(t[1]))
    else if (t[0] == '1' || t[0] == '2') && IsDigit(t[1]) then Some(DigitValue(t[0]) * 10 + DigitValue(t[1]))
    else if (t[0] == '0' || t[0] == ' ') && '1' <= t[1] <= '9' then Some(DigitValue(t[1]))
    else None
  }

  /** The `%m` directive of strptime: `1[0-2]|0[1-9]|[1-9]`. */
  function MonthToken(t: string): (r: Option<int>)
    ensures r.Some? ==> 1 <= r.value <= 12
  {
    if |t| == 1 && '1' <= t[0] <= '9' then Some(DigitValue(t[0]))
    else if |t| != 2 then None
    else if t[0] == '1' && '0' <= t[1] <= '2' then Some(10 + DigitValue(t[1]))
    else if t[0] == '0' && '1' <= t[1] <= '9' then Some(DigitValue(t[1]))
    else None
  }

  /** The `%Y` directive of strptime: exactly four digits. */
  function YearToken(t: string): (r: Option<int>)
    ensures r.Some? ==> 0 <= r.value <= 9999
  {
    if |t| == 4 && AllDigits(t) then DigitsValueBound(t); Some(DigitsValue(t)) else None
  }

  function Pow10(n: nat): (p: nat)
    ensures p >= 1
  {
    if n == 0 then 1 else 10 * Pow10(n - 1)
  }

  lemma {:induction false} DigitsValueBound(s: string)
    requires AllDigits(s)
    ensures DigitsValue(s) < Pow10(|s|)
    decreases |s|
  {
    if |s| > 0 {
      DigitsValueBound(s[..|s| - 1]);
    }
  }

  /** `datetime.strptime(s, "%d.%m.%Y").date()`, or None where strptime raises
      ValueError. No directive matches a ".", so the three fields are exactly
      the three "."-separated pieces, and the whole string must be consumed. */
  function ParseDmy(s: string): (r: Option<CivilDate>)
    ensures r.Some? ==> MatchesDmy(s)
  {
    var parts := Split(s, '.');
    if |parts| != 3 then None
    else
      match (DayToken(parts[0]), MonthToken(parts[1]), YearToken(parts[2]))
      case (Some(d), Some(m), Some(y)) =>
        if 1 <= y && d <= DaysInMonth(y, m) then Some(Date(y, m, d)) else None
      case _ => None
  }

  lemma NoDotInDigits(s: string)
    requires AllDigits(s)
    ensures '.' !in s && '/' !in s
  {
  }

  /** The date rendering contains no "/", so it is the last segment of any
      path that ends with it. */
  lemma FormatDmyHasNoSlash(d: CivilDate)
    ensures '/' !in FormatDmy(d)
  {
    NoDotInDigits(Pad2(d.day));
    NoDotInDigits(Pad2(d.month));
    NoDotInDigits(Pad4(d.year));
  }

  lemma DayTokenOfPad2(n: int)
    requires 1 <= n <= 31
    ensures DayToken(Pad2(n)) == Some(n)
  {
    var t := Pad2(n);
    DigitValueOfDigit(n / 10);
    DigitValueOfDigit(n % 10);
    assert t[0] == Digit(n / 10) && t[1] == Digit(n % 10);
  }

  lemma MonthTokenOfPad2(n: int)
    requires 1 <= n <= 12
    ensures MonthToken(Pad2(n)) == Some(n)
  {
    var t := Pad2(n);
    DigitValueOfDigit(n / 10);
    DigitValueOfDigit(n % 10);
    assert t[0] == Digit(n / 10) && t[1] == Digit(n % 10);
  }

  lemma SplitThree(a: string, b: string, c: string)
    requires '.' !in a && '.' !in b && '.' !in c
    ensures Split(a + "." + b + "." + c, '.') == [a, b, c]
  {
    assert a + "." + b + "." + c == a + ['.'] + (b + ['.'] + c);
    SplitAtFirst(a, b + ['.'] + c, '.');
    SplitAtFirst(b, c, '.');
    SplitWithoutSeparator(c, '.');
  }

  /** strptime reads back what strftime wrote: `"%d.%m.%Y"` round-trips. */
  lemma {:induction false} ParseFormatDmy(d: CivilDate)
    ensures ParseDmy(FormatDmy(d)) == Some(d)
  {
    var dd, mm, yy := Pad2(d.day), Pad2(d.month), Pad4(d.year);
    NoDotInDigits(dd);
    NoDotInDigits(mm);
    NoDotInDigits(yy);
    SplitThree(dd, mm, yy);
    DayTokenOfPad2(d.day);
    MonthTokenOfPad2(d.month);
  }

  /** strptime accepts a one-digit day and month as well. */
  lemma ParseDmyShortFields()
    ensures ParseDmy("5.1.2024") == Some(Date(2024, 1, 5))
  {
    assert "5" + "." + "1" + "." + "2024" == "5.1.2024";
    SplitThree("5", "1", "2024");
    assert DayToken("5") == Some(5);
    assert MonthToken("1") == Some(1);
    YearDigits2024();
    assert YearToken("2024") == Some(2024);
    assert DaysInMonth(2024, 1) == 31;
  }

  lemma YearDigits2024()
    ensures DigitsValue("2024") == 2024
  {
    assert "2024"[..3] == "202" && "202"[..2] == "20" && "20"[..1] == "2" && "2"[..0] == "";
  }

  /** The three fields match `%d`, `%m` and `%Y`: strptime's pattern accepts
      the string, whether or not it names a day of the calendar. */
  predicate MatchesDmy(s: string)
  {
    var parts := Split(s, '.');
    |parts| == 3 && DayToken(parts[0]).Some? && MonthToken(parts[1]).Some? && YearToken(parts[2]).Some?
  }

  /** The message of strptime's ValueError for a string its pattern refuses;
      `%r` of the string is rendered as the string in single quotes. */
  function StrptimeMessage(s: string): string
  {
    "time data '" + s + "' does not match format '%d.%m.%Y'"
  }

  /** A string the pattern accepts is refused only by `datetime.date`'s range
      checks: year 0, or a day past the end of its month. */
  lemma MatchedButRefused(s: string)
    requires MatchesDmy(s)
    ensures var parts := Split(s, '.');
      var d, m, y := DayToken(parts[0]).value, MonthToken(parts[1]).value, YearToken(parts[2]).value;
      ParseDmy(s).None? <==> y == 0 || d > DaysInMonth(y, m)
  {
  }

  /** The ValueError `datetime.strptime(s, "%d.%m.%Y")` raises: the pattern
      mismatch, or, for a string the pattern accepts, the check of
      `datetime.date(year, month, day)` that fails first (the year, then the
      day; the month is in range by the pattern). */
  function StrptimeFailure(s: string): (e: Exception)
    requires ParseDmy(s).None?
    ensures e.cls == ValueError
    ensures e.message == StrptimeMessage(s) <==> !MatchesDmy(s)
  {
    if !MatchesDmy(s) then Exception(ValueError, StrptimeMessage(s))
    else if YearToken(Split(s, '.')[2]).value == 0 then Exception(ValueError, "year 0 is out of range")
    else Exception(ValueError, "day is out of range for month")
  }

  /** A day past the end of its month matches the pattern and is refused by
      the day check. */
  lemma ParseDmyDayOutOfRange()
    ensures ParseDmy("30.02.2024") == None
    ensures StrptimeFailure("30.02.2024") == Exception(ValueError, "day is out of range for month")
  {
    assert "30" + "." + "02" + "." + "2024" == "30.02.2024";
    SplitThree("30", "02", "2024");
    assert DayToken("30") == Some(30);
    assert MonthToken("02") == Some(2);
    YearDigits2024();
    assert YearToken("2024") == Some(2024);
  }

  /** A two-digit year does not match `%Y`: the pattern mismatch is reported. */
  lemma ParseDmyShortYear()
    ensures ParseDmy("05.01.24") == None
    ensures StrptimeFailure("05.01.24") == Exception(ValueError, StrptimeMessage("05.01.24"))
  {
    assert "05" + "." + "01" + "." + "24" == "05.01.24";
    SplitThree("05", "01", "24");
    assert YearToken("24") == None;
  }
}
