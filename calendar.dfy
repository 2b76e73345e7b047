/**
 * Calendar days and the `MM-DD-YYYY` date keys under which daily reports are stored.
 * Days follow the proleptic Gregorian calendar, as JavaScript dates do.
 */
module Calendar {
  import opened Wrappers

  datatype Date = Date(year: int, month: int, day: int)

  predicate IsLeapYear(y: int) {
    y % 4 == 0 && (y % 100 != 0 || y % 400 == 0)
  }

  function DaysInMonth(y: int, m: int): (n: int)
    requires 1 <= m <= 12
    ensures 28 <= n <= 31
    ensures n == 29 <==> m == 2 && IsLeapYear(y)
  {
    if m == 2 then (if IsLeapYear(y) then 29 else 28)
    else if m == 4 || m == 6 || m == 9 || m == 11 then 30
    else 31
  }

  function DaysInYear(y: int): (n: int)
    ensures n == 365 || n == 366
  {
    if IsLeapYear(y) then 366 else 365
  }

  predicate ValidDate(d: Date) {
    1 <= d.month <= 12 && 1 <= d.day <= DaysInMonth(d.year, d.month)
  }

  /** A day whose year fits the four digits of `YYYY`. */
  predicate KeyDate(d: Date) {
    ValidDate(d) && 0 <= d.year <= 9999
  }

  /** Chronological order: `a` is an earlier day than `b`. */
  predicate Before(a: Date, b: Date) {
    a.year < b.year ||
    (a.year == b.year && (a.month < b.month || (a.month == b.month && a.day < b.day)))
  }

  predicate NotAfter(a: Date, b: Date) {
    a == b || Before(a, b)
  }

  // ---------------------------------------------------------------------
  // Day numbers: an independent reference for the order and for stepping
  // ---------------------------------------------------------------------

  /** Days in the years 0 .. y-1. */
  function DaysBeforeYear(y: nat): nat {
    if y == 0 then 0 else DaysBeforeYear(y - 1) + DaysInYear(y - 1)
  }

  /** Days in the months 1 .. m-1 of year y. */
  function DaysBeforeMonth(y: int, m: int): nat
    requires 1 <= m <= 13
  {
    if m == 1 then 0 else DaysBeforeMonth(y, m - 1) + DaysInMonth(y, m - 1)
  }

  /** Number of days from 0000-01-01 to `d`. */
  function DayNumber(d: Date): int
    requires ValidDate(d) && d.year >= 0
  {
    DaysBeforeYear(d.year) + DaysBeforeMonth(d.year, d.month) + d.day - 1
  }

  lemma MonthsFillYear(y: int, m: int)
    requires 1 <= m <= 12
    ensures DaysBeforeMonth(y, m) + DaysInMonth(y, m) <= DaysInYear(y)
  {
    DaysBeforeMonthMonotone(y, m, 13);
    MonthsTotal(y);
  }

  lemma {:induction false} DaysBeforeMonthMonotone(y: int, m: int, k: int)
    requires 1 <= m < k <= 13
    ensures DaysBeforeMonth(y, m) + DaysInMonth(y, m) <= DaysBeforeMonth(y, k)
    decreases k - m
  {
    if m + 1 < k {
      DaysBeforeMonthMonotone(y, m, k - 1);
      assert DaysBeforeMonth(y, k) == DaysBeforeMonth(y, k - 1) + DaysInMonth(y, k - 1);
    }
  }

  lemma {:induction false} DaysBeforeYearMonotone(y: nat, z: nat)
    requires y < z
    ensures DaysBeforeYear(y) + DaysInYear(y) <= DaysBeforeYear(z)
    decreases z - y
  {
    if y + 1 < z {
      DaysBeforeYearMonotone(y, z - 1);
    }
  }

  /** The chronological order is the order of day numbers. */
  lemma {:induction false} BeforeIsDayNumberOrder(a: Date, b: Date)
    requires ValidDate(a) && ValidDate(b) && a.year >= 0 && b.year >= 0
    ensures Before(a, b) <==> DayNumber(a) < DayNumber(b)
  {
    if a.year < b.year {
      EarlierYear(a, b);
    } else if b.year < a.year {
      EarlierYear(b, a);
    } else if a.month < b.month {
      DaysBeforeMonthMonotone(a.year, a.month, b.month);
    } else if b.month < a.month {
      DaysBeforeMonthMonotone(a.year, b.month, a.month);
    }
  }

  lemma EarlierYear(a: Date, b: Date)
    requires ValidDate(a) && ValidDate(b) && 0 <= a.year < b.year
    ensures DayNumber(a) < DayNumber(b)
  {
    MonthsFillYear(a.year, a.month);
    DaysBeforeYearMonotone(a.year, b.year);
  }

  /** Before is a strict total order on valid days. */
  lemma BeforeIsStrictTotalOrder(a: Date, b: Date, c: Date)
    requires ValidDate(a) && ValidDate(b) && ValidDate(c)
    ensures !Before(a, a)
    ensures a != b ==> Before(a, b) || Before(b, a)
    ensures Before(a, b) ==> !Before(b, a)
    ensures Before(a, b) && Before(b, c) ==> Before(a, c)
  {
  }

  // ---------------------------------------------------------------------
  // Stepping one day back and forth
  // ---------------------------------------------------------------------

  /** The calendar day before `d` (`subtract(1, 'days')`), crossing month and year ends. */
  function Yesterday(d: Date): (r: Date)
    requires ValidDate(d)
    ensures ValidDate(r) && Before(r, d)
  {
    if d.day > 1 then Date(d.year, d.month, d.day - 1)
    else if d.month > 1 then Date(d.year, d.month - 1, DaysInMonth(d.year, d.month - 1))
    else Date(d.year - 1, 12, 31)
  }

  /** The calendar day after `d`. */
  function Tomorrow(d: Date): (r: Date)
    requires ValidDate(d)
    ensures ValidDate(r) && Before(d, r)
  {
    if d.day < DaysInMonth(d.year, d.month) then Date(d.year, d.month, d.day + 1)
    else if d.month < 12 then Date(d.year, d.month + 1, 1)
    else Date(d.year + 1, 1, 1)
  }

  lemma YesterdayTomorrowInverse(d: Date)
    requires ValidDate(d)
    ensures Tomorrow(Yesterday(d)) == d
    ensures Yesterday(Tomorrow(d)) == d
  {
  }

  /** Yesterday is exactly one day number earlier. */
  lemma YesterdayDayNumber(d: Date)
    requires ValidDate(d) && d.year >= 1
    ensures DayNumber(Yesterday(d)) == DayNumber(d) - 1
  {
    if d.day == 1 && d.month == 1 {
      MonthsFillYear(d.year - 1, 12);
      assert DaysBeforeMonth(d.year - 1, 13) == DaysBeforeMonth(d.year - 1, 12) + 31;
      MonthsTotal(d.year - 1);
    }
  }

  lemma MonthsTotal(y: int)
    ensures DaysBeforeMonth(y, 13) == DaysInYear(y)
  {
    var feb := DaysInMonth(y, 2);
    assert DaysBeforeMonth(y, 2) == 31;
    assert DaysBeforeMonth(y, 3) == 31 + feb;
    assert DaysBeforeMonth(y, 4) == 62 + feb;
    assert DaysBeforeMonth(y, 5) == 92 + feb;
    assert DaysBeforeMonth(y, 6) == 123 + feb;
    assert DaysBeforeMonth(y, 7) == 153 + feb;
    assert DaysBeforeMonth(y, 8) == 184 + feb;
    assert DaysBeforeMonth(y, 9) == 215 + feb;
    assert DaysBeforeMonth(y, 10) == 245 + feb;
    assert DaysBeforeMonth(y, 11) == 276 + feb;
    assert DaysBeforeMonth(y, 12) == 306 + feb;
  }

  /** No day lies strictly between Yesterday(d) and d. */
  lemma YesterdayIsImmediatePredecessor(d: Date, e: Date)
    requires ValidDate(d) && ValidDate(e) && Before(e, d)
    ensures NotAfter(e, Yesterday(d))
  {
  }

  // ---------------------------------------------------------------------
  // The MM-DD-YYYY key format
  // ---------------------------------------------------------------------

  predicate IsDigit(c: char) {
    '0' <= c <= '9'
  }

  function DigitChar(n: int): (c: char)
    requires 0 <= n <= 9
    ensures IsDigit(c)
  {
    ('0' as int + n) as char
  }

  function DigitValue(c: char): (n: int)
    requires IsDigit(c)
    ensures 0 <= n <= 9 && DigitChar(n) == c
  {
    c as int - '0' as int
  }

  function Pad2(n: int): (s: string)
    requires 0 <= n <= 99
  {
    [DigitChar(n / 10), DigitChar(n % 10)]
  }

  function Pad4(n: int): (s: string)
    requires 0 <= n <= 9999
  {
    [DigitChar(n / 1000), DigitChar(n / 100 % 10), DigitChar(n / 10 % 10), DigitChar(n % 10)]
  }

  /** `format('MM-DD-YYYY')` of a day. */
  function FormatKey(d: Date): (s: string)
    requires KeyDate(d)
    ensures |s| == 10 && s[2] == '-' && s[5] == '-'
  {
    Pad2(d.month) + "-" + Pad2(d.day) + "-" + Pad4(d.year)
  }

  predicate KeyShaped(s: string) {
    |s| == 10 && s[2] == '-' && s[5] == '-' &&
    IsDigit(s[0]) && IsDigit(s[1]) && IsDigit(s[3]) && IsDigit(s[4]) &&
    IsDigit(s[6]) && IsDigit(s[7]) && IsDigit(s[8]) && IsDigit(s[9])
  }

  /** Reading a string with the format `MM-DD-YYYY`; a string that names no calendar day gives None. */
  function ParseKey(s: string): (r: Option<Date>)
    ensures r.Some? ==> KeyDate(r.value)
  {
    if !KeyShaped(s) then None
    else
      var d := Date(1000 * DigitValue(s[6]) + 100 * DigitValue(s[7]) + 10 * DigitValue(s[8]) + DigitValue(s[9]),
                    10 * DigitValue(s[0]) + DigitValue(s[1]),
                    10 * DigitValue(s[3]) + DigitValue(s[4]));
      if ValidDate(d) then Some(d) else None
  }

  lemma DigitRoundTrip(n: int)
    requires 0 <= n <= 9
    ensures DigitValue(DigitChar(n)) == n
  {
  }

  lemma Split2(n: int)
    requires 0 <= n <= 99
    ensures 0 <= n / 10 <= 9 && 10 * (n / 10) + n % 10 == n
  {
  }

  lemma Split4(n: int)
    requires 0 <= n <= 9999
    ensures 0 <= n / 1000 <= 9
    ensures 1000 * (n / 1000) + 100 * (n / 100 % 10) + 10 * (n / 10 % 10) + n % 10 == n
  {
    var q := n / 10;
    assert n == 10 * q + n % 10;
    var q2 := q / 10;
    assert q == 10 * q2 + q % 10;
    assert n / 100 == q2;
    assert q2 == 10 * (q2 / 10) + q2 % 10;
    assert n / 1000 == q2 / 10;
  }

  lemma Join2(a: int, b: int)
    requires 0 <= a <= 9 && 0 <= b <= 9
    ensures (10 * a + b) / 10 == a && (10 * a + b) % 10 == b
  {
  }

  lemma Join4(a: int, b: int, c: int, d: int)
    requires 0 <= a <= 9 && 0 <= b <= 9 && 0 <= c <= 9 && 0 <= d <= 9
    ensures var n := 1000 * a + 100 * b + 10 * c + d;
      n / 1000 == a && n / 100 % 10 == b && n / 10 % 10 == c && n % 10 == d
  {
    var n := 1000 * a + 100 * b + 10 * c + d;
    assert n == 10 * (100 * a + 10 * b + c) + d;
    assert n / 10 == 100 * a + 10 * b + c;
    assert n / 10 == 10 * (10 * a + b) + c;
    assert n / 100 == 10 * a + b;
    assert n / 1000 == a;
  }

  /** Formatting a day and reading it back gives the same day. */
  lemma ParseFormatKey(d: Date)
    requires KeyDate(d)
    ensures ParseKey(FormatKey(d)) == Some(d)
  {
    var s := FormatKey(d);
    Split2(d.month);
    Split2(d.day);
    Split4(d.year);
    DigitRoundTrip(d.month / 10);
    DigitRoundTrip(d.month % 10);
    DigitRoundTrip(d.day / 10);
    DigitRoundTrip(d.day % 10);
    DigitRoundTrip(d.year / 1000);
    DigitRoundTrip(d.year / 100 % 10);
    DigitRoundTrip(d.year / 10 % 10);
    DigitRoundTrip(d.year % 10);
    assert KeyShaped(s);
    assert 10 * DigitValue(s[0]) + DigitValue(s[1]) == d.month;
    assert 10 * DigitValue(s[3]) + DigitValue(s[4]) == d.day;
    assert 1000 * DigitValue(s[6]) + 100 * DigitValue(s[7]) + 10 * DigitValue(s[8]) + DigitValue(s[9]) == d.year;
  }

  /** A string that reads as a day is exactly that day's formatted key. */
  lemma FormatParseKey(s: string)
    requires ParseKey(s).Some?
    ensures FormatKey(ParseKey(s).value) == s
  {
    var d := ParseKey(s).value;
    Join2(DigitValue(s[0]), DigitValue(s[1]));
    Join2(DigitValue(s[3]), DigitValue(s[4]));
    Join4(DigitValue(s[6]), DigitValue(s[7]), DigitValue(s[8]), DigitValue(s[9]));
    var t := FormatKey(d);
    assert t[0] == s[0] && t[1] == s[1];
    assert t[3] == s[3] && t[4] == s[4];
    assert t[6] == s[6] && t[7] == s[7] && t[8] == s[8] && t[9] == s[9];
    assert t == s;
  }

  /**
   * Chronological order is not the lexical order of keys: "01-05-2022" sorts before
   * "12-01-2021" character by character, yet it is the later day.
   */
  lemma KeyOrderIsNotLexical()
    ensures ParseKey("01-05-2022") == Some(Date(2022, 1, 5))
    ensures ParseKey("12-01-2021") == Some(Date(2021, 12, 1))
    ensures "01-05-2022"[0] < "12-01-2021"[0]
    ensures Before(Date(2021, 12, 1), Date(2022, 1, 5))
  {
  }

  /** The day before 03-01-2020 is the leap day 02-29-2020; the day before 01-01-2021 is 12-31-2020. */
  lemma YesterdayExamples()
    ensures FormatKey(Yesterday(Date(2020, 3, 1))) == "02-29-2020"
    ensures FormatKey(Yesterday(Date(2021, 3, 1))) == "02-28-2021"
    ensures FormatKey(Yesterday(Date(2021, 1, 1))) == "12-31-2020"
  {
    assert Yesterday(Date(2020, 3, 1)) == Date(2020, 2, 29);
    assert Yesterday(Date(2021, 3, 1)) == Date(2021, 2, 28);
    assert Yesterday(Date(2021, 1, 1)) == Date(2020, 12, 31);
  }
}
