/** Calendar dates as the views use them: a civil date (year, month 1-12,
    day), its day number counted from 1970-01-01, the day-of-week that
    `getDay` reports, `setDate`-style day arithmetic, and the `YYYY-MM-DD`
    text that `toISOString().slice(0, 10)` and `<input type="date">` use.
    All dates live in one time zone: the difference between local time and
    UTC is not modelled. */
module Dates {
  import opened Common

  datatype Date = Date(year: int, month: int, day: int)

  predicate IsLeap(y: int) {
    y % 4 == 0 && (y % 100 != 0 || y % 400 == 0)
  }

  function DaysInMonth(y: int, m: int): (n: int)
    requires 1 <= m <= 12
    ensures 28 <= n <= 31
    ensures n == 29 <==> m == 2 && IsLeap(y)
  {
    if m == 2 then (if IsLeap(y) then 29 else 28)
    else [31, 28, 31, 30, 31, 30, 31, 31, 30, 31, 30, 31][m - 1]
  }

  /** A date that exists in the proleptic Gregorian calendar. */
  predicate Valid(d: Date) {
    1 <= d.month <= 12 && 1 <= d.day <= DaysInMonth(d.year, d.month)
  }

  /** Leap years in 1..n (for negative n, minus those in n+1..0). */
  function Leaps(n: int): int {
    n / 4 - n / 100 + n / 400
  }

  function DaysBeforeYear(y: int): int {
    365 * (y - 1970) + Leaps(y - 1) - Leaps(1969)
  }

  function DaysBeforeMonth(y: int, m: int): int
    requires 1 <= m <= 12
  {
    [0, 31, 59, 90, 120, 151, 181, 212, 243, 273, 304, 334][m - 1]
    + (if m > 2 && IsLeap(y) then 1 else 0)
  }

  /** Days since 1970-01-01 (negative before it): the value `getTime()`
      divided by the length of a day, for midnight of `d`. */
  function DayNumber(d: Date): int
    requires Valid(d)
  {
    DaysBeforeYear(d.year) + DaysBeforeMonth(d.year, d.month) + d.day - 1
  }

  lemma LeapStep(y: int)
    ensures y / 4 - (y - 1) / 4 == (if y % 4 == 0 then 1 else 0)
    ensures y / 100 - (y - 1) / 100 == (if y % 100 == 0 then 1 else 0)
    ensures y / 400 - (y - 1) / 400 == (if y % 400 == 0 then 1 else 0)
  {
  }

  /** Every 400th year is a 100th year, and every 100th year a 4th year. */
  lemma DivisorFacts(y: int)
    ensures y % 400 == 0 ==> y % 100 == 0
    ensures y % 100 == 0 ==> y % 4 == 0
  {
    if y % 400 == 0 {
      var q := y / 400;
      assert y == 100 * (4 * q);
    }
    if y % 100 == 0 {
      var q := y / 100;
      assert y == 4 * (25 * q);
    }
  }

  /** A year has 366 days exactly when it is a leap year. */
  lemma YearLength(y: int)
    ensures DaysBeforeYear(y + 1) - DaysBeforeYear(y) == (if IsLeap(y) then 366 else 365)
  {
    LeapStep(y);
    DivisorFacts(y);
    assert DaysBeforeYear(y + 1) - DaysBeforeYear(y) == 365 + Leaps(y) - Leaps(y - 1);
  }

  /** Each month's length is the gap between the day counts before it and
      before the next month; December's closes the year. */
  lemma MonthLength(y: int, m: int)
    requires 1 <= m <= 12
    ensures m < 12 ==> DaysBeforeMonth(y, m + 1) - DaysBeforeMonth(y, m) == DaysInMonth(y, m)
    ensures m == 12 ==> DaysBeforeYear(y) + DaysBeforeMonth(y, 12) + 31 == DaysBeforeYear(y + 1)
  {
    if m == 12 {
      YearLength(y);
    }
  }

  /** The day after `d`: the 1st of the next month after the last day of a
      month, and 1 January after 31 December. */
  function NextDay(d: Date): (r: Date)
    requires Valid(d)
    ensures Valid(r) && DayNumber(r) == DayNumber(d) + 1
  {
    if d.day < DaysInMonth(d.year, d.month) then
      Date(d.year, d.month, d.day + 1)
    else if d.month < 12 then
      MonthLength(d.year, d.month);
      Date(d.year, d.month + 1, 1)
    else
      MonthLength(d.year, 12);
      Date(d.year + 1, 1, 1)
  }

  /** The day before `d`. */
  function PrevDay(d: Date): (r: Date)
    requires Valid(d)
    ensures Valid(r) && DayNumber(r) == DayNumber(d) - 1
  {
    if d.day > 1 then
      Date(d.year, d.month, d.day - 1)
    else if d.month > 1 then
      MonthLength(d.year, d.month - 1);
      Date(d.year, d.month - 1, DaysInMonth(d.year, d.month - 1))
    else
      MonthLength(d.year - 1, 12);
      Date(d.year - 1, 12, 31)
  }

  /** `new Date(d); x.setDate(d.getDate() + n)`: the date `n` days after
      (before, when negative) `d`. */
  function AddDays(d: Date, n: int): (r: Date)
    requires Valid(d)
    ensures Valid(r) && DayNumber(r) == DayNumber(d) + n
    decreases if n < 0 then -n else n
  {
    if n == 0 then d
    else if n > 0 then AddDays(NextDay(d), n - 1)
    else AddDays(PrevDay(d), n + 1)
  }

  /** `getDay()`: 0 for Sunday through 6 for Saturday (1970-01-01 was a
      Thursday). */
  function Weekday(d: Date): (w: int)
    requires Valid(d)
    ensures 0 <= w < 7
  {
    (DayNumber(d) + 4) % 7
  }

  /** Going back `Weekday(d)` days from `d` lands on a Sunday no more than
      six days earlier. */
  lemma BackToSunday(d: Date)
    requires Valid(d)
    ensures var s := AddDays(d, -Weekday(d));
            Weekday(s) == 0 && DayNumber(d) - 6 <= DayNumber(s) <= DayNumber(d)
  {
    var n := DayNumber(d);
    var s := AddDays(d, -Weekday(d));
    MinusRemainder(n + 4);
    assert DayNumber(s) + 4 == (n + 4) - (n + 4) % 7;
  }

  lemma MinusRemainder(x: int)
    ensures (x - x % 7) % 7 == 0
  {
  }

  /** Two valid dates are equal exactly when their day numbers are. */
  lemma DayNumberInjective(a: Date, b: Date)
    requires Valid(a) && Valid(b) && DayNumber(a) == DayNumber(b)
    ensures a == b
  {
    SameYear(a, b);
    MonthBounds(a);
    MonthBounds(b);
    if a.month < b.month {
      DaysBeforeMonthMonotone(a.year, a.month + 1, b.month);
    } else if b.month < a.month {
      DaysBeforeMonthMonotone(a.year, b.month + 1, a.month);
    }
  }

  lemma SameYear(a: Date, b: Date)
    requires Valid(a) && Valid(b) && DayNumber(a) == DayNumber(b)
    ensures a.year == b.year
  {
    if a.year < b.year {
      EarlierYear(a, b);
    } else if b.year < a.year {
      EarlierYear(b, a);
    }
  }

  /** A date in an earlier year has a smaller day number. */
  lemma EarlierYear(a: Date, b: Date)
    requires Valid(a) && Valid(b) && a.year < b.year
    ensures DayNumber(a) < DayNumber(b)
  {
    YearBounds(a);
    YearBounds(b);
    DaysBeforeYearMonotone(a.year + 1, b.year);
  }

  /** Dates less than a year apart are at most one calendar year apart. */
  lemma NearbyYear(a: Date, b: Date)
    requires Valid(a) && Valid(b)
    requires DayNumber(a) - 365 <= DayNumber(b) <= DayNumber(a) + 365
    ensures a.year - 1 <= b.year <= a.year + 1
  {
    if b.year > a.year + 1 {
      FarYears(a, b);
    } else if b.year < a.year - 1 {
      FarYears(b, a);
    }
  }

  /** Two calendar years apart is more than 365 days apart. */
  lemma FarYears(a: Date, b: Date)
    requires Valid(a) && Valid(b) && a.year + 2 <= b.year
    ensures DayNumber(b) - DayNumber(a) > 365
  {
    YearBounds(a);
    YearBounds(b);
    DaysBeforeYearMonotone(a.year + 2, b.year);
    YearLength(a.year + 1);
  }

  lemma YearBounds(d: Date)
    requires Valid(d)
    ensures DaysBeforeYear(d.year) <= DayNumber(d) < DaysBeforeYear(d.year + 1)
  {
    YearLength(d.year);
    if d.month < 12 {
      DaysBeforeMonthMonotone(d.year, d.month + 1, 12);
    }
  }

  lemma MonthBounds(d: Date)
    requires Valid(d)
    ensures DaysBeforeYear(d.year) + DaysBeforeMonth(d.year, d.month) <= DayNumber(d)
    ensures d.month < 12 ==>
              DayNumber(d) < DaysBeforeYear(d.year) + DaysBeforeMonth(d.year, d.month + 1)
  {
  }

  lemma {:induction false} DaysBeforeYearMonotone(a: int, b: int)
    requires a <= b
    ensures DaysBeforeYear(a) <= DaysBeforeYear(b)
    decreases b - a
  {
    if a < b {
      YearLength(a);
      DaysBeforeYearMonotone(a + 1, b);
    }
  }

  lemma DaysBeforeMonthMonotone(y: int, a: int, b: int)
    requires 1 <= a <= b <= 12
    ensures DaysBeforeMonth(y, a) <= DaysBeforeMonth(y, b)
  {
  }

  // ---------------------------------------------------------------------
  // Month navigation
  // ---------------------------------------------------------------------

  /** `new Date(y, m - 1)`: the 1st of the month before `d`'s. */
  function PrevMonthStart(d: Date): (r: Date)
    requires Valid(d)
    ensures Valid(r) && r.day == 1
    ensures r.year * 12 + r.month == d.year * 12 + d.month - 1
  {
    if d.month == 1 then Date(d.year - 1, 12, 1) else Date(d.year, d.month - 1, 1)
  }

  /** `new Date(y, m + 1)`: the 1st of the month after `d`'s. */
  function NextMonthStart(d: Date): (r: Date)
    requires Valid(d)
    ensures Valid(r) && r.day == 1
    ensures r.year * 12 + r.month == d.year * 12 + d.month + 1
  {
    if d.month == 12 then Date(d.year + 1, 1, 1) else Date(d.year, d.month + 1, 1)
  }

  /** Going back a month and forward again lands on the 1st of the month
      one started from, across year boundaries too. */
  lemma PrevNextMonth(d: Date)
    requires Valid(d)
    ensures NextMonthStart(PrevMonthStart(d)) == Date(d.year, d.month, 1)
    ensures PrevMonthStart(NextMonthStart(d)) == Date(d.year, d.month, 1)
  {
  }

  // ---------------------------------------------------------------------
  // The YYYY-MM-DD text form
  // ---------------------------------------------------------------------

  predicate IsDigit(c: char) { '0' <= c <= '9' }

  function DigitChar(n: int): (c: char)
    requires 0 <= n < 10
    ensures IsDigit(c) && DigitValue(c) == n
  {
    ('0' as int + n) as char
  }

  function DigitValue(c: char): int
    requires IsDigit(c)
  {
    c as int - '0' as int
  }

  /** The value of the two digits at `s[i]`, `s[i + 1]`. */
  function TwoDigits(s: string, i: int): (n: int)
    requires 0 <= i && i + 2 <= |s| && IsDigit(s[i]) && IsDigit(s[i + 1])
    ensures 0 <= n <= 99
  {
    10 * DigitValue(s[i]) + DigitValue(s[i + 1])
  }

  /** The value of the four digits starting at `s[i]`. */
  function FourDigits(s: string, i: int): (n: int)
    requires 0 <= i && i + 4 <= |s| && forall k :: i <= k < i + 4 ==> IsDigit(s[k])
    ensures 0 <= n <= 9999
  {
    100 * TwoDigits(s, i) + TwoDigits(s, i + 2)
  }

  /** A number in 0..99 written with exactly two digits (`padStart(2, "0")`). */
  function Pad2(n: int): (s: string)
    requires 0 <= n <= 99
    ensures |s| == 2 && IsDigit(s[0]) && IsDigit(s[1])
    ensures TwoDigits(s, 0) == n
  {
    [DigitChar(n / 10), DigitChar(n % 10)]
  }

  /** A number in 0..9999 written with exactly four digits. */
  function Pad4(n: int): (s: string)
    requires 0 <= n <= 9999
    ensures |s| == 4 && forall k :: 0 <= k < 4 ==> IsDigit(s[k])
    ensures FourDigits(s, 0) == n
  {
    Pad2(n / 100) + Pad2(n % 100)
  }

  /** `YYYY-MM-DD`, the key `toISOString().slice(0, 10)` gives for a date
      whose year has four digits. */
  function IsoKey(d: Date): (s: string)
    requires Valid(d) && 0 <= d.year <= 9999
    ensures |s| == 10 && s[4] == '-' && s[7] == '-'
  {
    Pad4(d.year) + "-" + Pad2(d.month) + "-" + Pad2(d.day)
  }

  /** `MM-DD`, the key without its year (`key.slice(5)`). */
  function MonthDayLabel(d: Date): (s: string)
    requires Valid(d) && 0 <= d.year <= 9999
    ensures s == IsoKey(d)[5..]
  {
    var k := IsoKey(d);
    assert k[5..] == Pad2(d.month) + "-" + Pad2(d.day);
    Pad2(d.month) + "-" + Pad2(d.day)
  }

  predicate DigitsAt(s: string, lo: int, hi: int)
    requires 0 <= lo <= hi <= |s|
  {
    forall i :: lo <= i < hi ==> IsDigit(s[i])
  }

  /** Reads `YYYY<sep>MM<sep>DD`: exactly ten characters, digits in the
      digit places, a date that exists. Anything else is `None`. */
  function ParseYmd(s: string, sep: char): (r: Option<Date>)
    ensures r.Some? ==> Valid(r.value) && 0 <= r.value.year <= 9999
    ensures r.Some? ==> |s| == 10 && s[4] == sep && s[7] == sep
  {
    if |s| == 10 && DigitsAt(s, 0, 4) && s[4] == sep && DigitsAt(s, 5, 7) && s[7] == sep
       && DigitsAt(s, 8, 10) then
      var d := Date(FourDigits(s, 0), TwoDigits(s, 5), TwoDigits(s, 8));
      if Valid(d) then Some(d) else None
    else None
  }

  /** Reading back the key of a date gives the date: the key determines the
      date, so distinct dates have distinct keys. */
  lemma ParseIsoKey(d: Date)
    requires Valid(d) && 0 <= d.year <= 9999
    ensures ParseYmd(IsoKey(d), '-') == Some(d)
  {
    var s := IsoKey(d);
    var y, m, dd := Pad4(d.year), Pad2(d.month), Pad2(d.day);
    assert s[0] == y[0] && s[1] == y[1] && s[2] == y[2] && s[3] == y[3];
    assert s[5] == m[0] && s[6] == m[1] && s[8] == dd[0] && s[9] == dd[1];
  }

  lemma IsoKeyInjective(a: Date, b: Date)
    requires Valid(a) && 0 <= a.year <= 9999
    requires Valid(b) && 0 <= b.year <= 9999
    requires IsoKey(a) == IsoKey(b)
    ensures a == b
  {
    ParseIsoKey(a);
    ParseIsoKey(b);
  }
}
