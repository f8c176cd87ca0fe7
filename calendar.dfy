/** Proleptic Gregorian calendar arithmetic in the style of ECMAScript's
    `MakeDay`: a date is a day number counted from 1970-01-01, months are
    numbered 0..11 as `Date.prototype.getMonth` returns them, and a month or day
    outside its range rolls over into the neighbouring month or year.
    Time zones are not modelled: a `YYYY-MM-DD` string and a local midnight
    denote the same instant. */
module Calendar {

  type Month = m: int | 0 <= m < 12

  /** A calendar date; `month` is 0-based and `day` 1-based, as in JavaScript. */
  datatype Date = Date(year: int, month: Month, day: int)

  /** Milliseconds in a day (`1000 * 60 * 60 * 24`). */
  const DAY_MS: int := 86400000

  predicate IsLeapYear(y: int)
  {
    y % 4 == 0 && (y % 100 != 0 || y % 400 == 0)
  }

  function DaysInYear(y: int): (n: int)
    ensures n == (if IsLeapYear(y) then 366 else 365)
  {
    if IsLeapYear(y) then 366 else 365
  }

  function DaysInMonth(y: int, m: Month): (n: int)
    ensures 28 <= n <= 31
    ensures m == 1 ==> (n == 29 <==> IsLeapYear(y))
  {
    if m == 1 then (if IsLeapYear(y) then 29 else 28)
    else if m == 3 || m == 5 || m == 8 || m == 10 then 30
    else 31
  }

  predicate ValidDate(d: Date)
  {
    1 <= d.day <= DaysInMonth(d.year, d.month)
  }

  /** Number of days from 1970-01-01 to January 1st of year `y` (negative before 1970). */
  function DaysBeforeYear(y: int): int
    decreases if y < 1970 then 1970 - y else y - 1970
  {
    if y == 1970 then 0
    else if y > 1970 then DaysBeforeYear(y - 1) + DaysInYear(y - 1)
    else DaysBeforeYear(y + 1) - DaysInYear(y)
  }

  /** Number of days from January 1st to the first day of month `m` of year `y`. */
  function DaysBeforeMonth(y: int, m: Month): int
  {
    [0, 31, 59, 90, 120, 151, 181, 212, 243, 273, 304, 334][m]
      + (if m >= 2 && IsLeapYear(y) then 1 else 0)
  }

  /** ECMAScript `MakeDay(year, month, date)`: the day number of `new Date(year, month, date)`,
      with `month` and `date` allowed to fall outside their ranges. */
  function MakeDay(year: int, month: int, date: int): int
  {
    var y := year + month / 12;
    var m := month % 12;
    DaysBeforeYear(y) + DaysBeforeMonth(y, m) + date - 1
  }

  /** The day number of a calendar date. */
  function DayNumber(d: Date): int
  {
    MakeDay(d.year, d.month, d.day)
  }

  /** `Date.prototype.getDay` of a day number: 0 for Sunday; 1970-01-01 was a Thursday. */
  function Weekday(dn: int): (w: int)
    ensures 0 <= w < 7
  {
    (dn + 4) % 7
  }

  /** Day number of the first day of the month with absolute index `k` (= 12 * year + month). */
  function MonthStart(k: int): int
  {
    MakeDay(0, k, 1)
  }

  /** Number of days in the month with absolute index `k`. */
  function MonthLength(k: int): (n: int)
    ensures 28 <= n <= 31
  {
    DaysInMonth(k / 12, k % 12)
  }

  lemma DaysBeforeYearStep(y: int)
    ensures DaysBeforeYear(y + 1) == DaysBeforeYear(y) + DaysInYear(y)
  {
  }

  /** The months of a year fill it exactly. */
  lemma DecemberEndsYear(y: int)
    ensures DaysBeforeMonth(y, 11) + DaysInMonth(y, 11) == DaysInYear(y)
  {
  }

  /** A month begins where the previous one ends, across year boundaries too. */
  lemma MonthStartStep(k: int)
    ensures MonthStart(k + 1) == MonthStart(k) + MonthLength(k)
  {
    var y, m := k / 12, k % 12;
    assert k == 12 * y + m;
    if m == 11 {
      assert (k + 1) / 12 == y + 1 && (k + 1) % 12 == 0;
      DaysBeforeYearStep(y);
      DecemberEndsYear(y);
    } else {
      assert (k + 1) / 12 == y && (k + 1) % 12 == m + 1;
    }
  }

  /** Later months start later: a month ends no later than any later month begins. */
  lemma {:induction false} MonthStartMonotone(j: int, k: int)
    requires j < k
    ensures MonthStart(j) + MonthLength(j) <= MonthStart(k)
    decreases k - j
  {
    MonthStartStep(j);
    if j + 1 < k {
      MonthStartMonotone(j + 1, k);
    }
  }

  /** The day number of a valid date lies within its own month `k`. */
  lemma DateInItsMonth(d: Date, k: int)
    requires ValidDate(d) && k == 12 * d.year + d.month
    ensures MonthStart(k) <= DayNumber(d) < MonthStart(k) + MonthLength(k)
  {
    assert k / 12 == d.year && k % 12 == d.month;
    assert d.month / 12 == 0 && d.month % 12 == d.month;
    var start := DaysBeforeYear(d.year) + DaysBeforeMonth(d.year, d.month);
    assert MonthStart(k) == start;
    assert DayNumber(d) == start + d.day - 1;
    assert MonthLength(k) == DaysInMonth(d.year, d.month);
  }

  /** A valid date falls between the first and the last day of a month exactly when it
      belongs to that month: the windows `new Date(y, m, 1)` .. `new Date(y, m + 1, 0)`
      select a calendar month. */
  lemma MonthWindow(d: Date, k: int)
    requires ValidDate(d)
    ensures MonthStart(k) <= DayNumber(d) < MonthStart(k) + MonthLength(k)
        <==> 12 * d.year + d.month == k
  {
    var kd := 12 * d.year + d.month;
    DateInItsMonth(d, kd);
    if kd < k {
      MonthStartMonotone(kd, k);
    } else if kd > k {
      MonthStartMonotone(k, kd);
    } else {
      DateInItsMonth(d, k);
    }
  }

  /** `new Date(y, m + 1, 0)` is the last day of month `m` of year `y`, whose absolute
      index is `k`; with `m == 0` this is `new Date(y, 1, 0)`, and with `m == -1` the
      last day of December of the year before. */
  lemma LastDayOfMonth(y: int, m: int, k: int)
    requires k == 12 * y + m
    ensures MakeDay(y, m + 1, 0) == MonthStart(k) + MonthLength(k) - 1
  {
    assert (y + (m + 1) / 12) == (k + 1) / 12 && (m + 1) % 12 == (k + 1) % 12;
    assert MakeDay(y, m + 1, 0) == MonthStart(k + 1) - 1;
    MonthStartStep(k);
  }

  /** `new Date(y, m, 1)` is the first day of the month with absolute index `k`. */
  lemma FirstDayOfMonth(y: int, m: int, k: int)
    requires k == 12 * y + m
    ensures MakeDay(y, m, 1) == MonthStart(k)
  {
    assert (y + m / 12) == k / 12 && m % 12 == k % 12;
  }

  /** The window `new Date(y, m, 1)` .. `new Date(y, m + 1, 0)` (inclusive) holds a valid
      date exactly when the date is in month `m` of year `y`, after rollover. */
  lemma MonthWindowDays(d: Date, y: int, m: int)
    requires ValidDate(d)
    ensures MakeDay(y, m, 1) <= DayNumber(d) <= MakeDay(y, m + 1, 0) <==> 12 * d.year + d.month == 12 * y + m
  {
    var k := 12 * y + m;
    FirstDayOfMonth(y, m, k);
    LastDayOfMonth(y, m, k);
    MonthWindow(d, k);
  }

  /** Shifting the day argument of `MakeDay` shifts the day number by the same amount. */
  lemma MakeDayShift(y: int, m: int, d: int, n: int)
    ensures MakeDay(y, m, d + n) == MakeDay(y, m, d) + n
  {
  }

  /** The Sunday-based week of `today`: the seven days starting at `today - getDay()`
      are exactly the days in the same Sunday-to-Saturday week. */
  lemma WeekWindow(today: int, dn: int)
    ensures today - Weekday(today) <= dn < today - Weekday(today) + 7
        <==> (dn + 4) / 7 == (today + 4) / 7
  {
    var q := (today + 4) / 7;
    assert today - Weekday(today) == 7 * q - 4;
  }

  // ---------------------------------------------------------------------------
  // Instants
  // ---------------------------------------------------------------------------

  /** The clock reading `new Date()`: today's date and the milliseconds since midnight. */
  datatype Clock = Clock(today: Date, msOfDay: int)

  predicate ValidClock(c: Clock)
  {
    ValidDate(c.today) && 0 <= c.msOfDay < DAY_MS
  }

  /** `new Date().getTime()`, counted in milliseconds from 1970-01-01. */
  function NowMs(c: Clock): int
  {
    DayNumber(c.today) * DAY_MS + c.msOfDay
  }

  /** `new Date("YYYY-MM-DD").getTime()`: midnight of the date. */
  function MidnightMs(d: Date): int
  {
    DayNumber(d) * DAY_MS
  }

  /** `Math.ceil(a / b)` for a positive divisor. */
  function CeilDiv(a: int, b: int): (q: int)
    requires b > 0
    ensures b * (q - 1) < a <= b * q
  {
    -((-a) / b)
  }
}
