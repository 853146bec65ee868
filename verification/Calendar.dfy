/** The proleptic Gregorian calendar behind Python's `date`: a date is its ordinal, 1 January of
    year 1 being 1. */
module Calendar {
  import opened Common

  type Date = int

  function DaysBeforeYear(y: int): int {
    var p := y - 1;
    p * 365 + p / 4 - p / 100 + p / 400
  }

  predicate IsLeap(y: int) { y % 4 == 0 && (y % 100 != 0 || y % 400 == 0) }

  function DaysInYear(y: int): int { if IsLeap(y) then 366 else 365 }

  lemma YearStep(y: int)
    ensures DaysBeforeYear(y + 1) == DaysBeforeYear(y) + DaysInYear(y)
  {
    var p := y - 1;
    assert (p + 1) / 4 == p / 4 + (if y % 4 == 0 then 1 else 0);
    assert (p + 1) / 100 == p / 100 + (if y % 100 == 0 then 1 else 0);
    assert (p + 1) / 400 == p / 400 + (if y % 400 == 0 then 1 else 0);
    assert y % 400 == 0 ==> y % 100 == 0;
    assert y % 100 == 0 ==> y % 4 == 0;
  }

  lemma {:induction false} YearsIncrease(y: int, z: int)
    requires y <= z
    ensures DaysBeforeYear(y) + (z - y) * 365 <= DaysBeforeYear(z)
    decreases z - y
  {
    if y < z {
      YearStep(z - 1);
      YearsIncrease(y, z - 1);
    }
  }

  /** The year a date falls in, found by walking from year `y`. */
  function YearFrom(y: int, d: Date): int
    decreases Max(d - DaysBeforeYear(y + 1), DaysBeforeYear(y) + 1 - d)
  {
    YearStep(y - 1); YearStep(y); YearStep(y + 1);
    if d > DaysBeforeYear(y + 1) then YearFrom(y + 1, d)
    else if d <= DaysBeforeYear(y) then YearFrom(y - 1, d)
    else y
  }

  function Year(d: Date): int { YearFrom(1, d) }

  lemma YearGrows(y: int)
    ensures DaysBeforeYear(y) < DaysBeforeYear(y + 1)
  {
    YearStep(y);
  }

  lemma {:induction false} YearFromBounds(y: int, d: Date)
    ensures DaysBeforeYear(YearFrom(y, d)) < d <= DaysBeforeYear(YearFrom(y, d) + 1)
    decreases Max(d - DaysBeforeYear(y + 1), DaysBeforeYear(y) + 1 - d)
  {
    hide DaysBeforeYear;
    YearGrows(y - 1);
    YearGrows(y);
    YearGrows(y + 1);
    if d > DaysBeforeYear(y + 1) {
      YearFromBounds(y + 1, d);
    } else if d <= DaysBeforeYear(y) {
      YearFromBounds(y - 1, d);
    }
  }

  lemma YearBounds(d: Date)
    ensures DaysBeforeYear(Year(d)) < d <= DaysBeforeYear(Year(d) + 1)
  {
    YearFromBounds(1, d);
  }

  lemma YearUnique(d: Date, y: int)
    ensures Year(d) == y <==> DaysBeforeYear(y) < d <= DaysBeforeYear(y + 1)
  {
    YearBounds(d);
    if Year(d) < y { YearsIncrease(Year(d) + 1, y); }
    if y < Year(d) { YearsIncrease(y + 1, Year(d)); }
  }

  function DaysBeforeMonth(y: int, m: int): int
    requires 1 <= m <= 12
  {
    [0, 31, 59, 90, 120, 151, 181, 212, 243, 273, 304, 334][m - 1] + (if m > 2 && IsLeap(y) then 1 else 0)
  }

  function MonthLength(y: int, m: int): int
    requires 1 <= m <= 12
  {
    (if m == 12 then DaysInYear(y) else DaysBeforeMonth(y, m + 1)) - DaysBeforeMonth(y, m)
  }

  /** Python's `date(y, m, d)`. */
  function Ymd(y: int, m: int, d: int): Date
    requires 1 <= m <= 12
  {
    DaysBeforeYear(y) + DaysBeforeMonth(y, m) + d
  }

  /** The months have their usual lengths. */
  lemma MonthLengthsAre(y: int, m: int)
    requires 1 <= m <= 12
    ensures MonthLength(y, m) ==
            if m == 2 then (if IsLeap(y) then 29 else 28) else if m == 4 || m == 6 || m == 9 || m == 11 then 30 else 31
  {}

  function MonthFrom(y: int, dayOfYear: int, m: int): (r: int)
    requires 1 <= m <= 12
    ensures 1 <= r <= m
  {
    if m > 1 && dayOfYear <= DaysBeforeMonth(y, m) then MonthFrom(y, dayOfYear, m - 1) else m
  }

  function Month(d: Date): (m: int)
    ensures 1 <= m <= 12
  {
    MonthFrom(Year(d), d - DaysBeforeYear(Year(d)), 12)
  }

  lemma {:induction false} MonthFromFinds(y: int, m: int, d: int, n: int)
    requires 1 <= m <= n <= 12 && 1 <= d <= MonthLength(y, m)
    ensures MonthFrom(y, DaysBeforeMonth(y, m) + d, n) == m
  {
    if m < n {
      assert DaysBeforeMonth(y, m) + d <= DaysBeforeMonth(y, m + 1) <= DaysBeforeMonth(y, n);
      MonthFromFinds(y, m, d, n - 1);
    }
  }

  function Day(d: Date): int {
    d - DaysBeforeYear(Year(d)) - DaysBeforeMonth(Year(d), Month(d))
  }

  function JanFirst(y: int): Date { Ymd(y, 1, 1) }

  function DecLast(y: int): Date { Ymd(y, 12, 31) }

  /** Year, month and day read back what `Ymd` was built from, for every valid calendar date. */
  lemma YmdReadsBack(y: int, m: int, d: int)
    requires 1 <= m <= 12 && 1 <= d <= MonthLength(y, m)
    ensures Year(Ymd(y, m, d)) == y && Month(Ymd(y, m, d)) == m && Day(Ymd(y, m, d)) == d
  {
    YearStep(y);
    YearUnique(Ymd(y, m, d), y);
    MonthFromFinds(y, m, d, 12);
  }

  /** A date lies between 1 January and 31 December of a year iff that is its year. */
  lemma InYear(d: Date, y: int)
    ensures JanFirst(y) <= d <= DecLast(y) <==> Year(d) == y
  {
    YearUnique(d, y);
    YearStep(y);
  }

  /** Python's `weekday()`: Monday is 0. */
  function Weekday(d: Date): int { (d + 6) % 7 }

  predicate IsWeekday(d: Date) { Weekday(d) < 5 }

  /** The weekday goes on day by day, and 1 January 2024 was a Monday. */
  lemma WeekdayGoesOn(d: Date)
    ensures Weekday(d + 1) == (Weekday(d) + 1) % 7 && 0 <= Weekday(d) < 7
    ensures Weekday(Ymd(2024, 1, 1)) == 0
  {}

  /** Monday to Friday between two dates, inclusive, without the holidays. */
  function Workdays(start: Date, end: Date, holidays: set<Date>): set<Date> {
    set d | start <= d <= end && IsWeekday(d) && d !in holidays
  }

  function Weekdays(start: Date, end: Date): set<Date> {
    set d | start <= d <= end && IsWeekday(d)
  }

  lemma ExtendWorkdays(start: Date, end: Date, holidays: set<Date>)
    requires start <= end
    ensures |Workdays(start, end, holidays)| ==
            |Workdays(start, end - 1, holidays)| + (if IsWeekday(end) && end !in holidays then 1 else 0)
  {
    var w := Workdays(start, end - 1, holidays);
    assert Workdays(start, end, holidays) == if IsWeekday(end) && end !in holidays then w + {end} else w;
  }

  function Worked(d: Date): nat { if IsWeekday(d) then 1 else 0 }

  /** The weekdays among the `n` days from `start`, counted one by one. */
  function WeekdayCount(start: Date, n: nat): nat {
    if n == 0 then 0 else WeekdayCount(start, n - 1) + Worked(start + n - 1)
  }

  lemma {:induction false} WeekdayCountIsCardinality(start: Date, n: nat)
    ensures |Weekdays(start, start + n - 1)| == WeekdayCount(start, n)
  {
    if n == 0 {
      assert Weekdays(start, start - 1) == {};
    } else {
      var end := start + n - 1;
      WeekdayCountIsCardinality(start, n - 1);
      var w := Weekdays(start, end - 1);
      assert Weekdays(start, end) == if IsWeekday(end) then w + {end} else w;
    }
  }

  lemma NextWeekday(d: Date)
    ensures 0 <= Weekday(d) < 7
    ensures Weekday(d + 1) == if Weekday(d) == 6 then 0 else Weekday(d) + 1
  {}

  /** Any seven consecutive days hold five weekdays. */
  lemma WeekHasFive(start: Date, n: nat)
    ensures WeekdayCount(start, n + 7) == WeekdayCount(start, n) + 5
  {
    var d := start + n;
    SevenDays(start, n);
    hide Weekday, WeekdayCount;
    NextWeekday(d);
    NextWeekday(d + 1);
    NextWeekday(d + 2);
    NextWeekday(d + 3);
    NextWeekday(d + 4);
    NextWeekday(d + 5);
  }

  lemma SevenDays(start: Date, n: nat)
    ensures var d := start + n;
            WeekdayCount(start, n + 7) ==
              WeekdayCount(start, n) + Worked(d) + Worked(d + 1) + Worked(d + 2) + Worked(d + 3)
                                          + Worked(d + 4) + Worked(d + 5) + Worked(d + 6)
  {
    hide Worked;
    assert WeekdayCount(start, n + 2) == WeekdayCount(start, n) + Worked(start + n) + Worked(start + n + 1);
    assert WeekdayCount(start, n + 4) == WeekdayCount(start, n + 2) + Worked(start + n + 2) + Worked(start + n + 3);
    assert WeekdayCount(start, n + 6) == WeekdayCount(start, n + 4) + Worked(start + n + 4) + Worked(start + n + 5);
  }

  /** Fewer than seven days hold at most five weekdays. */
  lemma {:induction false} PartOfWeek(start: Date, n: nat)
    requires n < 7
    ensures WeekdayCount(start, n) <= Min(n, 5)
  {
    if n == 6 {
      WeekHasFive(start, 0);
      assert WeekdayCount(start, 7) == WeekdayCount(start, 6) + Worked(start + 6);
    } else if n > 0 {
      PartOfWeek(start, n - 1);
    }
  }

  /** `n` consecutive days hold five weekdays per full week and at most `n % 7` more. */
  lemma {:induction false} WeekdayBound(start: Date, n: nat)
    ensures WeekdayCount(start, n) <= 5 * (n / 7) + Min(n % 7, 5)
    decreases n
  {
    hide WeekdayCount;
    if n < 7 {
      PartOfWeek(start, n);
    } else {
      WeekdayBound(start, n - 7);
      WeekHasFive(start, n - 7);
    }
  }

  /** No year has more than 262 weekdays. */
  lemma YearHasAtMost262Weekdays(y: int)
    ensures |Weekdays(JanFirst(y), DecLast(y))| <= 262
  {
    YearStep(y);
    WeekdayBound(JanFirst(y), DaysInYear(y));
    WeekdayCountIsCardinality(JanFirst(y), DaysInYear(y));
    assert JanFirst(y) + DaysInYear(y) - 1 == DecLast(y);
  }
}
