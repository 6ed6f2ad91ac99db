/** Proleptic Gregorian calendar dates with the normalisation rules of
    JavaScript's `Date`: a day or month field outside its range rolls over
    into the neighbouring months. Times of day are not part of a `Date`. */
module Civil {

  /** A calendar day; `month` is 1..12 (JavaScript's `getMonth() + 1`). */
  datatype Date = Date(year: int, month: int, day: int)

  predicate IsLeap(y: int) {
    y % 4 == 0 && (y % 100 != 0 || y % 400 == 0)
  }

  function DaysInMonth(y: int, m: int): (n: int)
    requires 1 <= m <= 12
    ensures 28 <= n <= 31
  {
    if m == 2 then (if IsLeap(y) then 29 else 28)
    else if m == 4 || m == 6 || m == 9 || m == 11 then 30
    else 31
  }

  /** A date that exists in the calendar. */
  predicate Valid(d: Date) {
    1 <= d.month <= 12 && 1 <= d.day <= DaysInMonth(d.year, d.month)
  }

  /** Months counted from year 0, so that consecutive months differ by one. */
  function MonthNumber(y: int, m: int): int {
    12 * y + m - 1
  }

  function PrevMonth(y: int, m: int): (r: (int, int))
    requires 1 <= m <= 12
    ensures 1 <= r.1 <= 12
    ensures MonthNumber(r.0, r.1) == MonthNumber(y, m) - 1
  {
    if m == 1 then (y - 1, 12) else (y, m - 1)
  }

  function NextMonth(y: int, m: int): (r: (int, int))
    requires 1 <= m <= 12
    ensures 1 <= r.1 <= 12
    ensures MonthNumber(r.0, r.1) == MonthNumber(y, m) + 1
  {
    if m == 12 then (y + 1, 1) else (y, m + 1)
  }

  /** The date JavaScript builds from year `y`, month `m` (in range) and any
      day number `dd`: day 0 is the last day of the previous month, day
      `DaysInMonth + 1` the first of the next one, and so on. */
  function Roll(y: int, m: int, dd: int): (d: Date)
    requires 1 <= m <= 12
    ensures Valid(d)
    decreases dd < 1, if dd < 1 then -dd else dd
  {
    if dd < 1 then
      var p := PrevMonth(y, m);
      Roll(p.0, p.1, dd + DaysInMonth(p.0, p.1))
    else if dd > DaysInMonth(y, m) then
      var n := NextMonth(y, m);
      Roll(n.0, n.1, dd - DaysInMonth(y, m))
    else
      Date(y, m, dd)
  }

  /** `new Date(year, monthIndex, dd)` for a year outside 0..99 (the
      constructor reads those as 1900..1999): `monthIndex` is 0-based and may
      lie outside 0..11, in which case it carries into the year. In-range
      fields are kept as they are. */
  function MakeDate(year: int, monthIndex: int, dd: int): (d: Date)
    ensures Valid(d)
    ensures 0 <= monthIndex < 12 && 1 <= dd <= DaysInMonth(year, monthIndex + 1) ==> d == Date(year, monthIndex + 1, dd)
    ensures 1 <= dd <= 28 ==> d.day == dd
  {
    Roll(year + monthIndex / 12, monthIndex % 12 + 1, dd)
  }

  /** `d.setDate(dd)`. */
  function SetDate(d: Date, dd: int): (r: Date)
    requires Valid(d)
    ensures Valid(r)
    ensures 1 <= dd <= DaysInMonth(d.year, d.month) ==> r == d.(day := dd)
  {
    Roll(d.year, d.month, dd)
  }

  /** `d.setMonth(monthIndex)`: keeps the day of the month, then normalises. */
  function SetMonth(d: Date, monthIndex: int): (r: Date)
    ensures Valid(r)
    ensures 0 <= monthIndex < 12 && 1 <= d.day <= DaysInMonth(d.year, monthIndex + 1) ==> r == Date(d.year, monthIndex + 1, d.day)
  {
    MakeDate(d.year, monthIndex, d.day)
  }

  /** The calendar day after `d`. */
  function NextDay(d: Date): (r: Date)
    requires Valid(d)
    ensures Valid(r)
    ensures d.day < DaysInMonth(d.year, d.month) ==> r == d.(day := d.day + 1)
    ensures d.day == DaysInMonth(d.year, d.month) ==> r.day == 1 && MonthNumber(r.year, r.month) == MonthNumber(d.year, d.month) + 1
  {
    if d.day < DaysInMonth(d.year, d.month) then Date(d.year, d.month, d.day + 1)
    else
      var n := NextMonth(d.year, d.month);
      Date(n.0, n.1, 1)
  }

  /** Advancing the day field by one, as `setDate(getDate() + 1)` does,
      yields the next calendar day. */
  lemma SetDateNext(d: Date)
    requires Valid(d)
    ensures SetDate(d, d.day + 1) == NextDay(d)
  {
    if d.day == DaysInMonth(d.year, d.month) {
      var n := NextMonth(d.year, d.month);
      assert Roll(d.year, d.month, d.day + 1) == Roll(n.0, n.1, 1);
    }
  }

  /** Day `1 - k` of a month is `k` days before its first day: day
      `DaysInMonth + 1 - k` of the previous month. */
  lemma RollBack(y: int, m: int, k: int)
    requires 1 <= m <= 12
    requires 1 <= k <= 28
    ensures Roll(y, m, 1 - k) ==
      Date(PrevMonth(y, m).0, PrevMonth(y, m).1, DaysInMonth(PrevMonth(y, m).0, PrevMonth(y, m).1) + 1 - k)
  {
    var p := PrevMonth(y, m);
    assert Roll(y, m, 1 - k) == Roll(p.0, p.1, 1 - k + DaysInMonth(p.0, p.1));
  }

  /** Day 0 of the month after (y, m) is the last day of (y, m): the
      `new Date(y, monthIndex + 1, 0)` idiom. */
  lemma LastDayIdiom(y: int, m: int)
    requires 1 <= m <= 12
    ensures MakeDate(y, m, 0) == Date(y, m, DaysInMonth(y, m))
  {
    var n := NextMonth(y, m);
    assert MakeDate(y, m, 0) == Roll(n.0, n.1, 0);
    assert Roll(n.0, n.1, 0) == Roll(y, m, DaysInMonth(y, m));
  }

  // ---------- counting days ----------

  /** Leap years in the years before `y` (relative to a fixed origin). */
  function LeapYearsBefore(y: int): int {
    (y - 1) / 4 - (y - 1) / 100 + (y - 1) / 400
  }

  function DaysBeforeYear(y: int): int {
    365 * (y - 1970) + LeapYearsBefore(y) - LeapYearsBefore(1970)
  }

  function DaysBeforeMonth(y: int, m: int): int
    requires 1 <= m <= 12
  {
    (if m == 1 then 0 else if m == 2 then 31 else if m == 3 then 59
     else if m == 4 then 90 else if m == 5 then 120 else if m == 6 then 151
     else if m == 7 then 181 else if m == 8 then 212 else if m == 9 then 243
     else if m == 10 then 273 else if m == 11 then 304 else 334)
    + (if m > 2 && IsLeap(y) then 1 else 0)
  }

  /** Days since 1 January 1970. */
  function EpochDay(d: Date): int
    requires Valid(d)
  {
    DaysBeforeYear(d.year) + DaysBeforeMonth(d.year, d.month) + d.day - 1
  }

  /** `getDay()`: 0 is Sunday, 6 is Saturday (1 January 1970 was a Thursday). */
  function Weekday(d: Date): (w: int)
    requires Valid(d)
    ensures 0 <= w < 7
  {
    (EpochDay(d) + 4) % 7
  }

  lemma LeapYearsStep(y: int)
    ensures LeapYearsBefore(y + 1) == LeapYearsBefore(y) + (if IsLeap(y) then 1 else 0)
  {
    DivStep4(y);
    DivStep100(y);
    DivStep400(y);
    if y % 100 == 0 {
      Mod100(y);
    }
    if y % 400 == 0 {
      Mod400(y);
    }
  }

  // Division by the calendar's cycle lengths steps up by one exactly at a multiple.
  lemma DivStep4(y: int)
    ensures y / 4 - (y - 1) / 4 == if y % 4 == 0 then 1 else 0
  {
  }

  lemma DivStep100(y: int)
    ensures y / 100 - (y - 1) / 100 == if y % 100 == 0 then 1 else 0
  {
  }

  lemma DivStep400(y: int)
    ensures y / 400 - (y - 1) / 400 == if y % 400 == 0 then 1 else 0
  {
  }

  lemma Mod100(y: int)
    requires y % 100 == 0
    ensures y % 4 == 0
  {
  }

  lemma Mod400(y: int)
    requires y % 400 == 0
    ensures y % 100 == 0
  {
  }

  /** The day count goes up by exactly one from each day to the next. */
  lemma EpochDayNext(d: Date)
    requires Valid(d)
    ensures EpochDay(NextDay(d)) == EpochDay(d) + 1
  {
    if d.day == DaysInMonth(d.year, d.month) && d.month == 12 {
      LeapYearsStep(d.year);
    }
  }

  /** Consecutive days occupy consecutive weekdays. */
  lemma WeekdayNext(d: Date)
    requires Valid(d)
    ensures Weekday(NextDay(d)) == (Weekday(d) + 1) % 7
  {
    EpochDayNext(d);
    ModSucc(EpochDay(d) + 4);
  }

  lemma ModSucc(e: int)
    ensures (e + 1) % 7 == (e % 7 + 1) % 7
  {
  }
}
