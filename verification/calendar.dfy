/**
  A minimal proleptic Gregorian calendar standing in for the dayjs operations
  the wheel uses: `date()` (day of month, 1..31), `month()` (0 = January ..
  11 = December), `daysInMonth()`, `add(n, "day")` and `isSame(other, "day")`.
*/
module Calendar {

  datatype Date = Date(year: int, month: int, day: int)

  predicate IsLeapYear(y: int)
  {
    (y % 4 == 0 && y % 100 != 0) || y % 400 == 0
  }

  /** Length of month m (0-based) of year y. */
  function DaysInMonth(y: int, m: int): (n: int)
    requires 0 <= m < 12
    ensures 28 <= n <= 31
    ensures n == 29 <==> m == 1 && IsLeapYear(y)
  {
    if m == 1 then (if IsLeapYear(y) then 29 else 28)
    else if m == 3 || m == 5 || m == 8 || m == 10 then 30
    else 31
  }

  predicate Valid(d: Date)
  {
    0 <= d.month < 12 && 1 <= d.day <= DaysInMonth(d.year, d.month)
  }

  /** Strict chronological order. */
  predicate Before(a: Date, b: Date)
  {
    a.year < b.year ||
    (a.year == b.year && (a.month < b.month || (a.month == b.month && a.day < b.day)))
  }

  /** The next calendar day. */
  function Succ(d: Date): (s: Date)
    requires Valid(d)
    ensures Valid(s) && Before(d, s)
    ensures s.day == 1 <==> d.day == DaysInMonth(d.year, d.month)
  {
    if d.day < DaysInMonth(d.year, d.month) then Date(d.year, d.month, d.day + 1)
    else if d.month < 11 then Date(d.year, d.month + 1, 1)
    else Date(d.year + 1, 0, 1)
  }

  /** Succ skips nothing: no valid date lies strictly between d and Succ(d). */
  lemma SuccIsNextDay(d: Date, e: Date)
    requires Valid(d) && Valid(e) && Before(d, e)
    ensures e == Succ(d) || Before(Succ(d), e)
  {
  }

  /** d.add(n, "day"): the date n days after d. */
  function AddDays(d: Date, n: nat): (r: Date)
    requires Valid(d)
    ensures Valid(r)
  {
    if n == 0 then d else Succ(AddDays(d, n - 1))
  }

  /** Adding days in two steps is adding them in one. */
  lemma {:induction false} AddDaysAdditive(d: Date, m: nat, n: nat)
    requires Valid(d)
    ensures AddDays(AddDays(d, m), n) == AddDays(d, m + n)
  {
    if n > 0 {
      AddDaysAdditive(d, m, n - 1);
    }
  }

  /** Adding more days always lands strictly later. */
  lemma {:induction false} AddDaysIncreasing(d: Date, m: nat, n: nat)
    requires Valid(d) && m < n
    ensures Before(AddDays(d, m), AddDays(d, n))
  {
    if n - 1 > m {
      AddDaysIncreasing(d, m, n - 1);
    }
  }

  /**
    The days after d run d.day + 1, d.day + 2, .. to the end of its month, and
    the day after that is the first of a month.
  */
  lemma {:induction false} DaysOfMonth(d: Date, k: nat)
    requires Valid(d)
    requires k <= DaysInMonth(d.year, d.month) - d.day + 1
    ensures k <= DaysInMonth(d.year, d.month) - d.day ==> AddDays(d, k) == Date(d.year, d.month, d.day + k)
    ensures k == DaysInMonth(d.year, d.month) - d.day + 1 ==> AddDays(d, k).day == 1
  {
    if k > 0 {
      DaysOfMonth(d, k - 1);
    }
  }

  /** The last day of a year is followed by the first day of a year, and only it. */
  lemma YearEndPrecedesYearStart(d: Date)
    requires Valid(d)
    ensures (d.month == 11 && d.day == 31) <==> (Succ(d).month == 0 && Succ(d).day == 1)
  {
  }
}
