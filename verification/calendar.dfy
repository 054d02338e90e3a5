/** The proleptic Gregorian calendar as Python's `datetime` module uses it:
    years 1 through 9999, day ordinals counted from 0001-01-01 = 1. */
module Calendar {

  const MinYear := 1
  const MaxYear := 9999

  datatype Date = Date(year: int, month: int, day: int)

  predicate IsLeap(y: int) {
    y % 4 == 0 && (y % 100 != 0 || y % 400 == 0)
  }

  function DaysInYear(y: int): int {
    if IsLeap(y) then 366 else 365
  }

  function DaysInMonth(y: int, m: int): int
    requires 1 <= m <= 12
  {
    if m == 2 then (if IsLeap(y) then 29 else 28)
    else if m == 4 || m == 6 || m == 9 || m == 11 then 30
    else 31
  }

  /** Days in the months of year `y` before month `m`. */
  function DaysBeforeMonth(y: int, m: int): int
    requires 1 <= m <= 12
  {
    var common :=
      if m == 1 then 0 else if m == 2 then 31 else if m == 3 then 59
      else if m == 4 then 90 else if m == 5 then 120 else if m == 6 then 151
      else if m == 7 then 181 else if m == 8 then 212 else if m == 9 then 243
      else if m == 10 then 273 else if m == 11 then 304 else 334;
    if m > 2 && IsLeap(y) then common + 1 else common
  }

  /** Days in the years before year `y`, counted from 0001-01-01. */
  function DaysBeforeYear(y: int): int
    requires y >= 1
  {
    var p := y - 1;
    p * 365 + p / 4 - p / 100 + p / 400
  }

  /** Ordinal of 10000-01-01 minus one: the ordinal of 9999-12-31. */
  const MaxOrdinal := 3652059

  predicate ValidDate(d: Date) {
    MinYear <= d.year <= MaxYear && 1 <= d.month <= 12 && 1 <= d.day <= DaysInMonth(d.year, d.month)
  }

  /** Going from `p` to `p + 1` raises `p / k` exactly when `k` divides `p + 1`. */
  lemma DivSucc(p: int)
    requires p >= 0
    ensures (p + 1) / 4 == p / 4 + (if (p + 1) % 4 == 0 then 1 else 0)
    ensures (p + 1) / 100 == p / 100 + (if (p + 1) % 100 == 0 then 1 else 0)
    ensures (p + 1) / 400 == p / 400 + (if (p + 1) % 400 == 0 then 1 else 0)
  {
  }

  lemma Divisors(y: int)
    ensures y % 100 == 0 ==> y % 4 == 0
    ensures y % 400 == 0 ==> y % 100 == 0
  {
    if y % 100 == 0 {
      assert y == 4 * (25 * (y / 100));
    }
    if y % 400 == 0 {
      assert y == 100 * (4 * (y / 400));
    }
  }

  lemma {:induction false} DaysBeforeYearStep(y: int)
    requires y >= 1
    ensures DaysBeforeYear(y + 1) == DaysBeforeYear(y) + DaysInYear(y)
  {
    var p := y - 1;
    DivSucc(p);
    Divisors(y);
    assert DaysBeforeYear(y + 1) == (p + 1) * 365 + (p + 1) / 4 - (p + 1) / 100 + (p + 1) / 400;
  }

  lemma {:induction false} DaysBeforeYearMonotone(a: int, b: int)
    requires 1 <= a <= b
    ensures DaysBeforeYear(a) + 365 * (b - a) <= DaysBeforeYear(b)
    decreases b - a
  {
    if a < b {
      DaysBeforeYearStep(a);
      DaysBeforeYearMonotone(a + 1, b);
    }
  }

  lemma MonthStep(y: int, m: int)
    requires 1 <= m < 12
    ensures DaysBeforeMonth(y, m + 1) == DaysBeforeMonth(y, m) + DaysInMonth(y, m)
  {
  }

  lemma YearFromMonths(y: int)
    ensures DaysInYear(y) == DaysBeforeMonth(y, 12) + DaysInMonth(y, 12)
  {
  }

  /** Day of the year, 1-based. */
  function DayOfYear(d: Date): int
    requires ValidDate(d)
  {
    DaysBeforeMonth(d.year, d.month) + d.day
  }

  lemma DayOfYearBounds(d: Date)
    requires ValidDate(d)
    ensures 1 <= DayOfYear(d) <= DaysInYear(d.year)
  {
    if d.month < 12 {
      MonthMonotone(d.year, d.month + 1, 12);
      MonthStep(d.year, d.month);
    }
  }

  lemma {:induction false} MonthMonotone(y: int, a: int, b: int)
    requires 1 <= a <= b <= 12
    ensures DaysBeforeMonth(y, a) + 28 * (b - a) <= DaysBeforeMonth(y, b)
    decreases b - a
  {
    if a < b {
      MonthStep(y, a);
      MonthMonotone(y, a + 1, b);
    }
  }

  /** Python's `date.toordinal()`: 0001-01-01 has ordinal 1. */
  function Ordinal(d: Date): (n: int)
    requires ValidDate(d)
    ensures 1 <= n <= MaxOrdinal
    ensures DaysBeforeYear(d.year) < n <= DaysBeforeYear(d.year) + DaysInYear(d.year)
  {
    DayOfYearBounds(d);
    DaysBeforeYearStep(d.year);
    DaysBeforeYearMonotone(d.year + 1, MaxYear + 1);
    DaysBeforeYearMonotone(1, d.year);
    DaysBeforeYear(d.year) + DayOfYear(d)
  }

  /** Walks the months of year `y` from month `m`, `k` days in. */
  function MonthWalk(y: int, m: int, k: int): (d: Date)
    requires MinYear <= y <= MaxYear && 1 <= m <= 12
    requires 1 <= k <= DaysInYear(y) - DaysBeforeMonth(y, m)
    ensures ValidDate(d) && d.year == y && m <= d.month
    ensures DaysBeforeMonth(y, d.month) + d.day == DaysBeforeMonth(y, m) + k
    decreases 12 - m
  {
    YearFromMonths(y);
    if k <= DaysInMonth(y, m) then Date(y, m, k)
    else
      MonthStep(y, m);
      MonthWalk(y, m + 1, k - DaysInMonth(y, m))
  }

  /** Walks the years from year `y`, `k` days past the start of `y`. */
  function YearWalk(y: int, k: int): (d: Date)
    requires MinYear <= y <= MaxYear
    requires 1 <= k <= DaysBeforeYear(MaxYear + 1) - DaysBeforeYear(y)
    ensures ValidDate(d) && y <= d.year
    ensures Ordinal(d) == DaysBeforeYear(y) + k
    decreases MaxYear - y
  {
    if k <= DaysInYear(y) then MonthWalk(y, 1, k)
    else
      DaysBeforeYearStep(y);
      DaysBeforeYearMonotone(y + 1, MaxYear + 1);
      YearWalk(y + 1, k - DaysInYear(y))
  }

  /** Python's `date.fromordinal(n)`. */
  function FromOrdinal(n: int): (d: Date)
    requires 1 <= n <= MaxOrdinal
    ensures ValidDate(d) && Ordinal(d) == n
  {
    YearWalk(MinYear, n)
  }

  /** Two valid dates with the same ordinal are the same date. */
  lemma OrdinalInjective(a: Date, b: Date)
    requires ValidDate(a) && ValidDate(b) && Ordinal(a) == Ordinal(b)
    ensures a == b
  {
    if a.year < b.year {
      DaysBeforeYearStep(a.year);
      DaysBeforeYearMonotone(a.year + 1, b.year);
      assert false;
    } else if b.year < a.year {
      DaysBeforeYearStep(b.year);
      DaysBeforeYearMonotone(b.year + 1, a.year);
      assert false;
    }
    if a.month < b.month {
      MonthStep(a.year, a.month);
      MonthMonotone(a.year, a.month + 1, b.month);
      assert false;
    } else if b.month < a.month {
      MonthStep(b.year, b.month);
      MonthMonotone(b.year, b.month + 1, a.month);
      assert false;
    }
  }

  /** `Ordinal` and `FromOrdinal` are inverse bijections between valid dates
      and the ordinals 1..MaxOrdinal. */
  lemma FromOrdinalOfOrdinal(d: Date)
    requires ValidDate(d)
    ensures FromOrdinal(Ordinal(d)) == d
  {
    OrdinalInjective(FromOrdinal(Ordinal(d)), d);
  }
}
