/** The proleptic Gregorian calendar of Python's `date`: a date is stored as its
    ordinal (1 is 0001-01-01, MaxOrdinal is 9999-12-31), and adding a timedelta of
    whole days adds to the ordinal and raises OverflowError outside that range. */
module Calendar {
  import opened Wrappers

  datatype Date = Date(year: int, month: int, day: int)

  predicate IsLeap(y: int) {
    y % 4 == 0 && (y % 100 != 0 || y % 400 == 0)
  }

  function DaysInYear(y: int): int {
    if IsLeap(y) then 366 else 365
  }

  function DaysInMonth(y: int, m: int): (n: int)
    requires 1 <= m <= 12
    ensures 28 <= n <= 31
  {
    if m == 2 then (if IsLeap(y) then 29 else 28)
    else if m == 4 || m == 6 || m == 9 || m == 11 then 30
    else 31
  }

  /** Days in the months of year `y` before month `m`. */
  function DaysBeforeMonth(y: int, m: int): int
    requires 1 <= m <= 12
  {
    [0, 31, 59, 90, 120, 151, 181, 212, 243, 273, 304, 334][m - 1]
    + (if m > 2 && IsLeap(y) then 1 else 0)
  }

  /** Days in the years before year `y`. */
  function DaysBeforeYear(y: int): int
    requires y >= 1
  {
    var p := y - 1;
    p * 365 + p / 4 - p / 100 + p / 400
  }

  predicate ValidDate(dt: Date) {
    1 <= dt.year <= 9999 && 1 <= dt.month <= 12 && 1 <= dt.day <= DaysInMonth(dt.year, dt.month)
  }

  function OrdinalOf(dt: Date): int
    requires ValidDate(dt)
  {
    DaysBeforeYear(dt.year) + DaysBeforeMonth(dt.year, dt.month) + dt.day
  }

  const MaxOrdinal := 3652059

  /** The ordinal of a date that Python's `date` can hold. */
  type Ordinal = n: int | 1 <= n <= MaxOrdinal witness 1

  /** `date + timedelta(days=k)`: None stands for the OverflowError. */
  function AddDays(n: Ordinal, k: int): (r: Option<Ordinal>)
    ensures r.Some? <==> 1 <= n + k <= MaxOrdinal
    ensures r.Some? ==> r.value - n == k
  {
    if 1 <= n + k <= MaxOrdinal then Some(n + k) else None
  }

  /** Going from `y - 1` to `y`, the count of multiples of 4, 100 and 400 grows exactly
      when `y` is one. */
  lemma MultiplesStep(y: int)
    ensures y / 4 - (y - 1) / 4 == (if y % 4 == 0 then 1 else 0)
    ensures y / 100 - (y - 1) / 100 == (if y % 100 == 0 then 1 else 0)
    ensures y / 400 - (y - 1) / 400 == (if y % 400 == 0 then 1 else 0)
  {
    assert y / 4 - (y - 1) / 4 == (if y % 4 == 0 then 1 else 0);
    assert y / 100 - (y - 1) / 100 == (if y % 100 == 0 then 1 else 0);
  }

  /** Multiples of 400 are multiples of 100, which are multiples of 4. */
  lemma MultiplesNest(y: int)
    ensures y % 400 == 0 ==> y % 100 == 0
    ensures y % 100 == 0 ==> y % 4 == 0
  {
    if y % 400 == 0 {
      var k := y / 400;
      assert y == 400 * k;
      assert y / 100 == 4 * k;
    }
    if y % 100 == 0 {
      var k := y / 100;
      assert y == 100 * k;
      assert y / 4 == 25 * k;
    }
  }

  /** A year adds its own length to the days before the next one. */
  lemma YearStep(y: int)
    requires y >= 1
    ensures DaysBeforeYear(y + 1) == DaysBeforeYear(y) + DaysInYear(y)
  {
    MultiplesStep(y);
    MultiplesNest(y);
  }

  lemma {:induction false} DaysBeforeYearMonotone(a: int, b: int)
    requires 1 <= a <= b
    ensures DaysBeforeYear(a) + 365 * (b - a) <= DaysBeforeYear(b)
    decreases b - a
  {
    if a < b {
      YearStep(a);
      DaysBeforeYearMonotone(a + 1, b);
    }
  }

  lemma MonthStep(y: int, m: int)
    requires 1 <= m <= 12
    ensures DaysBeforeMonth(y, m) + DaysInMonth(y, m)
            == if m == 12 then DaysInYear(y) else DaysBeforeMonth(y, m + 1)
  {
  }

  lemma {:induction false} DaysBeforeMonthMonotone(y: int, a: int, b: int)
    requires 1 <= a <= b <= 12
    ensures DaysBeforeMonth(y, a) + 28 * (b - a) <= DaysBeforeMonth(y, b)
    decreases b - a
  {
    if a < b {
      MonthStep(y, a);
      DaysBeforeMonthMonotone(y, a + 1, b);
    }
  }

  /** The year, from `y` on, whose days contain day number `n`. */
  function YearFrom(n: int, y: int): (r: int)
    requires y >= 1 && DaysBeforeYear(y) < n
    ensures r >= y && DaysBeforeYear(r) < n <= DaysBeforeYear(r + 1)
    decreases n - DaysBeforeYear(y)
  {
    YearStep(y);
    if n <= DaysBeforeYear(y + 1) then y else YearFrom(n, y + 1)
  }

  /** The month, from `m` on, of year `y` that contains day `d` of that year. */
  function MonthFrom(y: int, d: int, m: int): (r: int)
    requires 1 <= m <= 12 && DaysBeforeMonth(y, m) < d <= DaysInYear(y)
    ensures m <= r <= 12 && DaysBeforeMonth(y, r) < d <= DaysBeforeMonth(y, r) + DaysInMonth(y, r)
    decreases 12 - m
  {
    MonthStep(y, m);
    if m == 12 || d <= DaysBeforeMonth(y, m + 1) then m else MonthFrom(y, d, m + 1)
  }

  /** `date.fromordinal`: the calendar date of an ordinal, defined as the inverse of OrdinalOf. */
  function FromOrdinal(n: Ordinal): (dt: Date)
    ensures ValidDate(dt) && OrdinalOf(dt) == n
  {
    var y := YearFrom(n, 1);
    YearStep(y);
    assert y < 10000 by {
      if y >= 10000 { DaysBeforeYearMonotone(10000, y); }
    }
    var m := MonthFrom(y, n - DaysBeforeYear(y), 1);
    Date(y, m, n - DaysBeforeYear(y) - DaysBeforeMonth(y, m))
  }

  /** The ordinals are exactly the dates of years 1 to 9999. */
  lemma OrdinalInRange(dt: Date)
    requires ValidDate(dt)
    ensures 1 <= OrdinalOf(dt) <= MaxOrdinal
  {
    YearStep(dt.year);
    MonthStep(dt.year, dt.month);
    DaysBeforeMonthMonotone(dt.year, dt.month, 12);
    MonthStep(dt.year, 12);
    DaysBeforeYearMonotone(dt.year + 1, 10000);
  }

  /** Only one year contains a given day number. */
  lemma YearUnique(n: int, a: int, b: int)
    requires a >= 1 && DaysBeforeYear(a) < n <= DaysBeforeYear(a + 1)
    requires b >= 1 && DaysBeforeYear(b) < n <= DaysBeforeYear(b + 1)
    ensures a == b
  {
    if a < b { DaysBeforeYearMonotone(a + 1, b); }
    if b < a { DaysBeforeYearMonotone(b + 1, a); }
  }

  /** Only one month contains a given day of the year. */
  lemma MonthUnique(y: int, d: int, a: int, b: int)
    requires 1 <= a <= 12 && DaysBeforeMonth(y, a) < d <= DaysBeforeMonth(y, a) + DaysInMonth(y, a)
    requires 1 <= b <= 12 && DaysBeforeMonth(y, b) < d <= DaysBeforeMonth(y, b) + DaysInMonth(y, b)
    ensures a == b
  {
    if a < b { MonthStep(y, a); DaysBeforeMonthMonotone(y, a + 1, b); }
    if b < a { MonthStep(y, b); DaysBeforeMonthMonotone(y, b + 1, a); }
  }

  /** A valid date's ordinal falls within its year, and its day of the year within its month. */
  lemma OrdinalWithin(dt: Date)
    requires ValidDate(dt)
    ensures DaysBeforeYear(dt.year) < OrdinalOf(dt) <= DaysBeforeYear(dt.year + 1)
    ensures var d := OrdinalOf(dt) - DaysBeforeYear(dt.year);
      DaysBeforeMonth(dt.year, dt.month) < d <= DaysBeforeMonth(dt.year, dt.month) + DaysInMonth(dt.year, dt.month)
  {
    YearStep(dt.year);
    MonthStep(dt.year, dt.month);
    DaysBeforeMonthMonotone(dt.year, dt.month, 12);
    MonthStep(dt.year, 12);
  }

  /** Two valid dates with the same ordinal are the same date. */
  lemma OrdinalOfInjective(a: Date, b: Date)
    requires ValidDate(a) && ValidDate(b) && OrdinalOf(a) == OrdinalOf(b)
    ensures a == b
  {
    var n := OrdinalOf(a);
    OrdinalWithin(a);
    OrdinalWithin(b);
    YearUnique(n, a.year, b.year);
    MonthUnique(a.year, n - DaysBeforeYear(a.year), a.month, b.month);
  }

  /** The other half of the round trip: every valid date is the date of its ordinal. */
  lemma FromOrdinalOf(dt: Date)
    requires ValidDate(dt)
    ensures 1 <= OrdinalOf(dt) <= MaxOrdinal
    ensures FromOrdinal(OrdinalOf(dt)) == dt
  {
    OrdinalInRange(dt);
    OrdinalOfInjective(FromOrdinal(OrdinalOf(dt)), dt);
  }

  /** The calendar day after `dt`, stepped on the calendar itself. */
  function NextDate(dt: Date): Date
    requires ValidDate(dt)
  {
    if dt.day < DaysInMonth(dt.year, dt.month) then Date(dt.year, dt.month, dt.day + 1)
    else if dt.month < 12 then Date(dt.year, dt.month + 1, 1)
    else Date(dt.year + 1, 1, 1)
  }

  /** Adding one day to an ordinal is stepping to the next calendar day. */
  lemma NextOrdinalIsNextDate(n: Ordinal)
    requires n < MaxOrdinal
    ensures ValidDate(NextDate(FromOrdinal(n)))
    ensures FromOrdinal(n + 1) == NextDate(FromOrdinal(n))
  {
    var dt := FromOrdinal(n);
    var nx := NextDate(dt);
    MonthStep(dt.year, dt.month);
    if dt.day == DaysInMonth(dt.year, dt.month) && dt.month == 12 {
      YearStep(dt.year);
      assert n == DaysBeforeYear(dt.year + 1);
      assert DaysBeforeYear(10000) == MaxOrdinal;
      assert dt.year < 9999;
    }
    assert ValidDate(nx);
    assert OrdinalOf(nx) == n + 1;
    FromOrdinalOf(nx);
  }
}
