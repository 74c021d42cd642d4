/** The proleptic Gregorian calendar that Python's datetime uses, built from month lengths alone.
    Dates are identified with their ordinals: day 1 is 1 January of year 1. */
module Calendar {
  const MAXYEAR: int := 9999

  predicate IsLeap(y: int) {
    y % 4 == 0 && (y % 100 != 0 || y % 400 == 0)
  }

  function YearLen(y: int): int {
    if IsLeap(y) then 366 else 365
  }

  function DaysInMonth(y: int, m: int): (n: int)
    ensures 28 <= n <= 31
  {
    if m == 2 then (if IsLeap(y) then 29 else 28)
    else if m == 4 || m == 6 || m == 9 || m == 11 then 30
    else 31
  }

  /** Days in all years before y. */
  function DaysBeforeYear(y: int): (n: int)
    requires 1 <= y
    ensures 365 * (y - 1) <= n <= 366 * (y - 1)
    decreases y
  {
    if y == 1 then 0 else DaysBeforeYear(y - 1) + YearLen(y - 1)
  }

  /** Days in year y before month m; m == 13 gives the length of the year. */
  function DaysBeforeMonth(y: int, m: int): (n: int)
    requires 1 <= m <= 13
    ensures 28 * (m - 1) <= n <= 31 * (m - 1)
    decreases m
  {
    if m == 1 then 0 else DaysBeforeMonth(y, m - 1) + DaysInMonth(y, m - 1)
  }

  datatype Date = Date(year: int, month: int, day: int) {
    predicate Valid() {
      1 <= year && 1 <= month <= 12 && 1 <= day <= DaysInMonth(year, month)
    }
  }

  /** The ordinal reached by counting `day` days into a month; days past its end run on. */
  function ToOrdinal(year: int, month: int, day: int): (n: int)
    requires 1 <= year && 1 <= month <= 12
    ensures day <= n
  {
    DaysBeforeYear(year) + DaysBeforeMonth(year, month) + day
  }

  /** Monday is 0. */
  function Weekday(n: int): (w: int)
    ensures 0 <= w < 7
  {
    (n + 6) % 7
  }

  /** date.max.toordinal(), the ordinal of 31 December of MAXYEAR; see LastOrdinal. */
  function MaxOrdinal(): int {
    3652059
  }

  // ---- From ordinals back to dates, by counting ----

  function YearFrom(y: int, n: int): (r: int)
    requires 1 <= y && DaysBeforeYear(y) < n
    ensures y <= r && DaysBeforeYear(r) < n <= DaysBeforeYear(r + 1)
    decreases n - DaysBeforeYear(y)
  {
    if n <= DaysBeforeYear(y + 1) then y else YearFrom(y + 1, n)
  }

  function YearOf(n: int): (y: int)
    requires 1 <= n
    ensures 1 <= y && DaysBeforeYear(y) < n <= DaysBeforeYear(y + 1)
  {
    YearFrom(1, n)
  }

  /** Zero-based day of the year. */
  function YearDay(n: int): (i: int)
    requires 1 <= n
    ensures 0 <= i < YearLen(YearOf(n))
  {
    n - DaysBeforeYear(YearOf(n)) - 1
  }

  function MonthFrom(y: int, m: int, i: int): (r: int)
    requires 1 <= m <= 12 && DaysBeforeMonth(y, m) <= i < DaysBeforeMonth(y, 13)
    ensures m <= r <= 12 && DaysBeforeMonth(y, r) <= i < DaysBeforeMonth(y, r + 1)
    decreases 12 - m
  {
    if i < DaysBeforeMonth(y, m + 1) then m else MonthFrom(y, m + 1, i)
  }

  lemma YearIsTwelveMonths(y: int)
    ensures DaysBeforeMonth(y, 13) == YearLen(y)
    ensures DaysBeforeMonth(y, 2) == 31
    ensures DaysBeforeMonth(y, 3) == YearLen(y) - 306
    ensures DaysBeforeMonth(y, 4) == YearLen(y) - 275
    ensures DaysBeforeMonth(y, 5) == YearLen(y) - 245
    ensures DaysBeforeMonth(y, 6) == YearLen(y) - 214
    ensures DaysBeforeMonth(y, 7) == YearLen(y) - 184
    ensures DaysBeforeMonth(y, 8) == YearLen(y) - 153
    ensures DaysBeforeMonth(y, 9) == YearLen(y) - 122
    ensures DaysBeforeMonth(y, 10) == YearLen(y) - 92
    ensures DaysBeforeMonth(y, 11) == YearLen(y) - 61
    ensures DaysBeforeMonth(y, 12) == YearLen(y) - 31
  {
    assert DaysBeforeMonth(y, 3) == DaysBeforeMonth(y, 2) + DaysInMonth(y, 2);
    assert DaysBeforeMonth(y, 5) == DaysBeforeMonth(y, 3) + 61;
    assert DaysBeforeMonth(y, 7) == DaysBeforeMonth(y, 5) + 61;
    assert DaysBeforeMonth(y, 9) == DaysBeforeMonth(y, 7) + 62;
    assert DaysBeforeMonth(y, 11) == DaysBeforeMonth(y, 9) + 61;
    assert DaysBeforeMonth(y, 13) == DaysBeforeMonth(y, 11) + 61;
  }

  function MonthOf(n: int): (m: int)
    requires 1 <= n
    ensures 1 <= m <= 12
    ensures DaysBeforeMonth(YearOf(n), m) <= YearDay(n) < DaysBeforeMonth(YearOf(n), m + 1)
  {
    YearIsTwelveMonths(YearOf(n));
    MonthFrom(YearOf(n), 1, YearDay(n))
  }

  /** One-based day of the month. */
  function MonthDay(n: int): (d: int)
    requires 1 <= n
    ensures 1 <= d <= DaysInMonth(YearOf(n), MonthOf(n))
  {
    YearDay(n) - DaysBeforeMonth(YearOf(n), MonthOf(n)) + 1
  }

  function FromOrdinal(n: int): (d: Date)
    requires 1 <= n
    ensures d.Valid()
  {
    Date(YearOf(n), MonthOf(n), MonthDay(n))
  }

  // ---- The two directions agree ----

  lemma {:induction false} YearsAreMonotone(y: int, z: int)
    requires 1 <= y <= z
    ensures DaysBeforeYear(z) - DaysBeforeYear(y) >= 365 * (z - y)
    decreases z - y
  {
    if y < z {
      YearsAreMonotone(y, z - 1);
    }
  }

  lemma {:induction false} MonthsAreMonotone(y: int, m: int, k: int)
    requires 1 <= m <= k <= 13
    ensures DaysBeforeMonth(y, k) - DaysBeforeMonth(y, m) >= 28 * (k - m)
    decreases k - m
  {
    if m < k {
      MonthsAreMonotone(y, m, k - 1);
    }
  }

  lemma YearOfIs(y: int, n: int)
    requires 1 <= y && DaysBeforeYear(y) < n <= DaysBeforeYear(y + 1)
    ensures YearOf(n) == y
  {
    if YearOf(n) < y {
      YearsAreMonotone(YearOf(n) + 1, y);
    } else if y < YearOf(n) {
      YearsAreMonotone(y + 1, YearOf(n));
    }
  }

  /** Month intervals of a year follow each other in order. */
  lemma MonthsKeepOrder(y: int, m: int, i: int, k: int, j: int)
    requires 1 <= m <= 12 && DaysBeforeMonth(y, m) <= i < DaysBeforeMonth(y, m + 1)
    requires 1 <= k <= 12 && DaysBeforeMonth(y, k) <= j < DaysBeforeMonth(y, k + 1)
    requires i <= j
    ensures m <= k
  {
    if k < m {
      MonthsAreMonotone(y, k + 1, m);
    }
  }

  lemma YearOfFirst(y: int, m: int, n: int)
    requires 1 <= y && 1 <= m <= 12
    requires DaysBeforeMonth(y, m) < n - DaysBeforeYear(y) <= DaysBeforeMonth(y, m + 1)
    ensures YearOf(n) == y
  {
    assert DaysBeforeMonth(y, 13) == YearLen(y) by { YearIsTwelveMonths(y); }
    MonthsAreMonotone(y, m + 1, 13);
    assert DaysBeforeYear(y + 1) == DaysBeforeYear(y) + YearLen(y);
    YearOfIs(y, n);
  }

  lemma MonthOfIs(y: int, m: int, n: int)
    requires 1 <= y && 1 <= m <= 12
    requires DaysBeforeMonth(y, m) < n - DaysBeforeYear(y) <= DaysBeforeMonth(y, m + 1)
    ensures YearOf(n) == y && MonthOf(n) == m && MonthDay(n) == n - ToOrdinal(y, m, 0)
  {
    YearOfFirst(y, m, n);
    MonthsKeepOrder(y, m, YearDay(n), MonthOf(n), YearDay(n));
    MonthsKeepOrder(y, MonthOf(n), YearDay(n), m, YearDay(n));
  }

  /** Converting a valid date to its ordinal and back gives the date. */
  lemma DateRoundTrip(d: Date)
    requires d.Valid()
    ensures 1 <= ToOrdinal(d.year, d.month, d.day)
    ensures FromOrdinal(ToOrdinal(d.year, d.month, d.day)) == d
  {
    assert DaysBeforeMonth(d.year, d.month + 1) == DaysBeforeMonth(d.year, d.month) + DaysInMonth(d.year, d.month);
    MonthOfIs(d.year, d.month, ToOrdinal(d.year, d.month, d.day));
  }

  /** Every ordinal is the ordinal of its date. */
  lemma OrdinalRoundTrip(n: int)
    requires 1 <= n
    ensures var d := FromOrdinal(n); ToOrdinal(d.year, d.month, d.day) == n
  {
  }

  lemma YearOfMonotone(a: int, b: int)
    requires 1 <= a <= b
    ensures YearOf(a) <= YearOf(b)
  {
    if YearOf(b) < YearOf(a) {
      YearsAreMonotone(YearOf(b) + 1, YearOf(a));
    }
  }

  lemma LeapStep(y: int)
    requires 1 <= y
    ensures y / 4 - y / 100 + y / 400 == (y - 1) / 4 - (y - 1) / 100 + (y - 1) / 400 + (if IsLeap(y) then 1 else 0)
  {
    QuotientStep(y, 4);
    QuotientStep(y, 100);
    QuotientStep(y, 400);
    Multiples(y);
  }

  lemma Multiples(y: int)
    ensures y % 100 == 0 ==> y % 4 == 0
    ensures y % 400 == 0 ==> y % 100 == 0
  {
  }

  lemma QuotientStep(y: int, k: int)
    requires k == 4 || k == 100 || k == 400
    ensures y / k == (y - 1) / k + (if y % k == 0 then 1 else 0)
  {
  }

  /** The usual closed form of the day count. */
  lemma {:induction false} DaysBeforeYearClosed(y: int)
    requires 1 <= y
    ensures DaysBeforeYear(y) == 365 * (y - 1) + (y - 1) / 4 - (y - 1) / 100 + (y - 1) / 400
    decreases y
  {
    if y > 1 {
      DaysBeforeYearClosed(y - 1);
      LeapStep(y - 1);
    }
  }

  lemma LastOrdinal(y: int)
    requires y == MAXYEAR
    ensures ToOrdinal(y, 12, 31) == MaxOrdinal() == DaysBeforeYear(y + 1)
  {
    DaysBeforeYearClosed(y);
    YearIsTwelveMonths(y);
  }

  /** Days before the month with index k (month 12 is January of year 1). */
  function MonthIndexStart(k: int): (n: int)
    requires 12 <= k
    decreases k
  {
    if k == 12 then 0 else MonthIndexStart(k - 1) + DaysInMonth((k - 1) / 12, (k - 1) % 12 + 1)
  }

  lemma IndexParts(y: int, m: int)
    requires 1 <= m <= 12
    ensures (12 * y + m - 1) / 12 == y && (12 * y + m - 1) % 12 == m - 1
  {
  }

  lemma MonthIndexStartIs(y: int, m: int)
    requires 1 <= y && 1 <= m <= 12
    ensures MonthIndexStart(12 * y + m - 1) == ToOrdinal(y, m, 0)
  {
    MonthIndexAt(12 * y + m - 1, y, m);
  }

  lemma {:induction false} MonthIndexAt(k: int, y: int, m: int)
    requires 1 <= y && 1 <= m <= 12 && k == 12 * y + m - 1
    ensures MonthIndexStart(k) == ToOrdinal(y, m, 0)
    decreases k, y
  {
    if m > 1 {
      MonthIndexAt(k - 1, y, m - 1);
      MonthIndexNext(k - 1, y, m - 1);
      MonthAfter(y, m - 1);
    } else if y > 1 {
      MonthIndexAt(k - 1, y - 1, 12);
      MonthIndexNext(k - 1, y - 1, 12);
      YearAfter(y - 1);
    } else {
      FirstMonth(k);
    }
  }

  lemma FirstMonth(k: int)
    requires k == 12
    ensures MonthIndexStart(k) == ToOrdinal(1, 1, 0)
  {
  }

  lemma MonthIndexNext(k: int, y: int, m: int)
    requires 1 <= y && 1 <= m <= 12 && k == 12 * y + m - 1
    ensures MonthIndexStart(k + 1) == MonthIndexStart(k) + DaysInMonth(y, m)
  {
    IndexParts(y, m);
  }

  lemma MonthAfter(y: int, m: int)
    requires 1 <= y && 1 <= m <= 11
    ensures ToOrdinal(y, m + 1, 0) == ToOrdinal(y, m, 0) + DaysInMonth(y, m)
  {
  }

  lemma YearAfter(y: int)
    requires 1 <= y
    ensures ToOrdinal(y + 1, 1, 0) == ToOrdinal(y, 12, 0) + DaysInMonth(y, 12)
  {
    YearIsTwelveMonths(y);
  }

  lemma {:induction false} MonthIndexStartMonotone(k: int, l: int)
    requires 12 <= k <= l
    ensures MonthIndexStart(l) - MonthIndexStart(k) >= 28 * (l - k)
    decreases l - k
  {
    if k < l {
      MonthIndexStartMonotone(k, l - 1);
    }
  }

  function MonthIndexFrom(k: int, n: int): (r: int)
    requires 12 <= k && MonthIndexStart(k) < n
    ensures k <= r && MonthIndexStart(r) < n <= MonthIndexStart(r + 1)
    decreases n - MonthIndexStart(k)
  {
    if n <= MonthIndexStart(k + 1) then k else MonthIndexFrom(k + 1, n)
  }

  /** Month number on the time line: the month with index k holds the days after MonthIndexStart(k). */
  function MonthIndex(n: int): (k: int)
    requires 1 <= n
    ensures 12 <= k && MonthIndexStart(k) < n <= MonthIndexStart(k + 1)
  {
    MonthIndexFrom(12, n)
  }

  /** A day lies in month k exactly when k is its index. */
  lemma MonthIndexIs(k: int, n: int)
    requires 12 <= k && 1 <= n
    ensures MonthIndexStart(k) < n <= MonthIndexStart(k + 1) <==> MonthIndex(n) == k
  {
    var l := MonthIndex(n);
    if l < k {
      MonthIndexStartMonotone(l + 1, k);
    } else if k < l {
      MonthIndexStartMonotone(k + 1, l);
    }
  }

  lemma MonthIndexMonotone(a: int, b: int)
    requires 1 <= a <= b
    ensures MonthIndex(a) <= MonthIndex(b)
  {
    if MonthIndex(b) < MonthIndex(a) {
      MonthIndexStartMonotone(MonthIndex(b) + 1, MonthIndex(a));
    }
  }

  /** The index is 12 * year + month - 1. */
  lemma MonthIndexOf(n: int)
    requires 1 <= n
    ensures MonthIndex(n) == 12 * YearOf(n) + MonthOf(n) - 1
    ensures MonthDay(n) == n - MonthIndexStart(MonthIndex(n))
  {
    IndexOfMonth(12 * YearOf(n) + MonthOf(n) - 1, YearOf(n), MonthOf(n), n);
  }

  lemma IndexOfMonth(k: int, y: int, m: int, n: int)
    requires 1 <= n && y == YearOf(n) && m == MonthOf(n) && k == 12 * y + m - 1
    ensures MonthIndex(n) == k && MonthDay(n) == n - MonthIndexStart(k)
  {
    MonthHoldsDay(k, y, m, n);
    MonthIndexIs(k, n);
  }

  lemma MonthHoldsDay(k: int, y: int, m: int, n: int)
    requires 1 <= n && y == YearOf(n) && m == MonthOf(n) && k == 12 * y + m - 1
    ensures MonthIndexStart(k) < n <= MonthIndexStart(k + 1)
    ensures MonthDay(n) == n - MonthIndexStart(k)
  {
    MonthIndexAt(k, y, m);
    MonthIndexNext(k, y, m);
    InMonthInterval(y, m, n);
  }

  lemma InMonthInterval(y: int, m: int, n: int)
    requires 1 <= n && y == YearOf(n) && m == MonthOf(n)
    ensures ToOrdinal(y, m, 0) < n <= ToOrdinal(y, m, DaysInMonth(y, m)) && MonthDay(n) == n - ToOrdinal(y, m, 0)
  {
    assert n == DaysBeforeYear(y) + YearDay(n) + 1;
    assert DaysBeforeMonth(y, m + 1) == DaysBeforeMonth(y, m) + DaysInMonth(y, m);
  }

  // ---- Weekdays counted on the real calendar ----

  /** How many of the days lo, lo + 1, ..., hi fall on weekday w. */
  function WeekdaysIn(lo: int, hi: int, w: int): (c: nat)
    decreases hi - lo + 1
  {
    if hi < lo then 0 else WeekdaysIn(lo, hi - 1, w) + (if Weekday(hi) == w then 1 else 0)
  }

  /** The count in closed form: the first such day is (w - Weekday(lo)) % 7 days after lo. */
  lemma {:induction false} WeekdaysInIs(lo: int, hi: int, w: int)
    requires 0 <= w < 7 && lo - 1 <= hi
    ensures WeekdaysIn(lo, hi, w) == (hi - lo + 7 - (w - Weekday(lo)) % 7) / 7
    decreases hi - lo + 1
  {
    if lo <= hi {
      WeekdaysInIs(lo, hi - 1, w);
      var c := (w - Weekday(lo)) % 7;
      SeventhStep(hi - lo, c);
      WeekdayShift(lo, hi, w);
      assert WeekdaysIn(lo, hi - 1, w) == (hi - lo + 6 - c) / 7;
    }
  }

  lemma WeekdayShift(lo: int, hi: int, w: int)
    requires 0 <= w < 7
    ensures Weekday(hi) == w <==> (hi - lo - (w - Weekday(lo)) % 7) % 7 == 0
  {
  }

  lemma SeventhStep(a: int, c: int)
    requires 0 <= c < 7
    ensures (a + 7 - c) / 7 == (a + 6 - c) / 7 + (if (a - c) % 7 == 0 then 1 else 0)
  {
  }
}
