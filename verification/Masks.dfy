/** The year tables of rrule.py and what they say about the calendar. Every table runs seven days
    into the following year, so that a week which starts in December can be read from one table. */
module Masks {
  import opened Calendar

  function Repeat(x: int, n: nat): (s: seq<int>)
    ensures |s| == n && forall i :: 0 <= i < n ==> s[i] == x
  {
    seq(n, _ => x)
  }

  /** list(range(a, b)). */
  function Range(a: int, b: int): (s: seq<int>)
    requires a <= b
    ensures |s| == b - a && forall i :: 0 <= i < b - a ==> s[i] == a + i
  {
    seq(b - a, i => a + i)
  }

  /** del s[k]. */
  function Without(s: seq<int>, k: nat): (r: seq<int>)
    requires k < |s|
    ensures |r| == |s| - 1
    ensures forall i :: 0 <= i < |r| ==> r[i] == if i < k then s[i] else s[i + 1]
  {
    s[..k] + s[k + 1..]
  }

  function MonthBlocks(b29: seq<int>, b30: seq<int>, b31: seq<int>): seq<int>
    requires |b31| >= 7
  {
    b31 + b29 + b31 + b30 + b31 + b30 + b31 + b31 + b30 + b31 + b30 + b31 + b31[..7]
  }

  function M366Mask(): seq<int> {
    Repeat(1, 31) + Repeat(2, 29) + Repeat(3, 31) + Repeat(4, 30) + Repeat(5, 31) + Repeat(6, 30) +
    Repeat(7, 31) + Repeat(8, 31) + Repeat(9, 30) + Repeat(10, 31) + Repeat(11, 30) + Repeat(12, 31) + Repeat(1, 7)
  }

  function MDay366Mask(): seq<int> {
    MonthBlocks(Range(1, 30), Range(1, 31), Range(1, 32))
  }

  function NMDay366Mask(): seq<int> {
    MonthBlocks(Range(-29, 0), Range(-30, 0), Range(-31, 0))
  }

  const M366RANGE: seq<int> := [0, 31, 60, 91, 121, 152, 182, 213, 244, 274, 305, 335, 366]
  const M365RANGE: seq<int> := [0, 31, 59, 90, 120, 151, 181, 212, 243, 273, 304, 334, 365]

  lemma M366At(m: int, i: int)
    requires 1 <= m <= 12 && M366RANGE[m - 1] <= i < M366RANGE[m]
    ensures |M366Mask()| == 373 && M366Mask()[i] == m
  {
  }

  lemma MDay366At(m: int, i: int)
    requires 1 <= m <= 12 && M366RANGE[m - 1] <= i < M366RANGE[m]
    ensures |MDay366Mask()| == 373 && MDay366Mask()[i] == i - M366RANGE[m - 1] + 1
  {
  }

  lemma NMDay366At(m: int, i: int)
    requires 1 <= m <= 12 && M366RANGE[m - 1] <= i < M366RANGE[m]
    ensures |NMDay366Mask()| == 373 && NMDay366Mask()[i] == i - M366RANGE[m]
  {
  }

  function MMask(y: int): seq<int> {
    if IsLeap(y) then M366Mask() else Without(M366Mask(), 59)
  }

  function MDayMask(y: int): seq<int> {
    if IsLeap(y) then MDay366Mask() else Without(MDay366Mask(), 59)
  }

  function NMDayMask(y: int): seq<int> {
    if IsLeap(y) then NMDay366Mask() else Without(NMDay366Mask(), 31)
  }

  function MRange(y: int): (r: seq<int>)
    ensures |r| == 13
  {
    if IsLeap(y) then M366RANGE else M365RANGE
  }

  /** WDAYMASK[wday:], where WDAYMASK is seven weekdays repeated 55 times. */
  function WDayMask(wday: int): (s: seq<int>)
    requires 0 <= wday < 7
    ensures |s| == 385 - wday
    ensures forall i :: 0 <= i < |s| ==> s[i] == (wday + i) % 7
  {
    seq(385, i => i % 7)[wday..]
  }

  lemma MRangeIsCalendar(y: int, m: int)
    requires 1 <= m <= 13
    ensures MRange(y)[m - 1] == DaysBeforeMonth(y, m)
  {
    YearIsTwelveMonths(y);
    assert m == 1 || m == 2 || m == 3 || m == 4 || m == 5 || m == 6 || m == 7 || m == 8 || m == 9 || m == 10 || m == 11 || m == 12 || m == 13;
  }

  lemma MMaskInYear(y: int, m: int, i: int)
    requires 1 <= m <= 12 && MRange(y)[m - 1] <= i < MRange(y)[m]
    ensures |MMask(y)| == YearLen(y) + 7 && MMask(y)[i] == m
  {
    M366At(m, if IsLeap(y) || m <= 2 then i else i + 1);
  }

  lemma MDayMaskInYear(y: int, m: int, i: int)
    requires 1 <= m <= 12 && MRange(y)[m - 1] <= i < MRange(y)[m]
    ensures |MDayMask(y)| == YearLen(y) + 7 && MDayMask(y)[i] == i - MRange(y)[m - 1] + 1
  {
    MDay366At(m, if IsLeap(y) || m <= 2 then i else i + 1);
  }

  lemma NMDayMaskInYear(y: int, m: int, i: int)
    requires 1 <= m <= 12 && MRange(y)[m - 1] <= i < MRange(y)[m]
    ensures |NMDayMask(y)| == YearLen(y) + 7 && NMDayMask(y)[i] == i - MRange(y)[m]
  {
    NMDay366At(m, if IsLeap(y) || m == 1 then i else i + 1);
  }

  lemma TablesAfterYear(y: int, i: int)
    requires YearLen(y) <= i < YearLen(y) + 7
    ensures |MMask(y)| == |MDayMask(y)| == |NMDayMask(y)| == YearLen(y) + 7
    ensures MMask(y)[i] == 1
    ensures MDayMask(y)[i] == i - YearLen(y) + 1
    ensures NMDayMask(y)[i] == i - YearLen(y) - 31
  {
    MMaskAfterYear(y, i);
    MDayMaskAfterYear(y, i);
    NMDayMaskAfterYear(y, i);
  }

  lemma MMaskAfterYear(y: int, i: int)
    requires YearLen(y) <= i < YearLen(y) + 7
    ensures |MMask(y)| == YearLen(y) + 7 && MMask(y)[i] == 1
  {
    assert M366Mask()[366..] == Repeat(1, 7);
    assert M366Mask()[if IsLeap(y) then i else i + 1] == 1;
  }

  lemma MDayMaskAfterYear(y: int, i: int)
    requires YearLen(y) <= i < YearLen(y) + 7
    ensures |MDayMask(y)| == YearLen(y) + 7 && MDayMask(y)[i] == i - YearLen(y) + 1
  {
    assert MDay366Mask()[366..] == Range(1, 32)[..7];
    var j := if IsLeap(y) then i else i + 1;
    assert MDay366Mask()[j] == MDay366Mask()[366..][j - 366] == j - 365;
  }

  lemma NMDayMaskAfterYear(y: int, i: int)
    requires YearLen(y) <= i < YearLen(y) + 7
    ensures |NMDayMask(y)| == YearLen(y) + 7 && NMDayMask(y)[i] == i - YearLen(y) - 31
  {
    assert NMDay366Mask()[366..] == Range(-31, 0)[..7];
    var j := if IsLeap(y) then i else i + 1;
    assert NMDay366Mask()[j] == NMDay366Mask()[366..][j - 366] == j - 397;
  }

  /** The ordinal that entry i of the tables of year y stands for. */
  function Ord(y: int, i: int): (n: int)
    requires 1 <= y
    ensures i < n
  {
    DaysBeforeYear(y) + 1 + i
  }

  lemma OrdInYear(y: int, i: int)
    requires 1 <= y && 0 <= i < YearLen(y)
    ensures YearOf(Ord(y, i)) == y && YearDay(Ord(y, i)) == i
  {
    assert DaysBeforeYear(y + 1) == DaysBeforeYear(y) + YearLen(y);
    YearOfIs(y, Ord(y, i));
  }

  lemma OrdAfterYear(y: int, i: int)
    requires 1 <= y && YearLen(y) <= i < YearLen(y) + 7
    ensures Ord(y, i) == Ord(y + 1, i - YearLen(y))
    ensures YearOf(Ord(y, i)) == y + 1 && YearDay(Ord(y, i)) == i - YearLen(y)
  {
    assert DaysBeforeYear(y + 1) == DaysBeforeYear(y) + YearLen(y);
    OrdInYear(y + 1, i - YearLen(y));
  }

  lemma TablesInYear(y: int, i: int)
    requires 1 <= y && 0 <= i < YearLen(y)
    ensures |MMask(y)| == |MDayMask(y)| == |NMDayMask(y)| == YearLen(y) + 7
    ensures MMask(y)[i] == MonthOf(Ord(y, i))
    ensures MDayMask(y)[i] == MonthDay(Ord(y, i))
    ensures NMDayMask(y)[i] == MonthDay(Ord(y, i)) - DaysInMonth(YearOf(Ord(y, i)), MonthOf(Ord(y, i))) - 1
  {
    OrdInYear(y, i);
    var m := MonthOf(Ord(y, i));
    MRangeIsCalendar(y, m);
    MRangeIsCalendar(y, m + 1);
    assert DaysBeforeMonth(y, m + 1) == DaysBeforeMonth(y, m) + DaysInMonth(y, m);
    MMaskInYear(y, m, i);
    MDayMaskInYear(y, m, i);
    NMDayMaskInYear(y, m, i);
  }

  lemma TablesPastYear(y: int, i: int)
    requires 1 <= y && YearLen(y) <= i < YearLen(y) + 7
    ensures |MMask(y)| == |MDayMask(y)| == |NMDayMask(y)| == YearLen(y) + 7
    ensures MMask(y)[i] == MonthOf(Ord(y, i))
    ensures MDayMask(y)[i] == MonthDay(Ord(y, i))
    ensures NMDayMask(y)[i] == MonthDay(Ord(y, i)) - DaysInMonth(YearOf(Ord(y, i)), MonthOf(Ord(y, i))) - 1
  {
    OrdAfterYear(y, i);
    TablesAfterYear(y, i);
    JanuaryFirst(Ord(y, i));
  }

  lemma WeekdayTable(y: int, i: int)
    requires 1 <= y && 0 <= i < YearLen(y) + 7
    ensures WDayMask(Weekday(Ord(y, 0)))[i] == Weekday(Ord(y, i))
  {
    WeekdayPlus(Ord(y, 0), i);
    assert Ord(y, i) == Ord(y, 0) + i;
  }

  lemma WeekdayPlus(n: int, i: int)
    ensures (Weekday(n) + i) % 7 == Weekday(n + i)
  {
  }

  /** Every entry of the tables, the seven extra days included, is the calendar's own value. */
  lemma TablesAreCalendar(y: int, i: int)
    requires 1 <= y && 0 <= i < YearLen(y) + 7
    ensures 1 <= Ord(y, i)
    ensures |MMask(y)| == |MDayMask(y)| == |NMDayMask(y)| == YearLen(y) + 7
    ensures MMask(y)[i] == MonthOf(Ord(y, i))
    ensures MDayMask(y)[i] == MonthDay(Ord(y, i))
    ensures NMDayMask(y)[i] == MonthDay(Ord(y, i)) - DaysInMonth(YearOf(Ord(y, i)), MonthOf(Ord(y, i))) - 1
    ensures WDayMask(Weekday(Ord(y, 0)))[i] == Weekday(Ord(y, i))
  {
    WeekdayTable(y, i);
    if i < YearLen(y) {
      TablesInYear(y, i);
    } else {
      TablesPastYear(y, i);
    }
  }

  lemma JanuaryFirst(n: int)
    requires 1 <= n && YearDay(n) < 31
    ensures MonthOf(n) == 1 && MonthDay(n) == YearDay(n) + 1
  {
    assert DaysBeforeMonth(YearOf(n), 1) == 0 && DaysBeforeMonth(YearOf(n), 2) == 31;
    MonthsKeepOrder(YearOf(n), MonthOf(n), YearDay(n), 1, YearDay(n));
  }
}
