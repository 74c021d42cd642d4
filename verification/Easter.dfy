/** dateutil/easter.py: the date of Easter in the Julian, Orthodox and Western reckonings. */
module Easter {
  import opened Sequences
  import opened Calendar

  const EASTER_JULIAN := 1
  const EASTER_ORTHODOX := 2
  const EASTER_WESTERN := 3

  /** Days from 21 March to the Paschal full moon. */
  function FullMoon(y: int, kind: int): int {
    var g := y % 19;
    if kind < 3 then (19 * g + 15) % 30
    else
      var c := y / 100;
      var h := (c - c / 4 - (8 * c + 13) / 25 + 19 * g + 15) % 30;
      h - (h / 28) * (1 - (h / 28) * (29 / (h + 1)) * ((21 - g) / 11))
  }

  /** The weekday of the full moon, 0 for Sunday. */
  function MoonWeekday(y: int, kind: int): int {
    var i := FullMoon(y, kind);
    if kind < 3 then (y + y / 4 + i) % 7
    else (y + y / 4 + i + 2 - y / 100 + y / 100 / 4) % 7
  }

  /** Days to add to a Julian date for the Orthodox reckoning. */
  function ExtraDays(y: int, kind: int): int {
    if kind != 2 then 0
    else if y > 1600 then 10 + y / 100 - 16 - (y / 100 - 16) / 4
    else 10
  }

  /** The date p days after 28 March. */
  function MonthDayOf(y: int, p: int): Date {
    Date(y, 3 + (p + 26) / 30, 1 + (p + 27 + (p + 6) / 40) % 31)
  }

  /** easter; None is the ValueError of an invalid method. */
  function EasterDate(y: int, kind: int): Option<Date> {
    if !(1 <= kind <= 3) then None
    else Some(MonthDayOf(y, FullMoon(y, kind) - MoonWeekday(y, kind) + ExtraDays(y, kind)))
  }

  function OrdinalOf(d: Date): int
    requires d.Valid()
  {
    ToOrdinal(d.year, d.month, d.day)
  }

  // ---- The date formula ----

  lemma SpringMonths(y: int)
    ensures DaysBeforeMonth(y, 4) == DaysBeforeMonth(y, 3) + 31 && DaysBeforeMonth(y, 5) == DaysBeforeMonth(y, 4) + 30
  {
  }

  lemma MonthOfOffset(p: int)
    requires -6 <= p <= 63
    ensures 3 + (p + 26) / 30 == if p <= 3 then 3 else if p <= 33 then 4 else 5
  {
  }

  lemma DayOfOffset(p: int)
    requires -6 <= p <= 63
    ensures 1 + (p + 27 + (p + 6) / 40) % 31 == if p <= 3 then p + 28 else if p <= 33 then p - 3 else p - 33
  {
    assert (p + 6) / 40 == if p <= 33 then 0 else 1;
    if p <= 3 {
      assert (p + 27) % 31 == p + 27;
    } else if p <= 33 {
      assert (p + 27) % 31 == p - 4;
    } else {
      assert (p + 28) % 31 == p - 34;
    }
  }

  lemma FormulaByMonth(y: int, p: int)
    requires -6 <= p <= 63
    ensures MonthDayOf(y, p) == if p <= 3 then Date(y, 3, p + 28) else if p <= 33 then Date(y, 4, p - 3) else Date(y, 5, p - 33)
  {
    MonthOfOffset(p);
    DayOfOffset(p);
  }

  /** The month and day formula counts days from 28 March, from 22 March to 30 May. */
  lemma FormulaCountsDays(y: int, p: int)
    requires 1 <= y && -6 <= p <= 63
    ensures MonthDayOf(y, p).Valid() && OrdinalOf(MonthDayOf(y, p)) == ToOrdinal(y, 3, 28) + p
  {
    SpringMonths(y);
    FormulaByMonth(y, p);
  }

  /** It goes wrong on the day after. */
  lemma FormulaEnds(y: int)
    ensures !MonthDayOf(y, 64).Valid()
  {
    assert MonthDayOf(y, 64) == Date(y, 6, 31);
  }

  /** Days before March, with the leap days in closed form. */
  lemma BeforeMarch(y: int)
    requires 1 <= y
    ensures ToOrdinal(y, 3, 0) == 365 * (y - 1) + 59 + y / 4 - y / 100 + y / 400
  {
    DaysBeforeYearClosed(y);
    LeapStep(y);
    FebruaryEnd(y);
  }

  lemma FebruaryEnd(y: int)
    ensures DaysBeforeMonth(y, 3) == 59 + if IsLeap(y) then 1 else 0
  {
    assert DaysBeforeMonth(y, 2) == 31;
  }

  lemma OldMoonRange(g: int)
    requires 0 <= g < 19
    ensures (19 * g + 15) % 30 <= 28
  {
  }

  lemma FullMoonRange(y: int, kind: int)
    requires 1 <= kind <= 3
    ensures 0 <= FullMoon(y, kind) <= 28
  {
    OldMoonRange(y % 19);
  }

  // ---- Western Easter ----

  /** The leap days that the Gregorian calendar has dropped at the century years up to 100 * c. */
  function Solar(c: int): int
    decreases c
  {
    if c <= 0 then 0 else Solar(c - 1) + (if IsLeap(100 * c) then 0 else 1)
  }

  /** The days by which the moon was moved: one in every third century, 1800 among them, but eight times
      in 2500 years. */
  function Lunar(c: int): int
    decreases c
  {
    if c <= 0 then 0 else Lunar(c - 1) + (if (c - 18) % 25 < 24 && (c - 18) % 25 % 3 == 0 then 1 else 0)
  }

  lemma {:induction false} SolarClosed(c: int)
    requires 0 <= c
    ensures Solar(c) == c - c / 4
  {
    if c > 0 {
      SolarClosed(c - 1);
      CenturyLeap(c);
    }
  }

  lemma CenturyLeap(c: int)
    ensures IsLeap(100 * c) <==> c % 4 == 0
  {
    Hundreds(100 * c, c / 4, c % 4);
  }

  lemma Hundreds(x: int, q: int, r: int)
    requires x == 400 * q + 100 * r && 0 <= r < 4
    ensures x % 400 == 100 * r && x % 100 == 0 && x % 4 == 0
  {
    assert x == 400 * q + 100 * r;
  }

  lemma {:induction false} LunarClosed(c: int)
    requires 0 <= c
    ensures Lunar(c) == (8 * c + 13) / 25
  {
    if c > 0 {
      LunarClosed(c - 1);
      LunarStep(c - 18, (c - 18) / 25, (c - 18) % 25);
    }
  }

  lemma LunarStep(d: int, q: int, r: int)
    requires d == 25 * q + r && 0 <= r < 25
    ensures (8 * (d + 18) + 13) / 25 == (8 * (d + 17) + 13) / 25 + if r < 24 && r % 3 == 0 then 1 else 0
  {
    TwentyFifths(8 * (d + 18) + 13, 8 * q + 6, 8 * r + 7);
    TwentyFifths(8 * (d + 17) + 13, 8 * q + 5, 8 * r + 24);
    EighthStep(r);
  }

  lemma TwentyFifths(x: int, q: int, r: int)
    requires x == 25 * q + r
    ensures x / 25 == q + r / 25
  {
  }

  lemma EighthStep(r: int)
    requires 0 <= r < 25
    ensures (8 * r + 7) / 25 + 1 == (8 * r + 24) / 25 + if r < 24 && r % 3 == 0 then 1 else 0
  {
  }

  /** The Western full moon: in the first year of the 19-year cycle 15 days after 21 March, every year after 11 days
      earlier modulo 30, with the solar and lunar corrections of the centuries, where the thirtieth day is moved to
      the day before, and so is the twenty-ninth in the last eight years of the cycle. */
  lemma WesternMoonIs(y: int)
    requires 1 <= y
    ensures var h := (15 - 11 * (y % 19) + Solar(y / 100) - Lunar(y / 100)) % 30;
            FullMoon(y, EASTER_WESTERN) == if h == 29 || (h == 28 && y % 19 >= 11) then h - 1 else h
  {
    var c, g := y / 100, y % 19;
    SolarClosed(c);
    LunarClosed(c);
    var h := (c - c / 4 - (8 * c + 13) / 25 + 19 * g + 15) % 30;
    ElevenBack(15 + c - c / 4 - (8 * c + 13) / 25, g);
    Exceptions(h, g);
  }

  lemma ElevenBack(x: int, g: int)
    ensures (x - 11 * g) % 30 == (x + 19 * g) % 30
  {
  }

  lemma Exceptions(h: int, g: int)
    requires 0 <= h < 30 && 0 <= g < 19
    ensures h - (h / 28) * (1 - (h / 28) * (29 / (h + 1)) * ((21 - g) / 11)) == if h == 29 || (h == 28 && g >= 11) then h - 1 else h
  {
    if h == 28 {
      assert (29 / (h + 1)) == 1;
    } else if h == 29 {
      assert 29 / (h + 1) == 0;
    }
  }

  lemma MultipleOfSeven(n: int, k: int)
    requires n == 7 * k
    ensures Weekday(n) == 6
  {
  }

  /** leaps is the number of leap days up to the end of February of year y. */
  lemma WesternSunday(y: int, leaps: int, i: int, j: int)
    requires 1 <= y && 0 <= i <= 28 && ToOrdinal(y, 3, 0) == 365 * (y - 1) + 59 + leaps
    requires j == (y + leaps + i + 2) % 7
    ensures Weekday(ToOrdinal(y, 3, 28) + (i - j)) == 6
  {
    var n := ToOrdinal(y, 3, 28) + (i - j);
    var k := (y + leaps + i + 2) / 7;
    assert y + leaps + i + 2 == 7 * k + j;
    assert n == 7 * (52 * y - 40 + k);
    MultipleOfSeven(n, 52 * y - 40 + k);
  }

  lemma WesternDate(d: Date, y: int, i: int, j: int)
    requires 1 <= y && 0 <= i <= 28 && 0 <= j < 7 && d == MonthDayOf(y, i - j)
    ensures d.Valid() && OrdinalOf(d) == ToOrdinal(y, 3, 28) + (i - j)
    ensures ToOrdinal(y, 3, 22) <= OrdinalOf(d) <= ToOrdinal(y, 4, 25)
    ensures 1 <= OrdinalOf(d) - (ToOrdinal(y, 3, 21) + i) <= 7
  {
    FormulaCountsDays(y, i - j);
    SpringMonths(y);
  }

  lemma MoonWeekdayIs(y: int)
    ensures MoonWeekday(y, EASTER_WESTERN) == (y + (y / 4 - y / 100 + y / 400) + FullMoon(y, EASTER_WESTERN) + 2) % 7
  {
    assert y / 100 / 4 == y / 400;
  }

  /** The numbers behind the Western date. */
  lemma WesternParts(y: int) returns (leaps: int, i: int, j: int)
    requires 1 <= y
    ensures i == FullMoon(y, EASTER_WESTERN) && 0 <= i <= 28
    ensures EasterDate(y, EASTER_WESTERN) == Some(MonthDayOf(y, i - j))
    ensures j == (y + leaps + i + 2) % 7 && ToOrdinal(y, 3, 0) == 365 * (y - 1) + 59 + leaps
  {
    FullMoonRange(y, EASTER_WESTERN);
    BeforeMarch(y);
    MoonWeekdayIs(y);
    leaps, i, j := y / 4 - y / 100 + y / 400, FullMoon(y, EASTER_WESTERN), MoonWeekday(y, EASTER_WESTERN);
  }

  /** Western Easter is the first Sunday after the Paschal full moon, between 22 March and 25 April. */
  lemma WesternEaster(y: int)
    requires 1 <= y
    ensures EasterDate(y, EASTER_WESTERN).Some?
    ensures var d := EasterDate(y, EASTER_WESTERN).value;
            && d.Valid() && Weekday(OrdinalOf(d)) == 6
            && ToOrdinal(y, 3, 22) <= OrdinalOf(d) <= ToOrdinal(y, 4, 25)
            && 1 <= OrdinalOf(d) - (ToOrdinal(y, 3, 21) + FullMoon(y, EASTER_WESTERN)) <= 7
  {
    var leaps, i, j := WesternParts(y);
    WesternDate(EasterDate(y, EASTER_WESTERN).value, y, i, j);
    WesternSunday(y, leaps, i, j);
  }

  // ---- Julian and Orthodox Easter ----

  /** The ordinal of day `day` of month m in the Julian calendar, for March and later. */
  function JulianOrdinal(y: int, m: int, day: int): int
    requires 3 <= m <= 12
  {
    365 * (y - 1) + y / 4 + 59 + (DaysBeforeMonth(1, m) - DaysBeforeMonth(1, 3)) + day - 2
  }

  lemma OrthodoxSunday(y: int, i: int, j: int, e: int)
    requires 1 <= y && j == (y + y / 4 + i) % 7
    requires ToOrdinal(y, 3, 0) == 365 * (y - 1) + 59 + y / 4 - e - 2
    ensures Weekday(ToOrdinal(y, 3, 28) + i - j + e) == 6
  {
    var n := ToOrdinal(y, 3, 28) + i - j + e;
    var k := (y + y / 4 + i) / 7;
    assert y + y / 4 + i == 7 * k + j;
    assert n == 7 * (52 * y - 40 + k);
    MultipleOfSeven(n, 52 * y - 40 + k);
  }

  /** The Julian date is the first Sunday after the full moon of the Julian calendar, which in the first year of the 19-year
      cycle is 15 days after 21 March and every year after 11 days earlier modulo 30. */
  lemma JulianEaster(y: int)
    requires 1 <= y
    ensures EasterDate(y, EASTER_JULIAN).Some?
    ensures var a, moon := EasterDate(y, EASTER_JULIAN).value, (15 - 11 * (y % 19)) % 30;
            && 3 <= a.month <= 12 && Weekday(JulianOrdinal(a.year, a.month, a.day)) == 6
            && 1 <= JulianOrdinal(a.year, a.month, a.day) - (JulianOrdinal(y, 3, 21) + moon) <= 7
  {
    var i, j, e := OrthodoxParts(y);
    ElevenBack(15, y % 19);
    JulianDay(y, i - j);
    JulianSunday(y, i, j);
    assert i == FullMoon(y, EASTER_JULIAN) == (15 - 11 * (y % 19)) % 30;
  }

  lemma JulianSunday(y: int, i: int, j: int)
    requires j == (y + y / 4 + i) % 7
    ensures Weekday(365 * (y - 1) + y / 4 + 85 + (i - j)) == 6
  {
    var k := (y + y / 4 + i) / 7;
    MultipleOfSeven(365 * (y - 1) + y / 4 + 85 + (i - j), 52 * y - 40 + k);
  }

  /** The Orthodox date is the Gregorian name of the day that the Julian method names, and it is a Sunday. */
  lemma OrthodoxIsJulian(y: int)
    requires 1500 <= y < 5000
    ensures EasterDate(y, EASTER_JULIAN).Some? && EasterDate(y, EASTER_ORTHODOX).Some?
    ensures var a, b := EasterDate(y, EASTER_JULIAN).value, EasterDate(y, EASTER_ORTHODOX).value;
            && b.Valid() && 3 <= a.month <= 12
            && OrdinalOf(b) == JulianOrdinal(a.year, a.month, a.day)
            && Weekday(OrdinalOf(b)) == 6
  {
    var i, j, e := OrthodoxParts(y);
    OrthodoxIsRightIff(y);
    BeforeMarch(y);
    FormulaCountsDays(y, i - j + e);
    OrthodoxSunday(y, i, j, e);
  }

  /** For every year whose offset the date formula can count, the Orthodox date is right exactly from 1500 on:
      before, the ten days are too many. */
  lemma OrthodoxIsRightIff(y: int)
    requires 1 <= y && FullMoon(y, EASTER_ORTHODOX) - MoonWeekday(y, EASTER_ORTHODOX) + ExtraDays(y, EASTER_ORTHODOX) <= 63
    ensures EasterDate(y, EASTER_JULIAN).Some? && EasterDate(y, EASTER_ORTHODOX).Some?
    ensures var a, b := EasterDate(y, EASTER_JULIAN).value, EasterDate(y, EASTER_ORTHODOX).value;
            && b.Valid() && 3 <= a.month <= 12
            && (OrdinalOf(b) == JulianOrdinal(a.year, a.month, a.day) <==> y >= 1500)
  {
    var i, j, e := OrthodoxParts(y);
    BeforeMarch(y);
    FormulaCountsDays(y, i - j + e);
    JulianDay(y, i - j);
  }

  /** The numbers behind the Orthodox date. */
  lemma OrthodoxParts(y: int) returns (i: int, j: int, e: int)
    requires 1 <= y
    ensures 0 <= i <= 28 && 0 <= j < 7 && 10 <= e && (e == y / 100 - y / 400 - 2 <==> y >= 1500)
    ensures j == (y + y / 4 + i) % 7 && (y < 5000 ==> e <= 35) && i == FullMoon(y, EASTER_JULIAN)
    ensures EasterDate(y, EASTER_JULIAN) == Some(MonthDayOf(y, i - j))
    ensures EasterDate(y, EASTER_ORTHODOX) == Some(MonthDayOf(y, i - j + e))
    ensures i - j + e == FullMoon(y, EASTER_ORTHODOX) - MoonWeekday(y, EASTER_ORTHODOX) + ExtraDays(y, EASTER_ORTHODOX)
  {
    FullMoonRange(y, EASTER_ORTHODOX);
    ExtraIsRightIff(y);
    i, j, e := FullMoon(y, EASTER_ORTHODOX), MoonWeekday(y, EASTER_ORTHODOX), ExtraDays(y, EASTER_ORTHODOX);
  }

  lemma JulianDay(y: int, p: int)
    requires 1 <= y && -6 <= p <= 28
    ensures var a := MonthDayOf(y, p);
            3 <= a.month <= 12 && JulianOrdinal(a.year, a.month, a.day) == 365 * (y - 1) + y / 4 + 59 + 26 + p
  {
    FormulaByMonth(y, p);
    SpringMonths(1);
  }

  lemma ExtraIsRightIff(y: int)
    requires 1 <= y
    ensures ExtraDays(y, EASTER_ORTHODOX) == y / 100 - y / 400 - 2 <==> y >= 1500
    ensures ExtraDays(y, EASTER_ORTHODOX) >= 10 && (y < 5000 ==> ExtraDays(y, EASTER_ORTHODOX) <= 35)
  {
    assert y / 400 == y / 100 / 4;
  }
}
