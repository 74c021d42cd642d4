/** The FREQ periods as intervals of the time line, and the candidates inside and between them. */
module Periods {
  import opened Calendar
  import opened Masks
  import opened Rules
  import opened Stepping
  import opened Advance

  ghost predicate Sound(r: Rule) {
    r.interval >= 1 && DAY <= r.dtstart && 0 <= r.wkst < 7
  }

  /** Period k of the rule is the interval P..Q of the time line, and INTERVAL selects it. */
  ghost predicate SpanOf(r: Rule, k: int, P: int, Q: int)
    requires Sound(r)
  {
    && DAY <= P < Q
    && (k - Period(r, r.dtstart)) % r.interval == 0
    && forall u :: DAY <= u ==>
         (P <= u < Q <==> Period(r, u) == k && (r.freq == WEEKLY ==> DayOf(r.dtstart) <= DayOf(u)))
  }

  lemma PeriodMonotone(r: Rule, t: int, u: int)
    requires DAY <= t <= u
    ensures Period(r, t) <= Period(r, u)
  {
    match r.freq {
      case YEARLY => YearOfMonotone(DayOf(t), DayOf(u));
      case MONTHLY => MonthIndexMonotone(DayOf(t), DayOf(u));
      case _ =>
    }
  }

  lemma DayLine(a: int, b: int, u: int)
    ensures a * DAY <= u < b * DAY <==> a <= DayOf(u) < b
  {
  }

  lemma SpanYearly(r: Rule, y: int)
    requires Sound(r) && r.freq == YEARLY && 1 <= y && (y - YearOf(DayOf(r.dtstart))) % r.interval == 0
    ensures SpanOf(r, y, Ord(y, 0) * DAY, Ord(y + 1, 0) * DAY)
  {
    YearsAreMonotone(y, y + 1);
    forall u | DAY <= u
      ensures Ord(y, 0) * DAY <= u < Ord(y + 1, 0) * DAY <==> YearOf(DayOf(u)) == y
    {
      DayLine(Ord(y, 0), Ord(y + 1, 0), u);
      if Ord(y, 0) <= DayOf(u) < Ord(y + 1, 0) {
        YearOfIs(y, DayOf(u));
      }
    }
  }

  lemma SpanMonthly(r: Rule, k: int)
    requires Sound(r) && r.freq == MONTHLY && 12 <= k && (k - MonthIndex(DayOf(r.dtstart))) % r.interval == 0
    ensures SpanOf(r, k, (MonthIndexStart(k) + 1) * DAY, (MonthIndexStart(k + 1) + 1) * DAY)
  {
    var P, Q := (MonthIndexStart(k) + 1) * DAY, (MonthIndexStart(k + 1) + 1) * DAY;
    MonthNotEmpty(k);
    forall u | DAY <= u
      ensures P <= u < Q <==> Period(r, u) == k
    {
      MonthLine(k, u);
    }
  }

  lemma MonthNotEmpty(k: int)
    requires 12 <= k
    ensures 0 <= MonthIndexStart(k) < MonthIndexStart(k + 1)
  {
    MonthIndexStartMonotone(12, k);
    MonthIndexStartMonotone(k, k + 1);
  }

  lemma MonthLine(k: int, u: int)
    requires 12 <= k && DAY <= u
    ensures (MonthIndexStart(k) + 1) * DAY <= u < (MonthIndexStart(k + 1) + 1) * DAY <==> MonthIndex(DayOf(u)) == k
  {
    DayLine(MonthIndexStart(k) + 1, MonthIndexStart(k + 1) + 1, u);
    MonthIndexIs(k, DayOf(u));
  }

  lemma WeekIndexIs(s: int, e: int, wkst: int, n: int)
    requires 0 <= wkst < 7 && s < e <= s + 7 && Weekday(e) == wkst
    ensures WeekIndex(n, wkst) == WeekIndex(s, wkst) <==> e - 7 <= n < e
  {
    assert (e + 6 - wkst) % 7 == 0;
  }

  /** A week from its first day, or from the day of DTSTART, to the next week start. */
  lemma SpanWeekly(r: Rule, s: int, e: int)
    requires Sound(r) && r.freq == WEEKLY && 1 <= s < e <= s + 7 && Weekday(e) == r.wkst
    requires s == DayOf(r.dtstart) || (Weekday(s) == r.wkst && DayOf(r.dtstart) <= s)
    requires (WeekIndex(s, r.wkst) - WeekIndex(DayOf(r.dtstart), r.wkst)) % r.interval == 0
    ensures SpanOf(r, WeekIndex(s, r.wkst), s * DAY, e * DAY)
  {
    var d0 := DayOf(r.dtstart);
    assert s == d0 || s == e - 7 by { WeekStarts(s, e); }
    forall u | DAY <= u
      ensures s * DAY <= u < e * DAY <==> WeekIndex(DayOf(u), r.wkst) == WeekIndex(s, r.wkst) && d0 <= DayOf(u)
    {
      DayLine(s, e, u);
      WeekIndexIs(s, e, r.wkst, DayOf(u));
    }
  }

  lemma WeekStarts(s: int, e: int)
    ensures s < e <= s + 7 && Weekday(s) == Weekday(e) ==> s == e - 7
  {
  }

  lemma SpanDaily(r: Rule, n: int)
    requires Sound(r) && r.freq == DAILY && 1 <= n && (n - DayOf(r.dtstart)) % r.interval == 0
    ensures SpanOf(r, n, n * DAY, (n + 1) * DAY)
  {
  }

  function UnitSeconds(f: Freq): (s: int)
    ensures s > 0 && s * UnitsPerDay(f) == DAY
  {
    match f case HOURLY => 3600 case MINUTELY => 60 case _ => 1
  }

  lemma SpanClock(r: Rule, x: int)
    requires Sound(r) && r.freq.Rank() >= 4 && UnitsPerDay(r.freq) <= x
    requires (x - Period(r, r.dtstart)) % r.interval == 0
    ensures SpanOf(r, x, x * UnitSeconds(r.freq), (x + 1) * UnitSeconds(r.freq))
  {
  }

  // ---- Between periods ----

  lemma ApartByInterval(a: int, b: int, c: int, i: int)
    requires i >= 1 && (a - c) % i == 0 && (b - c) % i == 0 && a < b
    ensures a + i <= b && (b - a) % i == 0
  {
    var p := DivExact(a - c, i);
    var q := DivExact(b - c, i);
    assert b - a == (q - p) * i;
    DivModIs(b - a, q - p, 0, i);
    assert q - p >= 1;
  }

  lemma FirstOfMonth(y: int, m: int)
    requires 1 <= y && 1 <= m <= 12
    ensures MonthIndex(ToOrdinal(y, m, 1)) == 12 * y + m - 1
  {
    DateRoundTrip(Date(y, m, 1));
    MonthIndexOf(ToOrdinal(y, m, 1));
  }

  /** After a period the next candidates are at least INTERVAL periods on. */
  lemma LaterPeriod(r: Rule, k: int, P: int, Q: int, t: int)
    requires Sound(r) && SpanOf(r, k, P, Q) && Q <= t && Candidate(r, t)
    ensures k + r.interval <= Period(r, t) && (Period(r, t) - k) % r.interval == 0
  {
    LaterIndex(r, k, P, Q, t);
    ApartByInterval(k, Period(r, t), Period(r, r.dtstart), r.interval);
  }

  lemma LaterIndex(r: Rule, k: int, P: int, Q: int, t: int)
    requires Sound(r) && SpanOf(r, k, P, Q) && Q <= t
    ensures k < Period(r, t)
  {
    PeriodMonotone(r, P, t);
    assert Period(r, P) == k;
    assert DayOf(P) <= DayOf(t);
  }

  lemma EarlierPeriod(r: Rule, k: int, P: int, Q: int, k2: int, P2: int, Q2: int, t: int)
    requires Sound(r) && SpanOf(r, k, P, Q) && SpanOf(r, k2, P2, Q2) && Q <= t < P2
    ensures Period(r, t) < k2
  {
    assert Period(r, P2) == k2;
    PeriodMonotone(r, t, P2);
    assert DayOf(P) <= DayOf(t);
    assert r.freq == WEEKLY ==> DayOf(r.dtstart) <= DayOf(P);
  }

  /** Nothing lies between one selected period and the next. */
  lemma GapIsEmpty(r: Rule, k: int, P: int, Q: int, P2: int, Q2: int)
    requires Sound(r) && SpanOf(r, k, P, Q) && SpanOf(r, k + r.interval, P2, Q2)
    ensures Q <= P2
    ensures forall t :: Q <= t < P2 ==> !Candidate(r, t)
  {
    PeriodsInOrder(r, k, P, Q, k + r.interval, P2, Q2);
    forall t | Q <= t < P2
      ensures !Candidate(r, t)
    {
      NotBetween(r, k, P, Q, k + r.interval, P2, Q2, t);
    }
  }

  lemma PeriodsInOrder(r: Rule, k: int, P: int, Q: int, k2: int, P2: int, Q2: int)
    requires Sound(r) && SpanOf(r, k, P, Q) && SpanOf(r, k2, P2, Q2) && k < k2
    ensures Q <= P2
  {
    assert Period(r, P) == k && Period(r, P2) == k2;
    if P2 <= P {
      PeriodMonotone(r, P2, P);
    }
  }

  lemma NotBetween(r: Rule, k: int, P: int, Q: int, k2: int, P2: int, Q2: int, t: int)
    requires Sound(r) && SpanOf(r, k, P, Q) && SpanOf(r, k2, P2, Q2) && k2 == k + r.interval && Q <= t < P2
    ensures !Candidate(r, t)
  {
    if Candidate(r, t) {
      LaterPeriod(r, k, P, Q, t);
      EarlierPeriod(r, k, P, Q, k2, P2, Q2, t);
    }
  }

  /** Whether t, seen as a time of day, meets the filters at the FREQ level and above. */
  lemma TimeOkIsTodOk(r: Rule, t: int)
    requires r.freq.Rank() >= 4 && TimeOk(r, t)
    ensures TodOk(r, t / UnitSeconds(r.freq))
  {
    ClockOf(t);
  }

  lemma ClockOf(t: int)
    ensures HourOf(t) == t / 3600 % 24 && MinuteOf(t) == t / 60 % 60 && SecondOf(t) == t % 60
    ensures t / 60 / 60 % 24 == t / 3600 % 24
  {
    HourClock(t);
    MinuteClock(t);
  }

  lemma SplitHour(t: int)
    ensures t / 3600 == DayOf(t) * 24 + HourOf(t) && 0 <= HourOf(t) < 24
  {
  }

  lemma SplitMinute(t: int)
    ensures t / 60 == DayOf(t) * 1440 + HourOf(t) * 60 + MinuteOf(t)
    ensures 0 <= HourOf(t) < 24 && 0 <= MinuteOf(t) < 60
  {
    SplitHour(t);
    assert t / 60 == t / 3600 * 60 + t % 3600 / 60;
  }

  lemma SplitSecond(t: int)
    ensures t == DayOf(t) * 86400 + HourOf(t) * 3600 + MinuteOf(t) * 60 + SecondOf(t)
    ensures 0 <= HourOf(t) < 24 && 0 <= MinuteOf(t) < 60 && 0 <= SecondOf(t) < 60
  {
    SplitMinute(t);
  }

  lemma HourClock(t: int)
    ensures t % 86400 / 3600 == t / 3600 % 24
    ensures t / 60 / 60 == t / 3600
  {
    var d := t / 86400;
    assert t / 3600 == d * 24 + t % 86400 / 3600;
  }

  lemma MinuteClock(t: int)
    ensures t % 3600 / 60 == t / 60 % 60
  {
    var d := t / 3600;
    assert t / 60 == d * 60 + t % 3600 / 60;
  }

  /** Steps the search passed over hold no candidate: their time is not allowed or their day was rejected. */
  lemma PassedOverIsEmpty(r: Rule, filtered: bool, n: int, tod: int, m: int, t: int)
    requires Sound(r) && r.freq.Rank() >= 4 && 0 <= tod < UnitsPerDay(r.freq) && m >= 1
    requires DAY <= t && t / UnitSeconds(r.freq) == n * UnitsPerDay(r.freq) + Step(r, tod, m)
    requires PassedOver(r, filtered, tod, m)
    requires filtered ==> 1 <= n && n !in DateSet(r)
    ensures !Candidate(r, t)
  {
    var x := Step(r, tod, m);
    if TodOk(r, x) {
      assert 0 <= m * r.interval;
      DayOfUnit(r.freq, n, x, t);
    } else {
      TodPeriodic(r, x, n);
      if TimeOk(r, t) {
        TimeOkIsTodOk(r, t);
      }
    }
  }

  lemma DayOfUnit(f: Freq, n: int, x: int, t: int)
    requires 0 <= x < UnitsPerDay(f) && t / UnitSeconds(f) == n * UnitsPerDay(f) + x
    ensures DayOf(t) == n
  {
  }

  /** Between a period of the clock and the next step that was not passed over there is no candidate. */
  lemma ClockGapIsEmpty(r: Rule, filtered: bool, n: int, tod: int, steps: int, t: int)
    requires Sound(r) && r.freq.Rank() >= 4 && 0 <= tod < UnitsPerDay(r.freq) && 1 <= n
    requires var x := n * UnitsPerDay(r.freq) + tod;
             SpanOf(r, x, x * UnitSeconds(r.freq), (x + 1) * UnitSeconds(r.freq))
    requires filtered ==> n !in DateSet(r)
    requires steps >= 1 && forall m :: 1 <= m < steps ==> PassedOver(r, filtered, tod, m)
    requires (n * UnitsPerDay(r.freq) + tod + 1) * UnitSeconds(r.freq) <= t
    requires t / UnitSeconds(r.freq) < n * UnitsPerDay(r.freq) + Step(r, tod, steps)
    ensures !Candidate(r, t)
  {
    if Candidate(r, t) {
      var m := StepsFrom(r, n * UnitsPerDay(r.freq) + tod, t);
      StepCount(m, steps, r.interval);
      PassedOverIsEmpty(r, filtered, n, tod, m, t);
    }
  }

  /** A candidate after period x of a clock lies a whole number of steps on. */
  lemma StepsFrom(r: Rule, x: int, t: int) returns (m: int)
    requires Sound(r) && r.freq.Rank() >= 4 && SpanOf(r, x, x * UnitSeconds(r.freq), (x + 1) * UnitSeconds(r.freq))
    requires (x + 1) * UnitSeconds(r.freq) <= t && Candidate(r, t)
    ensures t / UnitSeconds(r.freq) == x + m * r.interval && r.interval <= m * r.interval
  {
    LaterPeriod(r, x, x * UnitSeconds(r.freq), (x + 1) * UnitSeconds(r.freq), t);
    PeriodIsUnit(r, t);
    m := DivExact(t / UnitSeconds(r.freq) - x, r.interval);
  }

  lemma PeriodIsUnit(r: Rule, t: int)
    requires r.freq.Rank() >= 4 && DAY <= t
    ensures Period(r, t) == t / UnitSeconds(r.freq)
  {
  }

  lemma StepCount(m: int, steps: int, i: int)
    requires i >= 1 && i <= m * i < steps * i
    ensures 1 <= m < steps
  {
  }
}
