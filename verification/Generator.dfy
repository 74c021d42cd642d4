/** rrule._iter: the whole run of the generator, against the meaning of the rule. */
module Generator {
  import opened Sequences
  import opened Calendar
  import opened Masks
  import opened Listings
  import opened Rules
  import opened Stepping
  import opened Products
  import opened Advance
  import opened Periods
  import opened IterInfos
  import opened Emission
  import opened Outcomes

  /** The first day after n that starts a week. */
  function WeekEnd(n: int, wkst: int): (e: int)
    ensures n < e <= n + 7
  {
    n + 1 + (wkst - Weekday(n + 1)) % 7
  }

  function CursorDay(c: Cursor): int
    requires 1 <= c.year && 1 <= c.month <= 12
  {
    ToOrdinal(c.year, c.month, c.day)
  }

  ghost predicate CursorOk(r: Rule, c: Cursor) {
    && 1 <= c.year <= MAXYEAR && 1 <= c.month <= 12 && OnClock(c)
    && (r.freq.Rank() >= 2 ==> Date(c.year, c.month, c.day).Valid())
    && (r.freq == WEEKLY ==> c.weekday == Weekday(CursorDay(c)))
  }

  /** The days lo..hi - 1 of the cursor's period. */
  function PeriodDays(r: Rule, c: Cursor): (int, int)
    requires 1 <= c.year && 1 <= c.month <= 12
  {
    match r.freq
    case YEARLY => (Ord(c.year, 0), Ord(c.year + 1, 0))
    case MONTHLY => (ToOrdinal(c.year, c.month, 1), ToOrdinal(c.year, c.month, DaysInMonth(c.year, c.month) + 1))
    case WEEKLY => (CursorDay(c), WeekEnd(CursorDay(c), r.wkst))
    case _ => (CursorDay(c), CursorDay(c) + 1)
  }

  /** The cursor stands at the start of period k, which is P..Q on the time line. */
  ghost predicate AtPeriod(r: Rule, c: Cursor, k: int, P: int, Q: int) {
    && Sound(r) && CursorOk(r, c) && SpanOf(r, k, P, Q)
    && 1 <= PeriodDays(r, c).0
    && IsSpanOfDays(r, P, Q, PeriodDays(r, c).0, PeriodDays(r, c).1, Tod(r, c))
  }

  /** No candidate lies between Q and P2. */
  ghost predicate Lands(r: Rule, Q: int, P2: int)
    requires Sound(r)
  {
    Q <= P2 && forall t :: Q <= t < P2 ==> !Candidate(r, t)
  }

  ghost predicate NothingAfter(r: Rule, Q: int)
    requires Sound(r)
  {
    forall t :: Q <= t ==> t !in MatchSet(r)
  }

  lemma PastCalendar(r: Rule, Q: int, P2: int)
    requires Sound(r) && Lands(r, Q, P2) && (MaxOrdinal() + 1) * DAY <= P2
    ensures NothingAfter(r, Q)
  {
    forall t | Q <= t
      ensures t !in MatchSet(r)
    {
      if t < P2 {
        assert !Candidate(r, t);
      } else {
        assert DayOf(t) > MaxOrdinal();
      }
    }
  }

  lemma CandidateFree(r: Rule, Q: int)
    requires Sound(r) && forall t :: Q <= t ==> !Candidate(r, t)
    ensures NothingAfter(r, Q)
  {
  }

  lemma CursorInCalendar(c: Cursor)
    requires 1 <= c.year <= MAXYEAR && Date(c.year, c.month, c.day).Valid()
    ensures 1 <= CursorDay(c) <= MaxOrdinal()
  {
    IndexInYear(c.year, c.month, c.day);
    LastOrdinal(MAXYEAR);
    YearsAreMonotone(c.year + 1, MAXYEAR + 1);
    assert DaysBeforeYear(c.year + 1) == DaysBeforeYear(c.year) + YearLen(c.year);
  }

  // ---- The moves ----

  datatype Move = Moved(c: Cursor) | PastEnd | Empty

  /** What a move guarantees: it lands on the next period that can hold candidates, or there are no more matches. */
  ghost predicate MoveOk(r: Rule, c: Cursor, k: int, Q: int, m: Move, rebuild: bool, k2: int, P2: int, Q2: int)
    requires Sound(r)
  {
    match m
    case Moved(c2) =>
      && AtPeriod(r, c2, k2, P2, Q2) && Lands(r, Q, P2)
      && (r.freq.Rank() <= 3 ==> k2 == k + r.interval)
      && (r.freq.Rank() >= 4 ==> TodOk(r, Tod(r, c2)))
      && (!rebuild ==> c2.year == c.year && c2.month == c.month)
    case PastEnd =>
      && NothingAfter(r, Q) && !NeverAllowed(r)
      && (r.freq.Rank() <= 3 ==> k2 == k + r.interval && SpanOf(r, k2, P2, Q2) && End() <= P2)
    case Empty => NothingAfter(r, Q) && NeverAllowed(r)
  }

  method MoveYearly(r: Rule, c: Cursor, ghost k: int, ghost P: int, ghost Q: int)
    returns (m: Move, ghost k2: int, ghost P2: int, ghost Q2: int)
    requires r.freq == YEARLY && AtPeriod(r, c, k, P, Q)
    ensures MoveOk(r, c, k, Q, m, true, k2, P2, Q2)
  {
    var year := c.year + r.interval;
    k2, P2, Q2 := year, Ord(year, 0) * DAY, Ord(year + 1, 0) * DAY;
    NextYear(r, c, k, P, Q, year);
    if year > MAXYEAR {
      YearPastEnd(year, 1);
      PastCalendar(r, Q, P2);
      m := PastEnd;
    } else {
      YearReached(r, c.(year := year), year);
      m := Moved(c.(year := year));
    }
  }

  lemma NextYear(r: Rule, c: Cursor, k: int, P: int, Q: int, year: int)
    requires r.freq == YEARLY && AtPeriod(r, c, k, P, Q) && year == c.year + r.interval
    ensures year == k + r.interval && SpanOf(r, year, Ord(year, 0) * DAY, Ord(year + 1, 0) * DAY)
    ensures Lands(r, Q, Ord(year, 0) * DAY)
  {
    YearlyPeriod(r, c, k, P, Q);
    StillSelected(k, Period(r, r.dtstart), r.interval, 1);
    SpanYearly(r, year);
    GapIsEmpty(r, k, P, Q, Ord(year, 0) * DAY, Ord(year + 1, 0) * DAY);
  }

  lemma YearReached(r: Rule, c: Cursor, year: int)
    requires Sound(r) && r.freq == YEARLY && c.year == year <= MAXYEAR && 1 <= year && 1 <= c.month <= 12 && OnClock(c)
    requires SpanOf(r, year, Ord(year, 0) * DAY, Ord(year + 1, 0) * DAY)
    ensures AtPeriod(r, c, year, Ord(year, 0) * DAY, Ord(year + 1, 0) * DAY)
  {
  }

  lemma YearPastEnd(year: int, month: int)
    requires year > MAXYEAR && 1 <= month <= 12
    ensures MaxOrdinal() < Ord(year, 0) && MaxOrdinal() < ToOrdinal(year, month, 1)
  {
    LastOrdinal(MAXYEAR);
    YearsAreMonotone(MAXYEAR + 1, year);
  }

  lemma YearlyPeriod(r: Rule, c: Cursor, k: int, P: int, Q: int)
    requires r.freq == YEARLY && AtPeriod(r, c, k, P, Q)
    ensures k == c.year
  {
    assert Period(r, P) == k;
    assert DayOf(P) == Ord(c.year, 0);
    OrdInYear(c.year, 0);
  }

  lemma StillSelected(k: int, k0: int, i: int, steps: int)
    requires i >= 1 && (k - k0) % i == 0
    ensures (k + steps * i - k0) % i == 0
  {
    var q := DivExact(k - k0, i);
    assert k + steps * i - k0 == (q + steps) * i;
    DivModIs(k + steps * i - k0, q + steps, 0, i);
  }

  /** month += interval with the year carried; a remainder of 0 is month 12 of the year before. */
  method CarryMonth(year0: int, month0: int, interval: int) returns (year: int, month: int)
    requires 1 <= month0 <= 12 && interval >= 1
    ensures 12 * year + month == 12 * year0 + month0 + interval && 1 <= month <= 12 && year0 <= year
  {
    year, month := year0, month0 + interval;
    if month > 12 {
      var div, mod := month / 12, month % 12;
      month := mod;
      year := year + div;
      if month == 0 {
        month := 12;
        year := year - 1;
      }
    }
  }

  method MoveMonthly(r: Rule, c: Cursor, ghost k: int, ghost P: int, ghost Q: int)
    returns (m: Move, ghost k2: int, ghost P2: int, ghost Q2: int)
    requires r.freq == MONTHLY && AtPeriod(r, c, k, P, Q)
    ensures MoveOk(r, c, k, Q, m, true, k2, P2, Q2)
  {
    var year, month := CarryMonth(c.year, c.month, r.interval);
    k2 := k + r.interval;
    P2, Q2 := ToOrdinal(year, month, 1) * DAY, ToOrdinal(year, month, DaysInMonth(year, month) + 1) * DAY;
    NextMonthPeriod(r, c, k, P, Q, year, month);
    if year > MAXYEAR {
      YearPastEnd(year, month);
      PastCalendar(r, Q, P2);
      m := PastEnd;
    } else {
      MonthReached(r, c.(year := year, month := month), k2, year, month);
      m := Moved(c.(year := year, month := month));
    }
  }

  lemma MonthReached(r: Rule, c: Cursor, k: int, y: int, m: int)
    requires Sound(r) && r.freq == MONTHLY && c.year == y <= MAXYEAR && c.month == m && 1 <= y && 1 <= m <= 12 && OnClock(c)
    requires SpanOf(r, k, ToOrdinal(y, m, 1) * DAY, ToOrdinal(y, m, DaysInMonth(y, m) + 1) * DAY)
    ensures AtPeriod(r, c, k, ToOrdinal(y, m, 1) * DAY, ToOrdinal(y, m, DaysInMonth(y, m) + 1) * DAY)
  {
  }

  lemma NextMonthPeriod(r: Rule, c: Cursor, k: int, P: int, Q: int, y: int, m: int)
    requires r.freq == MONTHLY && AtPeriod(r, c, k, P, Q)
    requires 1 <= y && 1 <= m <= 12 && 12 * y + m == 12 * c.year + c.month + r.interval
    ensures SpanOf(r, k + r.interval, ToOrdinal(y, m, 1) * DAY, ToOrdinal(y, m, DaysInMonth(y, m) + 1) * DAY)
    ensures Lands(r, Q, ToOrdinal(y, m, 1) * DAY)
  {
    MonthlyPeriod(r, c, k, P, Q);
    StillSelected(k, Period(r, r.dtstart), r.interval, 1);
    MonthPeriod(r, y, m);
    GapIsEmpty(r, k, P, Q, ToOrdinal(y, m, 1) * DAY, ToOrdinal(y, m, DaysInMonth(y, m) + 1) * DAY);
  }

  lemma MonthPeriod(r: Rule, y: int, m: int)
    requires Sound(r) && r.freq == MONTHLY && 1 <= y && 1 <= m <= 12
    requires (12 * y + m - 1 - Period(r, r.dtstart)) % r.interval == 0
    ensures SpanOf(r, 12 * y + m - 1, ToOrdinal(y, m, 1) * DAY, ToOrdinal(y, m, DaysInMonth(y, m) + 1) * DAY)
  {
    MonthSpanOf(r, 12 * y + m - 1, y, m);
  }

  lemma MonthSpanOf(r: Rule, k: int, y: int, m: int)
    requires Sound(r) && r.freq == MONTHLY && 1 <= y && 1 <= m <= 12 && k == 12 * y + m - 1
    requires (k - Period(r, r.dtstart)) % r.interval == 0
    ensures SpanOf(r, k, ToOrdinal(y, m, 1) * DAY, ToOrdinal(y, m, DaysInMonth(y, m) + 1) * DAY)
  {
    SpanMonthly(r, k);
    MonthStarts(k, y, m);
  }

  lemma MonthStarts(k: int, y: int, m: int)
    requires 1 <= y && 1 <= m <= 12 && k == 12 * y + m - 1
    ensures MonthIndexStart(k) + 1 == ToOrdinal(y, m, 1)
    ensures MonthIndexStart(k + 1) + 1 == ToOrdinal(y, m, DaysInMonth(y, m) + 1)
  {
    MonthIndexAt(k, y, m);
    MonthIndexNext(k, y, m);
    MonthLength(y, m);
  }

  lemma MonthLength(y: int, m: int)
    requires 1 <= y && 1 <= m <= 12
    ensures ToOrdinal(y, m, 1) == ToOrdinal(y, m, 0) + 1
    ensures ToOrdinal(y, m, DaysInMonth(y, m) + 1) == ToOrdinal(y, m, 0) + DaysInMonth(y, m) + 1
  {
  }

  lemma MonthlyPeriod(r: Rule, c: Cursor, k: int, P: int, Q: int)
    requires r.freq == MONTHLY && AtPeriod(r, c, k, P, Q)
    ensures k == 12 * c.year + c.month - 1
  {
    assert Period(r, P) == k;
    FirstOfMonth(c.year, c.month);
    assert DayOf(P) == ToOrdinal(c.year, c.month, 1);
  }

  /** day += interval. */
  method MoveDaily(r: Rule, c: Cursor, ghost k: int, ghost P: int, ghost Q: int)
    returns (m: Move, rebuild: bool, ghost k2: int, ghost P2: int, ghost Q2: int)
    requires r.freq == DAILY && AtPeriod(r, c, k, P, Q)
    ensures MoveOk(r, c, k, Q, m, rebuild, k2, P2, Q2)
  {
    ghost var n := CursorDay(c);
    assert Period(r, P) == k;
    assert DayOf(P) == n;
    k2, P2, Q2 := n + r.interval, (n + r.interval) * DAY, (n + r.interval + 1) * DAY;
    StillSelected(k, Period(r, r.dtstart), r.interval, 1);
    SpanDaily(r, n + r.interval);
    GapIsEmpty(r, k, P, Q, P2, Q2);
    m, rebuild := Settle(r, c, c.(day := c.day + r.interval), k2, P2, Q2, k, Q);
  }

  /** Normalises the day of a cursor that is right in every other respect. */
  method Settle(r: Rule, c0: Cursor, c: Cursor, ghost k: int, ghost P: int, ghost Q: int, ghost k0: int, ghost Q0: int)
    returns (m: Move, rebuild: bool)
    requires r.freq.Rank() >= 2 && Sound(r) && SpanOf(r, k, P, Q) && Lands(r, Q0, P)
    requires !NeverAllowed(r) && (r.freq.Rank() <= 3 ==> k == k0 + r.interval)
    requires 1 <= c.year <= MAXYEAR && 1 <= c.month <= 12 && 1 <= c.day && OnClock(c)
    requires c.year == c0.year && c.month == c0.month
    requires r.freq == WEEKLY ==> c.weekday == Weekday(CursorDay(c))
    requires IsSpanOfDays(r, P, Q, PeriodDays(r, c).0, PeriodDays(r, c).1, Tod(r, c))
    requires r.freq.Rank() >= 4 ==> TodOk(r, Tod(r, c))
    ensures MoveOk(r, c0, k0, Q0, m, rebuild, k, P, Q)
  {
    var y, mo, d, over := FixDay(c.year, c.month, c.day);
    rebuild := y != c.year || mo != c.month;
    if over {
      SpanStartsDay(r, P, Q, c);
      PastCalendar(r, Q0, P);
      m := PastEnd;
    } else {
      m := Moved(c.(year := y, month := mo, day := d));
    }
  }

  lemma SpanStartsDay(r: Rule, P: int, Q: int, c: Cursor)
    requires r.freq.Rank() >= 2 && 1 <= c.year && 1 <= c.month <= 12
    requires IsSpanOfDays(r, P, Q, PeriodDays(r, c).0, PeriodDays(r, c).1, Tod(r, c))
    ensures CursorDay(c) * DAY <= P
  {
  }

  /** On to the week start INTERVAL weeks on; the first week may have begun in its middle. */
  method MoveWeekly(r: Rule, c: Cursor, ghost k: int, ghost P: int, ghost Q: int)
    returns (m: Move, rebuild: bool, ghost k2: int, ghost P2: int, ghost Q2: int)
    requires r.freq == WEEKLY && AtPeriod(r, c, k, P, Q)
    ensures MoveOk(r, c, k, Q, m, rebuild, k2, P2, Q2)
  {
    var day := c.day;
    if r.wkst > c.weekday {
      day := day + (-(c.weekday + 1 + (6 - r.wkst)) + r.interval * 7);
    } else {
      day := day + (-(c.weekday - r.wkst) + r.interval * 7);
    }
    ghost var n2 := CursorDay(c) + day - c.day;
    k2, P2, Q2 := k + r.interval, n2 * DAY, (n2 + 7) * DAY;
    WeekReached(r, c, k, P, Q, c.(day := day, weekday := r.wkst), n2);
    m, rebuild := Settle(r, c, c.(day := day, weekday := r.wkst), k2, P2, Q2, k, Q);
  }

  /** What the cursor on the next week start is. */
  lemma WeekReached(r: Rule, c: Cursor, k: int, P: int, Q: int, c2: Cursor, n2: int)
    requires r.freq == WEEKLY && AtPeriod(r, c, k, P, Q) && c2 == c.(day := c.day + n2 - CursorDay(c), weekday := r.wkst)
    requires n2 == CursorDay(c) + r.interval * 7
                   + (if r.wkst > c.weekday then -(c.weekday + 1 + (6 - r.wkst)) else -(c.weekday - r.wkst))
    ensures SpanOf(r, k + r.interval, n2 * DAY, (n2 + 7) * DAY) && Lands(r, Q, n2 * DAY)
    ensures 1 <= c2.day && c2.weekday == Weekday(CursorDay(c2)) && CursorDay(c2) == n2
    ensures IsSpanOfDays(r, n2 * DAY, (n2 + 7) * DAY, PeriodDays(r, c2).0, PeriodDays(r, c2).1, Tod(r, c2))
  {
    WeekMove(CursorDay(c), r.wkst, r.interval, n2);
    NextWeek(r, c, k, P, Q, n2);
  }

  lemma NextWeek(r: Rule, c: Cursor, k: int, P: int, Q: int, n2: int)
    requires r.freq == WEEKLY && AtPeriod(r, c, k, P, Q)
    requires Weekday(n2) == r.wkst && CursorDay(c) < n2 && Weekday(n2 + 7) == r.wkst
    requires WeekIndex(n2, r.wkst) == WeekIndex(CursorDay(c), r.wkst) + r.interval
    ensures SpanOf(r, k + r.interval, n2 * DAY, (n2 + 7) * DAY) && Lands(r, Q, n2 * DAY)
  {
    assert Period(r, P) == k;
    assert DayOf(P) == CursorDay(c);
    StillSelected(k, Period(r, r.dtstart), r.interval, 1);
    SpanWeekly(r, n2, n2 + 7);
    GapIsEmpty(r, k, P, Q, n2 * DAY, (n2 + 7) * DAY);
  }

  lemma WeekMove(n: int, wkst: int, i: int, n2: int)
    requires 0 <= wkst < 7 && i >= 1
    requires n2 == n + i * 7 + (if wkst > Weekday(n) then -(Weekday(n) + 1 + (6 - wkst)) else -(Weekday(n) - wkst))
    ensures Weekday(n2) == wkst && n < n2 && WeekIndex(n2, wkst) == WeekIndex(n, wkst) + i
    ensures Weekday(n2 + 7) == wkst && WeekEnd(n2, wkst) == n2 + 7
  {
    var w := Weekday(n);
    var back := if wkst > w then w + 1 + (6 - wkst) else w - wkst;
    assert 0 <= back < 7 && (n - back + 6 - wkst) % 7 == 0;
    assert n2 == n - back + 7 * i;
  }

  // ---- Sub-daily moves ----

  lemma ClockPeriod(r: Rule, c: Cursor, k: int, P: int, Q: int)
    requires r.freq.Rank() >= 4 && AtPeriod(r, c, k, P, Q)
    ensures k == CursorDay(c) * UnitsPerDay(r.freq) + Tod(r, c) && 0 <= Tod(r, c) < UnitsPerDay(r.freq)
    ensures P == k * UnitSeconds(r.freq) && Q == (k + 1) * UnitSeconds(r.freq)
  {
    assert Period(r, P) == k;
    PeriodIsUnit(r, P);
  }

  lemma ClockLands(r: Rule, c: Cursor, filtered: bool, k: int, P: int, Q: int, c2: Cursor, n: int)
    requires r.freq.Rank() >= 4 && AtPeriod(r, c, k, P, Q) && IsNext(r, filtered, c, c2, n)
    requires filtered ==> CursorDay(c) !in DateSet(r)
    ensures k + n * r.interval == (CursorDay(c) + c2.day - c.day) * UnitsPerDay(r.freq) + Tod(r, c2)
    ensures Lands(r, Q, (k + n * r.interval) * UnitSeconds(r.freq))
  {
    ClockPeriod(r, c, k, P, Q);
    StepsForward(n, r.interval);
    UnitsInOrder(k, n * r.interval, UnitSeconds(r.freq));
    SameUnit(CursorDay(c), c2.day - c.day, UnitsPerDay(r.freq), Tod(r, c2), Tod(r, c), n * r.interval);
    forall t | Q <= t < (k + n * r.interval) * UnitSeconds(r.freq)
      ensures !Candidate(r, t)
    {
      UnitBefore(t, k + n * r.interval, UnitSeconds(r.freq));
      ClockGapIsEmpty(r, filtered, CursorDay(c), Tod(r, c), n, t);
    }
  }

  lemma SameUnit(n: int, days: int, units: int, tod2: int, tod: int, more: int)
    requires days * units + tod2 == tod + more
    ensures n * units + tod + more == (n + days) * units + tod2
  {
  }

  lemma StepsForward(n: int, interval: int)
    requires n >= 1 && interval >= 1
    ensures n * interval >= 1
  {
  }

  lemma UnitsInOrder(k: int, more: int, us: int)
    requires more >= 1 && us > 0
    ensures (k + 1) * us <= (k + more) * us
  {
    MulOrder(k + 1, k + more, us);
  }

  lemma UnitBefore(t: int, x: int, us: int)
    requires us > 0 && t < x * us
    ensures t / us < x
  {
    assert t == us * (t / us) + t % us;
    assert us * (x - t / us) > 0;
  }

  lemma ClockNever(r: Rule, c: Cursor, filtered: bool, k: int, P: int, Q: int)
    requires r.freq.Rank() >= 4 && AtPeriod(r, c, k, P, Q) && NeverOk(r, Tod(r, c))
    requires filtered ==> CursorDay(c) !in DateSet(r)
    ensures NothingAfter(r, Q)
  {
    ClockPeriod(r, c, k, P, Q);
    forall t | Q <= t
      ensures !Candidate(r, t)
    {
      NeverOkIsPassedOver(r, filtered, Tod(r, c), Steps(t / UnitSeconds(r.freq)));
      EnoughSteps(r, CursorDay(c) * UnitsPerDay(r.freq), Tod(r, c), t / UnitSeconds(r.freq));
      ClockGapIsEmpty(r, filtered, CursorDay(c), Tod(r, c), Steps(t / UnitSeconds(r.freq)), t);
    }
    CandidateFree(r, Q);
  }

  lemma NeverOkIsPassedOver(r: Rule, filtered: bool, x: int, steps: int)
    requires NeverOk(r, x)
    ensures forall m :: 1 <= m < steps ==> PassedOver(r, filtered, x, m)
  {
    forall m | 1 <= m < steps
      ensures PassedOver(r, filtered, x, m)
    {
      assert !TodOk(r, Step(r, x, m));
    }
  }

  /** No step from the cursor is allowed exactly when none from DTSTART is. */
  lemma ClockAllowed(r: Rule, c: Cursor, k: int, P: int, Q: int)
    requires r.freq.Rank() >= 4 && AtPeriod(r, c, k, P, Q)
    ensures r.freq.Rank() >= 5 ==> (NeverOk(r, Tod(r, c)) <==> NeverAllowed(r))
  {
    if r.freq.Rank() >= 5 {
      ClockPeriod(r, c, k, P, Q);
      NeverIsNeverOk(r);
      var first, units := Period(r, r.dtstart), UnitsPerDay(r.freq);
      var q := DivExact(k - first, r.interval);
      assert k == Step(r, first, q);
      if NeverAllowed(r) {
        SameNever(r, first, Tod(r, c), q, CursorDay(c));
      }
      if NeverOk(r, Tod(r, c)) {
        Negated(q, r.interval);
        Negated(CursorDay(c), units);
        SameNever(r, Tod(r, c), first, -q, -CursorDay(c));
      }
    }
  }

  lemma Negated(a: int, b: int)
    ensures (-a) * b == -(a * b)
  {
  }

  function Steps(x: int): int {
    if x < 0 then 1 else x + 1
  }

  lemma EnoughSteps(r: Rule, base: int, tod: int, x: int)
    requires r.interval >= 1 && 0 <= base && 0 <= tod
    ensures Steps(x) >= 1 && x < base + Step(r, tod, Steps(x))
  {
    assert Steps(x) * r.interval >= Steps(x);
  }

  /** The value at the FREQ level stays reachable from DTSTART's. */
  lemma HourFits(r: Rule, c: Cursor, k: int, P: int, Q: int)
    requires r.freq == HOURLY && Ready(r) && AtPeriod(r, c, k, P, Q)
    ensures Fits(c.hour, r.interval, r.byhour, 24)
  {
    ClockPeriod(r, c, k, P, Q);
    var q := DivExact(k - Period(r, r.dtstart), r.interval);
    SplitHour(r.dtstart);
    PeriodIsUnit(r, r.dtstart);
    FitsMoves(HourOf(r.dtstart), r.interval, r.byhour, 24, q, CursorDay(c) - DayOf(r.dtstart));
  }

  lemma MinuteFits(r: Rule, c: Cursor, k: int, P: int, Q: int)
    requires r.freq == MINUTELY && Ready(r) && AtPeriod(r, c, k, P, Q)
    ensures Fits(c.minute, r.interval, r.byminute, 60)
  {
    ClockPeriod(r, c, k, P, Q);
    var q := DivExact(k - Period(r, r.dtstart), r.interval);
    MinuteClock(r.dtstart);
    FitsMoves(MinuteOf(r.dtstart), r.interval, r.byminute, 60, q, CursorDay(c) * 24 + c.hour - r.dtstart / 60 / 60);
  }

  lemma SecondFits(r: Rule, c: Cursor, k: int, P: int, Q: int)
    requires r.freq == SECONDLY && Ready(r) && AtPeriod(r, c, k, P, Q)
    ensures Fits(c.second, r.interval, r.bysecond, 60)
  {
    ClockPeriod(r, c, k, P, Q);
    var q := DivExact(k - Period(r, r.dtstart), r.interval);
    FitsMoves(SecondOf(r.dtstart), r.interval, r.bysecond, 60, q,
              CursorDay(c) * 1440 + c.hour * 60 + c.minute - r.dtstart / 60);
  }

  method MoveClock(r: Rule, c: Cursor, filtered: bool, ghost k: int, ghost P: int, ghost Q: int)
    returns (m: Move, rebuild: bool, ghost k2: int, ghost P2: int, ghost Q2: int)
    requires r.freq.Rank() >= 4 && Ready(r) && AtPeriod(r, c, k, P, Q)
    requires filtered ==> CursorDay(c) !in DateSet(r)
    ensures MoveOk(r, c, k, Q, m, rebuild, k2, P2, Q2)
  {
    var res, fixday;
    ghost var n;
    match r.freq {
      case HOURLY =>
        HourFits(r, c, k, P, Q);
        var c2;
        c2, fixday, n := AdvanceHourly(r, c, filtered);
        res := Some(c2);
      case MINUTELY =>
        MinuteFits(r, c, k, P, Q);
        res, fixday, n := AdvanceMinutely(r, c, filtered);
      case _ =>
        SecondFits(r, c, k, P, Q);
        res, fixday, n := AdvanceSecondly(r, c, filtered);
    }
    k2, P2, Q2 := k, P, Q;
    ClockAllowed(r, c, k, P, Q);
    if res.None? {
      ClockNever(r, c, filtered, k, P, Q);
      m, rebuild := Empty, false;
    } else {
      NextIsAllowed(r, filtered, c, res.value, n);
      k2, P2, Q2 := ClockMove(r, c, filtered, k, P, Q, res.value, n);
      if fixday {
        m, rebuild := Settle(r, c, res.value, k2, P2, Q2, k, Q);
      } else {
        m, rebuild := Moved(res.value), false;
      }
    }
  }

  /** The period that the n-th step leads to. */
  lemma ClockMove(r: Rule, c: Cursor, filtered: bool, k: int, P: int, Q: int, c2: Cursor, n: int)
    returns (k2: int, P2: int, Q2: int)
    requires r.freq.Rank() >= 4 && AtPeriod(r, c, k, P, Q) && IsNext(r, filtered, c, c2, n)
    requires filtered ==> CursorDay(c) !in DateSet(r)
    ensures SpanOf(r, k2, P2, Q2) && Lands(r, Q, P2)
    ensures IsSpanOfDays(r, P2, Q2, PeriodDays(r, c2).0, PeriodDays(r, c2).1, Tod(r, c2))
  {
    ClockLands(r, c, filtered, k, P, Q, c2, n);
    ClockSpan(r, c, k, P, Q, c2, n);
    k2, P2, Q2 := k + n * r.interval, (k + n * r.interval) * UnitSeconds(r.freq), (k + n * r.interval + 1) * UnitSeconds(r.freq);
  }

  lemma ClockSpan(r: Rule, c: Cursor, k: int, P: int, Q: int, c2: Cursor, n: int)
    requires r.freq.Rank() >= 4 && AtPeriod(r, c, k, P, Q) && n >= 1
    requires c2.year == c.year && c2.month == c.month && OnClock(c2)
    requires k + n * r.interval == (CursorDay(c) + c2.day - c.day) * UnitsPerDay(r.freq) + Tod(r, c2)
    ensures var x := k + n * r.interval; SpanOf(r, x, x * UnitSeconds(r.freq), (x + 1) * UnitSeconds(r.freq))
    ensures var x := k + n * r.interval;
            IsSpanOfDays(r, x * UnitSeconds(r.freq), (x + 1) * UnitSeconds(r.freq),
                         PeriodDays(r, c2).0, PeriodDays(r, c2).1, Tod(r, c2))
  {
    ClockPeriod(r, c, k, P, Q);
    StillSelected(k, Period(r, r.dtstart), r.interval, n);
    assert n * r.interval >= 1;
    FirstDayUnits(r.freq, CursorDay(c), Tod(r, c));
    SpanClock(r, k + n * r.interval);
  }

  lemma FirstDayUnits(f: Freq, n: int, tod: int)
    requires 1 <= n && 0 <= tod
    ensures UnitsPerDay(f) <= n * UnitsPerDay(f) + tod
  {
  }

  // ---- The first period ----

  function StartCursor(r: Rule): Cursor
    requires DAY <= r.dtstart
  {
    var n := DayOf(r.dtstart);
    Cursor(YearOf(n), MonthOf(n), MonthDay(n), HourOf(r.dtstart), MinuteOf(r.dtstart), SecondOf(r.dtstart), Weekday(n))
  }

  lemma StartCursorOk(r: Rule)
    requires Sound(r) && DayOf(r.dtstart) <= MaxOrdinal()
    ensures CursorOk(r, StartCursor(r)) && CursorDay(StartCursor(r)) == DayOf(r.dtstart)
  {
    var n := DayOf(r.dtstart);
    OrdinalRoundTrip(n);
    LastOrdinal(MAXYEAR);
    if YearOf(n) > MAXYEAR {
      YearsAreMonotone(MAXYEAR + 1, YearOf(n));
    }
  }

  lemma StartTod(r: Rule)
    requires r.freq.Rank() >= 4 && DAY <= r.dtstart
    ensures r.dtstart / UnitSeconds(r.freq) == DayOf(r.dtstart) * UnitsPerDay(r.freq) + Tod(r, StartCursor(r))
    ensures 0 <= Tod(r, StartCursor(r)) < UnitsPerDay(r.freq)
  {
    TodOfClock(r, StartCursor(r), r.dtstart);
  }

  lemma TodOfClock(r: Rule, c: Cursor, t: int)
    requires r.freq.Rank() >= 4 && c.hour == HourOf(t) && c.minute == MinuteOf(t) && c.second == SecondOf(t)
    ensures t / UnitSeconds(r.freq) == DayOf(t) * UnitsPerDay(r.freq) + Tod(r, c)
    ensures 0 <= Tod(r, c) < UnitsPerDay(r.freq)
  {
    SplitHour(t);
    SplitMinute(t);
    SplitSecond(t);
  }

  lemma StartPeriod(r: Rule) returns (P: int, Q: int)
    requires Sound(r) && DayOf(r.dtstart) <= MaxOrdinal()
    ensures AtPeriod(r, StartCursor(r), Period(r, r.dtstart), P, Q) && P <= r.dtstart
  {
    match r.freq {
      case YEARLY => P, Q := StartYearly(r);
      case MONTHLY => P, Q := StartMonthly(r);
      case WEEKLY => P, Q := StartWeekly(r);
      case DAILY => P, Q := StartDaily(r);
      case _ => P, Q := StartClock(r);
    }
  }

  lemma StartYearly(r: Rule) returns (P: int, Q: int)
    requires Sound(r) && DayOf(r.dtstart) <= MaxOrdinal() && r.freq == YEARLY
    ensures AtPeriod(r, StartCursor(r), Period(r, r.dtstart), P, Q) && P <= r.dtstart
  {
    StartCursorOk(r);
    var y := YearOf(DayOf(r.dtstart));
    P, Q := Ord(y, 0) * DAY, Ord(y + 1, 0) * DAY;
    SpanYearly(r, y);
  }

  lemma StartMonthly(r: Rule) returns (P: int, Q: int)
    requires Sound(r) && DayOf(r.dtstart) <= MaxOrdinal() && r.freq == MONTHLY
    ensures AtPeriod(r, StartCursor(r), Period(r, r.dtstart), P, Q) && P <= r.dtstart
  {
    StartCursorOk(r);
    var y, m := YearOf(DayOf(r.dtstart)), MonthOf(DayOf(r.dtstart));
    MonthIndexOf(DayOf(r.dtstart));
    P, Q := ToOrdinal(y, m, 1) * DAY, ToOrdinal(y, m, DaysInMonth(y, m) + 1) * DAY;
    MonthPeriod(r, y, m);
  }

  lemma StartWeekly(r: Rule) returns (P: int, Q: int)
    requires Sound(r) && DayOf(r.dtstart) <= MaxOrdinal() && r.freq == WEEKLY
    ensures AtPeriod(r, StartCursor(r), Period(r, r.dtstart), P, Q) && P <= r.dtstart
  {
    StartCursorOk(r);
    var n := DayOf(r.dtstart);
    P, Q := n * DAY, WeekEnd(n, r.wkst) * DAY;
    WeekEndIs(n, r.wkst);
    SpanWeekly(r, n, WeekEnd(n, r.wkst));
  }

  lemma StartDaily(r: Rule) returns (P: int, Q: int)
    requires Sound(r) && DayOf(r.dtstart) <= MaxOrdinal() && r.freq == DAILY
    ensures AtPeriod(r, StartCursor(r), Period(r, r.dtstart), P, Q) && P <= r.dtstart
  {
    StartCursorOk(r);
    var n := DayOf(r.dtstart);
    P, Q := n * DAY, (n + 1) * DAY;
    SpanDaily(r, n);
  }

  lemma WeekEndIs(n: int, wkst: int)
    requires 0 <= wkst < 7
    ensures Weekday(WeekEnd(n, wkst)) == wkst
    ensures forall k :: n < k < WeekEnd(n, wkst) ==> Weekday(k) != wkst
  {
    var d := (wkst - Weekday(n + 1)) % 7;
    NextWeekday(n + 1, wkst, d, d);
    forall k | n < k < WeekEnd(n, wkst)
      ensures Weekday(k) != wkst
    {
      NextWeekday(n + 1, wkst, d, k - n - 1);
    }
  }

  lemma StartClock(r: Rule) returns (P: int, Q: int)
    requires Sound(r) && DayOf(r.dtstart) <= MaxOrdinal() && r.freq.Rank() >= 4
    ensures AtPeriod(r, StartCursor(r), Period(r, r.dtstart), P, Q) && P <= r.dtstart
  {
    StartCursorOk(r);
    StartTod(r);
    var x, us := r.dtstart / UnitSeconds(r.freq), UnitSeconds(r.freq);
    P, Q := x * us, (x + 1) * us;
    PeriodIsUnit(r, r.dtstart);
    FirstDayUnits(r.freq, DayOf(r.dtstart), Tod(r, StartCursor(r)));
    SpanClock(r, x);
  }

  // ---- One round ----

  /** The days of the period, with table indices the filter may look at. */
  ghost predicate IsDaySetOf(ii: IterInfo, c: Cursor, dset: seq<Option<int>>, start: int, end: int)
    reads ii
    requires 1 <= c.year && 1 <= c.month <= 12
  {
    && ii.IsDaySet(dset, start, end)
    && (Ord(c.year, start), Ord(c.year, end)) == PeriodDays(ii.rule, c)
    && forall i :: start <= i < end ==> ii.InReach(c.year, c.month, i)
  }

  method YearDays(ii: IterInfo, c: Cursor) returns (dset: seq<Option<int>>, start: int, end: int)
    requires ii.Consistent() && ii.lastyear == Some(c.year) && CursorOk(ii.rule, c) && ii.rule.freq == YEARLY
    ensures IsDaySetOf(ii, c, dset, start, end)
  {
    dset, start, end := ii.YDaySet();
    assert DaysBeforeYear(c.year + 1) == DaysBeforeYear(c.year) + YearLen(c.year);
  }

  method MonthDays(ii: IterInfo, c: Cursor) returns (dset: seq<Option<int>>, start: int, end: int)
    requires ii.Consistent() && ii.lastyear == Some(c.year) && CursorOk(ii.rule, c) && ii.rule.freq == MONTHLY
    ensures IsDaySetOf(ii, c, dset, start, end)
  {
    dset, start, end := ii.MDaySet(c.month);
    MonthReach(ii, c.year, c.month);
  }

  method WeekDays(ii: IterInfo, c: Cursor) returns (dset: seq<Option<int>>, start: int, end: int)
    requires ii.Consistent() && ii.lastyear == Some(c.year) && CursorOk(ii.rule, c) && ii.rule.freq == WEEKLY
    ensures IsDaySetOf(ii, c, dset, start, end)
  {
    dset, start, end := ii.WDaySet(c.year, c.month, c.day);
    WeekReach(c.year, start, end, ii.rule.wkst);
  }

  method OneDay(ii: IterInfo, c: Cursor) returns (dset: seq<Option<int>>, start: int, end: int)
    requires ii.Consistent() && ii.lastyear == Some(c.year) && CursorOk(ii.rule, c) && ii.rule.freq.Rank() >= 3
    ensures IsDaySetOf(ii, c, dset, start, end)
  {
    dset, start, end := ii.DDaySet(c.year, c.month, c.day);
    OneDayIs(ii, c, dset, start, end);
  }

  lemma OneDayIs(ii: IterInfo, c: Cursor, dset: seq<Option<int>>, start: int, end: int)
    requires 1 <= c.year && 1 <= c.month <= 12 && ii.rule.freq.Rank() >= 3 && ii.rule.bynweekday == []
    requires ii.IsDaySet(dset, start, end) && end == start + 1
    requires Ord(c.year, start) == CursorDay(c) && start < YearLen(c.year)
    ensures IsDaySetOf(ii, c, dset, start, end)
  {
  }

  method GetDaySet(ii: IterInfo, c: Cursor) returns (dset: seq<Option<int>>, start: int, end: int)
    requires ii.Consistent() && ii.lastyear == Some(c.year) && CursorOk(ii.rule, c)
    ensures IsDaySetOf(ii, c, dset, start, end)
  {
    match ii.rule.freq {
      case YEARLY => dset, start, end := YearDays(ii, c);
      case MONTHLY => dset, start, end := MonthDays(ii, c);
      case WEEKLY => dset, start, end := WeekDays(ii, c);
      case _ => dset, start, end := OneDay(ii, c);
    }
  }

  lemma MonthReach(ii: IterInfo, y: int, m: int)
    requires 1 <= y && 1 <= m <= 12
    ensures Ord(y, DaysBeforeMonth(y, m)) == ToOrdinal(y, m, 1)
    ensures Ord(y, DaysBeforeMonth(y, m + 1)) == ToOrdinal(y, m, DaysInMonth(y, m) + 1)
    ensures forall i :: DaysBeforeMonth(y, m) <= i < DaysBeforeMonth(y, m + 1) ==> ii.InReach(y, m, i)
  {
    MonthSpanIs(y, m);
    MonthSpanInYear(y, m);
    forall i | DaysBeforeMonth(y, m) <= i < DaysBeforeMonth(y, m + 1)
      ensures ii.InReach(y, m, i)
    {
      SpanOfMonth(y, m, i);
    }
  }

  lemma WeekReach(y: int, start: int, end: int, wkst: int)
    requires 1 <= y && 0 <= wkst < 7 && start < end <= start + 7 && Weekday(Ord(y, end)) == wkst
    requires forall k :: start < k < end ==> Weekday(Ord(y, k)) != wkst
    ensures Ord(y, end) == WeekEnd(Ord(y, start), wkst)
  {
    var n := Ord(y, start);
    WeekEndIs(n, wkst);
    var e := WeekEnd(n, wkst);
    assert Ord(y, e - n + start) == e;
  }

  lemma {:induction false} KeptMembers(D: iset<int>, first: int, dset: seq<Option<int>>, start: int, end: int, n: int)
    requires 0 <= start <= end <= |dset|
    requires forall i :: start <= i < end ==> dset[i] == if first + i in D then Some(i) else None
    ensures n in Kept(first, dset, start, end) <==> first + start <= n < first + end && n in D
    decreases end
  {
    if start < end {
      KeptMembers(D, first, dset, start, end - 1, n);
      assert dset[end - 1] == if first + (end - 1) in D then Some(end - 1) else None;
    }
  }

  lemma {:induction false} KeptIncreases(first: int, dset: seq<Option<int>>, start: int, end: int)
    requires 0 <= start <= end <= |dset|
    requires forall i :: start <= i < end && dset[i].Some? ==> dset[i].value == i
    ensures var kept := Kept(first, dset, start, end);
            Increasing(kept) && (kept != [] ==> kept[|kept| - 1] < first + end)
    decreases end
  {
    if start < end {
      KeptIncreases(first, dset, start, end - 1);
      var kept := Kept(first, dset, start, end - 1);
      if dset[end - 1].Some? {
        IncreasingAppend(kept, [first + (end - 1)]);
        assert Kept(first, dset, start, end) == kept + [first + (end - 1)];
      } else {
        assert Kept(first, dset, start, end) == kept + [];
        NothingAdded(kept);
      }
    }
  }

  lemma NothingAdded(s: seq<int>)
    ensures s + [] == s
  {
  }

  lemma KeptAre(D: iset<int>, first: int, dset: seq<Option<int>>, start: int, end: int)
    requires 0 <= start <= end <= |dset|
    requires forall i :: start <= i < end ==> dset[i] == if first + i in D then Some(i) else None
    ensures Increasing(Kept(first, dset, start, end))
    ensures forall n :: n in Kept(first, dset, start, end) <==> first + start <= n < first + end && n in D
  {
    KeptIncreases(first, dset, start, end);
    forall n
      ensures n in Kept(first, dset, start, end) <==> first + start <= n < first + end && n in D
    {
      KeptMembers(D, first, dset, start, end, n);
    }
  }

  /** The filter loop; what it keeps are the days of D. */
  method KeepDays(ii: IterInfo, dayset: seq<Option<int>>, start: int, end: int, ghost D: iset<int>, ghost y: int)
    returns (dset: seq<Option<int>>, filtered: bool)
    requires ii.IsDaySet(dayset, start, end) && ii.FilterAgrees(D, y, start, end)
    ensures 0 <= start < end <= |dset|
    ensures Increasing(Kept(Ord(y, 0), dset, start, end))
    ensures forall n :: n in Kept(Ord(y, 0), dset, start, end) <==> Ord(y, start) <= n < Ord(y, end) && n in D
    ensures end == start + 1 && filtered ==> Ord(y, start) !in D
  {
    dset, filtered := ii.FilterDays(dayset, start, end, D, y);
    assert forall i :: Ord(y, i) == Ord(y, 0) + i;
    KeptAre(D, Ord(y, 0), dset, start, end);
  }

  /** The day set of the period and the filter loop. */
  method FilterPeriod(ii: IterInfo, c: Cursor) returns (dset: seq<Option<int>>, start: int, end: int, filtered: bool)
    requires ii.Consistent() && ii.lastyear == Some(c.year) && ii.TablesOf(c.year) && ii.MarksOf(c.year, c.month)
    requires CursorOk(ii.rule, c)
    ensures 0 <= start <= end <= |dset| && 1 <= PeriodDays(ii.rule, c).0
    ensures IsDays(ii.rule, Kept(ii.yearordinal, dset, start, end), PeriodDays(ii.rule, c).0, PeriodDays(ii.rule, c).1)
    ensures ii.rule.freq.Rank() >= 4 && filtered ==> CursorDay(c) !in DateSet(ii.rule)
  {
    var dayset;
    dayset, start, end := GetDaySet(ii, c);
    ii.FilterAgreesInReach(c.year, c.month, start, end);
    dset, filtered := KeepDays(ii, dayset, start, end, DateSet(ii.rule), c.year);
  }

  /** Yields what one period gives. Overflow is the failure of fromordinal past the last date;
      only the last week of the calendar reaches it. */
  method Round(ii: IterInfo, c: Cursor, ts: seq<int>, out: seq<int>, ghost k: int, ghost P: int, ghost Q: int)
    returns (out': seq<int>, status: Status, filtered: bool)
    requires ii.Consistent() && ii.lastyear == Some(c.year) && ii.TablesOf(c.year) && ii.MarksOf(c.year, c.month)
    requires Ready(ii.rule) && AtPeriod(ii.rule, c, k, P, Q)
    requires IsTimeset(ii.rule, Tod(ii.rule, c), ts) && Covers(ii.rule, out, P)
    ensures status == More ==> Covers(ii.rule, out', Q)
    ensures status == Ended ==> IsRecurrenceSet(ii.rule, out')
    ensures 1 <= PeriodDays(ii.rule, c).0
    ensures StatusIs(ii.rule, ts, status, P, Q, PeriodDays(ii.rule, c).0, PeriodDays(ii.rule, c).1)
    ensures status == Overflow ==> ii.rule.freq == WEEKLY && IsInitialPart(ii.rule, out')
    ensures status == Overflow ==> if Chooses(ii.rule, ts) then out' == out else IsRecurrenceSet(ii.rule, out')
    ensures ii.rule.freq.Rank() >= 4 && filtered ==> CursorDay(c) !in DateSet(ii.rule)
  {
    var r := ii.rule;
    var dset, start, end;
    dset, start, end, filtered := FilterPeriod(ii, c);
    ghost var lo, hi := PeriodDays(r, c).0, PeriodDays(r, c).1;
    out', status := EmitPeriod(r, ii.yearordinal, dset, start, end, ts, out, k, P, Q, lo, hi, Tod(r, c));
    LateDays(r, c, hi);
  }

  lemma LateDays(r: Rule, c: Cursor, hi: int)
    requires CursorOk(r, c) && hi == PeriodDays(r, c).1
    ensures r.freq != WEEKLY ==> hi <= MaxOrdinal() + 1
  {
    LastOrdinal(MAXYEAR);
    YearsAreMonotone(c.year + 1, MAXYEAR + 1);
    assert DaysBeforeYear(c.year + 1) == DaysBeforeYear(c.year) + YearLen(c.year);
    MonthSpanIs(c.year, c.month);
    MonthSpanInYear(c.year, c.month);
  }

  method EmitPeriod(r: Rule, yearordinal: int, dset: seq<Option<int>>, start: int, end: int, ts: seq<int>, out: seq<int>,
                    ghost k: int, ghost P: int, ghost Q: int, ghost lo: int, ghost hi: int, ghost tod: int)
    returns (out': seq<int>, status: Status)
    requires Ready(r) && SpanOf(r, k, P, Q) && 1 <= lo && IsSpanOfDays(r, P, Q, lo, hi, tod)
    requires 0 <= start <= end <= |dset| && IsDays(r, Kept(yearordinal, dset, start, end), lo, hi)
    requires IsTimeset(r, tod, ts) && Covers(r, out, P)
    ensures StatusIs(r, ts, status, P, Q, lo, hi)
    ensures status == More ==> Covers(r, out', Q)
    ensures status == Ended ==> IsRecurrenceSet(r, out')
    ensures status == Overflow ==> IsInitialPart(r, out') && hi > MaxOrdinal() + 1
    ensures status == Overflow ==> if Chooses(r, ts) then out' == out else IsRecurrenceSet(r, out')
  {
    ghost var days := Kept(yearordinal, dset, start, end);
    ProductIsPeriod(r, k, P, Q, lo, hi, days, tod, ts);
    MatchesRestrict(r);
    if r.bysetpos != [] && ts != [] {
      var poslist, over := PositionList(r, Kept(yearordinal, dset, start, end), ts);
      if over {
        BelowStarts(MatchSet(r), out, r.count, P);
        ChosenLate(r, k, P, Q, lo, hi, days, ts);
        LateOutside(r, ts, P, Q, lo, hi, tod);
        return out, Overflow;
      }
      ChosenSpan(r, k, P, Q, Product(days, DAY, ts), poslist);
      var stopped;
      out', stopped := OfferAll(r.dtstart, r.until, r.count, poslist, out,
                                MatchSet(r), PickedSet(r), (MaxOrdinal() + 1) * DAY, P, Q);
      status := if stopped then Ended else More;
      ChosenStatus(r, ts, P, Q, lo, hi, poslist, stopped);
    } else {
      NoTimes(days, ts);
      AllPicked(r, P, Q, Product(days, DAY, ts));
      DaysBegin(r, P, Q, lo, hi, tod);
      ghost var a;
      out', status, a := EmitDays(r, yearordinal, dset, start, end, ts, out, MatchSet(r), PickedSet(r), P, Q, days);
      PlainStatus(r, ts, status, P, Q, lo, hi, days, a);
      if status == Overflow {
        BelowOrListed(r, out');
        LateOutside(r, ts, P, Q, lo, hi, tod);
      }
    }
  }

  lemma PlainStatus(r: Rule, ts: seq<int>, status: Status, P: int, Q: int, lo: int, hi: int, days: seq<int>, a: nat)
    requires Sound(r) && 1 <= lo && !Chooses(r, ts) && OnDial(ts, DAY) && IsDays(r, days, lo, hi)
    requires Spans(PickedSet(r), P, Q, Product(days, DAY, ts)) && forall d :: lo <= d < hi ==> d * DAY <= Q
    requires a <= |days| && (status == More ==> a == |days|) && InCalendar(days[..a])
    requires status == Ended <==> StopsWithin(MatchSet(r), r.dtstart, r.until, r.count, Product(days[..a], DAY, ts))
    requires status == Overflow ==> a < |days| && days[a] > MaxOrdinal()
    ensures StatusIs(r, ts, status, P, Q, lo, hi)
  {
    match status
    case More =>
      AllTaken(days, a);
      PlainMore(r, ts, P, Q, lo, hi, days);
    case Ended => PlainEnded(r, ts, P, Q, lo, hi, days, a);
    case Overflow =>
      EndReached(r, days, a, lo, hi, Q);
      PlainOverflow(r, ts, P, Q, lo, hi, days, a);
  }

  lemma EndReached(r: Rule, days: seq<int>, a: nat, lo: int, hi: int, Q: int)
    requires 1 <= lo && IsDays(r, days, lo, hi) && a < |days| && days[a] > MaxOrdinal()
    requires forall d :: lo <= d < hi ==> d * DAY <= Q
    ensures End() <= Q
  {
    assert days[a] in days;
    assert days[a] * DAY <= Q;
  }

  lemma AllTaken(days: seq<int>, a: nat)
    requires a == |days|
    ensures days[..a] == days
  {
  }

  lemma SpanEndsByDay(r: Rule, P: int, Q: int, lo: int, hi: int, tod: int)
    requires IsSpanOfDays(r, P, Q, lo, hi, tod)
    ensures Q <= hi * DAY
  {
  }

  /** Only a period that runs past the calendar overflows. */
  lemma LateOutside(r: Rule, ts: seq<int>, P: int, Q: int, lo: int, hi: int, tod: int)
    requires Sound(r) && 1 <= lo && IsSpanOfDays(r, P, Q, lo, hi, tod) && Late(r, ts, P, Q, lo, hi)
    ensures hi > MaxOrdinal() + 1
  {
    SpanEndsByDay(r, P, Q, lo, hi, tod);
  }

  lemma BelowOrListed(r: Rule, out: seq<int>)
    requires Sound(r) && Lists(MatchSet(r), out, r.count)
    ensures IsInitialPart(r, out) && IsRecurrenceSet(r, out)
  {
  }

  lemma DaysBegin(r: Rule, P: int, Q: int, lo: int, hi: int, tod: int)
    requires IsSpanOfDays(r, P, Q, lo, hi, tod)
    ensures forall d :: lo <= d < hi ==> d * DAY <= Q
  {
  }

  lemma {:induction false} NoTimes(days: seq<int>, ts: seq<int>)
    ensures ts == [] ==> Product(days, DAY, ts) == []
  {
    ProductLength(days, DAY, ts);
  }

  lemma ChosenSpan(r: Rule, k: int, P: int, Q: int, cands: seq<int>, poslist: seq<int>)
    requires Sound(r) && SpanOf(r, k, P, Q) && Spans(CandidateSet(r), P, Q, cands) && r.bysetpos != []
    requires Increasing(poslist) && forall t :: t in poslist <==> Chosen(cands, r.bysetpos, t)
    ensures Spans(PickedSet(r), P, Q, poslist)
  {
    forall t
      ensures t in poslist <==> t in PickedSet(r) && P <= t < Q
    {
      if Chosen(cands, r.bysetpos, t) {
        assert t in cands;
      }
      if P <= t < Q {
        PickedIsChosen(r, k, P, Q, cands, t);
      }
    }
  }

  // ---- The run ----

  method MoveOn(r: Rule, c: Cursor, filtered: bool, ghost k: int, ghost P: int, ghost Q: int)
    returns (m: Move, rebuild: bool, ghost k2: int, ghost P2: int, ghost Q2: int)
    requires Ready(r) && AtPeriod(r, c, k, P, Q)
    requires r.freq.Rank() >= 4 && filtered ==> CursorDay(c) !in DateSet(r)
    ensures MoveOk(r, c, k, Q, m, rebuild, k2, P2, Q2)
  {
    match r.freq {
      case YEARLY =>
        m, k2, P2, Q2 := MoveYearly(r, c, k, P, Q);
        rebuild := true;
      case MONTHLY =>
        m, k2, P2, Q2 := MoveMonthly(r, c, k, P, Q);
        rebuild := true;
      case WEEKLY =>
        m, rebuild, k2, P2, Q2 := MoveWeekly(r, c, k, P, Q);
      case DAILY =>
        m, rebuild, k2, P2, Q2 := MoveDaily(r, c, k, P, Q);
      case _ =>
        m, rebuild, k2, P2, Q2 := MoveClock(r, c, filtered, k, P, Q);
    }
  }

  lemma PeriodInCalendar(r: Rule, c: Cursor, k: int, P: int, Q: int)
    requires AtPeriod(r, c, k, P, Q)
    ensures P < Q && P < (MaxOrdinal() + 1) * DAY
  {
    FirstDayInCalendar(r, c);
    UnitInDay(r, P, Q, PeriodDays(r, c).0, PeriodDays(r, c).1, Tod(r, c));
  }

  lemma FirstDayInCalendar(r: Rule, c: Cursor)
    requires CursorOk(r, c)
    ensures PeriodDays(r, c).0 <= MaxOrdinal()
  {
    CursorInCalendar(Cursor(c.year, 1, 1, 0, 0, 0, 0));
    CursorInCalendar(c.(day := 1));
    if r.freq.Rank() >= 2 {
      CursorInCalendar(c);
    }
  }

  lemma UnitInDay(r: Rule, P: int, Q: int, lo: int, hi: int, tod: int)
    requires IsSpanOfDays(r, P, Q, lo, hi, tod)
    ensures P < (lo + 1) * DAY
  {
  }

  lemma MoveCovers(r: Rule, out: seq<int>, Q: int, P2: int)
    requires Sound(r) && Covers(r, out, Q) && Lands(r, Q, P2)
    ensures Covers(r, out, P2)
  {
    NoMatches(r, Q, P2);
    SameBelow(MatchSet(r), out, r.count, Q, P2);
  }

  lemma NoMatches(r: Rule, Q: int, P2: int)
    requires Sound(r) && Lands(r, Q, P2)
    ensures forall t :: Q <= t < P2 ==> t !in MatchSet(r)
  {
  }

  lemma SameBelow(M: iset<int>, out: seq<int>, limit: Option<int>, b: int, c: int)
    requires ListsBelow(M, out, limit, b) && b <= c && forall t :: b <= t < c ==> t !in M
    ensures ListsBelow(M, out, limit, c)
  {
  }

  lemma NothingBefore(r: Rule, P: int)
    requires Sound(r) && P <= r.dtstart
    ensures Covers(r, [], P)
  {
  }

  lemma RunEnds(r: Rule, out: seq<int>, Q: int)
    requires Sound(r) && Covers(r, out, Q) && NothingAfter(r, Q)
    ensures IsRecurrenceSet(r, out)
  {
    BelowAll(MatchSet(r), out, r.count, Q);
  }

  lemma FailsAtCursor(r: Rule, c: Cursor, k: int, P: int, Q: int)
    requires Ready(r) && AtPeriod(r, c, k, P, Q) && Period(r, r.dtstart) <= k
    ensures FailsAt(r, k) <==> !LookupsFit(r, c.year, c.month)
  {
    if r.freq == YEARLY {
      YearlyPeriod(r, c, k, P, Q);
    } else if r.freq == MONTHLY {
      MonthlyPeriod(r, c, k, P, Q);
      assert k / 12 == c.year && k % 12 + 1 == c.month;
    }
  }

  /** INTERVAL selects no period between k and the next one. */
  lemma NoFailureBetween(r: Rule, k: int, P: int, Q: int, k2: int)
    requires Ready(r) && SpanOf(r, k, P, Q) && Underway(r, k, P) && (r.freq.Rank() <= 1 ==> k2 == k + r.interval)
    ensures forall j :: j < k2 ==> !FailsAt(r, j)
  {
    forall j | k < j && FailsAt(r, j)
      ensures k2 <= j
    {
      ApartByInterval(k, j, Period(r, r.dtstart), r.interval);
    }
  }

  /** The output holds every occurrence before the first period whose search fails, and no more. */
  ghost predicate BeforeBadLookup(r: Rule, out: seq<int>)
    requires Ready(r)
  {
    exists k, P, Q :: FirstFailing(r, k) && SpanOf(r, k, P, Q) && Covers(r, out, P)
  }

  lemma EmptyTimes(r: Rule, c: Cursor)
    requires r.freq.Rank() >= 4 && !TodOk(r, Tod(r, c))
    ensures IsTimeset(r, Tod(r, c), [])
  {
    forall s | 0 <= s < DAY && TimeOk(r, s)
      ensures s / UnitSeconds(r.freq) != Tod(r, c)
    {
      TimeOkIsTodOk(r, s);
    }
  }

  /** The time set of the first round: empty when DTSTART's own time is not allowed. */
  method FirstTimes(r: Rule, c: Cursor) returns (ts: seq<int>)
    requires Ready(r) && OnClock(c)
    ensures IsTimeset(r, Tod(r, c), ts)
  {
    if r.freq.Rank() >= 4 && !TodOk(r, Tod(r, c)) {
      EmptyTimes(r, c);
      ts := [];
    } else {
      ts := GetTimeset(r, c);
    }
  }

  lemma SameTimes(r: Rule, a: int, b: int, ts: seq<int>)
    requires r.freq.Rank() < 4 && IsTimeset(r, a, ts)
    ensures IsTimeset(r, b, ts)
  {
  }

  /** The generator's state between two rounds. */
  ghost predicate Running(ii: IterInfo, r: Rule, c: Cursor, ts: seq<int>, out: seq<int>, k: int, P: int, Q: int)
    reads ii
  {
    && ii.rule == r && Ready(r) && ii.Consistent() && ii.lastyear == Some(c.year)
    && AtPeriod(r, c, k, P, Q) && ii.TablesOf(c.year) && ii.MarksOf(c.year, c.month)
    && IsTimeset(r, Tod(r, c), ts) && Covers(r, out, P) && Underway(r, k, P)
  }

  /** The output holds every occurrence before the last week of the calendar, and no more. */
  ghost predicate BeforeLastWeek(r: Rule, out: seq<int>)
    requires Ready(r)
  {
    exists P, Q :: SpanOf(r, WeekIndex(MaxOrdinal(), r.wkst), P, Q) && Covers(r, out, P)
  }

  /** What is out when the run fails past the calendar: the whole recurrence set, unless BYSETPOS had to choose
      in the last week. */
  ghost predicate UpToOverflow(r: Rule, out: seq<int>)
    requires Ready(r)
  {
    if r.bysetpos != [] && HasTimes(r) then BeforeLastWeek(r, out) else IsRecurrenceSet(r, out)
  }

  lemma WeekTimes(r: Rule, tod: int, ts: seq<int>)
    requires r.freq == WEEKLY && IsTimeset(r, tod, ts)
    ensures ts != [] <==> HasTimes(r)
  {
    if ts != [] {
      assert ts[0] in ts;
    }
    if HasTimes(r) {
      var s :| 0 <= s < DAY && TimeOk(r, s);
      assert s in ts;
    }
  }

  /** What holds when the generator is done. */
  ghost predicate Done(r: Rule, out: seq<int>, outcome: Outcome)
    requires Ready(r)
  {
    && IsInitialPart(r, out)
    && (outcome.Finished? || outcome.EmptyRule? ==> IsRecurrenceSet(r, out))
    && (outcome.DateOverflow? ==> UpToOverflow(r, out))
    && (outcome.IndexError? ==> BeforeBadLookup(r, out))
    && Verdict(r, outcome)
  }

  /** One round and the move to the next period. None goes on; otherwise the generator is done. */
  method Turn(ii: IterInfo, r: Rule, c: Cursor, ts: seq<int>, out: seq<int>, ghost k: int, ghost P: int, ghost Q: int)
    returns (done: Option<Outcome>, c2: Cursor, ts2: seq<int>, out2: seq<int>, ghost k2: int, ghost P2: int, ghost Q2: int)
    requires Running(ii, r, c, ts, out, k, P, Q)
    modifies ii
    ensures done == None ==> Running(ii, r, c2, ts2, out2, k2, P2, Q2) && P < P2
    ensures done.Some? ==> Done(r, out2, done.value)
  {
    c2, ts2, k2, P2, Q2 := c, ts, k, P, Q;
    var status, filtered;
    PeriodInCalendar(r, c, k, P, Q);
    out2, status, filtered := Round(ii, c, ts, out, k, P, Q);
    if status != More {
      RoundVerdict(r, c, ts, status, k, P, Q);
      if status == Overflow && Chooses(r, ts) {
        ChosenOverflow(r, c, ts, out, k, P, Q);
      }
      WeekOutput(r, c, ts, status, out2);
      done := Some(if status == Ended then Finished else DateOverflow);
      return;
    }
    done, c2, ts2, k2, P2, Q2 := Onward(ii, r, c, ts, filtered, out2, k, P, Q);
  }

  /** The move after a round that ended nothing, and the tables and time set of the period it leads to. */
  method Onward(ii: IterInfo, r: Rule, c: Cursor, ts: seq<int>, filtered: bool, ghost out: seq<int>,
                ghost k: int, ghost P: int, ghost Q: int)
    returns (done: Option<Outcome>, c2: Cursor, ts2: seq<int>, ghost k2: int, ghost P2: int, ghost Q2: int)
    requires ii.rule == r && Ready(r) && ii.Consistent() && ii.lastyear == Some(c.year)
    requires AtPeriod(r, c, k, P, Q) && ii.TablesOf(c.year) && ii.MarksOf(c.year, c.month)
    requires IsTimeset(r, Tod(r, c), ts) && Covers(r, out, Q) && Underway(r, k, P) && P < End()
    requires StatusIs(r, ts, More, P, Q, PeriodDays(r, c).0, PeriodDays(r, c).1)
    requires r.freq.Rank() >= 4 && filtered ==> CursorDay(c) !in DateSet(r)
    modifies ii
    ensures done == None ==> Running(ii, r, c2, ts2, out, k2, P2, Q2) && P < P2
    ensures done.Some? ==> Done(r, out, done.value)
  {
    c2, ts2 := c, ts;
    var m, rebuild;
    m, rebuild, k2, P2, Q2 := MoveOn(r, c, filtered, k, P, Q);
    if !m.Moved? {
      RunEnds(r, out, Q);
      MoveVerdict(r, c, ts, k, P, Q, m, rebuild, k2, P2, Q2);
      done := Some(if m.PastEnd? then Finished else EmptyRule);
      return;
    }
    MoveCovers(r, out, Q, P2);
    QuietOn(r, P, Q, P2);
    NoFailureBetween(r, k, P, Q, k2);
    LaterThanStart(r, c, k, P, Q, m, rebuild, k2, P2, Q2);
    done, ts2 := Enter(ii, r, c, m.c, rebuild, ts, out, k2, P2, Q2);
    c2 := m.c;
    assert P < Q <= P2;
  }

  lemma LaterThanStart(r: Rule, c: Cursor, k: int, P: int, Q: int, m: Move, rebuild: bool, k2: int, P2: int, Q2: int)
    requires Sound(r) && SpanOf(r, k, P, Q) && m.Moved? && MoveOk(r, c, k, Q, m, rebuild, k2, P2, Q2)
    requires Period(r, r.dtstart) <= k
    ensures Period(r, r.dtstart) <= k2
  {
    assert Period(r, P) == k && Period(r, P2) == k2;
    PeriodMonotone(r, P, P2);
  }

  /** The choice of BYSETPOS fails before anything of the last week is out. */
  lemma ChosenOverflow(r: Rule, c: Cursor, ts: seq<int>, out: seq<int>, k: int, P: int, Q: int)
    requires Ready(r) && AtPeriod(r, c, k, P, Q) && r.freq == WEEKLY && P < End() && Covers(r, out, P) && Chooses(r, ts)
    requires StatusIs(r, ts, Overflow, P, Q, PeriodDays(r, c).0, PeriodDays(r, c).1)
    ensures BeforeLastWeek(r, out)
  {
    var t :| P <= t < Q && End() <= t && Picked(r, t);
    NotPastLastWeek(r, k, P, Q, PeriodDays(r, c).0);
    LastWeekIs(r, k, P, Q, t);
  }

  lemma WeekOutput(r: Rule, c: Cursor, ts: seq<int>, status: Status, out: seq<int>)
    requires Ready(r) && IsTimeset(r, Tod(r, c), ts)
    requires status == Overflow ==> r.freq == WEEKLY && if Chooses(r, ts) then BeforeLastWeek(r, out) else IsRecurrenceSet(r, out)
    ensures status == Overflow ==> UpToOverflow(r, out)
  {
    if status == Overflow {
      WeekTimes(r, Tod(r, c), ts);
    }
  }

  /** The verdict when the output loops end the run. */
  lemma RoundVerdict(r: Rule, c: Cursor, ts: seq<int>, status: Status, k: int, P: int, Q: int)
    requires Ready(r) && AtPeriod(r, c, k, P, Q) && Underway(r, k, P) && IsTimeset(r, Tod(r, c), ts) && P < End()
    requires status != More && (status == Overflow ==> r.freq == WEEKLY)
    requires StatusIs(r, ts, status, P, Q, PeriodDays(r, c).0, PeriodDays(r, c).1)
    ensures Verdict(r, if status == Ended then Finished else DateOverflow)
  {
    if r.freq == WEEKLY {
      WeekTimes(r, Tod(r, c), ts);
    }
    if status == Ended {
      EndedVerdict(r, ts, k, P, Q, PeriodDays(r, c).0, PeriodDays(r, c).1);
    } else {
      OverflowVerdict(r, ts, k, P, Q, PeriodDays(r, c).0, PeriodDays(r, c).1);
    }
  }

  /** The verdict when there is no next period. */
  lemma MoveVerdict(r: Rule, c: Cursor, ts: seq<int>, k: int, P: int, Q: int,
                    m: Move, rebuild: bool, k2: int, P2: int, Q2: int)
    requires Ready(r) && AtPeriod(r, c, k, P, Q) && Underway(r, k, P) && IsTimeset(r, Tod(r, c), ts) && P < End()
    requires StatusIs(r, ts, More, P, Q, PeriodDays(r, c).0, PeriodDays(r, c).1)
    requires !m.Moved? && MoveOk(r, c, k, Q, m, rebuild, k2, P2, Q2)
    ensures Verdict(r, if m.PastEnd? then Finished else EmptyRule)
  {
    if m.Empty? {
      EmptyVerdict(r);
    } else {
      if r.freq == WEEKLY {
        WeekTimes(r, Tod(r, c), ts);
      }
      PastEndVerdict(r, ts, k, P, Q, PeriodDays(r, c).0, PeriodDays(r, c).1, P2, Q2);
    }
  }

  lemma BadLookupDone(r: Rule, out: seq<int>, k: int, P: int, Q: int)
    requires Ready(r) && SpanOf(r, k, P, Q) && Covers(r, out, P)
    requires Quiet(r, P) && FailsAt(r, k) && forall j :: j < k ==> !FailsAt(r, j)
    ensures Done(r, out, IndexError)
  {
    BelowStarts(MatchSet(r), out, r.count, P);
    IndexVerdict(r, k, P, Q);
  }

  /** Rebuilds the tables if need be and fetches the time set of the period just reached. */
  method Enter(ii: IterInfo, r: Rule, c: Cursor, c2: Cursor, rebuild: bool, ts: seq<int>, ghost out: seq<int>,
               ghost k: int, ghost P: int, ghost Q: int)
    returns (done: Option<Outcome>, ts2: seq<int>)
    requires ii.rule == r && Ready(r) && ii.Consistent() && ii.lastyear == Some(c.year)
    requires CursorOk(r, c) && ii.TablesOf(c.year) && ii.MarksOf(c.year, c.month) && IsTimeset(r, Tod(r, c), ts)
    requires AtPeriod(r, c2, k, P, Q) && Covers(r, out, P)
    requires Quiet(r, P) && Period(r, r.dtstart) <= k && forall j :: j < k ==> !FailsAt(r, j)
    requires !rebuild ==> c2.year == c.year && c2.month == c.month
    requires r.freq.Rank() >= 4 ==> TodOk(r, Tod(r, c2))
    modifies ii
    ensures done == None ==> Running(ii, r, c2, ts2, out, k, P, Q)
    ensures done.Some? ==> Done(r, out, done.value)
  {
    ts2 := ts;
    FailsAtCursor(r, c2, k, P, Q);
    if rebuild {
      var ok := ii.Rebuild(c2.year, c2.month);
      if !ok {
        BadLookupDone(r, out, k, P, Q);
        return Some(IndexError), ts2;
      }
    }
    if r.freq.Rank() >= 4 {
      ts2 := GetTimeset(r, c2);
    } else {
      SameTimes(r, Tod(r, c), Tod(r, c2), ts);
    }
    done := None;
  }

  /** The first tables and the first time set. */
  method Begin(ii: IterInfo, r: Rule, c: Cursor, ghost k: int, ghost P: int, ghost Q: int)
    returns (done: Option<Outcome>, ts: seq<int>)
    requires ii.rule == r && Ready(r) && ii.Consistent() && ii.lastyear == None
    requires AtPeriod(r, c, k, P, Q) && k == Period(r, r.dtstart) && P <= r.dtstart
    modifies ii
    ensures done == None ==> Running(ii, r, c, ts, [], k, P, Q)
    ensures done.Some? ==> Done(r, [], done.value)
  {
    NothingBefore(r, P);
    StartUnderway(r, c, P, Q);
    var ok := ii.Rebuild(c.year, c.month);
    ts := [];
    if !ok {
      return Some(IndexError), ts;
    }
    ts := FirstTimes(r, c);
    done := None;
  }

  lemma StartUnderway(r: Rule, c: Cursor, P: int, Q: int)
    requires Ready(r) && AtPeriod(r, c, Period(r, r.dtstart), P, Q) && P <= r.dtstart && Covers(r, [], P)
    ensures LookupsFit(r, c.year, c.month) ==> Underway(r, Period(r, r.dtstart), P)
    ensures !LookupsFit(r, c.year, c.month) ==> Done(r, [], IndexError)
  {
    QuietAtStart(r, P, Q);
    NoneFailsEarlier(r, Period(r, r.dtstart));
    FailsAtCursor(r, c, Period(r, r.dtstart), P, Q);
    if !LookupsFit(r, c.year, c.month) {
      BadLookupDone(r, [], Period(r, r.dtstart), P, Q);
    } else {
      FirstUnderway(r, Period(r, r.dtstart), P);
    }
  }

  lemma NoneFailsEarlier(r: Rule, k: int)
    requires Ready(r) && k == Period(r, r.dtstart)
    ensures forall j :: j < k ==> !FailsAt(r, j)
  {
  }

  lemma FirstUnderway(r: Rule, k: int, P: int)
    requires Ready(r) && k == Period(r, r.dtstart) && Quiet(r, P)
    requires !FailsAt(r, k) && forall j :: j < k ==> !FailsAt(r, j)
    ensures Underway(r, k, P)
  {
  }

  /** The loop of the generator. */
  method Run(ii: IterInfo, r: Rule, c0: Cursor, ts0: seq<int>, ghost k0: int, ghost P0: int, ghost Q0: int)
    returns (out: seq<int>, outcome: Outcome)
    requires Running(ii, r, c0, ts0, [], k0, P0, Q0)
    modifies ii
    ensures Done(r, out, outcome)
  {
    var c, ts := c0, ts0;
    ghost var k, P, Q := k0, P0, Q0;
    out := [];
    var done: Option<Outcome> := None;
    while done == None
      invariant done == None ==> Running(ii, r, c, ts, out, k, P, Q)
      invariant done.Some? ==> Done(r, out, done.value)
      decreases if done == None then 1 else 0, End() - P
    {
      PeriodInCalendar(r, c, k, P, Q);
      done, c, ts, out, k, P, Q := Turn(ii, r, c, ts, out, k, P, Q);
    }
    outcome := done.value;
  }

  /** rrule._iter. A run that is not stopped by an error yields exactly the recurrence set, in order; which
      error stops it, if any, is decided by the rule. The nth-weekday search fails the run when the first
      period with a bad lookup is reached; the empty-rule error is raised when no step meets an allowed time;
      the last week of the calendar fails a WEEKLY run that gets to a day past its end. */
  method Iter(r: Rule) returns (out: seq<int>, outcome: Outcome)
    requires Ready(r)
    ensures IsInitialPart(r, out)
    ensures outcome.Finished? ==> IsRecurrenceSet(r, out)
    ensures outcome.IndexError? <==> MeetsBadLookup(r)
    ensures outcome.IndexError? ==> BeforeBadLookup(r, out)
    ensures outcome.EmptyRule? <==> NeverAllowed(r)
    ensures outcome.EmptyRule? ==> IsRecurrenceSet(r, out) && out == []
    ensures outcome.DateOverflow? <==> Overshoots(r)
    ensures outcome.DateOverflow? ==> UpToOverflow(r, out)
  {
    var c := StartCursor(r);
    StartCursorOk(r);
    ghost var k := Period(r, r.dtstart);
    ghost var P, Q := StartPeriod(r);
    var ii := new IterInfo(r);
    var done, ts := Begin(ii, r, c, k, P, Q);
    if done.Some? {
      out, outcome := [], done.value;
    } else {
      out, outcome := Run(ii, r, c, ts, k, P, Q);
    }
    if outcome.EmptyRule? {
      NeverMeansNone(r, out);
    }
  }

  /** FREQ=WEEKLY;BYDAY=SA from the last day of the calendar, a Friday, in weeks from Monday. */
  predicate SaturdaysFromTheEnd(r: Rule) {
    && r.freq == WEEKLY && r.interval == 1 && r.wkst == 0 && r.dtstart == MaxOrdinal() * DAY
    && r.count == None && r.until == None && r.bysetpos == [] && r.byweekday == [5] && r.bynweekday == []
    && r.bymonth == [] && r.bymonthday == [] && r.bynmonthday == [] && r.byyearday == []
  }

  lemma SaturdayOvershoots(r: Rule)
    requires SaturdaysFromTheEnd(r)
    ensures Overshoots(r)
  {
    var n := FirstSaturday(r);
    assert !EndsInCalendar(r);
    assert InLastWeek(r, n) && DateOk(r, n) && (WeekIndex(n, r.wkst) - Period(r, r.dtstart)) % r.interval == 0;
  }

  lemma FirstSaturday(r: Rule) returns (n: int)
    requires SaturdaysFromTheEnd(r)
    ensures n == MaxOrdinal() + 1 && InLastWeek(r, n) && DateOk(r, n)
  {
    n := MaxOrdinal() + 1;
    assert Weekday(n) == 5;
  }

  lemma NoSaturdayLeft(r: Rule, t: int)
    requires SaturdaysFromTheEnd(r)
    ensures !Matches(r, t)
  {
    assert Weekday(MaxOrdinal()) == 4;
    assert r.dtstart <= t ==> MaxOrdinal() <= DayOf(t);
  }

  /** The run of this rule does end in the overflow, with nothing out. */
  method SaturdayAfterTheEnd(r: Rule) returns (out: seq<int>, outcome: Outcome)
    requires Ready(r) && SaturdaysFromTheEnd(r)
    ensures outcome == DateOverflow && out == []
  {
    SaturdayOvershoots(r);
    out, outcome := Iter(r);
    NothingListed(r, out);
  }

  lemma NothingListed(r: Rule, out: seq<int>)
    requires Ready(r) && SaturdaysFromTheEnd(r) && IsInitialPart(r, out)
    ensures out == []
  {
    var t := if out == [] then 0 else out[0];
    assert out == [] || t in out;
    NoSaturdayLeft(r, t);
  }
}
