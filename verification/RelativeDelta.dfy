/** relativedelta as a difference of two naive datetimes, and its addition to a datetime. */
module RelativeDeltas {
  import opened Sequences
  import opened Calendar

  const SECOND: int := 1000000
  const DAY: int := 86400000000

  /** The ordinal of the date and the microsecond of the day. */
  datatype DateTime = DateTime(day: int, micro: int) {
    predicate Valid() {
      1 <= day <= MaxOrdinal() && 0 <= micro < DAY
    }

    /** Position on the time line, in microseconds. */
    function Time(): int {
      day * DAY + micro
    }
  }

  function AtTime(t: int): (d: DateTime)
    ensures d.Time() == t && 0 <= d.micro < DAY
  {
    DateTime(t / DAY, t % DAY)
  }

  lemma AtTimeOf(d: DateTime)
    requires 0 <= d.micro < DAY
    ensures AtTime(d.Time()) == d
  {
  }

  // ---- Moving by whole months ----

  function Min(a: int, b: int): int {
    if a < b then a else b
  }

  function MonthLength(k: int): int
    requires 12 <= k
  {
    MonthIndexStart(k + 1) - MonthIndexStart(k)
  }

  /** The same day and time in the month with index k, or the last day of that month. */
  function InMonth(t: DateTime, k: int): DateTime
    requires 1 <= t.day && 12 <= k
  {
    DateTime(MonthIndexStart(k) + Min(MonthLength(k), t.day - MonthIndexStart(MonthIndex(t.day))), t.micro)
  }

  lemma InMonthIndex(t: DateTime, k: int)
    requires 1 <= t.day && 12 <= k
    ensures 1 <= InMonth(t, k).day && MonthIndex(InMonth(t, k).day) == k
  {
    MonthIndexStartMonotone(12, k);
    MonthIndexStartMonotone(k, k + 1);
    MonthIndexIs(k, InMonth(t, k).day);
  }

  lemma InOwnMonth(t: DateTime)
    requires 1 <= t.day
    ensures 12 <= MonthIndex(t.day) && InMonth(t, MonthIndex(t.day)) == t
  {
  }

  /** A later month is a later time. */
  lemma LaterMonth(a: DateTime, b: DateTime)
    requires 1 <= a.day && 1 <= b.day && MonthIndex(a.day) < MonthIndex(b.day)
    requires 0 <= a.micro < DAY && 0 <= b.micro < DAY
    ensures a.Time() < b.Time()
  {
    if b.day <= a.day {
      MonthIndexMonotone(b.day, a.day);
    }
  }

  lemma NotLaterMonth(a: DateTime, b: DateTime)
    requires 1 <= a.day && 1 <= b.day && a.Time() <= b.Time()
    requires 0 <= a.micro < DAY && 0 <= b.micro < DAY
    ensures MonthIndex(a.day) <= MonthIndex(b.day)
  {
    MonthIndexMonotone(a.day, b.day);
  }

  /** Moving to a later month leads to a strictly later time, whatever the clipping. */
  lemma InMonthMonotone(t: DateTime, k: int, l: int)
    requires 1 <= t.day && 12 <= k < l && 0 <= t.micro < DAY
    ensures InMonth(t, k).Time() < InMonth(t, l).Time()
  {
    InMonthIndex(t, k);
    InMonthIndex(t, l);
    LaterMonth(InMonth(t, k), InMonth(t, l));
  }

  /** k is the month furthest from dt2's own to which dt2 can be moved without passing dt1. */
  ghost predicate Extreme(dt1: DateTime, dt2: DateTime, k: int)
    requires 1 <= dt1.day && 1 <= dt2.day
  {
    && 12 <= k
    && (dt1.Time() >= dt2.Time() ==>
          InMonth(dt2, k).Time() <= dt1.Time() && forall l :: l > k ==> dt1.Time() < InMonth(dt2, l).Time())
    && (dt1.Time() < dt2.Time() ==>
          dt1.Time() <= InMonth(dt2, k).Time() && forall l :: 12 <= l < k ==> InMonth(dt2, l).Time() < dt1.Time())
  }

  /** dt2 moved to a month before (after) that of dt1 is earlier (later) than dt1. */
  lemma BesideMonth(dt1: DateTime, dt2: DateTime, k: int)
    requires dt1.Valid() && dt2.Valid() && 12 <= k
    ensures k < MonthIndex(dt1.day) ==> InMonth(dt2, k).Time() < dt1.Time()
    ensures MonthIndex(dt1.day) < k ==> dt1.Time() < InMonth(dt2, k).Time()
  {
    InMonthIndex(dt2, k);
    var m := InMonth(dt2, k);
    if k < MonthIndex(dt1.day) {
      LaterMonth(m, dt1);
    } else if MonthIndex(dt1.day) < k {
      LaterMonth(dt1, m);
    }
  }

  /** In its own month nothing needs correcting. */
  lemma OwnMonthFits(dt1: DateTime, dt2: DateTime)
    requires dt1.Valid() && dt2.Valid()
    ensures MonthIndex(dt1.day) == MonthIndex(dt2.day) ==> InMonth(dt2, MonthIndex(dt1.day)) == dt2
  {
    InOwnMonth(dt2);
  }

  lemma NeighbourMonths(dt1: DateTime, dt2: DateTime)
    requires dt1.Valid() && dt2.Valid()
    ensures var k := MonthIndex(dt1.day);
            && dt1.Time() < InMonth(dt2, k + 1).Time()
            && (12 < k ==> InMonth(dt2, k - 1).Time() < dt1.Time())
            && (k == MonthIndex(dt2.day) ==> InMonth(dt2, k) == dt2)
  {
    var k := MonthIndex(dt1.day);
    BesideMonth(dt1, dt2, k + 1);
    if 12 < k {
      BesideMonth(dt1, dt2, k - 1);
    }
    OwnMonthFits(dt1, dt2);
  }

  lemma MonthsInOrder(dt1: DateTime, dt2: DateTime)
    requires dt1.Valid() && dt2.Valid() && dt1.Time() <= dt2.Time()
    ensures 12 <= MonthIndex(dt1.day) <= MonthIndex(dt2.day) < 12 * (MAXYEAR + 1)
  {
    InOwnMonth(dt1);
    NotLaterMonth(dt1, dt2);
    LastMonth(MAXYEAR);
    if MonthIndex(dt2.day) >= 12 * (MAXYEAR + 1) {
      MonthIndexStartMonotone(12 * (MAXYEAR + 1), MonthIndex(dt2.day));
    }
  }

  lemma LastMonth(y: int)
    requires y == MAXYEAR
    ensures MonthIndexStart(12 * (y + 1)) == MaxOrdinal()
  {
    MonthIndexStartIs(y + 1, 1);
    LastOrdinal(y);
  }

  lemma IsExtremeBack(dt1: DateTime, dt2: DateTime, k: int)
    requires dt1.Valid() && dt2.Valid() && 12 <= k && dt1.Time() >= dt2.Time()
    requires InMonth(dt2, k).Time() <= dt1.Time() < InMonth(dt2, k + 1).Time()
    ensures Extreme(dt1, dt2, k)
  {
    forall l | l > k
      ensures dt1.Time() < InMonth(dt2, l).Time()
    {
      if l > k + 1 { InMonthMonotone(dt2, k + 1, l); }
    }
  }

  lemma BackIsExtreme(dt1: DateTime, dt2: DateTime, k: int)
    requires dt1.Valid() && dt2.Valid() && 12 <= k && dt1.Time() >= dt2.Time()
    requires InMonth(dt2, k).Time() <= dt1.Time()
    requires k == MonthIndex(dt1.day) || (k == MonthIndex(dt1.day) - 1 && dt1.Time() < InMonth(dt2, k + 1).Time())
    ensures Extreme(dt1, dt2, k)
  {
    BesideMonth(dt1, dt2, MonthIndex(dt1.day) + 1);
    IsExtremeBack(dt1, dt2, k);
  }

  lemma IsExtremeForward(dt1: DateTime, dt2: DateTime, k: int)
    requires dt1.Valid() && dt2.Valid() && 12 <= k && dt1.Time() < dt2.Time()
    requires dt1.Time() <= InMonth(dt2, k).Time()
    requires 12 < k ==> InMonth(dt2, k - 1).Time() < dt1.Time()
    ensures Extreme(dt1, dt2, k)
  {
    forall l | 12 <= l < k
      ensures InMonth(dt2, l).Time() < dt1.Time()
    {
      if l < k - 1 { InMonthMonotone(dt2, l, k - 1); }
    }
  }

  /** When dt2 moved to dt1's month is before dt1, the next month is after it, and not after dt2's own. */
  lemma AheadOfOwnMonth(dt1: DateTime, dt2: DateTime, own: DateTime)
    requires dt1.Valid() && dt2.Valid() && dt1.Time() < dt2.Time()
    requires own == InMonth(dt2, MonthIndex(dt1.day))
    ensures dt1.Time() <= InMonth(dt2, MonthIndex(dt1.day) + 1).Time()
    ensures own.Time() < dt1.Time() ==> MonthIndex(dt1.day) < MonthIndex(dt2.day)
  {
    NeighbourMonths(dt1, dt2);
    NotLaterMonth(dt1, dt2);
  }

  lemma ForwardIsExtreme(dt1: DateTime, dt2: DateTime, k: int)
    requires dt1.Valid() && dt2.Valid() && 12 <= k && dt1.Time() < dt2.Time()
    requires dt1.Time() <= InMonth(dt2, k).Time()
    requires k == MonthIndex(dt1.day) || (k == MonthIndex(dt1.day) + 1 && InMonth(dt2, k - 1).Time() < dt1.Time())
    ensures Extreme(dt1, dt2, k)
  {
    NeighbourMonths(dt1, dt2);
    IsExtremeForward(dt1, dt2, k);
  }

  /** The month that the correction loop settles on: that of dt1 or the one beside it. */
  ghost predicate Corrected(dt1: DateTime, dt2: DateTime, k: int, beside: int)
    requires 1 <= dt1.day && 1 <= dt2.day
  {
    Extreme(dt1, dt2, k) && (k == MonthIndex(dt1.day) || k == beside) && k < 12 * (MAXYEAR + 1)
  }

  /** Where the backward correction stops. */
  lemma BackFound(dt1: DateTime, dt2: DateTime, dtm: DateTime, own: DateTime, k: int)
    requires dt1.Valid() && dt2.Valid() && 12 <= k && dt2.Time() <= dt1.Time() && dtm.Time() <= dt1.Time()
    requires dtm == InMonth(dt2, k) && own == InMonth(dt2, MonthIndex(dt1.day))
    requires k == MonthIndex(dt1.day) || (k == MonthIndex(dt1.day) - 1 && dt1.Time() < own.Time())
    ensures Corrected(dt1, dt2, k, MonthIndex(dt1.day) - 1)
  {
    BackIsExtreme(dt1, dt2, k);
    MonthsInOrder(dt2, dt1);
  }

  /** Where the forward correction stops. */
  lemma ForwardFound(dt1: DateTime, dt2: DateTime, dtm: DateTime, own: DateTime, k: int)
    requires dt1.Valid() && dt2.Valid() && 12 <= k < 12 * (MAXYEAR + 1) && dt1.Time() < dt2.Time() && dt1.Time() <= dtm.Time()
    requires dtm == InMonth(dt2, k) && own == InMonth(dt2, MonthIndex(dt1.day))
    requires k == MonthIndex(dt1.day) || (k == MonthIndex(dt1.day) + 1 && own.Time() < dt1.Time())
    ensures Corrected(dt1, dt2, k, MonthIndex(dt1.day) + 1)
  {
    ForwardIsExtreme(dt1, dt2, k);
  }

  /** When dt2 moved to dt1's month is after dt1, the month before is not, and not before dt2's own. */
  lemma BehindOwnMonth(dt1: DateTime, dt2: DateTime, own: DateTime)
    requires dt1.Valid() && dt2.Valid() && dt2.Time() <= dt1.Time()
    requires own == InMonth(dt2, MonthIndex(dt1.day))
    ensures dt1.Time() < own.Time() ==>
              MonthIndex(dt2.day) < MonthIndex(dt1.day) && InMonth(dt2, MonthIndex(dt1.day) - 1).Time() < dt1.Time()
  {
    MonthsInOrder(dt2, dt1);
    NeighbourMonths(dt1, dt2);
  }

  // ---- The class ----

  function Sign(x: int): int {
    if x < 0 then -1 else 1
  }

  function Abs(x: int): int {
    if x < 0 then -x else x
  }

  /** y has the sign of x, or is zero. */
  predicate SignOf(x: int, y: int) {
    (x >= 0 ==> y >= 0) && (x <= 0 ==> y <= 0)
  }

  /** Of x the part y stays and z units of `base` are carried, rounding towards zero. */
  predicate Carried(x: int, base: int, y: int, z: int) {
    x == y + base * z && -base < y < base && SignOf(x, y) && SignOf(x, z)
  }

  /** What stays and what is carried is determined. */
  lemma CarriedOnce(x: int, base: int, y: int, z: int, y2: int, z2: int)
    requires base > 0 && Carried(x, base, y, z) && Carried(x, base, y2, z2)
    ensures y == y2 && z == z2
  {
    var d := z - z2;
    assert base * d == y2 - y;
    Multiple(base, d);
  }

  lemma Multiple(base: int, d: int)
    requires base > 0
    ensures (d >= 1 ==> base * d >= base) && (d <= -1 ==> base * d <= -base)
  {
  }

  /** s = sign(x); div, mod = divmod(x * s, base): mod * s stays, div * s is carried. */
  function Carry(x: int, base: int): (r: (int, int))
    requires base > 0
    ensures Carried(x, base, r.0, r.1)
  {
    var s := Sign(x);
    ((x * s) % base * s, (x * s) / base * s)
  }

  /** The fields of a delta, from microseconds to days. */
  datatype Units = Units(microseconds: int, seconds: int, minutes: int, hours: int, days: int)

  /** Each field keeps what does not fill the next larger unit and passes the rest on. */
  ghost predicate PassedOn(before: Units, after: Units) {
    exists s, m, h, d :: PassOn(before, after, s, m, h, d)
  }

  predicate PassOn(before: Units, after: Units, s: int, m: int, h: int, d: int) {
    && Carried(before.microseconds, 1000000, after.microseconds, s)
    && Carried(before.seconds + s, 60, after.seconds, m)
    && Carried(before.minutes + m, 60, after.minutes, h)
    && Carried(before.hours + h, 24, after.hours, d)
    && after.days == before.days + d
  }

  /** Whole seconds passed on through empty fields: every field has their sign or is zero. */
  lemma SecondsPassedOn(micros: int, x: int, after: Units)
    requires 0 <= micros < 1000000 && PassedOn(Units(micros, x, 0, 0, 0), after)
    ensures after.microseconds == micros
    ensures x == 86400 * after.days + 3600 * after.hours + 60 * after.minutes + after.seconds
    ensures SignOf(x, after.seconds) && SignOf(x, after.minutes) && SignOf(x, after.hours) && SignOf(x, after.days)
  {
    var s, m, h, d :| PassOn(Units(micros, x, 0, 0, 0), after, s, m, h, d);
    CarriedOnce(micros, 1000000, after.microseconds, s, micros, 0);
  }

  /** One `if` of the carry chain. */
  method CarryOver(x: int, base: int) returns (kept: int, carried: int)
    requires base > 0
    ensures Carried(x, base, kept, carried)
  {
    kept, carried := x, 0;
    if Abs(x) > base - 1 {
      var c := Carry(x, base);
      kept, carried := c.0, c.1;
    }
  }

  class RelativeDelta {
    var years: int
    var months: int
    var days: int
    var hours: int
    var minutes: int
    var seconds: int
    var microseconds: int
    var hasTime: bool

    /** The months part as one number. */
    function TotalMonths(): int
      reads this
    {
      12 * years + months
    }

    /** The part that is a fixed length of time, in microseconds. */
    function TotalMicros(): int
      reads this
    {
      days * DAY + hours * 3600000000 + minutes * 60000000 + seconds * SECOND + microseconds
    }

    function AllUnits(): Units
      reads this
    {
      Units(microseconds, seconds, minutes, hours, days)
    }

    /** Years and months make up the months part, and both have its sign or are zero. */
    predicate MonthsAgree()
      reads this
    {
      Carried(TotalMonths(), 12, months, years)
    }

    /** The other fields make up delta: its microseconds are not negative, and the rest, which is delta rounded down
        to whole seconds, gives every field its sign or zero. */
    predicate TimeAgrees(delta: int)
      reads this
    {
      && 0 <= microseconds < 1000000 && TotalMicros() == delta
      && var x := (delta - microseconds) / 1000000;
         SignOf(x, seconds) && SignOf(x, minutes) && SignOf(x, hours) && SignOf(x, days)
    }

    /** What _fix establishes. */
    predicate Fixed()
      reads this
    {
      && Abs(months) <= 11 && Abs(hours) <= 23 && Abs(minutes) <= 59
      && Abs(seconds) <= 59 && Abs(microseconds) <= 999999
      && hasTime == (hours != 0 || minutes != 0 || seconds != 0 || microseconds != 0)
    }

    /** relativedelta(dt1, dt2). The months are those of the extreme month that does not pass dt1, at most one
        off the plain month distance, and the rest is exactly the time that remains. */
    constructor Difference(dt1: DateTime, dt2: DateTime)
      requires dt1.Valid() && dt2.Valid()
      ensures Fixed()
      ensures Extreme(dt1, dt2, MonthIndex(dt2.day) + TotalMonths())
      ensures var plain := MonthIndex(dt1.day) - MonthIndex(dt2.day);
              TotalMonths() == plain || TotalMonths() == if dt1.Time() < dt2.Time() then plain + 1 else plain - 1
      ensures MonthIndex(dt2.day) + TotalMonths() < 12 * (MAXYEAR + 1)
      ensures InMonth(dt2, MonthIndex(dt2.day) + TotalMonths()).Time() + TotalMicros() == dt1.Time()
      ensures MonthsAgree()
      ensures TimeAgrees(dt1.Time() - InMonth(dt2, MonthIndex(dt2.day) + TotalMonths()).Time())
    {
      years, months, days, hours, minutes, seconds, microseconds, hasTime := 0, 0, 0, 0, 0, 0, 0, false;
      new;
      var dtm;
      ghost var k;
      if dt1.Time() < dt2.Time() {
        dtm, k := FitForward(dt1, dt2);
      } else {
        dtm, k := FitBack(dt1, dt2);
      }
      var delta := dt1.Time() - dtm.Time();
      // timedelta keeps days, seconds and microseconds with the last two non-negative
      SetDelta(delta);
    }

    /** Takes over a timedelta. */
    method SetDelta(delta: int)
      requires days == 0 && hours == 0 && minutes == 0 && MonthsAgree()
      modifies this
      ensures Fixed() && TotalMonths() == old(TotalMonths()) && TotalMicros() == delta
      ensures MonthsAgree() && TimeAgrees(delta)
    {
      seconds := delta % DAY / SECOND + delta / DAY * 86400;
      microseconds := delta % SECOND;
      DeltaParts(delta);
      ghost var y, m, x := years, months, seconds;
      Fix();
      CarriedOnce(m, 12, months, years - y, m, 0);
      SecondsPassedOn(delta % SECOND, x, AllUnits());
    }

    /** The plain month distance, and the correction loop for dt1 before dt2; the loop body runs at most once. */
    method FitForward(dt1: DateTime, dt2: DateTime) returns (dtm: DateTime, ghost k: int)
      requires dt1.Valid() && dt2.Valid() && dt1.Time() < dt2.Time()
      requires days == 0 && hours == 0 && minutes == 0 && seconds == 0 && microseconds == 0
      modifies this`months, this`years
      ensures k == MonthIndex(dt2.day) + TotalMonths() && Corrected(dt1, dt2, k, MonthIndex(dt1.day) + 1)
      ensures dtm == InMonth(dt2, k) && MonthsAgree()
    {
      ghost var k1 := MonthIndex(dt1.day);
      MonthsInOrder(dt1, dt2);
      var m := MonthsBetween(dt1, dt2);
      k := k1;
      dtm := Try(m, dt2, k);
      ghost var own := dtm;
      AheadOfOwnMonth(dt1, dt2, own);
      while dt1.Time() > dtm.Time()
        invariant k == MonthIndex(dt2.day) + m && dtm == InMonth(dt2, k)
        invariant if k == k1 then dtm == own else k == k1 + 1 && own.Time() < dt1.Time() <= dtm.Time()
        invariant Carried(m, 12, months, years)
        decreases k1 + 1 - k
      {
        m, k := m + 1, k + 1;
        dtm := Try(m, dt2, k);
      }
      ForwardFound(dt1, dt2, dtm, own, k);
    }

    /** _set_months and the addition of nothing but the months. */
    method Try(m: int, dt2: DateTime, ghost k: int) returns (dtm: DateTime)
      requires dt2.Valid() && days == 0 && hours == 0 && minutes == 0 && seconds == 0 && microseconds == 0
      requires 12 <= k < 12 * (MAXYEAR + 1) && k == MonthIndex(dt2.day) + m
      modifies this`months, this`years
      ensures Carried(m, 12, months, years) && dtm == InMonth(dt2, k)
    {
      SetMonths(m);
      dtm := AddMonths(dt2);
    }

    /** FitForward for dt1 at or after dt2. */
    method FitBack(dt1: DateTime, dt2: DateTime) returns (dtm: DateTime, ghost k: int)
      requires dt1.Valid() && dt2.Valid() && dt2.Time() <= dt1.Time()
      requires days == 0 && hours == 0 && minutes == 0 && seconds == 0 && microseconds == 0
      modifies this`months, this`years
      ensures k == MonthIndex(dt2.day) + TotalMonths() && Corrected(dt1, dt2, k, MonthIndex(dt1.day) - 1)
      ensures dtm == InMonth(dt2, k) && MonthsAgree()
    {
      ghost var k1 := MonthIndex(dt1.day);
      MonthsInOrder(dt2, dt1);
      var m := MonthsBetween(dt1, dt2);
      k := k1;
      dtm := Try(m, dt2, k);
      ghost var own := dtm;
      BehindOwnMonth(dt1, dt2, own);
      while dt1.Time() < dtm.Time()
        invariant k == MonthIndex(dt2.day) + m && 12 <= k && dtm == InMonth(dt2, k)
        invariant if k == k1 then dtm == own else k == k1 - 1 && dtm.Time() <= dt1.Time() < own.Time()
        invariant Carried(m, 12, months, years)
        decreases k - k1 + 1
      {
        m, k := m - 1, k - 1;
        dtm := Try(m, dt2, k);
      }
      BackFound(dt1, dt2, dtm, own, k);
    }

    /** _set_months. */
    method SetMonths(m: int)
      modifies this`months, this`years
      ensures Carried(m, 12, months, years)
    {
      months, years := CarryOver(m, 12);
    }

    /** The carry chain: every field keeps what does not fill the next unit, with the sign that it had when the carry
        reached it, and neither total changes. */
    method Fix()
      modifies this
      ensures Fixed()
      ensures PassedOn(old(AllUnits()), AllUnits())
      ensures Carried(old(months), 12, months, years - old(years))
      ensures TotalMonths() == old(TotalMonths()) && TotalMicros() == old(TotalMicros())
    {
      FixTime();
      var y;
      months, y := CarryOver(months, 12);
      years := years + y;
      hasTime := hours != 0 || minutes != 0 || seconds != 0 || microseconds != 0;
    }

    method FixTime()
      modifies this`days, this`hours, this`minutes, this`seconds, this`microseconds
      ensures PassedOn(old(AllUnits()), AllUnits())
      ensures Abs(hours) <= 23 && Abs(minutes) <= 59 && Abs(seconds) <= 59 && Abs(microseconds) <= 999999
      ensures TotalMicros() == old(TotalMicros())
    {
      ghost var before := AllUnits();
      var s, m, h, d;
      microseconds, s := CarryOver(microseconds, SECOND);
      seconds := seconds + s;
      seconds, m := CarryOver(seconds, 60);
      minutes := minutes + m;
      minutes, h := CarryOver(minutes, 60);
      hours := hours + h;
      hours, d := CarryOver(hours, 24);
      days := days + d;
      assert PassOn(before, AllUnits(), s, m, h, d);
    }

    /** Addition to a datetime. None is the error of a year or a result outside the calendar. */
    method Add(other: DateTime) returns (ret: Option<DateTime>)
      requires other.Valid() && Abs(months) <= 12
      ensures var k := MonthIndex(other.day) + TotalMonths();
              if 12 <= k < 12 * (MAXYEAR + 1) && AtTime(InMonth(other, k).Time() + TotalMicros()).Valid()
              then ret == Some(AtTime(InMonth(other, k).Time() + TotalMicros())) else ret == None
    {
      var replaced := Replace(other, MonthIndex(other.day) + TotalMonths());
      if replaced == None {
        return None;
      }
      var result := AtTime(replaced.value.Time() +
        (days * DAY + hours * 3600000000 + minutes * 60000000 + seconds * SECOND + microseconds));
      ret := if result.Valid() then Some(result) else None;
    }

    /** other.replace(year, month, day) with the day clipped to the month; None is the year out of range. */
    method Replace(other: DateTime, ghost k: int) returns (ret: Option<DateTime>)
      requires other.Valid() && Abs(months) <= 12 && k == MonthIndex(other.day) + TotalMonths()
      ensures ret == if 12 <= k < 12 * (MAXYEAR + 1) then Some(InMonth(other, k)) else None
    {
      MonthIndexOf(other.day);
      var year, month := MoveMonths(YearOf(other.day), MonthOf(other.day));
      assert k == 12 * year + month - 1;
      YearOfIndex(year, month);
      if !(1 <= year <= MAXYEAR) {
        return None;
      }
      var day := Min(DaysInMonth(year, month), MonthDay(other.day));
      ghost var moved := ReplacedIs(other, year, month, k);
      ret := Some(DateTime(ToOrdinal(year, month, day), other.micro));
    }

    /** The month part of __add__. */
    method MoveMonths(year0: int, month0: int) returns (year: int, month: int)
      requires 1 <= month0 <= 12 && Abs(months) <= 12
      ensures 12 * year + month == 12 * year0 + month0 + TotalMonths() && 1 <= month <= 12
    {
      year, month := year0 + years, month0;
      if months != 0 {
        month := month + months;
        if month > 12 {
          year := year + 1;
          month := month - 12;
        } else if month < 1 {
          year := year - 1;
          month := month + 12;
        }
      }
    }

    /** The addition while only years and months are set, as the constructor uses it. */
    method AddMonths(dt2: DateTime) returns (dtm: DateTime)
      requires dt2.Valid() && Abs(months) <= 12 && TotalMicros() == 0
      requires var k := MonthIndex(dt2.day) + TotalMonths(); 12 <= k < 12 * (MAXYEAR + 1)
      ensures dtm == InMonth(dt2, MonthIndex(dt2.day) + TotalMonths())
    {
      var r := Add(dt2);
      ghost var k := MonthIndex(dt2.day) + TotalMonths();
      AtTimeOf(InMonth(dt2, k));
      MonthInCalendar(dt2, k);
      dtm := r.value;
    }
  }

  lemma ReplacedIs(t: DateTime, y: int, m: int, k: int) returns (moved: DateTime)
    requires 1 <= t.day && 1 <= y && 1 <= m <= 12 && k == 12 * y + m - 1
    ensures moved == DateTime(ToOrdinal(y, m, Min(DaysInMonth(y, m), MonthDay(t.day))), t.micro) && moved == InMonth(t, k)
  {
    MonthIndexOf(t.day);
    MonthIndexAt(k, y, m);
    MonthIndexNext(k, y, m);
    DayInMonth(y, m, Min(DaysInMonth(y, m), MonthDay(t.day)));
    moved := InMonth(t, k);
  }

  lemma DayInMonth(y: int, m: int, d: int)
    requires 1 <= y && 1 <= m <= 12
    ensures ToOrdinal(y, m, d) == ToOrdinal(y, m, 0) + d
  {
  }

  lemma YearOfIndex(y: int, m: int)
    requires 1 <= m <= 12
    ensures 1 <= y <= MAXYEAR <==> 12 <= 12 * y + m - 1 < 12 * (MAXYEAR + 1)
  {
  }

  method MonthsBetween(dt1: DateTime, dt2: DateTime) returns (m: int)
    requires 1 <= dt1.day && 1 <= dt2.day
    ensures m == MonthIndex(dt1.day) - MonthIndex(dt2.day)
  {
    MonthIndexOf(dt1.day);
    MonthIndexOf(dt2.day);
    m := (YearOf(dt1.day) - YearOf(dt2.day)) * 12 + (MonthOf(dt1.day) - MonthOf(dt2.day));
  }

  lemma DeltaParts(delta: int)
    ensures (delta % DAY / SECOND + delta / DAY * 86400) * SECOND + delta % SECOND == delta
  {
    var d, r := delta / DAY, delta % DAY;
    assert delta == d * DAY + r;
    WholeSeconds(r, d * 86400);
  }

  lemma WholeSeconds(r: int, k: int)
    ensures (r + k * 1000000) % 1000000 == r % 1000000
  {
  }

  lemma MonthInCalendar(t: DateTime, k: int)
    requires t.Valid() && 12 <= k < 12 * (MAXYEAR + 1)
    ensures InMonth(t, k).Valid()
  {
    InMonthIndex(t, k);
    MonthIndexStartMonotone(k + 1, 12 * (MAXYEAR + 1));
    LastMonth(MAXYEAR);
  }

  /** The inverse law: dt2 + relativedelta(dt1, dt2) == dt1. */
  method DifferenceThenAdd(dt1: DateTime, dt2: DateTime) returns (ret: Option<DateTime>)
    requires dt1.Valid() && dt2.Valid()
    ensures ret == Some(dt1)
  {
    var delta := new RelativeDelta.Difference(dt1, dt2);
    AtTimeOf(dt1);
    ret := delta.Add(dt2);
  }
}
