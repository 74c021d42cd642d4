/** How rrule._iter moves from one period to the next: the sub-daily searches with their jump over
    rejected days, and the normalisation of a day that ran past the end of its month. */
module Advance {
  import opened Sequences
  import opened Calendar
  import opened Rules
  import opened Stepping

  /** The local variables of the generator. */
  datatype Cursor = Cursor(year: int, month: int, day: int, hour: int, minute: int, second: int, weekday: int)

  // ---- Day overflow ----

  lemma NextMonth(y: int, m: int, d: int)
    requires 1 <= y && 1 <= m <= 12
    ensures m < 12 ==> ToOrdinal(y, m + 1, d - DaysInMonth(y, m)) == ToOrdinal(y, m, d)
    ensures m == 12 ==> ToOrdinal(y + 1, 1, d - DaysInMonth(y, m)) == ToOrdinal(y, m, d)
  {
    assert DaysBeforeMonth(y, m + 1) == DaysBeforeMonth(y, m) + DaysInMonth(y, m);
    if m == 12 {
      YearIsTwelveMonths(y);
      assert DaysBeforeYear(y + 1) == DaysBeforeYear(y) + YearLen(y);
    }
  }

  /** Rolls a day past the end of its month forward. The ordinal never changes; the loop ends,
      or the last year is left behind. */
  method FixDay(year: int, month: int, day: int) returns (y: int, m: int, d: int, over: bool)
    requires 1 <= year <= MAXYEAR && 1 <= month <= 12 && 1 <= day
    ensures over ==> ToOrdinal(year, month, day) > MaxOrdinal()
    ensures !over ==> Date(y, m, d).Valid() && y <= MAXYEAR && ToOrdinal(y, m, d) == ToOrdinal(year, month, day)
  {
    y, m, d := year, month, day;
    over := false;
    if day > 28 {
      var daysinmonth := DaysInMonth(y, m);
      while d > daysinmonth
        invariant 1 <= y <= MAXYEAR && 1 <= m <= 12 && 1 <= d && daysinmonth == DaysInMonth(y, m)
        invariant ToOrdinal(y, m, d) == ToOrdinal(year, month, day)
        decreases d
      {
        NextMonth(y, m, d);
        d := d - daysinmonth;
        m := m + 1;
        if m == 13 {
          m := 1;
          y := y + 1;
          if y > MAXYEAR {
            LastOrdinal(y - 1);
            return y, m, d, true;
          }
        }
        daysinmonth := DaysInMonth(y, m);
      }
    }
  }

  // ---- Times of day as numbers of hours, minutes or seconds ----

  function UnitsPerDay(f: Freq): (u: int)
    ensures u > 0
  {
    match f case HOURLY => 24 case MINUTELY => 1440 case _ => 86400
  }

  /** Whether the hour, minute or second number x passes the time filters at its level and above. */
  predicate TodOk(r: Rule, x: int) {
    match r.freq
    case HOURLY => Allowed(x % 24, r.byhour, true)
    case MINUTELY => Allowed(x / 60 % 24, r.byhour, true) && Allowed(x % 60, r.byminute, true)
    case _ => Allowed(x / 3600 % 24, r.byhour, true) && Allowed(x / 60 % 60, r.byminute, true)
              && Allowed(x % 60, r.bysecond, true)
  }

  function Tod(r: Rule, c: Cursor): int {
    match r.freq
    case HOURLY => c.hour
    case MINUTELY => c.hour * 60 + c.minute
    case _ => c.hour * 3600 + c.minute * 60 + c.second
  }

  predicate OnClock(c: Cursor) {
    0 <= c.hour < 24 && 0 <= c.minute < 60 && 0 <= c.second < 60
  }

  /** The time m steps after x. */
  function Step(r: Rule, x: int, m: int): int {
    x + m * r.interval
  }

  /** None of the first n steps after x meets an allowed time. */
  ghost predicate Missed(r: Rule, x: int, n: int) {
    forall m {:trigger TodOk(r, Step(r, x, m))} :: 1 <= m <= n ==> !TodOk(r, Step(r, x, m))
  }

  lemma StepsAdd(r: Rule, x: int, n: int, m: int)
    ensures Step(r, Step(r, x, n), m) == Step(r, x, n + m)
  {
    assert (n + m) * r.interval == n * r.interval + m * r.interval;
  }

  lemma MissedMore(r: Rule, x: int, n: int, k: int)
    requires n >= 0 && Missed(r, x, n) && Missed(r, Step(r, x, n), k)
    ensures Missed(r, x, n + k)
  {
    forall m | 1 <= m <= n + k
      ensures !TodOk(r, Step(r, x, m))
    {
      if m > n {
        StepsAdd(r, x, n, m - n);
      }
    }
  }

  /** A round that goes on k steps from `now`; it misses them all, or all but the last. */
  lemma RoundKeeps(r: Rule, x: int, n: int, now: int, next: int, k: int, missed: int)
    requires n >= 0 && k >= 1 && now == Step(r, x, n) && next == Step(r, now, k)
    requires Missed(r, x, n) && Missed(r, now, missed)
    ensures next == Step(r, x, n + k) && Missed(r, x, n + missed)
  {
    MissedMore(r, x, n, missed);
    StepsAdd(r, x, n, k);
  }

  /** The m-th step from time x is one the generator may pass over: not an allowed time, or still on a rejected day. */
  predicate PassedOver(r: Rule, filtered: bool, x: int, m: int) {
    !TodOk(r, Step(r, x, m)) || (filtered && Step(r, x, m) < UnitsPerDay(r.freq))
  }

  /** c2 is the first step after c, the n-th, that must not be passed over. */
  predicate IsNext(r: Rule, filtered: bool, c: Cursor, c2: Cursor, n: int) {
    && n >= 1
    && OnClock(c2) && c2.year == c.year && c2.month == c.month && c.day <= c2.day
    && (c2.day - c.day) * UnitsPerDay(r.freq) + Tod(r, c2) == Step(r, Tod(r, c), n)
    && TodOk(r, Tod(r, c2))
    && !PassedOver(r, filtered, Tod(r, c), n)
    && forall m :: 1 <= m < n ==> PassedOver(r, filtered, Tod(r, c), m)
  }

  /** No step from time x, forwards or backwards, meets an allowed time. */
  ghost predicate NeverOk(r: Rule, x: int) {
    forall m {:trigger TodOk(r, Step(r, x, m))} :: !TodOk(r, Step(r, x, m))
  }

  lemma SplitMinutes(x: int, d: int, h: int, m: int)
    requires x == d * 1440 + h * 60 + m && 0 <= h < 24 && 0 <= m < 60
    ensures x % 60 == m && x / 60 % 24 == h
  {
    assert x / 60 == d * 24 + h;
  }

  lemma SplitSeconds(x: int, d: int, h: int, m: int, s: int)
    requires x == d * 86400 + h * 3600 + m * 60 + s && 0 <= h < 24 && 0 <= m < 60 && 0 <= s < 60
    ensures x % 60 == s && x / 60 % 60 == m && x / 3600 % 24 == h
  {
    assert x / 60 == d * 1440 + h * 60 + m;
    assert x / 3600 == d * 24 + h;
  }

  lemma HoursPeriodic(x: int, k: int)
    ensures (x + k * 24) % 24 == x % 24
  {
  }

  lemma MinutesPeriodic(x: int, k: int)
    ensures (x + k * 1440) % 60 == x % 60 && (x + k * 1440) / 60 % 24 == x / 60 % 24
  {
    var h := x / 60;
    assert x == h * 60 + x % 60;
    assert (x + k * 1440) / 60 == h + k * 24;
  }

  lemma HourOfMinutes(x: int)
    ensures x / 3600 == x / 60 / 60
  {
  }

  lemma SecondsPeriodic(x: int, k: int)
    ensures (x + k * 86400) % 60 == x % 60
    ensures (x + k * 86400) / 60 % 60 == x / 60 % 60
    ensures (x + k * 86400) / 3600 % 24 == x / 3600 % 24
  {
    DivModIs(x + k * 86400, x / 60 + k * 1440, x % 60, 60);
    MinutesPeriodic(x / 60, k);
    HourOfMinutes(x);
    HourOfMinutes(x + k * 86400);
  }

  /** TodOk looks at the time of day only. */
  lemma TodPeriodic(r: Rule, x: int, k: int)
    ensures TodOk(r, x + k * UnitsPerDay(r.freq)) == TodOk(r, x)
  {
    if r.freq == HOURLY {
      HoursPeriodic(x, k);
    } else if r.freq == MINUTELY {
      MinutesPeriodic(x, k);
    } else {
      SecondsPeriodic(x, k);
    }
  }

  lemma StepPeriodic(r: Rule, x: int, rounds: int, m: int)
    requires r.interval >= 1 && rounds == UnitsPerDay(r.freq) / Gcd(r.interval, UnitsPerDay(r.freq))
    ensures TodOk(r, Step(r, x, m)) == TodOk(r, Step(r, x, m - rounds))
  {
    var turns := FullTurn(r.interval, UnitsPerDay(r.freq));
    assert (m - rounds) * r.interval + rounds * r.interval == m * r.interval;
    TodPeriodic(r, x + (m - rounds) * r.interval, turns);
  }

  /** If a whole cycle of steps meets no allowed time, no step ever does. */
  lemma {:induction false} NoneInCycle(r: Rule, x: int, rounds: int, n: int, m: int)
    requires r.interval >= 1 && 1 <= rounds <= n && 1 <= m
    requires rounds == UnitsPerDay(r.freq) / Gcd(r.interval, UnitsPerDay(r.freq))
    requires Missed(r, x, n)
    ensures !TodOk(r, Step(r, x, m))
    decreases m
  {
    if m > n {
      NoneInCycle(r, x, rounds, n, m - rounds);
      StepPeriodic(r, x, rounds, m);
    }
  }

  /** Nor did any step before. */
  lemma {:induction false} NoneEarlier(r: Rule, x: int, rounds: int, n: int, m: int)
    requires r.interval >= 1 && 1 <= rounds <= n && m < 1
    requires rounds == UnitsPerDay(r.freq) / Gcd(r.interval, UnitsPerDay(r.freq))
    requires Missed(r, x, n)
    ensures !TodOk(r, Step(r, x, m))
    decreases 1 - m
  {
    if m + rounds < 1 {
      NoneEarlier(r, x, rounds, n, m + rounds);
    }
    StepPeriodic(r, x, rounds, m + rounds);
  }

  /** The jump of a rejected day: J steps, all of them on that day, to its last step. */
  function Jump(x: int, interval: int, units: int): int
    requires interval >= 1
  {
    (units - 1 - x) / interval
  }

  lemma JumpStaysOnDay(x: int, interval: int, units: int)
    requires interval >= 1 && 0 <= x < units
    ensures var j := Jump(x, interval, units);
            j >= 0 && x <= x + j * interval < units <= x + (j + 1) * interval
  {
    var j := Jump(x, interval, units);
    assert j * interval + (units - 1 - x) % interval == units - 1 - x;
    assert (j + 1) * interval == j * interval + interval;
  }

  /** The j steps that lead to the last step of a rejected day, or none at all. */
  predicate IsJump(r: Rule, filtered: bool, x: int, j: int) {
    && j >= 0 && (j > 0 ==> filtered && Step(r, x, j) < UnitsPerDay(r.freq))
    && (filtered ==> UnitsPerDay(r.freq) <= Step(r, x, j + 1))
  }

  /** What is missed after the jump was passed over from before the jump. */
  lemma AfterJump(r: Rule, filtered: bool, x: int, j: int, n: int)
    requires r.interval >= 1 && IsJump(r, filtered, x, j) && Missed(r, Step(r, x, j), n)
    ensures forall m :: 1 <= m <= j + n ==> PassedOver(r, filtered, x, m)
  {
    forall m | 1 <= m <= j + n
      ensures PassedOver(r, filtered, x, m)
    {
      if m <= j {
        assert m * r.interval <= j * r.interval;
      } else {
        StepsAdd(r, x, j, m - j);
      }
    }
  }

  /** The first allowed step after the jump is the next one. */
  lemma HitIsNext(r: Rule, filtered: bool, c: Cursor, c2: Cursor, j: int, n: int) returns (k: int)
    requires r.interval >= 1 && IsJump(r, filtered, Tod(r, c), j)
    requires n >= 1 && Missed(r, Step(r, Tod(r, c), j), n - 1)
    requires OnClock(c2) && c2.year == c.year && c2.month == c.month && c.day <= c2.day
    requires (c2.day - c.day) * UnitsPerDay(r.freq) + Tod(r, c2) == Step(r, Step(r, Tod(r, c), j), n)
    requires TodOk(r, Tod(r, c2))
    ensures IsNext(r, filtered, c, c2, k)
  {
    k := StepsTogether(r, Tod(r, c), j, n);
    AfterJump(r, filtered, Tod(r, c), j, n - 1);
    LandsBeyond(r, filtered, Tod(r, c), j, n, Tod(r, c2), c2.day - c.day);
  }

  /** The step where the search ends is allowed and off the rejected day. */
  lemma LandsBeyond(r: Rule, filtered: bool, x: int, j: int, n: int, tod: int, days: int)
    requires r.interval >= 1 && IsJump(r, filtered, x, j) && n >= 1
    requires days * UnitsPerDay(r.freq) + tod == Step(r, x, j + n) && TodOk(r, tod)
    ensures !PassedOver(r, filtered, x, j + n)
  {
    TodPeriodic(r, tod, days);
    assert (j + n) * r.interval >= (j + 1) * r.interval;
  }

  /** Where there is a next step there is an allowed one. */
  lemma NextIsAllowed(r: Rule, filtered: bool, c: Cursor, c2: Cursor, n: int)
    requires IsNext(r, filtered, c, c2, n)
    ensures !NeverOk(r, Tod(r, c))
  {
    assert TodOk(r, Step(r, Tod(r, c), n));
  }

  lemma StepsTogether(r: Rule, x: int, n: int, m: int) returns (k: int)
    ensures k == n + m && Step(r, x, k) == Step(r, Step(r, x, n), m)
  {
    k := n + m;
    StepsAdd(r, x, n, m);
  }

  // ---- HOURLY ----

  /** Every member of a BYxxx set is on the dial and reachable from the current value,
      which is what __construct_byset leaves at the FREQ level. */
  ghost predicate Fits(value: int, interval: int, byxxx: seq<int>, base: int)
    requires interval >= 1 && base >= 1
  {
    forall x :: x in byxxx ==> 0 <= x < base && (x - value) % Gcd(interval, base) == 0
  }

  lemma FitsReaches(value: int, interval: int, byxxx: seq<int>, base: int)
    requires interval >= 1 && base >= 1 && Fits(value, interval, byxxx, base) && byxxx != []
    ensures exists m :: m >= 1 && Dial(value, m, interval, base) in byxxx
  {
    var x := byxxx[0];
    assert x in byxxx;
    var m := Reaches(value, interval, base, x);
    assert Dial(value, m, interval, base) == x;
  }

  /** Steps and turns of the dial keep what is reachable. */
  lemma FitsMoves(value: int, interval: int, byxxx: seq<int>, base: int, n: int, turns: int)
    requires interval >= 1 && base >= 1 && Fits(value, interval, byxxx, base)
    ensures Fits(value + n * interval - turns * base, interval, byxxx, base)
  {
    var g := Gcd(interval, base);
    var s, t, p, q := Bezout(interval, base);
    forall x | x in byxxx
      ensures (x - (value + n * interval - turns * base)) % g == 0
    {
      var k := DivExact(x - value, g);
      CommonFactor(n, p, turns, q, g);
      assert k * g - (n * p - turns * q) * g == (k - (n * p - turns * q)) * g;
      DivModIs(x - (value + n * interval - turns * base), k - (n * p - turns * q), 0, g);
    }
  }

  lemma FitsAhead(r: Rule, value: int, v: int, byxxx: seq<int>, base: int, j: int)
    requires r.interval >= 1 && base >= 1 && Fits(value, r.interval, byxxx, base) && v == Step(r, value, j)
    ensures Fits(v, r.interval, byxxx, base)
  {
    FitsMoves(value, r.interval, byxxx, base, j, 0);
  }

  /** On a rejected day: the last step of that day, applied to the field that steps. */
  method JumpAhead(r: Rule, filtered: bool, tod: int, value: int, units: int) returns (v: int, ghost j: int)
    requires r.interval >= 1 && 0 <= tod < units && units == UnitsPerDay(r.freq)
    ensures IsJump(r, filtered, tod, j) && v == Step(r, value, j) && value <= v
    ensures filtered ==> tod + j * r.interval < units <= tod + (j + 1) * r.interval
  {
    v, j := value, 0;
    if filtered {
      JumpStaysOnDay(tod, r.interval, units);
      j := Jump(tod, r.interval, units);
      v := value + (units - 1 - tod) / r.interval * r.interval;
    }
  }

  /** What was stepped is the time of day. */
  lemma SameStep(r: Rule, rest: int, value: int, v: int, j: int)
    requires v == Step(r, value, j)
    ensures rest + v == Step(r, rest + value, j)
  {
  }

  method AdvanceHourly(r: Rule, c: Cursor, filtered: bool) returns (c2: Cursor, fixday: bool, ghost n: int)
    requires r.freq == HOURLY && r.interval >= 1 && OnClock(c)
    requires Fits(c.hour, r.interval, r.byhour, 24)
    ensures IsNext(r, filtered, c, c2, n)
    ensures !fixday ==> c2.day == c.day
  {
    var hour;
    ghost var j;
    hour, j := JumpAhead(r, filtered, c.hour, c.hour, 24);
    FitsAhead(r, c.hour, hour, r.byhour, 24, j);
    var ndays;
    ndays, hour, n := NextHour(r, hour);
    AfterJump(r, filtered, c.hour, j, n - 1);
    StepsAdd(r, c.hour, j, n);
    LandsBeyond(r, filtered, c.hour, j, n, hour, ndays);
    n := j + n;
    fixday := false;
    var day := c.day;
    if ndays != 0 {
      day := day + ndays;
      fixday := true;
    }
    c2 := c.(hour := hour, day := day);
  }

  /** The next hour that byhour allows, as divmod by 24 of n steps. */
  method NextHour(r: Rule, hour: int) returns (div: int, mod: int, ghost n: int)
    requires r.freq == HOURLY && r.interval >= 1 && 0 <= hour && Fits(hour, r.interval, r.byhour, 24)
    ensures n >= 1 && 0 <= div && 0 <= mod < 24 && div * 24 + mod == Step(r, hour, n)
    ensures TodOk(r, mod) && Missed(r, hour, n - 1)
  {
    if r.byhour != [] {
      FitsReaches(hour, r.interval, r.byhour, 24);
      var found;
      found, n := ModDistance(hour, r.interval, r.byhour, 24);
      div, mod := found.value.0, found.value.1;
      HoursMissed(r, hour, n);
    } else {
      div, mod := (hour + r.interval) / 24, (hour + r.interval) % 24;
      n := 1;
      OneStep(r, hour, 24);
    }
    AllowedHour(r, mod);
    NotBefore(div, mod, 24, hour, n, r.interval);
  }

  /** divmod of a single step. */
  lemma OneStep(r: Rule, value: int, base: int)
    requires base >= 1
    ensures (value + r.interval) / base * base + (value + r.interval) % base == Step(r, value, 1)
  {
  }

  lemma AllowedHour(r: Rule, hour: int)
    requires r.freq == HOURLY && 0 <= hour < 24
    ensures TodOk(r, hour) <==> Allowed(hour, r.byhour, true)
  {
  }

  lemma HoursMissed(r: Rule, hour: int, n: int)
    requires r.freq == HOURLY
    requires r.byhour != [] && forall m :: 1 <= m < n ==> Dial(hour, m, r.interval, 24) !in r.byhour
    ensures Missed(r, hour, n - 1)
  {
    forall m | 1 <= m <= n - 1
      ensures !TodOk(r, Step(r, hour, m))
    {
      assert Dial(hour, m, r.interval, 24) !in r.byhour;
    }
  }

  lemma NotBefore(div: int, mod: int, base: int, value: int, n: int, interval: int)
    requires base >= 1 && 0 <= mod < base && 0 <= value && n >= 0 && interval >= 0
    requires div * base + mod == value + n * interval
    ensures 0 <= div
  {
    assert 0 <= n * interval;
    QuotientNotNegative(value + n * interval, div, mod, base);
  }

  lemma QuotientNotNegative(z: int, div: int, mod: int, base: int)
    requires base >= 1 && 0 <= mod < base && 0 <= z == div * base + mod
    ensures 0 <= div
  {
    DivModIs(z, div, mod, base);
  }

  // ---- MINUTELY ----

  /** The next minute that byminute allows, as divmod by 60 of n steps. */
  method NextMinute(r: Rule, minute: int) returns (div: int, mod: int, ghost n: int)
    requires r.interval >= 1 && 0 <= minute && Fits(minute, r.interval, r.byminute, 60)
    ensures n >= 1 && 0 <= div && 0 <= mod < 60 && div * 60 + mod == Step(r, minute, n)
    ensures Allowed(mod, r.byminute, true)
    ensures forall m :: 1 <= m < n ==> !Allowed(Dial(minute, m, r.interval, 60), r.byminute, true)
  {
    if r.byminute != [] {
      FitsReaches(minute, r.interval, r.byminute, 60);
      var found;
      found, n := ModDistance(minute, r.interval, r.byminute, 60);
      div, mod := found.value.0, found.value.1;
    } else {
      div, mod := (minute + r.interval) / 60, (minute + r.interval) % 60;
      n := 1;
      OneStep(r, minute, 60);
    }
    NotBefore(div, mod, 60, minute, n, r.interval);
  }

  /** If steps from `minute` miss byminute, so do the same steps on the clock. */
  lemma MinutesMissed(r: Rule, x: int, minute: int, hours: int, n: int)
    requires r.freq == MINUTELY && x == hours * 60 + minute
    requires forall m :: 1 <= m < n ==> !Allowed(Dial(minute, m, r.interval, 60), r.byminute, true)
    ensures Missed(r, x, n - 1)
  {
    forall m | 1 <= m <= n - 1
      ensures !TodOk(r, Step(r, x, m))
    {
      assert !Allowed(Dial(minute, m, r.interval, 60), r.byminute, true);
      Turns(minute + m * r.interval, hours);
    }
  }

  lemma Turns(z: int, k: int)
    ensures (k * 60 + z) % 60 == z % 60
  {
  }

  lemma OneMoreMissed(r: Rule, now: int, next: int, n: int)
    requires next == Step(r, now, n) && Missed(r, now, n - 1) && !TodOk(r, next)
    ensures Missed(r, now, n)
  {
  }

  /** One round of the search: on to the next allowed minute, whatever its hour. */
  method MinuteRound(r: Rule, day: int, hour: int, minute: int) returns (d: int, h: int, m: int, ghost n: int)
    requires r.freq == MINUTELY && r.interval >= 1 && 0 <= hour < 24 && 0 <= minute
    requires Fits(minute, r.interval, r.byminute, 60)
    ensures n >= 1 && day <= d && 0 <= h < 24 && 0 <= m < 60
    ensures d * 1440 + h * 60 + m == Step(r, day * 1440 + hour * 60 + minute, n)
    ensures Fits(m, r.interval, r.byminute, 60)
    ensures Missed(r, day * 1440 + hour * 60 + minute, if Allowed(h, r.byhour, true) then n - 1 else n)
    ensures Allowed(h, r.byhour, true) ==> TodOk(r, h * 60 + m)
  {
    var nhours;
    nhours, m, n := NextMinute(r, minute);
    FitsMoves(minute, r.interval, r.byminute, 60, n, nhours);
    MinutesMissed(r, day * 1440 + hour * 60 + minute, minute, day * 24 + hour, n);
    var div := (hour + nhours) / 24;
    h := (hour + nhours) % 24;
    d := day + div;
    SplitMinutes(d * 1440 + h * 60 + m, d, h, m);
    SplitMinutes(h * 60 + m, 0, h, m);
    if !Allowed(h, r.byhour, true) {
      OneMoreMissed(r, day * 1440 + hour * 60 + minute, d * 1440 + h * 60 + m, n);
    }
  }

  /** The loop of the search: found is false when all rounds went by. */
  method SearchMinutes(r: Rule, hour0: int, minute0: int, rounds: int)
    returns (found: bool, days: int, hour: int, minute: int, ghost n: int)
    requires r.freq == MINUTELY && r.interval >= 1 && 0 <= hour0 < 24 && 0 <= minute0
    requires Fits(minute0, r.interval, r.byminute, 60)
    ensures found ==> n >= 1 && 0 <= days && 0 <= hour < 24 && 0 <= minute < 60
    ensures found ==> days * 1440 + hour * 60 + minute == Step(r, hour0 * 60 + minute0, n)
    ensures found ==> TodOk(r, hour * 60 + minute) && Missed(r, hour0 * 60 + minute0, n - 1)
    ensures !found ==> rounds <= n && Missed(r, hour0 * 60 + minute0, n)
  {
    ghost var x := hour0 * 60 + minute0;
    days, hour, minute, n := 0, hour0, minute0, 0;
    var i := 0;
    while i < rounds
      invariant 0 <= hour < 24 && 0 <= minute && 0 <= days && 0 <= i <= n
      invariant days * 1440 + hour * 60 + minute == Step(r, x, n)
      invariant Missed(r, x, n)
      invariant Fits(minute, r.interval, r.byminute, 60)
    {
      ghost var k, now := 0, days * 1440 + hour * 60 + minute;
      days, hour, minute, k := MinuteRound(r, days, hour, minute);
      ghost var missed := if Allowed(hour, r.byhour, true) then k - 1 else k;
      RoundKeeps(r, x, n, now, days * 1440 + hour * 60 + minute, k, missed);
      n := n + k;
      if r.byhour == [] || hour in r.byhour {
        found := true;
        return;
      }
      i := i + 1;
    }
    found := false;
  }

  /** The search for the next allowed minute. None is the "empty rule" ValueError:
      it is raised exactly when no step meets an allowed minute and hour. */
  method AdvanceMinutely(r: Rule, c: Cursor, filtered: bool) returns (res: Option<Cursor>, fixday: bool, ghost n: int)
    requires r.freq == MINUTELY && r.interval >= 1 && OnClock(c)
    requires Fits(c.minute, r.interval, r.byminute, 60)
    ensures res.Some? ==> IsNext(r, filtered, c, res.value, n) && (!fixday ==> res.value.day == c.day)
    ensures res.None? <==> NeverOk(r, Tod(r, c))
  {
    ghost var tod, j := c.hour * 60 + c.minute, 0;
    var minute;
    minute, j := JumpAhead(r, filtered, c.hour * 60 + c.minute, c.minute, 1440);
    FitsAhead(r, c.minute, minute, r.byminute, 60, j);
    SameStep(r, c.hour * 60, c.minute, minute, j);
    var rounds := CycleLength(r, 1440);
    var found, days, h, m;
    found, days, h, m, n := SearchMinutes(r, c.hour, minute, rounds);
    fixday := days != 0;
    if !found {
      NeverMet(r, tod, j, c.hour * 60 + minute, rounds, n);
      return None, fixday, n;
    }
    res := Some(c.(hour := h, minute := m, day := c.day + days));
    n := HitIsNext(r, filtered, c, res.value, j, n);
    NextIsAllowed(r, filtered, c, res.value, n);
  }

  /** rep_rate // gcd(interval, rep_rate): after so many steps the times of day repeat. */
  method CycleLength(r: Rule, repRate: int) returns (rounds: int)
    requires r.interval >= 1 && repRate == UnitsPerDay(r.freq)
    ensures rounds * Gcd(r.interval, UnitsPerDay(r.freq)) == UnitsPerDay(r.freq)
  {
    var s, t, p, q := Bezout(r.interval, repRate);
    rounds := repRate / Gcd(r.interval, repRate);
    DivModIs(repRate, q, 0, Gcd(r.interval, repRate));
  }

  lemma NeverMet(r: Rule, tod: int, j: int, x: int, rounds: int, n: int)
    requires r.interval >= 1 && x == Step(r, tod, j)
    requires rounds * Gcd(r.interval, UnitsPerDay(r.freq)) == UnitsPerDay(r.freq) && rounds <= n
    requires Missed(r, x, n)
    ensures NeverOk(r, tod)
  {
    DivModIs(UnitsPerDay(r.freq), rounds, 0, Gcd(r.interval, UnitsPerDay(r.freq)));
    var turns := FullTurn(r.interval, UnitsPerDay(r.freq));
    forall m
      ensures !TodOk(r, Step(r, tod, m))
    {
      StepsAdd(r, tod, j, m - j);
      if m - j >= 1 {
        NoneInCycle(r, x, rounds, n, m - j);
      } else {
        NoneEarlier(r, x, rounds, n, m - j);
      }
    }
  }

  // ---- SECONDLY ----

  method NextSecond(r: Rule, second: int) returns (div: int, mod: int, ghost n: int)
    requires r.interval >= 1 && 0 <= second && Fits(second, r.interval, r.bysecond, 60)
    ensures n >= 1 && 0 <= div && 0 <= mod < 60 && div * 60 + mod == Step(r, second, n)
    ensures Allowed(mod, r.bysecond, true)
    ensures forall m :: 1 <= m < n ==> !Allowed(Dial(second, m, r.interval, 60), r.bysecond, true)
  {
    if r.bysecond != [] {
      FitsReaches(second, r.interval, r.bysecond, 60);
      var found;
      found, n := ModDistance(second, r.interval, r.bysecond, 60);
      div, mod := found.value.0, found.value.1;
    } else {
      div, mod := (second + r.interval) / 60, (second + r.interval) % 60;
      n := 1;
      OneStep(r, second, 60);
    }
    NotBefore(div, mod, 60, second, n, r.interval);
  }

  lemma SecondsMissed(r: Rule, x: int, second: int, minutes: int, n: int)
    requires r.freq == SECONDLY && x == minutes * 60 + second
    requires forall m :: 1 <= m < n ==> !Allowed(Dial(second, m, r.interval, 60), r.bysecond, true)
    ensures Missed(r, x, n - 1)
  {
    forall m | 1 <= m <= n - 1
      ensures !TodOk(r, Step(r, x, m))
    {
      assert !Allowed(Dial(second, m, r.interval, 60), r.bysecond, true);
      Turns(second + m * r.interval, minutes);
    }
  }

  function Seconds(d: int, h: int, m: int, s: int): int {
    d * 86400 + h * 3600 + m * 60 + s
  }

  predicate ClockAllowed(r: Rule, h: int, m: int, s: int) {
    Allowed(h, r.byhour, true) && Allowed(m, r.byminute, true) && Allowed(s, r.bysecond, true)
  }

  /** One round of the search: on to the next allowed second, whatever its minute and hour. */
  method SecondRound(r: Rule, day: int, hour: int, minute: int, second: int)
    returns (d: int, h: int, m: int, s: int, ghost n: int)
    requires r.freq == SECONDLY && r.interval >= 1 && 0 <= hour < 24 && 0 <= minute < 60 && 0 <= second
    requires Fits(second, r.interval, r.bysecond, 60)
    ensures n >= 1 && day <= d && 0 <= h < 24 && 0 <= m < 60 && 0 <= s < 60
    ensures Seconds(d, h, m, s) == Step(r, Seconds(day, hour, minute, second), n)
    ensures Fits(s, r.interval, r.bysecond, 60)
    ensures Missed(r, Seconds(day, hour, minute, second), if ClockAllowed(r, h, m, s) then n - 1 else n)
  {
    var nminutes;
    nminutes, s, n := NextSecond(r, second);
    FitsMoves(second, r.interval, r.bysecond, 60, n, nminutes);
    SecondsMissed(r, Seconds(day, hour, minute, second), second, day * 1440 + hour * 60 + minute, n);
    var div := (minute + nminutes) / 60;
    m := (minute + nminutes) % 60;
    h, d := hour, day;
    if div != 0 {
      h := h + div;
      div := h / 24;
      h := h % 24;
      if div != 0 {
        d := d + div;
      }
    }
    SplitSeconds(Seconds(d, h, m, s), d, h, m, s);
    if !ClockAllowed(r, h, m, s) {
      OneMoreMissed(r, Seconds(day, hour, minute, second), Seconds(d, h, m, s), n);
    }
  }

  /** The loop of the search: found is false when all rounds went by. */
  method SearchSeconds(r: Rule, hour0: int, minute0: int, second0: int, rounds: int)
    returns (found: bool, days: int, hour: int, minute: int, second: int, ghost n: int)
    requires r.freq == SECONDLY && r.interval >= 1 && 0 <= hour0 < 24 && 0 <= minute0 < 60 && 0 <= second0
    requires Fits(second0, r.interval, r.bysecond, 60)
    ensures found ==> n >= 1 && 0 <= days && 0 <= hour < 24 && 0 <= minute < 60 && 0 <= second < 60
    ensures found ==> Seconds(days, hour, minute, second) == Step(r, Seconds(0, hour0, minute0, second0), n)
    ensures found ==> ClockAllowed(r, hour, minute, second) && Missed(r, Seconds(0, hour0, minute0, second0), n - 1)
    ensures !found ==> rounds <= n && Missed(r, Seconds(0, hour0, minute0, second0), n)
  {
    ghost var x := Seconds(0, hour0, minute0, second0);
    days, hour, minute, second, n := 0, hour0, minute0, second0, 0;
    var i := 0;
    while i < rounds
      invariant 0 <= hour < 24 && 0 <= minute < 60 && 0 <= second && 0 <= days && 0 <= i <= n
      invariant Seconds(days, hour, minute, second) == Step(r, x, n)
      invariant Missed(r, x, n)
      invariant Fits(second, r.interval, r.bysecond, 60)
    {
      ghost var k, now := 0, Seconds(days, hour, minute, second);
      days, hour, minute, second, k := SecondRound(r, days, hour, minute, second);
      ghost var missed := if ClockAllowed(r, hour, minute, second) then k - 1 else k;
      RoundKeeps(r, x, n, now, Seconds(days, hour, minute, second), k, missed);
      n := n + k;
      if (r.byhour == [] || hour in r.byhour) && (r.byminute == [] || minute in r.byminute) &&
         (r.bysecond == [] || second in r.bysecond) {
        found := true;
        return;
      }
      i := i + 1;
    }
    found := false;
  }

  lemma SecondHitIsNext(r: Rule, filtered: bool, c: Cursor, c2: Cursor, j: int, n: int) returns (k: int)
    requires r.freq == SECONDLY && r.interval >= 1 && IsJump(r, filtered, Tod(r, c), j)
    requires n >= 1 && Missed(r, Step(r, Tod(r, c), j), n - 1)
    requires OnClock(c2) && c2.year == c.year && c2.month == c.month && c.day <= c2.day
    requires Seconds(c2.day - c.day, c2.hour, c2.minute, c2.second) == Step(r, Step(r, Tod(r, c), j), n)
    requires ClockAllowed(r, c2.hour, c2.minute, c2.second)
    ensures IsNext(r, filtered, c, c2, k)
  {
    SplitSeconds(Tod(r, c2), 0, c2.hour, c2.minute, c2.second);
    k := HitIsNext(r, filtered, c, c2, j, n);
  }

  /** The search for the next allowed second; None as for AdvanceMinutely. */
  method AdvanceSecondly(r: Rule, c: Cursor, filtered: bool) returns (res: Option<Cursor>, fixday: bool, ghost n: int)
    requires r.freq == SECONDLY && r.interval >= 1 && OnClock(c)
    requires Fits(c.second, r.interval, r.bysecond, 60)
    ensures res.Some? ==> IsNext(r, filtered, c, res.value, n) && (!fixday ==> res.value.day == c.day)
    ensures res.None? <==> NeverOk(r, Tod(r, c))
  {
    var second;
    ghost var j;
    second, j := JumpAhead(r, filtered, c.hour * 3600 + c.minute * 60 + c.second, c.second, 86400);
    FitsAhead(r, c.second, second, r.bysecond, 60, j);
    SameStep(r, c.hour * 3600 + c.minute * 60, c.second, second, j);
    res, fixday, n := SecondlyFrom(r, c, filtered, second, j);
  }

  /** The search from the second that the jump led to. */
  method SecondlyFrom(r: Rule, c: Cursor, filtered: bool, second: int, ghost j: int)
    returns (res: Option<Cursor>, fixday: bool, ghost n: int)
    requires r.freq == SECONDLY && r.interval >= 1 && OnClock(c) && 0 <= second
    requires Fits(second, r.interval, r.bysecond, 60)
    requires IsJump(r, filtered, Tod(r, c), j) && Seconds(0, c.hour, c.minute, second) == Step(r, Tod(r, c), j)
    ensures res.Some? ==> IsNext(r, filtered, c, res.value, n) && (!fixday ==> res.value.day == c.day)
    ensures res.None? <==> NeverOk(r, Tod(r, c))
  {
    var rounds := CycleLength(r, 86400);
    var found, days, h, m, s;
    found, days, h, m, s, n := SearchSeconds(r, c.hour, c.minute, second, rounds);
    fixday := days != 0;
    if !found {
      NeverMet(r, Tod(r, c), j, Seconds(0, c.hour, c.minute, second), rounds, n);
      return None, fixday, n;
    }
    res := Some(c.(hour := h, minute := m, second := s, day := c.day + days));
    n := SecondHitIsNext(r, filtered, c, res.value, j, n);
    NextIsAllowed(r, filtered, c, res.value, n);
  }
}
