/** What one round of the generator yields: every kept day with every time, or the BYSETPOS choice among them. */
module Emission {
  import opened Sequences
  import opened Calendar
  import opened Listings
  import opened Rules
  import opened Products
  import opened Advance
  import opened Periods
  import opened IterInfos

  /** A rule as the constructor leaves it. */
  ghost predicate Ready(r: Rule) {
    && WellFormed(r)
    && OnDial(r.byhour, 24) && OnDial(r.byminute, 60) && OnDial(r.bysecond, 60)
    && (r.freq == HOURLY ==> Fits(HourOf(r.dtstart), r.interval, r.byhour, 24))
    && (r.freq == MINUTELY ==> Fits(MinuteOf(r.dtstart), r.interval, r.byminute, 60))
    && (r.freq == SECONDLY ==> Fits(SecondOf(r.dtstart), r.interval, r.bysecond, 60))
  }

  // ---- Time sets ----

  /** ts lists the allowed times of day, within the current hour, minute or second for a sub-daily rule. */
  ghost predicate IsTimeset(r: Rule, tod: int, ts: seq<int>) {
    && OnDial(ts, DAY)
    && forall s :: s in ts <==> 0 <= s < DAY && TimeOk(r, s) && (r.freq.Rank() >= 4 ==> s / UnitSeconds(r.freq) == tod)
  }

  /** _timeset for a rule that is at most daily; htimeset, mtimeset and stimeset for the others,
      which are called only when the current time passes the filters at its level and above. */
  method GetTimeset(r: Rule, c: Cursor) returns (ts: seq<int>)
    requires Ready(r) && OnClock(c)
    requires r.freq.Rank() >= 4 ==> TodOk(r, Tod(r, c))
    ensures IsTimeset(r, Tod(r, c), ts)
  {
    match r.freq {
      case HOURLY =>
        ts := BuildTimes([c.hour], r.byminute, r.bysecond);
        HourTimes(r, c, ts);
      case MINUTELY =>
        ts := BuildTimes([c.hour], [c.minute], r.bysecond);
        MinuteTimes(r, c, ts);
      case SECONDLY =>
        ts := [c.hour * 3600 + c.minute * 60 + c.second];
        SecondTimes(r, c, ts);
      case _ =>
        ts := BuildTimes(r.byhour, r.byminute, r.bysecond);
        DailyTimes(r, c, ts);
    }
  }

  lemma DailyTimes(r: Rule, c: Cursor, ts: seq<int>)
    requires r.freq.Rank() < 4 && OnDial(ts, DAY)
    requires forall t :: t in ts <==> t / 3600 in r.byhour && t % 3600 / 60 in r.byminute && t % 60 in r.bysecond
    ensures IsTimeset(r, Tod(r, c), ts)
  {
    forall s
      ensures s in ts <==> 0 <= s < DAY && TimeOk(r, s)
    {
      if s in ts {
        assert 0 <= s < DAY;
      }
    }
  }

  lemma HourTimes(r: Rule, c: Cursor, ts: seq<int>)
    requires r.freq == HOURLY && OnDial(ts, DAY) && OnClock(c) && TodOk(r, c.hour)
    requires forall t :: t in ts <==> t / 3600 in [c.hour] && t % 3600 / 60 in r.byminute && t % 60 in r.bysecond
    ensures IsTimeset(r, Tod(r, c), ts)
  {
    assert c.hour % 24 == c.hour;
    forall s
      ensures s in ts <==> 0 <= s < DAY && TimeOk(r, s) && s / 3600 == c.hour
    {
      if s in ts {
        assert 0 <= s < DAY;
      }
    }
  }

  lemma MinuteTimes(r: Rule, c: Cursor, ts: seq<int>)
    requires r.freq == MINUTELY && OnDial(ts, DAY) && OnClock(c) && TodOk(r, c.hour * 60 + c.minute)
    requires forall t :: t in ts <==> t / 3600 in [c.hour] && t % 3600 / 60 in [c.minute] && t % 60 in r.bysecond
    ensures IsTimeset(r, Tod(r, c), ts)
  {
    SplitMinutes(c.hour * 60 + c.minute, 0, c.hour, c.minute);
    forall s
      ensures s in ts <==> 0 <= s < DAY && TimeOk(r, s) && s / 60 == c.hour * 60 + c.minute
    {
      if s in ts {
        assert 0 <= s < DAY;
      }
      MinuteOfDay(s, c.hour, c.minute);
    }
  }

  lemma MinuteOfDay(s: int, h: int, m: int)
    requires 0 <= h < 24 && 0 <= m < 60
    ensures s / 60 == h * 60 + m <==> s / 3600 == h && s % 3600 / 60 == m
  {
    assert s / 60 == s / 3600 * 60 + s % 3600 / 60;
  }

  lemma SecondTimes(r: Rule, c: Cursor, ts: seq<int>)
    requires r.freq == SECONDLY && OnClock(c) && TodOk(r, c.hour * 3600 + c.minute * 60 + c.second)
    requires ts == [c.hour * 3600 + c.minute * 60 + c.second]
    ensures IsTimeset(r, Tod(r, c), ts)
  {
    var x := c.hour * 3600 + c.minute * 60 + c.second;
    SplitSeconds(x, 0, c.hour, c.minute, c.second);
    ClockOf(x);
  }

  // ---- Candidates of one period ----

  ghost function CandidateSet(r: Rule): iset<int>
    requires r.interval >= 1 && DAY <= r.dtstart
  {
    iset t | Candidate(r, t)
  }

  /** days lists the days lo..hi - 1 that pass the date filters. */
  ghost predicate IsDays(r: Rule, days: seq<int>, lo: int, hi: int)
    requires 1 <= lo
  {
    Increasing(days) && forall n :: n in days <==> lo <= n < hi && n in DateSet(r)
  }

  lemma TimeOfDay(r: Rule, t: int)
    ensures TimeOk(r, t) == TimeOk(r, t % DAY)
  {
    SameClock(t);
  }

  lemma SameClock(t: int)
    ensures t % DAY % DAY == t % DAY && t % DAY % 3600 == t % 3600 && t % DAY % 60 == t % 60
  {
    WholeDays(t % DAY, t / DAY);
  }

  lemma WholeDays(z: int, k: int)
    ensures (z + k * 86400) % 3600 == z % 3600 && (z + k * 86400) % 60 == z % 60
  {
    assert (z + k * 86400) / 3600 == z / 3600 + k * 24;
    assert (z + k * 86400) / 60 == z / 60 + k * 1440;
  }

  /** Inside a period a point is a candidate exactly when its day and its time pass the filters. */
  lemma CandidateInSpan(r: Rule, k: int, P: int, Q: int, t: int)
    requires Sound(r) && SpanOf(r, k, P, Q) && P <= t < Q
    ensures Candidate(r, t) <==> DateOk(r, DayOf(t)) && TimeOk(r, t)
  {
    assert Period(r, t) == k;
  }

  lemma MemberOfDays(r: Rule, k: int, P: int, Q: int, lo: int, hi: int, days: seq<int>, tod: int, ts: seq<int>, t: int)
    requires Sound(r) && SpanOf(r, k, P, Q) && 1 <= lo && IsDays(r, days, lo, hi) && IsTimeset(r, tod, ts)
    requires r.freq.Rank() < 4 && IsSpanOfDays(r, P, Q, lo, hi, tod)
    ensures DayOf(t) in days && t % DAY in ts <==> P <= t < Q && Candidate(r, t)
  {
    DayLine(lo, hi, t);
    TimeOfDay(r, t);
    if P <= t < Q {
      CandidateInSpan(r, k, P, Q, t);
    }
  }

  lemma MemberOfUnit(r: Rule, k: int, P: int, Q: int, lo: int, hi: int, days: seq<int>, tod: int, ts: seq<int>, t: int)
    requires Sound(r) && SpanOf(r, k, P, Q) && 1 <= lo && IsDays(r, days, lo, hi) && IsTimeset(r, tod, ts)
    requires r.freq.Rank() >= 4 && IsSpanOfDays(r, P, Q, lo, hi, tod)
    ensures DayOf(t) in days && t % DAY in ts <==> P <= t < Q && Candidate(r, t)
  {
    TimeOfDay(r, t);
    InUnit(r.freq, lo, tod, t);
    if P <= t < Q {
      CandidateInSpan(r, k, P, Q, t);
    }
  }

  lemma MemberIsCandidate(r: Rule, k: int, P: int, Q: int, lo: int, hi: int, days: seq<int>, tod: int, ts: seq<int>, t: int)
    requires Sound(r) && SpanOf(r, k, P, Q) && 1 <= lo && IsDays(r, days, lo, hi) && IsTimeset(r, tod, ts)
    requires IsSpanOfDays(r, P, Q, lo, hi, tod)
    ensures DayOf(t) in days && t % DAY in ts <==> P <= t < Q && Candidate(r, t)
  {
    if r.freq.Rank() < 4 {
      MemberOfDays(r, k, P, Q, lo, hi, days, tod, ts, t);
    } else {
      MemberOfUnit(r, k, P, Q, lo, hi, days, tod, ts, t);
    }
  }

  /** The period covers whole days, or one hour, minute or second of one day. */
  ghost predicate IsSpanOfDays(r: Rule, P: int, Q: int, lo: int, hi: int, tod: int) {
    if r.freq.Rank() < 4 then P == lo * DAY && Q == hi * DAY
    else
      var x := lo * UnitsPerDay(r.freq) + tod;
      hi == lo + 1 && 0 <= tod < UnitsPerDay(r.freq)
      && P == x * UnitSeconds(r.freq) && Q == (x + 1) * UnitSeconds(r.freq)
  }

  lemma InUnit(f: Freq, n: int, tod: int, t: int)
    requires f.Rank() >= 4 && 0 <= tod < UnitsPerDay(f)
    ensures var x := n * UnitsPerDay(f) + tod;
            x * UnitSeconds(f) <= t < (x + 1) * UnitSeconds(f) <==> DayOf(t) == n && t % DAY / UnitSeconds(f) == tod
  {
  }

  /** Days times times are exactly the candidates of the period, in order. */
  lemma ProductIsPeriod(r: Rule, k: int, P: int, Q: int, lo: int, hi: int, days: seq<int>, tod: int, ts: seq<int>)
    requires Sound(r) && SpanOf(r, k, P, Q) && 1 <= lo && IsDays(r, days, lo, hi) && IsTimeset(r, tod, ts)
    requires IsSpanOfDays(r, P, Q, lo, hi, tod)
    ensures Spans(CandidateSet(r), P, Q, Product(days, DAY, ts))
  {
    ProductIncreasing(days, DAY, ts);
    forall t
      ensures t in Product(days, DAY, ts) <==> t in CandidateSet(r) && P <= t < Q
    {
      ProductMembers(days, DAY, ts, t);
      MemberIsCandidate(r, k, P, Q, lo, hi, days, tod, ts, t);
    }
  }

  lemma MatchesRestrict(r: Rule)
    requires r.interval >= 1 && DAY <= r.dtstart
    ensures Restricts(MatchSet(r), PickedSet(r), r.dtstart, r.until, (MaxOrdinal() + 1) * DAY)
  {
    forall t
      ensures DayOf(t) <= MaxOrdinal() <==> t < (MaxOrdinal() + 1) * DAY
    {
    }
  }

  /** Without BYSETPOS the candidates of a period are its results. */
  lemma AllPicked(r: Rule, P: int, Q: int, cands: seq<int>)
    requires r.interval >= 1 && DAY <= r.dtstart && Spans(CandidateSet(r), P, Q, cands)
    requires r.bysetpos == [] || cands == []
    ensures Spans(PickedSet(r), P, Q, cands)
  {
    forall t
      ensures t in cands <==> t in PickedSet(r) && P <= t < Q
    {
      assert t in cands <==> Candidate(r, t) && P <= t < Q;
    }
  }

  ghost predicate Chosen(cands: seq<int>, bysetpos: seq<int>, t: int) {
    exists p :: p in bysetpos && AtPosition(cands, p, t)
  }

  lemma PeriodSetIs(r: Rule, k: int, P: int, Q: int, cands: seq<int>, t: int)
    requires Sound(r) && SpanOf(r, k, P, Q) && Spans(CandidateSet(r), P, Q, cands) && P <= t < Q
    ensures IsPeriodSet(r, t, cands)
    ensures forall s :: IsPeriodSet(r, t, s) ==> s == cands
  {
    assert Period(r, t) == k;
    forall u
      ensures u in cands <==> Candidate(r, u) && Period(r, u) == k
    {
      assert u in cands <==> u in CandidateSet(r) && P <= u < Q;
    }
    forall s | IsPeriodSet(r, t, s)
      ensures s == cands
    {
      IncreasingUnique(s, cands);
    }
  }

  /** With BYSETPOS a point of the period is picked exactly when it stands at a chosen position. */
  lemma PickedIsChosen(r: Rule, k: int, P: int, Q: int, cands: seq<int>, t: int)
    requires Sound(r) && SpanOf(r, k, P, Q) && Spans(CandidateSet(r), P, Q, cands) && P <= t < Q
    requires r.bysetpos != []
    ensures Picked(r, t) <==> Chosen(cands, r.bysetpos, t)
  {
    PeriodSetIs(r, k, P, Q, cands, t);
    if Chosen(cands, r.bysetpos, t) {
      assert t in cands;
      assert t in CandidateSet(r);
    }
  }

  // ---- Emitting ----

  datatype Status = More | Ended | Overflow

  /** Ordinals of the days that the filter left between two indices. */
  function Kept(yearordinal: int, dset: seq<Option<int>>, start: int, i: int): (days: seq<int>)
    requires 0 <= start <= i <= |dset|
    decreases i
  {
    if i == start then []
    else Kept(yearordinal, dset, start, i - 1) +
         (match dset[i - 1] case Some(j) => [yearordinal + j] case None => [])
  }

  lemma {:induction false} KeptPrefix(yearordinal: int, dset: seq<Option<int>>, start: int, i: int, end: int)
    requires 0 <= start <= i <= end <= |dset|
    ensures Kept(yearordinal, dset, start, i) <= Kept(yearordinal, dset, start, end)
    decreases end
  {
    if i < end {
      KeptPrefix(yearordinal, dset, start, i, end - 1);
    }
  }

  /** Entries of a product beyond those of the first bases have later bases. */
  lemma LaterBases(bases: seq<int>, a: int, scale: int, offs: seq<int>, i: int)
    requires scale > 0 && OnDial(offs, scale) && Increasing(bases) && 0 <= a < |bases|
    requires |Product(bases[..a], scale, offs)| <= i < |Product(bases, scale, offs)|
    ensures bases[a] * scale <= Product(bases, scale, offs)[i]
  {
    var rs, done := Product(bases, scale, offs), Product(bases[..a], scale, offs);
    var x := rs[i];
    ProductIncreasing(bases, scale, offs);
    ProductPrefix(bases, a, scale, offs);
    assert x in rs;
    ProductMembers(bases, scale, offs, x);
    ProductMembers(bases[..a], scale, offs, x);
    NotInPrefix(rs, done, i);
    LaterBase(bases, a, x / scale);
    AtLeast(bases[a], x, scale);
  }

  lemma NotInPrefix(rs: seq<int>, done: seq<int>, i: int)
    requires Increasing(rs) && done <= rs && |done| <= i < |rs|
    ensures rs[i] !in done
  {
    forall j | 0 <= j < |done|
      ensures done[j] != rs[i]
    {
      assert done[j] == rs[j];
    }
  }

  lemma LaterBase(bases: seq<int>, a: int, q: int)
    requires Increasing(bases) && 0 <= a < |bases| && q in bases && q !in bases[..a]
    ensures bases[a] <= q
  {
    FirstBases(bases, a);
    var b :| 0 <= b < |bases| && bases[b] == q;
    assert a <= b;
  }

  lemma FirstBases(bases: seq<int>, a: int)
    requires 0 <= a <= |bases|
    ensures forall b :: 0 <= b < a ==> bases[b] in bases[..a]
  {
    assert forall b :: 0 <= b < a ==> bases[b] == bases[..a][b];
  }

  lemma AtLeast(b: int, x: int, scale: int)
    requires scale > 0 && b <= x / scale
    ensures b * scale <= x
  {
    assert x == scale * (x / scale) + x % scale;
    assert scale * b <= scale * (x / scale);
  }

  /** When the next result lies past the end of the calendar, everything in range was yielded. */
  lemma PastTheEnd(M: iset<int>, K: iset<int>, first: int, until: Option<int>, end: int, P: int, Q: int,
                   rs: seq<int>, done: seq<int>, out: seq<int>, limit: Option<int>)
    requires Restricts(M, K, first, until, end) && Spans(K, P, Q, rs) && end <= Q && done <= rs
    requires forall i :: |done| <= i < |rs| ==> end <= rs[i]
    requires ListsBelow(M, out, limit, Settled(P, done))
    ensures Lists(M, out, limit)
  {
    var b := Settled(P, done);
    forall t | t in M
      ensures t < b
    {
      if P <= t {
        assert t in rs;
        var j :| 0 <= j < |rs| && rs[j] == t;
        assert j < |done|;
        assert rs[|done| - 1] == done[|done| - 1];
        assert rs[j] <= rs[|done| - 1];
      } else if done != [] {
        assert rs[|done| - 1] == done[|done| - 1];
        assert rs[|done| - 1] in rs;
      }
    }
    BelowAll(M, out, limit, b);
  }

  lemma BlocksPastTheEnd(M: iset<int>, K: iset<int>, first: int, until: Option<int>, last: int, P: int, Q: int,
                         days: seq<int>, a: int, ts: seq<int>, out: seq<int>, limit: Option<int>)
    requires OnDial(ts, DAY) && Increasing(days) && 0 <= a < |days| && last < days[a] && days[a] * DAY <= Q
    requires Restricts(M, K, first, until, (last + 1) * DAY) && Spans(K, P, Q, Product(days, DAY, ts))
    requires ListsBelow(M, out, limit, Settled(P, Product(days[..a], DAY, ts)))
    ensures Lists(M, out, limit)
  {
    var rs := Product(days, DAY, ts);
    ProductPrefix(days, a, DAY, ts);
    forall k | |Product(days[..a], DAY, ts)| <= k < |rs|
      ensures (last + 1) * DAY <= rs[k]
    {
      LaterBases(days, a, DAY, ts, k);
    }
    PastTheEnd(M, K, first, until, (last + 1) * DAY, P, Q, rs, Product(days[..a], DAY, ts), out, limit);
  }

  lemma NextKept(yearordinal: int, dset: seq<Option<int>>, start: int, i: int, end: int, days: seq<int>, a: nat)
    requires 0 <= start <= i < end <= |dset| && days == Kept(yearordinal, dset, start, end)
    requires a <= |days| && days[..a] == Kept(yearordinal, dset, start, i)
    ensures dset[i].Some? ==> a < |days| && days[a] == yearordinal + dset[i].value && days[a] in days
                              && days[..a + 1] == Kept(yearordinal, dset, start, i + 1)
    ensures dset[i].None? ==> days[..a] == Kept(yearordinal, dset, start, i + 1)
  {
    KeptPrefix(yearordinal, dset, start, i, end);
    KeptPrefix(yearordinal, dset, start, i + 1, end);
  }

  lemma NextBlock(days: seq<int>, a: int, ts: seq<int>)
    requires 0 <= a < |days|
    ensures Product(days[..a + 1], DAY, ts) == Product(days[..a], DAY, ts) + Shift(days[a] * DAY, ts)
    ensures Product(days[..a], DAY, ts) + Shift(days[a] * DAY, ts) <= Product(days, DAY, ts)
  {
    ProductOfLast(days, a, DAY, ts);
    ProductPrefix(days, a + 1, DAY, ts);
  }

  /** Yields the results of one day. */
  method EmitTimes(first: int, until: Option<int>, limit: Option<int>, date: int, ts: seq<int>, out: seq<int>,
                   ghost M: iset<int>, ghost K: iset<int>, ghost end: int,
                   ghost P: int, ghost Q: int, ghost rs: seq<int>, ghost done: seq<int>)
    returns (out': seq<int>, stopped: bool)
    requires Restricts(M, K, first, until, end) && Spans(K, P, Q, rs) && done + Shift(date * DAY, ts) <= rs
    requires OnDial(ts, DAY) && (date + 1) * DAY <= end
    requires ListsBelow(M, out, limit, Settled(P, done))
    requires !StopsWithin(M, first, until, limit, done)
    ensures stopped ==> Lists(M, out', limit)
    ensures !stopped ==> ListsBelow(M, out', limit, Settled(P, done + Shift(date * DAY, ts)))
    ensures stopped <==> StopsWithin(M, first, until, limit, done + Shift(date * DAY, ts))
  {
    out' := out;
    ghost var all := Shift(date * DAY, ts);
    assert done + all[..0] == done;
    for k := 0 to |ts|
      invariant ListsBelow(M, out', limit, Settled(P, done + all[..k]))
      invariant !StopsWithin(M, first, until, limit, done + all[..k])
    {
      var res := date * DAY + ts[k];
      ghost var sofar := done + all[..k];
      assert done + all[..k + 1] == sofar + [res];
      assert sofar + [res] <= done + all by {
        assert done + all == sofar + [res] + all[k + 1..];
      }
      NextResult(K, P, Q, rs, sofar, res);
      OfferStep(M, K, first, until, end, limit, out', Settled(P, sofar), res);
      OfferStops(M, K, first, until, end, limit, out', Settled(P, sofar), res);
      StopsWithinMore(M, first, until, limit, sofar, res);
      match Offer(first, until, limit, out', res)
      case Stop =>
        StopsWithinPart(M, first, until, limit, done + all, sofar + [res]);
        return out', true;
      case Continue(o) => out' := o;
    }
    assert all[..|ts|] == all;
    stopped := false;
  }

  /** One kept day: past the last date of the calendar fromordinal fails, otherwise its times are yielded. */
  method EmitDay(r: Rule, date: int, ts: seq<int>, out: seq<int>,
                 ghost M: iset<int>, ghost K: iset<int>, ghost P: int, ghost Q: int, ghost days: seq<int>, ghost a: int)
    returns (out': seq<int>, status: Status)
    requires OnDial(ts, DAY) && Increasing(days) && 0 <= a < |days| && days[a] == date && date * DAY <= Q
    requires Restricts(M, K, r.dtstart, r.until, (MaxOrdinal() + 1) * DAY) && Spans(K, P, Q, Product(days, DAY, ts))
    requires ListsBelow(M, out, r.count, Settled(P, Product(days[..a], DAY, ts)))
    requires !StopsWithin(M, r.dtstart, r.until, r.count, Product(days[..a], DAY, ts))
    ensures status == More ==> ListsBelow(M, out', r.count, Settled(P, Product(days[..a + 1], DAY, ts)))
    ensures status != More ==> Lists(M, out', r.count)
    ensures status == Overflow <==> date > MaxOrdinal()
    ensures status == Ended ==> StopsWithin(M, r.dtstart, r.until, r.count, Product(days[..a + 1], DAY, ts))
    ensures status == More ==> !StopsWithin(M, r.dtstart, r.until, r.count, Product(days[..a + 1], DAY, ts))
  {
    if date > MaxOrdinal() {
      BlocksPastTheEnd(M, K, r.dtstart, r.until, MaxOrdinal(), P, Q, days, a, ts, out, r.count);
      return out, Overflow;
    }
    NextBlock(days, a, ts);
    var stopped;
    out', stopped := EmitTimes(r.dtstart, r.until, r.count, date, ts, out, M, K, (MaxOrdinal() + 1) * DAY,
                               P, Q, Product(days, DAY, ts), Product(days[..a], DAY, ts));
    status := if stopped then Ended else More;
  }

  lemma WholeList(days: seq<int>, a: nat)
    requires a <= |days| && days[..a] == days
    ensures a == |days|
  {
    assert |days[..a]| == a;
  }

  ghost predicate InCalendar(days: seq<int>) {
    days == [] || (days[|days| - 1] <= MaxOrdinal() && InCalendar(days[..|days| - 1]))
  }

  lemma OneMoreInCalendar(days: seq<int>, a: nat)
    requires a < |days| && InCalendar(days[..a]) && days[a] <= MaxOrdinal()
    ensures InCalendar(days[..a + 1])
  {
    assert days[..a + 1][..a] == days[..a];
  }

  lemma {:induction false} CalendarDays(days: seq<int>)
    requires InCalendar(days)
    ensures forall d :: d in days ==> d <= MaxOrdinal()
  {
    if days != [] {
      CalendarDays(days[..|days| - 1]);
      assert days == days[..|days| - 1] + [days[|days| - 1]];
    }
  }

  /** The output of one entry of the day set, if the filter left it. */
  method EmitNext(r: Rule, yearordinal: int, dset: seq<Option<int>>, start: int, i: int, end: int, ts: seq<int>, out: seq<int>,
                  ghost M: iset<int>, ghost K: iset<int>, ghost P: int, ghost Q: int, ghost days: seq<int>, ghost a: nat)
    returns (out': seq<int>, status: Status, ghost b: nat)
    requires 0 <= start <= i < end <= |dset| && days == Kept(yearordinal, dset, start, end) && OnDial(ts, DAY)
    requires Restricts(M, K, r.dtstart, r.until, (MaxOrdinal() + 1) * DAY)
    requires Increasing(days) && Spans(K, P, Q, Product(days, DAY, ts)) && forall d :: d in days ==> d * DAY <= Q
    requires a <= |days| && days[..a] == Kept(yearordinal, dset, start, i) && InCalendar(days[..a])
    requires ListsBelow(M, out, r.count, Settled(P, Product(days[..a], DAY, ts)))
    requires !StopsWithin(M, r.dtstart, r.until, r.count, Product(days[..a], DAY, ts))
    ensures b <= |days| && InCalendar(days[..b]) && (status == More ==> days[..b] == Kept(yearordinal, dset, start, i + 1))
    ensures status == More ==> ListsBelow(M, out', r.count, Settled(P, Product(days[..b], DAY, ts)))
    ensures status != More ==> Lists(M, out', r.count)
    ensures status == Ended <==> StopsWithin(M, r.dtstart, r.until, r.count, Product(days[..b], DAY, ts))
    ensures status == Overflow ==> b < |days| && days[b] > MaxOrdinal()
  {
    NextKept(yearordinal, dset, start, i, end, days, a);
    out', status, b := out, More, a;
    if dset[i].Some? {
      out', status := EmitDay(r, yearordinal + dset[i].value, ts, out, M, K, P, Q, days, a);
      if status != Overflow {
        OneMoreInCalendar(days, a);
        b := a + 1;
      }
    }
  }

  /** The plain output loop: every kept day with every time. The first a days were looked at without
      leaving the calendar. */
  method EmitDays(r: Rule, yearordinal: int, dset: seq<Option<int>>, start: int, end: int, ts: seq<int>, out: seq<int>,
                  ghost M: iset<int>, ghost K: iset<int>, ghost P: int, ghost Q: int, ghost days: seq<int>)
    returns (out': seq<int>, status: Status, ghost a: nat)
    requires 0 <= start <= end <= |dset| && days == Kept(yearordinal, dset, start, end)
    requires OnDial(ts, DAY) && P <= Q
    requires Restricts(M, K, r.dtstart, r.until, (MaxOrdinal() + 1) * DAY)
    requires Increasing(days) && Spans(K, P, Q, Product(days, DAY, ts)) && forall d :: d in days ==> d * DAY <= Q
    requires ListsBelow(M, out, r.count, P)
    ensures status == More ==> ListsBelow(M, out', r.count, Q)
    ensures status != More ==> Lists(M, out', r.count)
    ensures a <= |days| && (status == More ==> a == |days|)
    ensures InCalendar(days[..a])
    ensures status == Ended <==> StopsWithin(M, r.dtstart, r.until, r.count, Product(days[..a], DAY, ts))
    ensures status == Overflow ==> a < |days| && days[a] > MaxOrdinal()
  {
    out', status, a := out, More, 0;
    for i := start to end
      invariant a <= |days| && days[..a] == Kept(yearordinal, dset, start, i)
      invariant InCalendar(days[..a])
      invariant ListsBelow(M, out', r.count, Settled(P, Product(days[..a], DAY, ts)))
      invariant !StopsWithin(M, r.dtstart, r.until, r.count, Product(days[..a], DAY, ts))
    {
      out', status, a := EmitNext(r, yearordinal, dset, start, i, end, ts, out', M, K, P, Q, days, a);
      if status != More {
        return;
      }
    }
    WholeList(days, a);
    NoMoreResults(M, K, P, Q, Product(days, DAY, ts), out', r.count);
    status := More;
  }

  // ---- BYSETPOS ----

  /** divmod by the number of times finds the position among days times times. */
  lemma PositionAt(days: seq<int>, ts: seq<int>, p: int)
    requires p != 0 && ts != []
    ensures var q := if p < 0 then p else p - 1;
            var i, cands := PyIndex(|days|, q / |ts|), Product(days, DAY, ts);
            var at := if p > 0 then p - 1 else |cands| + p;
            && (i.Some? <==> 0 <= at < |cands|)
            && (i.Some? ==> cands[at] == days[i.value] * DAY + ts[q % |ts|])
  {
    var q := if p < 0 then p else p - 1;
    ProductLength(days, DAY, ts);
    PlaceInGrid(q, |days|, |ts|);
    var at := PyIndex(|days|, q / |ts|);
    if at.Some? {
      ProductAt(days, DAY, ts, at.value, q % |ts|);
    }
  }

  /** divmod by the row length finds row and column of an index, or of a negative index from the end. */
  lemma PlaceInGrid(q: int, n: nat, T: nat)
    requires T > 0
    ensures var i, at := PyIndex(n, q / T), if q >= 0 then q else q + n * T;
            && (i.Some? <==> 0 <= at < n * T)
            && (i.Some? ==> at == i.value * T + q % T)
  {
    var d, m := DivMod(q, T);
    ProductBound(d, m, n, T);
    ProductBound(d + n, m, n, T);
    Distribute(d, n, T);
    NegativeQuotient(q, T);
  }

  lemma DivMod(q: int, T: int) returns (d: int, m: int)
    requires T > 0
    ensures d == q / T && m == q % T && 0 <= m < T && q == d * T + m
  {
    d, m := q / T, q % T;
  }

  lemma Distribute(d: int, n: int, T: int)
    ensures (d + n) * T == d * T + n * T
  {
  }

  lemma ProductBound(d: int, m: int, n: nat, T: nat)
    requires T > 0 && 0 <= m < T
    ensures 0 <= d * T + m < n * T <==> 0 <= d < n
  {
    OneMore(d, T);
    if d < 0 {
      MulOrder(d + 1, 0, T);
    } else if d < n {
      MulOrder(0, d, T);
      MulOrder(d + 1, n, T);
    } else {
      MulOrder(n, d, T);
    }
  }

  lemma OneMore(d: int, T: int)
    ensures (d + 1) * T == d * T + T
  {
  }

  lemma NegativeQuotient(q: int, T: int)
    requires T > 0
    ensures q / T < 0 <==> q < 0
  {
  }

  lemma LateChosen(cands: seq<int>, bysetpos: seq<int>, pos: int, date: int, offset: int)
    requires pos in bysetpos && AtPosition(cands, pos, date * DAY + offset) && date > MaxOrdinal() && 0 <= offset
    ensures exists t :: Chosen(cands, bysetpos, t) && (MaxOrdinal() + 1) * DAY <= t
  {
    assert Chosen(cands, bysetpos, date * DAY + offset);
  }

  /** The BYSETPOS branch: the list of chosen results, sorted, without repetitions. */
  method PositionList(r: Rule, days: seq<int>, ts: seq<int>) returns (poslist: seq<int>, over: bool)
    requires ts != [] && 0 !in r.bysetpos && OnDial(ts, DAY)
    ensures !over ==> Increasing(poslist)
                      && (forall t :: t in poslist <==> Chosen(Product(days, DAY, ts), r.bysetpos, t))
                      && (forall t :: t in poslist ==> t < (MaxOrdinal() + 1) * DAY)
    ensures over ==> exists t :: Chosen(Product(days, DAY, ts), r.bysetpos, t) && (MaxOrdinal() + 1) * DAY <= t
  {
    var list: seq<int> := [];
    ghost var cands := Product(days, DAY, ts);
    for k := 0 to |r.bysetpos|
      invariant forall t :: t in list <==> Chosen(cands, r.bysetpos[..k], t)
      invariant forall t :: t in list ==> t < (MaxOrdinal() + 1) * DAY
      invariant NoRepeats(list)
    {
      var pos := r.bysetpos[k];
      assert pos in r.bysetpos;
      PositionAt(days, ts, pos);
      MoreChosen(cands, r.bysetpos, k);
      var q := if pos < 0 then pos else pos - 1;
      var daypos, timepos := q / |ts|, q % |ts|;
      var i := PyIndex(|days|, daypos);
      if i.Some? {
        var date := days[i.value];
        if date > MaxOrdinal() {
          LateChosen(cands, r.bysetpos, pos, date, ts[timepos]);
          return list, true;
        }
        var res := date * DAY + ts[timepos];
        if res !in list {
          list := list + [res];
        }
      }
    }
    assert r.bysetpos[..|r.bysetpos|] == r.bysetpos;
    SortNoRepeats(list);
    SortSeqMembers(list);
    poslist, over := SortSeq(list), false;
  }

  ghost predicate NoRepeats(s: seq<int>) {
    forall x :: multiset(s)[x] <= 1
  }

  lemma SortNoRepeats(s: seq<int>)
    requires NoRepeats(s)
    ensures Increasing(SortSeq(s))
  {
    SortSeqOrders(s);
    var t := SortSeq(s);
    assert multiset(t) == multiset(s);
    forall i, j | 0 <= i < j < |t|
      ensures t[i] != t[j]
    {
      assert t == t[..i] + [t[i]] + t[i + 1..j] + [t[j]] + t[j + 1..];
      assert multiset(t)[t[i]] <= 1;
    }
  }

  lemma MoreChosen(cands: seq<int>, ps: seq<int>, k: int)
    requires 0 <= k < |ps|
    ensures forall t :: Chosen(cands, ps[..k + 1], t) <==> Chosen(cands, ps[..k], t) || AtPosition(cands, ps[k], t)
  {
    assert ps[..k + 1] == ps[..k] + [ps[k]];
  }
}
