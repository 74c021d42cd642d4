/** How a run of the generator ends, said of the rule alone: which rules make it raise, and when. */
module Outcomes {
  import opened Sequences
  import opened Calendar
  import opened Masks
  import opened Listings
  import opened Rules
  import opened Stepping
  import opened Products
  import opened Advance
  import opened Periods
  import opened IterInfos
  import opened Emission

  /** Finished: the generator returned. EmptyRule, IndexError, DateOverflow: it raised. */
  datatype Outcome = Finished | EmptyRule | IndexError | DateOverflow

  /** The first moment after the last day of the calendar. */
  function End(): int {
    (MaxOrdinal() + 1) * DAY
  }

  // ---- Ends by UNTIL and COUNT ----

  /** t is a result at which UNTIL or COUNT ends the run. */
  ghost predicate EndsAt(r: Rule, t: int)
    requires Sound(r)
  {
    Picked(r, t) && Stops(MatchSet(r), r.dtstart, r.until, r.count, t)
  }

  /** UNTIL or COUNT ends the run in a period before period k. */
  ghost predicate EndsBefore(r: Rule, k: int)
    requires Sound(r)
  {
    exists t :: EndsAt(r, t) && Period(r, r.dtstart) <= Period(r, t) < k
  }

  /** UNTIL or COUNT ends the run on a day of the calendar. */
  ghost predicate EndsInCalendar(r: Rule)
    requires Sound(r)
  {
    exists t :: EndsAt(r, t) && Period(r, r.dtstart) <= Period(r, t) && t < End()
  }

  // ---- The errors ----

  /** The year of period k of a yearly or monthly rule. */
  function PeriodYear(r: Rule, k: int): int {
    if r.freq == YEARLY then k else k / 12
  }

  /** Its month; a yearly rule looks at no particular month. */
  function PeriodMonth(r: Rule, k: int): (m: int)
    ensures 1 <= m <= 12
  {
    if r.freq == YEARLY then 1 else k % 12 + 1
  }

  /** INTERVAL selects period k, and there the nth-weekday search indexes past its table. */
  ghost predicate FailsAt(r: Rule, k: int)
    requires WellFormed(r)
  {
    && r.freq.Rank() <= 1
    && Period(r, r.dtstart) <= k && (k - Period(r, r.dtstart)) % r.interval == 0
    && 1 <= PeriodYear(r, k) <= MAXYEAR
    && !LookupsFit(r, PeriodYear(r, k), PeriodMonth(r, k))
  }

  ghost predicate FirstFailing(r: Rule, k: int)
    requires WellFormed(r)
  {
    FailsAt(r, k) && forall j :: j < k ==> !FailsAt(r, j)
  }

  /** The run reaches the first period whose search fails. */
  ghost predicate MeetsBadLookup(r: Rule)
    requires WellFormed(r)
  {
    exists k :: FirstFailing(r, k) && !EndsBefore(r, k)
  }

  /** No step of INTERVAL minutes or seconds from DTSTART on, DTSTART included, meets an allowed time. */
  ghost predicate NeverAllowed(r: Rule)
    requires Sound(r)
  {
    && r.freq.Rank() >= 5
    && forall m {:trigger TodOk(r, Step(r, Period(r, r.dtstart), m))} ::
         0 <= m ==> !TodOk(r, Step(r, Period(r, r.dtstart), m))
  }

  ghost predicate HasTimes(r: Rule) {
    exists s :: 0 <= s < DAY && TimeOk(r, s)
  }

  predicate InLastWeek(r: Rule, n: int) {
    MaxOrdinal() < n && WeekIndex(n, r.wkst) == WeekIndex(MaxOrdinal(), r.wkst)
  }

  /** INTERVAL selects the last week of the calendar, that week runs past the calendar, and the run gets to a day
      beyond: to any day that passes the filters, or, where BYSETPOS chooses, to a result that it picks. */
  ghost predicate Overshoots(r: Rule)
    requires Sound(r)
  {
    r.freq == WEEKLY &&
    if r.bysetpos != [] && HasTimes(r) then
      exists t :: Picked(r, t) && InLastWeek(r, DayOf(t)) && !EndsBefore(r, Period(r, t))
    else
      exists n :: InLastWeek(r, n) && DateOk(r, n) && !EndsInCalendar(r)
                  && (WeekIndex(n, r.wkst) - Period(r, r.dtstart)) % r.interval == 0
  }

  /** The outcome of the run is the one that the rule calls for. */
  ghost predicate Verdict(r: Rule, outcome: Outcome)
    requires Ready(r)
  {
    && (outcome.IndexError? <==> MeetsBadLookup(r))
    && (outcome.EmptyRule? <==> NeverAllowed(r))
    && (outcome.DateOverflow? <==> Overshoots(r))
  }

  // ---- What one period contributes ----

  ghost predicate EndsWithin(r: Rule, P: int, b: int)
    requires Sound(r)
  {
    exists t :: P <= t < b && EndsAt(r, t)
  }

  /** BYSETPOS chooses among the candidates; with no times at all the plain loops run. */
  predicate Chooses(r: Rule, ts: seq<int>) {
    r.bysetpos != [] && ts != []
  }

  /** The period holds a day past the calendar that the loops get to. */
  ghost predicate Late(r: Rule, ts: seq<int>, P: int, Q: int, lo: int, hi: int)
    requires Sound(r) && 1 <= lo
  {
    if Chooses(r, ts) then exists t :: P <= t < Q && End() <= t && Picked(r, t)
    else exists n :: lo <= n < hi && MaxOrdinal() < n && DateOk(r, n)
  }

  /** The status with which the period P..Q, the days lo..hi - 1, leaves the output loops. */
  ghost predicate StatusIs(r: Rule, ts: seq<int>, status: Status, P: int, Q: int, lo: int, hi: int)
    requires Sound(r) && 1 <= lo
  {
    match status
    case More => !EndsWithin(r, P, Q) && !Late(r, ts, P, Q, lo, hi)
    case Ended => EndsWithin(r, P, if Q < End() then Q else End()) && (Chooses(r, ts) ==> !Late(r, ts, P, Q, lo, hi))
    case Overflow => Late(r, ts, P, Q, lo, hi) && (!Chooses(r, ts) ==> !EndsWithin(r, P, End()))
  }

  lemma SpanEnds(r: Rule, P: int, Q: int, rs: seq<int>)
    requires Sound(r) && Spans(PickedSet(r), P, Q, rs)
    ensures EndsWithin(r, P, Q) <==> StopsWithin(MatchSet(r), r.dtstart, r.until, r.count, rs)
  {
    forall t
      ensures t in rs && Stops(MatchSet(r), r.dtstart, r.until, r.count, t) <==> P <= t < Q && EndsAt(r, t)
    {
      assert t in rs <==> t in PickedSet(r) && P <= t < Q;
    }
  }

  lemma EndsSooner(r: Rule, P: int, Q: int, rs: seq<int>)
    requires Sound(r) && Spans(PickedSet(r), P, Q, rs) && EndsWithin(r, P, Q)
    requires forall t :: t in rs ==> t < End()
    ensures EndsWithin(r, P, if Q < End() then Q else End())
  {
    var t :| P <= t < Q && EndsAt(r, t);
    assert t in PickedSet(r);
    assert t in rs;
  }

  /** The status of the BYSETPOS branch when all chosen results lie in the calendar. */
  lemma ChosenStatus(r: Rule, ts: seq<int>, P: int, Q: int, lo: int, hi: int, rs: seq<int>, stopped: bool)
    requires Sound(r) && 1 <= lo && Chooses(r, ts) && Spans(PickedSet(r), P, Q, rs)
    requires forall t :: t in rs ==> t < End()
    requires stopped <==> StopsWithin(MatchSet(r), r.dtstart, r.until, r.count, rs)
    ensures StatusIs(r, ts, if stopped then Ended else More, P, Q, lo, hi)
  {
    SpanEnds(r, P, Q, rs);
    forall t | P <= t < Q && Picked(r, t)
      ensures t < End()
    {
      assert t in PickedSet(r);
      assert t in rs;
    }
    if stopped {
      EndsSooner(r, P, Q, rs);
    }
  }

  lemma ChosenLate(r: Rule, k: int, P: int, Q: int, lo: int, hi: int, days: seq<int>, ts: seq<int>)
    requires Sound(r) && SpanOf(r, k, P, Q) && 1 <= lo && Chooses(r, ts)
    requires Spans(CandidateSet(r), P, Q, Product(days, DAY, ts))
    requires exists t :: Chosen(Product(days, DAY, ts), r.bysetpos, t) && End() <= t
    ensures StatusIs(r, ts, Overflow, P, Q, lo, hi)
  {
    var cands := Product(days, DAY, ts);
    var t :| Chosen(cands, r.bysetpos, t) && End() <= t;
    assert t in cands;
    PickedIsChosen(r, k, P, Q, cands, t);
  }

  // ---- The plain loops ----

  lemma PlainMore(r: Rule, ts: seq<int>, P: int, Q: int, lo: int, hi: int, days: seq<int>)
    requires Sound(r) && 1 <= lo && !Chooses(r, ts) && IsDays(r, days, lo, hi) && InCalendar(days)
    requires Spans(PickedSet(r), P, Q, Product(days, DAY, ts))
    requires !StopsWithin(MatchSet(r), r.dtstart, r.until, r.count, Product(days, DAY, ts))
    ensures StatusIs(r, ts, More, P, Q, lo, hi)
  {
    SpanEnds(r, P, Q, Product(days, DAY, ts));
    CalendarDays(days);
    forall n | lo <= n < hi && DateOk(r, n)
      ensures n <= MaxOrdinal()
    {
      assert n in DateSet(r);
      assert n in days;
    }
  }

  lemma PlainEnded(r: Rule, ts: seq<int>, P: int, Q: int, lo: int, hi: int, days: seq<int>, a: nat)
    requires Sound(r) && 1 <= lo && !Chooses(r, ts) && OnDial(ts, DAY) && Increasing(days)
    requires a <= |days| && InCalendar(days[..a])
    requires Spans(PickedSet(r), P, Q, Product(days, DAY, ts))
    requires StopsWithin(MatchSet(r), r.dtstart, r.until, r.count, Product(days[..a], DAY, ts))
    ensures StatusIs(r, ts, Ended, P, Q, lo, hi)
  {
    var t :| t in Product(days[..a], DAY, ts) && Stops(MatchSet(r), r.dtstart, r.until, r.count, t);
    BlockMember(days, a, ts, t);
    assert t in PickedSet(r) && P <= t < Q;
    assert EndsAt(r, t);
  }

  lemma BlockMember(days: seq<int>, a: nat, ts: seq<int>, t: int)
    requires OnDial(ts, DAY) && Increasing(days) && a <= |days| && InCalendar(days[..a])
    requires t in Product(days[..a], DAY, ts)
    ensures t in Product(days, DAY, ts) && t < End()
  {
    ProductPrefix(days, a, DAY, ts);
    ProductMembers(days[..a], DAY, ts, t);
    CalendarDays(days[..a]);
    assert DayOf(t) <= MaxOrdinal();
  }

  lemma PlainOverflow(r: Rule, ts: seq<int>, P: int, Q: int, lo: int, hi: int, days: seq<int>, a: nat)
    requires Sound(r) && 1 <= lo && !Chooses(r, ts) && OnDial(ts, DAY) && IsDays(r, days, lo, hi)
    requires a < |days| && MaxOrdinal() < days[a] && End() <= Q
    requires Spans(PickedSet(r), P, Q, Product(days, DAY, ts))
    requires !StopsWithin(MatchSet(r), r.dtstart, r.until, r.count, Product(days[..a], DAY, ts))
    ensures StatusIs(r, ts, Overflow, P, Q, lo, hi)
  {
    assert days[a] in days;
    forall t | P <= t < End() && EndsAt(r, t)
      ensures false
    {
      assert t in PickedSet(r);
      assert t in Product(days, DAY, ts);
      EarlyBlock(days, a, ts, t);
    }
  }

  lemma EarlyBlock(days: seq<int>, a: nat, ts: seq<int>, t: int)
    requires OnDial(ts, DAY) && Increasing(days) && a < |days| && MaxOrdinal() < days[a]
    requires t in Product(days, DAY, ts) && t < End()
    ensures t in Product(days[..a], DAY, ts)
  {
    ProductMembers(days, DAY, ts, t);
    ProductMembers(days[..a], DAY, ts, t);
    assert DayOf(t) <= MaxOrdinal();
    if DayOf(t) !in days[..a] {
      LaterBase(days, a, DayOf(t));
    }
  }

  // ---- The whole run ----

  /** Before P nothing ended the run, and no search failed in the periods up to k. */
  ghost predicate Underway(r: Rule, k: int, P: int)
    requires Ready(r)
  {
    && Quiet(r, P)
    && Period(r, r.dtstart) <= k
    && forall j :: j <= k ==> !FailsAt(r, j)
  }

  ghost predicate Quiet(r: Rule, P: int)
    requires Sound(r)
  {
    forall t :: EndsAt(r, t) && Period(r, r.dtstart) <= Period(r, t) ==> P <= t
  }

  lemma QuietAtStart(r: Rule, P: int, Q: int)
    requires Sound(r) && SpanOf(r, Period(r, r.dtstart), P, Q) && P <= r.dtstart
    ensures Quiet(r, P)
  {
    forall t | EndsAt(r, t) && Period(r, r.dtstart) <= Period(r, t)
      ensures P <= t
    {
      if t <= r.dtstart {
        PeriodMonotone(r, t, r.dtstart);
      }
    }
  }

  lemma QuietOn(r: Rule, P: int, Q: int, P2: int)
    requires Sound(r) && Quiet(r, P) && !EndsWithin(r, P, Q)
    requires forall t :: Q <= t < P2 ==> !Candidate(r, t)
    ensures Quiet(r, P2)
  {
  }

  lemma QuietMeansNotBefore(r: Rule, k: int, P: int, Q: int)
    requires Sound(r) && SpanOf(r, k, P, Q) && Quiet(r, P)
    ensures !EndsBefore(r, k)
  {
    forall t | EndsAt(r, t) && Period(r, r.dtstart) <= Period(r, t)
      ensures k <= Period(r, t)
    {
      assert Period(r, P) == k;
      PeriodMonotone(r, P, t);
    }
  }

  /** What ends the run in period k ends it before every later one. */
  lemma EndsBeforeLater(r: Rule, k: int, P: int, Q: int, b: int, j: int)
    requires Sound(r) && SpanOf(r, k, P, Q) && EndsWithin(r, P, b) && b <= Q && Period(r, r.dtstart) <= k < j
    ensures EndsBefore(r, j)
  {
    var t :| P <= t < b && EndsAt(r, t);
    assert Period(r, t) == k;
  }

  /** An error of the nth-weekday search is met when it is entered with nothing before it ending the run. */
  lemma IndexVerdict(r: Rule, k: int, P: int, Q: int)
    requires Ready(r) && SpanOf(r, k, P, Q) && Quiet(r, P) && FirstFailing(r, k)
    ensures Verdict(r, IndexError)
  {
    QuietMeansNotBefore(r, k, P, Q);
  }

  lemma EmptyVerdict(r: Rule)
    requires Ready(r) && NeverAllowed(r)
    ensures Verdict(r, EmptyRule)
  {
  }

  // ---- The empty rule ----

  lemma {:induction false} NeverBackwards(r: Rule, x: int, rounds: int, m: int)
    requires r.interval >= 1 && 1 <= rounds == UnitsPerDay(r.freq) / Gcd(r.interval, UnitsPerDay(r.freq))
    requires forall n {:trigger TodOk(r, Step(r, x, n))} :: 0 <= n ==> !TodOk(r, Step(r, x, n))
    ensures !TodOk(r, Step(r, x, m))
    decreases if m < 0 then -m else 0
  {
    if m < 0 {
      NeverBackwards(r, x, rounds, m + rounds);
      StepPeriodic(r, x, rounds, m + rounds);
    }
  }

  lemma NeverIsNeverOk(r: Rule)
    requires Sound(r) && r.freq.Rank() >= 5
    ensures NeverAllowed(r) <==> NeverOk(r, Period(r, r.dtstart))
  {
    if NeverAllowed(r) {
      var turns := FullTurn(r.interval, UnitsPerDay(r.freq));
      forall m
        ensures !TodOk(r, Step(r, Period(r, r.dtstart), m))
      {
        NeverBackwards(r, Period(r, r.dtstart), UnitsPerDay(r.freq) / Gcd(r.interval, UnitsPerDay(r.freq)), m);
      }
    }
  }

  lemma CandidateAllows(r: Rule, t: int)
    requires Sound(r) && r.freq.Rank() >= 5 && Candidate(r, t)
    ensures !NeverAllowed(r)
  {
    TimeOkIsTodOk(r, t);
    PeriodIsUnit(r, t);
    var m := DivExact(Period(r, t) - Period(r, r.dtstart), r.interval);
    assert Step(r, Period(r, r.dtstart), m) == Period(r, t);
    NeverIsNeverOk(r);
    assert TodOk(r, Step(r, Period(r, r.dtstart), m));
  }

  /** Whether a step is ever allowed does not depend on the step or the day from which one looks. */
  lemma SameNever(r: Rule, x: int, y: int, steps: int, days: int)
    requires y + days * UnitsPerDay(r.freq) == Step(r, x, steps)
    requires NeverOk(r, x)
    ensures NeverOk(r, y)
  {
    forall m
      ensures !TodOk(r, Step(r, y, m))
    {
      StepsAdd(r, x, steps, m);
      TodPeriodic(r, Step(r, y, m), days);
      assert !TodOk(r, Step(r, x, steps + m));
    }
  }

  /** An empty rule has no occurrences. */
  lemma NeverMeansNone(r: Rule, out: seq<int>)
    requires Ready(r) && NeverAllowed(r) && IsInitialPart(r, out)
    ensures out == []
  {
    if out != [] {
      assert out[0] in out;
      CandidateAllows(r, out[0]);
    }
  }

  // ---- The end of the run ----

  /** A run that is ended by a result of the period is ended before the period's and the calendar's end. */
  lemma EndedEarly(r: Rule, ts: seq<int>, P: int, Q: int, lo: int, hi: int) returns (b: int)
    requires Sound(r) && 1 <= lo && StatusIs(r, ts, Ended, P, Q, lo, hi)
    ensures b <= Q && b <= End() && EndsWithin(r, P, b)
    ensures Chooses(r, ts) ==> !(exists u :: P <= u < Q && End() <= u && Picked(r, u))
  {
    b := if Q < End() then Q else End();
  }

  lemma EndedMeetsNoLookup(r: Rule, k: int, P: int, Q: int, b: int)
    requires Ready(r) && SpanOf(r, k, P, Q) && Underway(r, k, P) && EndsWithin(r, P, b) && b <= Q
    ensures !MeetsBadLookup(r)
  {
    forall j | FirstFailing(r, j)
      ensures EndsBefore(r, j)
    {
      assert k < j;
      EndsBeforeLater(r, k, P, Q, b, j);
    }
  }

  lemma EndedIsAllowed(r: Rule, P: int, b: int)
    requires Sound(r) && EndsWithin(r, P, b)
    ensures !NeverAllowed(r)
  {
    if NeverAllowed(r) {
      var t :| P <= t < b && EndsAt(r, t);
      CandidateAllows(r, t);
    }
  }

  /** The period of the cursor is not past the last week. */
  lemma NotPastLastWeek(r: Rule, k: int, P: int, Q: int, lo: int)
    requires Sound(r) && r.freq == WEEKLY && SpanOf(r, k, P, Q) && P < End() && P == lo * DAY
    ensures k <= WeekIndex(MaxOrdinal(), r.wkst) && P <= MaxOrdinal() * DAY
  {
    assert Period(r, P) == k;
    PeriodMonotone(r, P, MaxOrdinal() * DAY);
  }

  /** A late result or day of the last week belongs to its period. */
  lemma LateInWeek(r: Rule, k: int, P: int, Q: int, t: int)
    requires Sound(r) && r.freq == WEEKLY && SpanOf(r, k, P, Q) && P <= MaxOrdinal() * DAY
    requires InLastWeek(r, DayOf(t)) && k == WeekIndex(MaxOrdinal(), r.wkst)
    ensures P <= t < Q && End() <= t
  {
    assert Period(r, t) == k;
    assert DayOf(P) <= DayOf(t);
    assert Period(r, P) == k;
  }

  lemma EndedDoesNotOvershoot(r: Rule, ts: seq<int>, k: int, P: int, Q: int, lo: int, b: int)
    requires Sound(r) && r.freq == WEEKLY && SpanOf(r, k, P, Q) && Period(r, r.dtstart) <= k
    requires P < End() && P == lo * DAY && (ts != [] <==> HasTimes(r)) && EndsWithin(r, P, b) && b <= Q && b <= End()
    requires Chooses(r, ts) ==> !(exists u :: P <= u < Q && End() <= u && Picked(r, u))
    ensures !Overshoots(r)
  {
    if Chooses(r, ts) {
      NotPastLastWeek(r, k, P, Q, lo);
      EndsBeforeAllLate(r, k, P, Q, b);
      ResultsDoNotOvershoot(r);
    } else {
      EndsEarly(r, k, P, Q, b);
      DaysDoNotOvershoot(r);
    }
  }

  lemma ResultsDoNotOvershoot(r: Rule)
    requires Sound(r) && r.bysetpos != [] && HasTimes(r)
    requires forall t :: Picked(r, t) && InLastWeek(r, DayOf(t)) ==> EndsBefore(r, Period(r, t))
    ensures !Overshoots(r)
  {
  }

  lemma DaysDoNotOvershoot(r: Rule)
    requires Sound(r) && !(r.bysetpos != [] && HasTimes(r)) && EndsInCalendar(r)
    ensures !Overshoots(r)
  {
  }

  lemma EndsBeforeAllLate(r: Rule, k: int, P: int, Q: int, b: int)
    requires Sound(r) && r.freq == WEEKLY && SpanOf(r, k, P, Q) && Period(r, r.dtstart) <= k
    requires k <= WeekIndex(MaxOrdinal(), r.wkst) && P <= MaxOrdinal() * DAY
    requires EndsWithin(r, P, b) && b <= Q && !(exists u :: P <= u < Q && End() <= u && Picked(r, u))
    ensures forall t :: Picked(r, t) && InLastWeek(r, DayOf(t)) ==> EndsBefore(r, Period(r, t))
  {
    forall t | Picked(r, t) && InLastWeek(r, DayOf(t))
      ensures EndsBefore(r, Period(r, t))
    {
      EndsBeforeLate(r, k, P, Q, b, t);
    }
  }

  lemma EndsBeforeLate(r: Rule, k: int, P: int, Q: int, b: int, t: int)
    requires Sound(r) && r.freq == WEEKLY && SpanOf(r, k, P, Q) && Period(r, r.dtstart) <= k
    requires k <= WeekIndex(MaxOrdinal(), r.wkst) && P <= MaxOrdinal() * DAY
    requires EndsWithin(r, P, b) && b <= Q && !(exists u :: P <= u < Q && End() <= u && Picked(r, u))
    requires Picked(r, t) && InLastWeek(r, DayOf(t))
    ensures EndsBefore(r, Period(r, t))
  {
    if k < Period(r, t) {
      EndsBeforeLater(r, k, P, Q, b, Period(r, t));
    } else {
      LateInWeek(r, k, P, Q, t);
      assert false;
    }
  }

  lemma EndsEarly(r: Rule, k: int, P: int, Q: int, b: int)
    requires Sound(r) && SpanOf(r, k, P, Q) && Period(r, r.dtstart) <= k
    requires EndsWithin(r, P, b) && b <= Q && b <= End()
    ensures EndsInCalendar(r)
  {
    var t :| P <= t < b && EndsAt(r, t);
    assert Period(r, t) == k;
  }

  /** UNTIL or COUNT ends the run in this period. */
  lemma EndedVerdict(r: Rule, ts: seq<int>, k: int, P: int, Q: int, lo: int, hi: int)
    requires Ready(r) && SpanOf(r, k, P, Q) && Underway(r, k, P) && P < End() && 1 <= lo
    requires r.freq == WEEKLY ==> P == lo * DAY && Q == hi * DAY && (ts != [] <==> HasTimes(r))
    requires StatusIs(r, ts, Ended, P, Q, lo, hi)
    ensures Verdict(r, Finished)
  {
    var b := EndedEarly(r, ts, P, Q, lo, hi);
    VerdictOfEnd(r, ts, k, P, Q, lo, b);
  }

  lemma VerdictOfEnd(r: Rule, ts: seq<int>, k: int, P: int, Q: int, lo: int, b: int)
    requires Ready(r) && SpanOf(r, k, P, Q) && Underway(r, k, P) && P < End()
    requires r.freq == WEEKLY ==> P == lo * DAY && (ts != [] <==> HasTimes(r))
    requires b <= Q && b <= End() && EndsWithin(r, P, b)
    requires Chooses(r, ts) ==> !(exists u :: P <= u < Q && End() <= u && Picked(r, u))
    ensures Verdict(r, Finished)
  {
    EndedMeetsNoLookup(r, k, P, Q, b);
    EndedIsAllowed(r, P, b);
    if r.freq == WEEKLY {
      EndedDoesNotOvershoot(r, ts, k, P, Q, lo, b);
    }
    FinishedVerdict(r);
  }

  lemma FinishedVerdict(r: Rule)
    requires Ready(r) && !MeetsBadLookup(r) && !NeverAllowed(r) && (r.freq == WEEKLY ==> !Overshoots(r))
    ensures Verdict(r, Finished)
  {
    if r.freq != WEEKLY {
      OnlyWeeklyOvershoots(r);
    }
  }

  lemma OnlyWeeklyOvershoots(r: Rule)
    requires Sound(r) && r.freq != WEEKLY
    ensures !Overshoots(r)
  {
  }

  /** No selected period lies between one period and the next. */
  lemma NothingSelectedBetween(r: Rule, k: int, P: int, Q: int, P2: int, Q2: int, u: int)
    requires Sound(r) && SpanOf(r, k, P, Q) && SpanOf(r, k + r.interval, P2, Q2)
    requires DAY <= u < P2 && (Period(r, u) - Period(r, r.dtstart)) % r.interval == 0
    requires r.freq == WEEKLY ==> DayOf(r.dtstart) <= DayOf(u)
    ensures Period(r, u) <= k
  {
    PeriodMonotone(r, u, P2);
    assert Period(r, P2) == k + r.interval;
    if k < Period(r, u) {
      ApartByInterval(k, Period(r, u), Period(r, r.dtstart), r.interval);
    }
  }

  lemma PeriodStart(r: Rule, k: int) returns (u: int)
    requires r.freq.Rank() <= 1 && 1 <= PeriodYear(r, k) <= MAXYEAR
    ensures DAY <= u < End() && Period(r, u) == k
  {
    if r.freq == YEARLY {
      u := YearStart(r, k);
    } else {
      u := MonthStart(r, k / 12, k % 12 + 1);
    }
  }

  lemma YearStart(r: Rule, y: int) returns (u: int)
    requires r.freq == YEARLY && 1 <= y <= MAXYEAR
    ensures DAY <= u < End() && Period(r, u) == y
  {
    var n := Ord(y, 0);
    FirstDay(y, 1);
    OrdInYear(y, 0);
    u := DayStart(n);
  }

  lemma MonthStart(r: Rule, y: int, m: int) returns (u: int)
    requires r.freq == MONTHLY && 1 <= y <= MAXYEAR && 1 <= m <= 12
    ensures DAY <= u < End() && Period(r, u) == 12 * y + m - 1
  {
    var n := ToOrdinal(y, m, 1);
    FirstDay(y, m);
    FirstOfMonth(y, m);
    u := DayStart(n);
  }

  lemma DayStart(n: int) returns (u: int)
    requires 1 <= n <= MaxOrdinal()
    ensures DAY <= u < End() && DayOf(u) == n
  {
    u := n * DAY;
  }

  lemma FirstDay(y: int, m: int)
    requires 1 <= y <= MAXYEAR && 1 <= m <= 12
    ensures 1 <= ToOrdinal(y, m, 1) <= MaxOrdinal() && 1 <= Ord(y, 0) <= MaxOrdinal()
  {
    IndexInYear(y, m, 1);
    LastOrdinal(MAXYEAR);
    YearsAreMonotone(y + 1, MAXYEAR + 1);
    assert DaysBeforeYear(y + 1) == DaysBeforeYear(y) + YearLen(y);
  }

  lemma PastEndMeetsNoLookup(r: Rule, k: int, P: int, Q: int, P2: int, Q2: int)
    requires Ready(r) && SpanOf(r, k, P, Q) && Underway(r, k, P)
    requires r.freq.Rank() <= 1 ==> SpanOf(r, k + r.interval, P2, Q2) && End() <= P2
    ensures !MeetsBadLookup(r)
  {
    NoLaterFailure(r, k, P, Q, P2, Q2);
  }

  lemma NoLaterFailure(r: Rule, k: int, P: int, Q: int, P2: int, Q2: int)
    requires Ready(r) && SpanOf(r, k, P, Q)
    requires r.freq.Rank() <= 1 ==> SpanOf(r, k + r.interval, P2, Q2) && End() <= P2
    ensures forall j :: FailsAt(r, j) ==> j <= k
  {
    forall j | FailsAt(r, j)
      ensures j <= k
    {
      SelectedIsNotLater(r, k, P, Q, P2, Q2, j);
    }
  }

  lemma SelectedIsNotLater(r: Rule, k: int, P: int, Q: int, P2: int, Q2: int, j: int)
    requires Sound(r) && r.freq.Rank() <= 1 && SpanOf(r, k, P, Q)
    requires SpanOf(r, k + r.interval, P2, Q2) && End() <= P2
    requires (j - Period(r, r.dtstart)) % r.interval == 0 && 1 <= PeriodYear(r, j) <= MAXYEAR
    ensures j <= k
  {
    var u := PeriodStart(r, j);
    NothingSelectedBetween(r, k, P, Q, P2, Q2, u);
  }

  lemma PastEndDoesNotOvershoot(r: Rule, ts: seq<int>, k: int, P: int, Q: int, lo: int, hi: int, P2: int, Q2: int)
    requires Ready(r) && r.freq == WEEKLY && SpanOf(r, k, P, Q) && P < End()
    requires 1 <= lo && P == lo * DAY && Q == hi * DAY && (ts != [] <==> HasTimes(r))
    requires StatusIs(r, ts, More, P, Q, lo, hi)
    requires SpanOf(r, k + r.interval, P2, Q2) && End() <= P2
    ensures !Overshoots(r)
  {
    NotPastLastWeek(r, k, P, Q, lo);
    if (WeekIndex(MaxOrdinal(), r.wkst) - Period(r, r.dtstart)) % r.interval != 0 {
      LastWeekNotSelected(r);
    } else {
      LastWeekIsNotLater(r, k, P, Q, P2, Q2);
      NothingLate(r, ts, k, P, Q, lo, hi);
    }
  }

  lemma NothingLate(r: Rule, ts: seq<int>, k: int, P: int, Q: int, lo: int, hi: int)
    requires Sound(r) && r.freq == WEEKLY && SpanOf(r, k, P, Q) && P <= MaxOrdinal() * DAY
    requires k == WeekIndex(MaxOrdinal(), r.wkst)
    requires 1 <= lo && P == lo * DAY && Q == hi * DAY && (ts != [] <==> HasTimes(r))
    requires !Late(r, ts, P, Q, lo, hi)
    ensures !Overshoots(r)
  {
    if Chooses(r, ts) {
      NoLateResult(r, k, P, Q);
    } else {
      NoLateDay(r, k, P, Q, lo, hi);
    }
  }

  lemma LastWeekNotSelected(r: Rule)
    requires Sound(r) && r.freq == WEEKLY
    requires (WeekIndex(MaxOrdinal(), r.wkst) - Period(r, r.dtstart)) % r.interval != 0
    ensures !Overshoots(r)
  {
    if r.bysetpos != [] && HasTimes(r) {
      forall t | Picked(r, t)
        ensures !InLastWeek(r, DayOf(t))
      {
        SelectedWeek(r, t);
      }
      ResultsDoNotOvershoot(r);
    } else {
      forall n | InLastWeek(r, n)
        ensures (WeekIndex(n, r.wkst) - Period(r, r.dtstart)) % r.interval != 0
      {
      }
      UnselectedDaysDoNotOvershoot(r);
    }
  }

  lemma UnselectedDaysDoNotOvershoot(r: Rule)
    requires Sound(r) && !(r.bysetpos != [] && HasTimes(r))
    requires forall n :: InLastWeek(r, n) ==> (WeekIndex(n, r.wkst) - Period(r, r.dtstart)) % r.interval != 0
    ensures !Overshoots(r)
  {
  }

  lemma SelectedWeek(r: Rule, t: int)
    requires Sound(r) && r.freq == WEEKLY && Candidate(r, t)
    ensures (WeekIndex(DayOf(t), r.wkst) - Period(r, r.dtstart)) % r.interval == 0
  {
  }

  lemma NoLateResult(r: Rule, k: int, P: int, Q: int)
    requires Sound(r) && r.freq == WEEKLY && SpanOf(r, k, P, Q) && P <= MaxOrdinal() * DAY
    requires k == WeekIndex(MaxOrdinal(), r.wkst)
    requires !(exists t :: P <= t < Q && End() <= t && Picked(r, t))
    ensures forall t :: Picked(r, t) ==> !InLastWeek(r, DayOf(t))
  {
    forall t | Picked(r, t)
      ensures !InLastWeek(r, DayOf(t))
    {
      if InLastWeek(r, DayOf(t)) {
        LateInWeek(r, k, P, Q, t);
        assert false;
      }
    }
  }

  lemma NoLateDay(r: Rule, k: int, P: int, Q: int, lo: int, hi: int)
    requires Sound(r) && r.freq == WEEKLY && SpanOf(r, k, P, Q) && P <= MaxOrdinal() * DAY
    requires k == WeekIndex(MaxOrdinal(), r.wkst) && 1 <= lo && P == lo * DAY && Q == hi * DAY
    requires !(exists n :: lo <= n < hi && MaxOrdinal() < n && DateOk(r, n))
    ensures forall n :: InLastWeek(r, n) ==> !DateOk(r, n)
  {
    forall n | InLastWeek(r, n)
      ensures !DateOk(r, n)
    {
      LateInWeek(r, k, P, Q, n * DAY);
      assert lo <= n < hi;
    }
  }

  lemma LastWeekIsNotLater(r: Rule, k: int, P: int, Q: int, P2: int, Q2: int)
    requires Ready(r) && r.freq == WEEKLY && SpanOf(r, k, P, Q)
    requires SpanOf(r, k + r.interval, P2, Q2) && End() <= P2
    requires (WeekIndex(MaxOrdinal(), r.wkst) - Period(r, r.dtstart)) % r.interval == 0
    ensures WeekIndex(MaxOrdinal(), r.wkst) <= k
  {
    NothingSelectedBetween(r, k, P, Q, P2, Q2, MaxOrdinal() * DAY);
  }

  /** The next period lies past the calendar. */
  lemma PastEndVerdict(r: Rule, ts: seq<int>, k: int, P: int, Q: int, lo: int, hi: int, P2: int, Q2: int)
    requires Ready(r) && SpanOf(r, k, P, Q) && Underway(r, k, P) && P < End() && 1 <= lo
    requires r.freq == WEEKLY ==> P == lo * DAY && Q == hi * DAY && (ts != [] <==> HasTimes(r))
    requires StatusIs(r, ts, More, P, Q, lo, hi) && !NeverAllowed(r)
    requires r.freq.Rank() <= 3 ==> SpanOf(r, k + r.interval, P2, Q2) && End() <= P2
    ensures Verdict(r, Finished)
  {
    PastEndMeetsNoLookup(r, k, P, Q, P2, Q2);
    if r.freq == WEEKLY {
      PastEndDoesNotOvershoot(r, ts, k, P, Q, lo, hi, P2, Q2);
    }
    FinishedVerdict(r);
  }

  /** The run gets to a day past the calendar. */
  lemma OverflowVerdict(r: Rule, ts: seq<int>, k: int, P: int, Q: int, lo: int, hi: int)
    requires Ready(r) && r.freq == WEEKLY && SpanOf(r, k, P, Q) && Underway(r, k, P) && P < End()
    requires 1 <= lo && P == lo * DAY && Q == hi * DAY && (ts != [] <==> HasTimes(r))
    requires StatusIs(r, ts, Overflow, P, Q, lo, hi)
    ensures Verdict(r, DateOverflow)
  {
    OverflowOvershoots(r, ts, k, P, Q, lo, hi);
    OvershootVerdict(r);
  }

  lemma OvershootVerdict(r: Rule)
    requires Ready(r) && Overshoots(r)
    ensures Verdict(r, DateOverflow)
  {
    if r.freq.Rank() <= 1 {
      OnlyWeeklyOvershoots(r);
    }
    WeeklyMeetsNoLookup(r);
  }

  lemma WeeklyMeetsNoLookup(r: Rule)
    requires Ready(r) && r.freq.Rank() > 1
    ensures !MeetsBadLookup(r)
  {
  }

  lemma OverflowOvershoots(r: Rule, ts: seq<int>, k: int, P: int, Q: int, lo: int, hi: int)
    requires Ready(r) && r.freq == WEEKLY && SpanOf(r, k, P, Q) && Quiet(r, P) && P < End()
    requires 1 <= lo && P == lo * DAY && Q == hi * DAY && (ts != [] <==> HasTimes(r))
    requires StatusIs(r, ts, Overflow, P, Q, lo, hi)
    ensures Overshoots(r)
  {
    NotPastLastWeek(r, k, P, Q, lo);
    if Chooses(r, ts) {
      LateResultOvershoots(r, k, P, Q);
    } else {
      LateDayOvershoots(r, k, P, Q, lo, hi);
    }
  }

  lemma LateDayOvershoots(r: Rule, k: int, P: int, Q: int, lo: int, hi: int)
    requires Sound(r) && r.freq == WEEKLY && SpanOf(r, k, P, Q) && P <= MaxOrdinal() * DAY && Quiet(r, P)
    requires 1 <= lo && P == lo * DAY && Q == hi * DAY && !EndsWithin(r, P, End())
    requires exists n :: lo <= n < hi && MaxOrdinal() < n && DateOk(r, n)
    requires !(r.bysetpos != [] && HasTimes(r))
    ensures Overshoots(r)
  {
    NoEarlyEnd(r, P);
    DayOvershoots(r, k, P, Q, lo, hi);
  }

  lemma LateResultOvershoots(r: Rule, k: int, P: int, Q: int)
    requires Sound(r) && r.freq == WEEKLY && SpanOf(r, k, P, Q) && P <= MaxOrdinal() * DAY && Quiet(r, P)
    requires exists t :: P <= t < Q && End() <= t && Picked(r, t)
    requires r.bysetpos != [] && HasTimes(r)
    ensures Overshoots(r)
  {
    QuietMeansNotBefore(r, k, P, Q);
    ResultOvershoots(r, k, P, Q);
  }

  lemma ResultOvershoots(r: Rule, k: int, P: int, Q: int)
    requires Sound(r) && r.freq == WEEKLY && SpanOf(r, k, P, Q) && P <= MaxOrdinal() * DAY
    requires exists t :: P <= t < Q && End() <= t && Picked(r, t)
    requires r.bysetpos != [] && HasTimes(r) && !EndsBefore(r, k)
    ensures Overshoots(r)
  {
    var t :| P <= t < Q && End() <= t && Picked(r, t);
    LastWeekIs(r, k, P, Q, t);
  }

  lemma DayOvershoots(r: Rule, k: int, P: int, Q: int, lo: int, hi: int)
    requires Sound(r) && r.freq == WEEKLY && SpanOf(r, k, P, Q) && P <= MaxOrdinal() * DAY
    requires 1 <= lo && P == lo * DAY && Q == hi * DAY
    requires exists n :: lo <= n < hi && MaxOrdinal() < n && DateOk(r, n)
    requires !(r.bysetpos != [] && HasTimes(r)) && !EndsInCalendar(r)
    ensures Overshoots(r)
  {
    var n :| lo <= n < hi && MaxOrdinal() < n && DateOk(r, n);
    LastWeekDay(r, k, P, Q, hi, n);
    assert InLastWeek(r, n) && DateOk(r, n) && (WeekIndex(n, r.wkst) - Period(r, r.dtstart)) % r.interval == 0;
  }

  lemma LastWeekDay(r: Rule, k: int, P: int, Q: int, hi: int, n: int)
    requires Sound(r) && r.freq == WEEKLY && SpanOf(r, k, P, Q) && P <= MaxOrdinal() * DAY
    requires Q == hi * DAY && MaxOrdinal() < n < hi
    ensures InLastWeek(r, n) && (WeekIndex(n, r.wkst) - Period(r, r.dtstart)) % r.interval == 0
  {
    LastWeekIs(r, k, P, Q, n * DAY);
  }

  lemma NoEarlyEnd(r: Rule, P: int)
    requires Sound(r) && Quiet(r, P) && !EndsWithin(r, P, End())
    ensures !EndsInCalendar(r)
  {
  }

  lemma LastWeekIs(r: Rule, k: int, P: int, Q: int, t: int)
    requires Sound(r) && r.freq == WEEKLY && SpanOf(r, k, P, Q) && P <= MaxOrdinal() * DAY && End() <= t < Q
    ensures InLastWeek(r, DayOf(t)) && Period(r, t) == k && (k - Period(r, r.dtstart)) % r.interval == 0
  {
    assert Period(r, MaxOrdinal() * DAY) == k;
    assert Period(r, t) == k;
  }
}
