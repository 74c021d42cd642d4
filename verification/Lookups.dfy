/** When the nth-weekday search of _iterinfo.rebuild indexes past its table: the exact condition on a rule. */
module Lookups {
  import opened Calendar
  import opened Masks
  import opened Rules
  import opened IterInfos
  import opened Emission
  import opened Outcomes
  import opened Periods
  import opened Generator

  /** The nth weekday is looked up past the table, in the year that leaves the fewest table entries:
      one that starts on a Sunday, leap for a count from the start and common for a count from the end. */
  predicate LeavesTable(firstInLeap: int, lastInCommon: int, n: int) {
    if n > 0 then firstInLeap + (n - 1) * 7 > 378 else lastInCommon + (n + 1) * 7 < -379
  }

  predicate MonthLeavesTable(m: int, n: int)
    requires 1 <= m <= 12
  {
    LeavesTable(DaysBeforeMonth(4, m), DaysBeforeMonth(1, m + 1) - 1, n)
  }

  /** Some number in BYDAY is too large for the spans in which the rule counts. */
  predicate NumberTooLarge(r: Rule) {
    exists p :: p in r.bynweekday &&
      if r.freq == YEARLY && r.bymonth == [] then p.1 >= 56 || p.1 <= -108
      else exists m :: 1 <= m <= 12 && (r.freq == MONTHLY || m in r.bymonth) && MonthLeavesTable(m, p.1)
  }

  /** Some year and month of the calendar in which the nth-weekday search leaves its table. */
  ghost predicate SomeLookupFails(r: Rule)
    requires WellFormed(r)
  {
    exists y, m :: 1 <= y <= MAXYEAR && 1 <= m <= 12 && !LookupsFit(r, y, m)
  }

  predicate Inside(y: int, span: (int, int), n: int)
    requires 1 <= y
  {
    Reachable(|WDayMask(Weekday(Ord(y, 0)))|, span, n)
  }

  lemma InsideIs(y: int, span: (int, int), n: int)
    requires 1 <= y
    ensures Inside(y, span, n) <==> Weekday(Ord(y, 0)) - 385 <= Lookup(span.0, span.1, n) < 385 - Weekday(Ord(y, 0))
  {
  }

  /** Month spans depend on the year only by its being leap. */
  lemma {:induction false} SameLength(y: int, z: int, m: int)
    requires 1 <= m <= 13 && IsLeap(y) == IsLeap(z)
    ensures DaysBeforeMonth(y, m) == DaysBeforeMonth(z, m)
    decreases m
  {
    if m > 1 {
      SameLength(y, z, m - 1);
    }
  }

  lemma {:induction false} LeapIsLater(m: int)
    requires 1 <= m <= 13
    ensures DaysBeforeMonth(1, m) <= DaysBeforeMonth(4, m)
    decreases m
  {
    if m > 1 {
      LeapIsLater(m - 1);
    }
  }

  lemma SpanBounds(y: int, m: int)
    requires 1 <= m <= 12
    ensures 0 <= MonthSpan(y, m).0 <= DaysBeforeMonth(4, m)
    ensures DaysBeforeMonth(1, m + 1) - 1 <= MonthSpan(y, m).1 <= 365
    ensures IsLeap(y) ==> MonthSpan(y, m).0 == DaysBeforeMonth(4, m)
    ensures !IsLeap(y) ==> MonthSpan(y, m).1 == DaysBeforeMonth(1, m + 1) - 1
  {
    MonthSpanIs(y, m);
    MonthSpanInYear(y, m);
    LeapIsLater(m);
    LeapIsLater(m + 1);
    SameLength(y, if IsLeap(y) then 4 else 1, m);
    SameLength(y, if IsLeap(y) then 4 else 1, m + 1);
  }

  /** Years 6 and 12 start on a Sunday; 12 is leap, 6 is not. */
  lemma SundayYears()
    ensures Weekday(Ord(6, 0)) == 6 && !IsLeap(6) && Weekday(Ord(12, 0)) == 6 && IsLeap(12)
  {
    DaysBeforeYearClosed(6);
    DaysBeforeYearClosed(12);
  }

  /** A month span is searched inside the table in every year exactly when the number is small enough. */
  lemma MonthLookups(m: int, n: int)
    requires 1 <= m <= 12 && n != 0
    ensures MonthLeavesTable(m, n) <==> !Inside(6, MonthSpan(6, m), n) || !Inside(12, MonthSpan(12, m), n)
    ensures !MonthLeavesTable(m, n) ==> forall y :: 1 <= y ==> Inside(y, MonthSpan(y, m), n)
  {
    SundayYears();
    forall y | 1 <= y
      ensures !MonthLeavesTable(m, n) ==> Inside(y, MonthSpan(y, m), n)
    {
      SpanBounds(y, m);
      InsideIs(y, MonthSpan(y, m), n);
    }
    SpanBounds(6, m);
    SpanBounds(12, m);
    InsideIs(6, MonthSpan(6, m), n);
    InsideIs(12, MonthSpan(12, m), n);
  }

  lemma YearLookups(n: int)
    requires n != 0
    ensures (n >= 56 || n <= -108) <==> !Inside(6, (0, YearLen(6) - 1), n) || !Inside(12, (0, YearLen(12) - 1), n)
    ensures -108 < n < 56 ==> forall y :: 1 <= y ==> Inside(y, (0, YearLen(y) - 1), n)
  {
    SundayYears();
    forall y | 1 <= y
      ensures -108 < n < 56 ==> Inside(y, (0, YearLen(y) - 1), n)
    {
      InsideIs(y, (0, YearLen(y) - 1), n);
    }
    InsideIs(6, (0, YearLen(6) - 1), n);
    InsideIs(12, (0, YearLen(12) - 1), n);
  }

  lemma TooLargeFails(r: Rule)
    requires WellFormed(r) && NumberTooLarge(r)
    ensures SomeLookupFails(r)
  {
    var ps := r.bynweekday;
    var b :| 0 <= b < |ps| &&
      if r.freq == YEARLY && r.bymonth == [] then ps[b].1 >= 56 || ps[b].1 <= -108
      else exists m :: 1 <= m <= 12 && (r.freq == MONTHLY || m in r.bymonth) && MonthLeavesTable(m, ps[b].1);
    var n := ps[b].1;
    if r.freq == YEARLY && r.bymonth == [] {
      YearLookups(n);
      FailsIn(r, if Inside(6, (0, YearLen(6) - 1), n) then 12 else 6, 1, 0, b);
    } else {
      var m :| 1 <= m <= 12 && (r.freq == MONTHLY || m in r.bymonth) && MonthLeavesTable(m, n);
      MonthLookups(m, n);
      var a := if r.freq == MONTHLY then 0 else IndexOf(r.bymonth, m);
      FailsIn(r, if Inside(6, MonthSpan(6, m), n) then 12 else 6, m, a, b);
    }
  }

  function IndexOf(s: seq<int>, x: int): (i: nat)
    requires x in s
    ensures i < |s| && s[i] == x
  {
    if s[0] == x then 0 else 1 + IndexOf(s[1..], x)
  }

  lemma FailsIn(r: Rule, y: int, m: int, a: nat, b: nat)
    requires WellFormed(r) && 1 <= y <= MAXYEAR && 1 <= m <= 12
    requires a < |NthSpans(r, y, m)| && b < |r.bynweekday|
    requires !Inside(y, NthSpans(r, y, m)[a], r.bynweekday[b].1)
    ensures SomeLookupFails(r)
  {
    assert !LookupsFit(r, y, m);
  }

  lemma SmallNumbersStayInside(r: Rule, y: int, m: int)
    requires WellFormed(r) && !NumberTooLarge(r) && 1 <= y && 1 <= m <= 12
    ensures LookupsFit(r, y, m)
  {
    var spans, ps := NthSpans(r, y, m), r.bynweekday;
    forall a, b | 0 <= a < |spans| && 0 <= b < |ps|
      ensures Inside(y, spans[a], ps[b].1)
    {
      assert ps[b] in ps;
      if r.freq == YEARLY && r.bymonth == [] {
        YearLookups(ps[b].1);
      } else {
        var month := if r.freq == MONTHLY then m else r.bymonth[a];
        assert !MonthLeavesTable(month, ps[b].1);
        MonthLookups(month, ps[b].1);
      }
    }
  }

  /** The nth-weekday search leaves its table in some year exactly when a BYDAY number is too large. */
  lemma LookupFailsIff(r: Rule)
    requires WellFormed(r)
    ensures SomeLookupFails(r) <==> NumberTooLarge(r)
  {
    if NumberTooLarge(r) {
      TooLargeFails(r);
    } else {
      forall y, m | 1 <= y <= MAXYEAR && 1 <= m <= 12
        ensures LookupsFit(r, y, m)
      {
        SmallNumbersStayInside(r, y, m);
      }
    }
  }

  /** In a single month the numbers -59 to 7 are safe whatever the month, and no others. */
  lemma AnyMonth(n: int)
    requires n != 0
    ensures (exists m :: 1 <= m <= 12 && MonthLeavesTable(m, n)) <==> n >= 8 || n <= -60
  {
    MonthBounds();
    if n >= 8 {
      assert MonthLeavesTable(12, n);
    } else if n <= -60 {
      assert MonthLeavesTable(1, n);
    } else {
      forall m | 1 <= m <= 12
        ensures !MonthLeavesTable(m, n)
      {
        MonthsAreMonotone(4, m, 12);
        MonthsAreMonotone(1, 2, m + 1);
      }
    }
  }

  lemma MonthBounds()
    ensures DaysBeforeMonth(4, 12) == 335 && DaysBeforeMonth(1, 2) == 31
  {
    YearIsTwelveMonths(4);
    assert DaysBeforeMonth(4, 13) == DaysBeforeMonth(4, 12) + 31;
    assert DaysBeforeMonth(1, 2) == DaysBeforeMonth(1, 1) + 31;
  }

  /** Numbers that are small enough never stop the generator. */
  lemma SmallNumbersNeverStop(r: Rule)
    requires WellFormed(r) && !NumberTooLarge(r)
    ensures !MeetsBadLookup(r)
  {
    forall k
      ensures !FailsAt(r, k)
    {
      if FailsAt(r, k) {
        SmallNumbersStayInside(r, PeriodYear(r, k), PeriodMonth(r, k));
      }
    }
  }

  /** The fifty-third Monday counted in December leaves the table in every year. */
  lemma FiftyThirdFails(r: Rule, y: int, m: int)
    requires WellFormed(r) && r.freq == YEARLY && r.bymonth == [12] && r.bynweekday == [(0, 53)]
    requires 1 <= y && 1 <= m <= 12
    ensures !LookupsFit(r, y, m)
  {
    FarOutside(y);
    var spans := NthSpans(r, y, m);
    assert spans[0] == MonthSpan(y, 12);
    assert !Reachable(|WDayMask(Weekday(Ord(y, 0)))|, spans[0], r.bynweekday[0].1);
  }

  lemma FarOutside(y: int)
    requires 1 <= y
    ensures !Inside(y, MonthSpan(y, 12), 53)
  {
    MonthSpanIs(y, 12);
    LastMonthStarts(y);
    InsideIs(y, MonthSpan(y, 12), 53);
  }

  lemma LastMonthStarts(y: int)
    ensures 334 <= DaysBeforeMonth(y, 12)
  {
    YearIsTwelveMonths(y);
    assert DaysBeforeMonth(y, 13) == DaysBeforeMonth(y, 12) + 31;
  }

  /** A rule whose first period has a bad lookup stops there, with nothing out. */
  lemma StopsAtOnce(r: Rule, out: seq<int>)
    requires Ready(r) && FailsAt(r, Period(r, r.dtstart))
    ensures MeetsBadLookup(r)
    ensures IsInitialPart(r, out) && BeforeBadLookup(r, out) ==> out == []
  {
    var first := Period(r, r.dtstart);
    assert FirstFailing(r, first) && !EndsBefore(r, first);
    if BeforeBadLookup(r, out) {
      var k, P, Q :| FirstFailing(r, k) && SpanOf(r, k, P, Q) && Covers(r, out, P);
      assert k == first;
      assert P <= r.dtstart;
      assert out == [] || out[0] in out;
    }
  }

  /** The fifty-third Monday of the year, asked for in December: whatever its other parts, the rule stops
      the generator with an IndexError before anything is yielded. */
  method FiftyThirdMondayInDecember(r: Rule) returns (out: seq<int>, outcome: Outcome)
    requires Ready(r) && r.freq == YEARLY && r.bymonth == [12] && r.bynweekday == [(0, 53)]
    ensures outcome == IndexError && out == []
  {
    StartsInYear(r);
    FiftyThirdFails(r, Period(r, r.dtstart), 1);
    out, outcome := Iter(r);
    StopsAtOnce(r, out);
  }

  lemma StartsInYear(r: Rule)
    requires Ready(r)
    ensures 1 <= YearOf(DayOf(r.dtstart)) <= MAXYEAR
  {
    StartCursorOk(r);
  }
}
