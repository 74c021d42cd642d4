/** The mask tables that the generator of rrule.py rebuilds for every year and month (_iterinfo). */
module IterInfos {
  import opened Sequences
  import opened Calendar
  import opened Masks
  import opened Rules

  /** Day i of year y is the k-th weekday w between days first and last of the year, or the k-th last for k < 0. */
  predicate NthAt(y: int, first: int, last: int, p: (int, int), i: int)
    requires 1 <= y
  {
    && first <= i <= last
    && Weekday(Ord(y, i)) == p.0
    && (if p.1 > 0 then (i - first) / 7 == p.1 - 1 else (last - i) / 7 == -p.1 - 1)
  }

  /** A list index as Python reads it: negative ones count from the end; None is the IndexError. */
  function PyIndex(length: nat, i: int): (r: Option<int>)
    ensures r.Some? ==> 0 <= r.value < length
  {
    if 0 <= i < length then Some(i)
    else if i < 0 <= i + length then Some(i + length)
    else None
  }

  function MonthSpan(y: int, m: int): (int, int)
    requires 1 <= m <= 12
  {
    (MRange(y)[m - 1], MRange(y)[m] - 1)
  }

  function MonthSpans(y: int, months: seq<int>): (s: seq<(int, int)>)
    requires AreMonths(months)
    ensures |s| == |months|
    ensures forall k :: 0 <= k < |s| ==> s[k] == MonthSpan(y, months[k])
  {
    if months == [] then [] else [MonthSpan(y, months[0])] + MonthSpans(y, months[1..])
  }

  /** The spans, first day to last day, in which nth weekdays are counted. */
  function NthSpans(r: Rule, y: int, month: int): (s: seq<(int, int)>)
    requires 1 <= month <= 12
    requires r.freq == YEARLY ==> AreMonths(r.bymonth)
  {
    if r.freq == YEARLY && r.bymonth == [] then [(0, YearLen(y) - 1)]
    else if r.freq == YEARLY then MonthSpans(y, r.bymonth)
    else if r.freq == MONTHLY then MonthSpans(y, [month])
    else []
  }

  predicate AreMonths(months: seq<int>) {
    forall k :: 0 <= k < |months| ==> 1 <= months[k] <= 12
  }

  predicate MarkedBy(y: int, spans: seq<(int, int)>, ps: seq<(int, int)>, i: int)
    requires 1 <= y
  {
    exists a, b :: 0 <= a < |spans| && 0 <= b < |ps| && NthAt(y, spans[a].0, spans[a].1, ps[b], i)
  }

  /** The table index at which the search for the nth weekday starts. */
  function Lookup(first: int, last: int, n: int): int {
    if n < 0 then last + (n + 1) * 7 else first + (n - 1) * 7
  }

  /** Where the search ends: the nearest day of weekday p.0 at or after (before, for n < 0) the start. */
  function Landing(wdaymask: seq<int>, first: int, last: int, p: (int, int)): int
    requires PyIndex(|wdaymask|, Lookup(first, last, p.1)).Some?
  {
    var i := Lookup(first, last, p.1);
    var w := wdaymask[PyIndex(|wdaymask|, i).value];
    if p.1 < 0 then i - (w - p.0) % 7 else i + (7 - w + p.0) % 7
  }

  lemma LandingForward(y: int, first: int, last: int, p: (int, int), i: int)
    requires 1 <= y && 0 <= first <= last && 0 <= p.0 < 7 && p.1 > 0
    requires first + (p.1 - 1) * 7 < |WDayMask(Weekday(Ord(y, 0)))|
    ensures var m := WDayMask(Weekday(Ord(y, 0)));
            NthAt(y, first, last, p, i) <==> first <= i <= last && Landing(m, first, last, p) == i
  {
    var m, s := WDayMask(Weekday(Ord(y, 0))), first + (p.1 - 1) * 7;
    WeekdayShifts(Ord(y, 0), s);
    var l := Landing(m, first, last, p);
    assert m[s] == Weekday(Ord(y, s));
    NextWeekday(Ord(y, s), p.0, l - s, i - s);
  }

  lemma LandingBackward(y: int, first: int, last: int, p: (int, int), i: int)
    requires 1 <= y && 0 <= first <= last && 0 <= p.0 < 7 && p.1 < 0
    requires 0 <= last + (p.1 + 1) * 7 < |WDayMask(Weekday(Ord(y, 0)))|
    ensures var m := WDayMask(Weekday(Ord(y, 0)));
            NthAt(y, first, last, p, i) <==> first <= i <= last && Landing(m, first, last, p) == i
  {
    var m, s := WDayMask(Weekday(Ord(y, 0))), last + (p.1 + 1) * 7;
    WeekdayShifts(Ord(y, 0), s);
    var l := Landing(m, first, last, p);
    assert m[s] == Weekday(Ord(y, s));
    PreviousWeekday(Ord(y, s), p.0, s - l, s - i);
  }

  lemma WeekdayShifts(n: int, d: int)
    ensures Weekday(n + d) == (Weekday(n) + d) % 7
  {
  }

  /** Among n, n + 1, ..., n + 6 exactly one day falls on w. */
  lemma NextWeekday(n: int, w: int, d: int, e: int)
    requires 0 <= w < 7 && d == (7 - Weekday(n) + w) % 7
    ensures 0 <= e < 7 && Weekday(n + e) == w <==> e == d
  {
  }

  lemma PreviousWeekday(n: int, w: int, d: int, e: int)
    requires 0 <= w < 7 && d == (Weekday(n) - w) % 7
    ensures 0 <= e < 7 && Weekday(n - e) == w <==> e == d
  {
  }

  /** Searching from a lookup inside the table lands on day i exactly when i is the nth weekday of the span. */
  lemma LandingIsNth(y: int, first: int, last: int, p: (int, int), i: int)
    requires 1 <= y && 0 <= first <= last && 0 <= p.0 < 7 && p.1 != 0
    requires PyIndex(|WDayMask(Weekday(Ord(y, 0)))|, Lookup(first, last, p.1)).Some?
    ensures var m := WDayMask(Weekday(Ord(y, 0)));
            NthAt(y, first, last, p, i) <==> first <= i <= last && Landing(m, first, last, p) == i
  {
    if p.1 > 0 {
      LandingForward(y, first, last, p, i);
    } else if Lookup(first, last, p.1) >= 0 {
      LandingBackward(y, first, last, p, i);
    } else {
      // the lookup wraps around the table, but both sides are false: the landing is negative
      assert Landing(WDayMask(Weekday(Ord(y, 0))), first, last, p) < 0;
      assert NthAt(y, first, last, p, i) ==> i <= last + (p.1 + 1) * 7;
    }
  }

  /** Counting by sevens is counting weekdays on the calendar. */
  lemma NthAtIsNth(y: int, first: int, last: int, p: (int, int), i: int)
    requires 1 <= y && first <= i <= last && p.1 != 0
    ensures NthAt(y, first, last, p, i) <==>
              p.0 == Weekday(Ord(y, i)) && IsNth(p.1, Ord(y, first), Ord(y, last), Ord(y, i))
  {
    var w := Weekday(Ord(y, i));
    if p.1 > 0 {
      WeekdaysInIs(Ord(y, first), Ord(y, i), w);
      var c := (w - Weekday(Ord(y, first))) % 7;
      WeekdayShift(Ord(y, first), Ord(y, i), w);
      SevenSteps(i - first, c);
    } else {
      WeekdaysInIs(Ord(y, i), Ord(y, last), w);
    }
  }

  lemma SevenSteps(a: int, c: int)
    requires 0 <= c < 7 && (a - c) % 7 == 0
    ensures (a + 7 - c) / 7 == a / 7 + 1
  {
  }

  predicate AreNths(ps: seq<(int, int)>) {
    forall k :: 0 <= k < |ps| ==> 0 <= ps[k].0 < 7 && ps[k].1 != 0
  }

  /** The span in which day i of year y is counted, as table indices. */
  function OwnSpan(r: Rule, y: int, i: int): (int, int)
    requires 1 <= y && 0 <= i < YearLen(y)
  {
    if r.freq == YEARLY && r.bymonth == [] then (0, YearLen(y) - 1) else MonthSpan(y, MonthOf(Ord(y, i)))
  }

  lemma MonthSpanIs(y: int, m: int)
    requires 1 <= m <= 12
    ensures MonthSpan(y, m) == (DaysBeforeMonth(y, m), DaysBeforeMonth(y, m + 1) - 1)
    ensures DaysBeforeMonth(y, m + 1) == DaysBeforeMonth(y, m) + DaysInMonth(y, m)
  {
    MRangeIsCalendar(y, m);
    MRangeIsCalendar(y, m + 1);
  }

  /** The days of a month span lie in the year. */
  lemma MonthSpanInYear(y: int, m: int)
    requires 1 <= m <= 12
    ensures 0 <= MonthSpan(y, m).0 <= MonthSpan(y, m).1 < YearLen(y)
  {
    MonthSpanIs(y, m);
    assert DaysBeforeMonth(y, 13) == YearLen(y) by { YearIsTwelveMonths(y); }
    MonthsAreMonotone(y, m + 1, 13);
  }

  lemma OwnSpanIsNthSpan(r: Rule, y: int, i: int)
    requires 1 <= y && 0 <= i < YearLen(y)
    ensures var s := OwnSpan(r, y, i);
            s.0 <= i <= s.1 && (Ord(y, s.0), Ord(y, s.1)) == NthSpan(r, Ord(y, i))
  {
    OrdInYear(y, i);
    if !(r.freq == YEARLY && r.bymonth == []) {
      OwnMonthSpan(y, i, Ord(y, i));
    }
  }

  lemma OwnMonthSpan(y: int, i: int, n: int)
    requires 1 <= y && 1 <= n && YearOf(n) == y && YearDay(n) == i
    ensures var s := MonthSpan(y, MonthOf(n));
            s.0 <= i <= s.1 && Ord(y, s.0) == ToOrdinal(y, MonthOf(n), 1)
            && Ord(y, s.1) == ToOrdinal(y, MonthOf(n), DaysInMonth(y, MonthOf(n)))
  {
    MonthSpanIs(y, MonthOf(n));
  }

  /** Only its own month can hold a day. */
  lemma SpanOfMonth(y: int, m: int, i: int)
    requires 1 <= y && 0 <= i < YearLen(y) && 1 <= m <= 12
    requires MonthSpan(y, m).0 <= i <= MonthSpan(y, m).1
    ensures m == MonthOf(Ord(y, i))
  {
    OrdInYear(y, i);
    MonthSpanIs(y, m);
    MonthsKeepOrder(y, m, i, MonthOf(Ord(y, i)), i);
    MonthsKeepOrder(y, MonthOf(Ord(y, i)), i, m, i);
  }

  lemma OwnSpanIsListed(r: Rule, y: int, month: int, i: int) returns (a: int)
    requires r.freq.Rank() <= 1 && AreMonths(r.bymonth) && 1 <= month <= 12
    requires 1 <= y && 0 <= i < YearLen(y)
    requires r.freq == YEARLY ==> r.bymonth == [] || MonthOf(Ord(y, i)) in r.bymonth
    requires r.freq == MONTHLY ==> MonthOf(Ord(y, i)) == month
    ensures 0 <= a < |NthSpans(r, y, month)| && NthSpans(r, y, month)[a] == OwnSpan(r, y, i)
  {
    if r.freq == YEARLY && r.bymonth != [] {
      a :| 0 <= a < |r.bymonth| && r.bymonth[a] == MonthOf(Ord(y, i));
    } else {
      a := 0;
    }
  }

  lemma ListedSpanIsOwn(r: Rule, y: int, month: int, i: int, a: int)
    requires r.freq.Rank() <= 1 && AreMonths(r.bymonth) && 1 <= month <= 12
    requires 1 <= y && 0 <= i < YearLen(y)
    requires 0 <= a < |NthSpans(r, y, month)|
    requires NthSpans(r, y, month)[a].0 <= i <= NthSpans(r, y, month)[a].1
    ensures NthSpans(r, y, month)[a] == OwnSpan(r, y, i)
  {
    if r.freq == YEARLY && r.bymonth != [] {
      SpanOfMonth(y, r.bymonth[a], i);
    } else if r.freq == MONTHLY {
      SpanOfMonth(y, month, i);
    }
  }

  /** The mask of nth weekdays says what the rule means: a day is marked if and only if it is one of the
      rule's nth weekdays of its year or month, counted on the calendar. */
  lemma MarkedIsNthOk(r: Rule, y: int, month: int, i: int)
    requires r.freq.Rank() <= 1 && AreMonths(r.bymonth) && AreNths(r.bynweekday) && 1 <= month <= 12
    requires 1 <= y && 0 <= i < YearLen(y)
    requires r.freq == YEARLY ==> r.bymonth == [] || MonthOf(Ord(y, i)) in r.bymonth
    requires r.freq == MONTHLY ==> MonthOf(Ord(y, i)) == month
    ensures MarkedBy(y, NthSpans(r, y, month), r.bynweekday, i) <==> NthOk(r, Ord(y, i))
  {
    var n := Ord(y, i);
    var spans, ps := NthSpans(r, y, month), r.bynweekday;
    var own := OwnSpan(r, y, i);
    OwnSpanIsNthSpan(r, y, i);
    var c := OwnSpanIsListed(r, y, month, i);
    forall b | 0 <= b < |ps|
      ensures NthAt(y, own.0, own.1, ps[b], i) <==>
                ps[b].0 == Weekday(n) && IsNth(ps[b].1, NthSpan(r, n).0, NthSpan(r, n).1, n)
    {
      NthAtIsNth(y, own.0, own.1, ps[b], i);
    }
    if MarkedBy(y, spans, ps, i) {
      var a, b :| 0 <= a < |spans| && 0 <= b < |ps| && NthAt(y, spans[a].0, spans[a].1, ps[b], i);
      ListedSpanIsOwn(r, y, month, i, a);
      assert ps[b] in ps;
    }
    if NthOk(r, n) {
      var p :| p in ps && p.0 == Weekday(n) && IsNth(p.1, NthSpan(r, n).0, NthSpan(r, n).1, n);
      var b :| 0 <= b < |ps| && ps[b] == p;
      assert NthAt(y, spans[c].0, spans[c].1, ps[b], i);
    }
  }

  /** What the generator reads of a rule, as the constructor of rrule leaves it. */
  ghost predicate WellFormed(r: Rule) {
    && 1 <= r.interval && 0 <= r.wkst < 7
    && DAY <= r.dtstart && DayOf(r.dtstart) <= MaxOrdinal()
    && AreMonths(r.bymonth) && AreNths(r.bynweekday)
    && (r.bynweekday != [] ==> r.freq.Rank() <= 1)
    && 0 !in r.bysetpos
  }

  /** All lookups of the nth-weekday search stay inside the table. */
  predicate LookupsOk(wdaymask: seq<int>, spans: seq<(int, int)>, ps: seq<(int, int)>) {
    forall a, b :: 0 <= a < |spans| && 0 <= b < |ps| ==> Reachable(|wdaymask|, spans[a], ps[b].1)
  }

  /** The search for the n-th weekday of a span starts inside a table of the given length. */
  predicate Reachable(length: nat, span: (int, int), n: int) {
    PyIndex(length, Lookup(span.0, span.1, n)).Some?
  }

  /** Whether the nth-weekday search of a year and month stays inside the weekday table. */
  predicate LookupsFit(r: Rule, y: int, month: int)
    requires 1 <= y && 1 <= month <= 12 && AreMonths(r.bymonth)
  {
    LookupsOk(WDayMask(Weekday(Ord(y, 0))), NthSpans(r, y, month), r.bynweekday)
  }

  lemma SpansInYear(r: Rule, y: int, month: int)
    requires 1 <= month <= 12 && AreMonths(r.bymonth)
    ensures forall a :: 0 <= a < |NthSpans(r, y, month)| ==>
              0 <= NthSpans(r, y, month)[a].0 <= NthSpans(r, y, month)[a].1 < YearLen(y)
  {
    forall m | 1 <= m <= 12
      ensures 0 <= MonthSpan(y, m).0 <= MonthSpan(y, m).1 < YearLen(y)
    {
      MonthSpanInYear(y, m);
    }
  }

  lemma IndexInYear(year: int, month: int, day: int)
    requires Date(year, month, day).Valid()
    ensures 0 <= ToOrdinal(year, month, day) - Ord(year, 0) < YearLen(year)
  {
    assert DaysBeforeMonth(year, 13) == YearLen(year) by { YearIsTwelveMonths(year); }
    MonthsAreMonotone(year, month + 1, 13);
    assert DaysBeforeMonth(year, month + 1) == DaysBeforeMonth(year, month) + DaysInMonth(year, month);
  }

  lemma PlainPasses(r: Rule, n: int, monthEnd: int)
    requires 1 <= n && monthEnd == MonthDay(n) - DaysInMonth(YearOf(n), MonthOf(n)) - 1
    ensures PlainDateOk(r, n) <==>
              Passes(r, MonthOf(n), Weekday(n), MonthDay(n), monthEnd, YearDay(n) + 1, YearDay(n) - YearLen(YearOf(n)))
  {
  }

  lemma SevenDaysMeet(y: int, i: int, w: int)
    requires 1 <= y && 0 <= w < 7
    ensures exists k :: i < k <= i + 7 && Weekday(Ord(y, k)) == w
  {
    var n := Ord(y, i + 1);
    var d := (w - Weekday(n)) % 7;
    NextWeekday(n, w, (7 - Weekday(n) + w) % 7, d);
    assert Weekday(Ord(y, i + 1 + d)) == w;
  }

  class IterInfo {
    const rule: Rule
    var lastyear: Option<int>
    var lastmonth: Option<int>
    var yearlen: int
    var nextyearlen: int
    var yearordinal: int
    var yearweekday: int
    var mmask: seq<int>
    var mrange: seq<int>
    var mdaymask: seq<int>
    var nmdaymask: seq<int>
    var wdaymask: seq<int>
    var nwdaymask: seq<int>   // [] stands for None

    constructor (r: Rule)
      requires WellFormed(r)
      ensures rule == r && lastyear == None && lastmonth == None && Consistent()
    {
      rule := r;
      lastyear, lastmonth := None, None;
      nwdaymask := [];
    }

    /** The year tables belong to lastyear, the nth-weekday mask to lastyear and lastmonth. */
    ghost predicate Consistent()
      reads this
    {
      && WellFormed(rule)
      && (rule.bynweekday == [] ==> nwdaymask == [])
      && (lastyear.Some? ==> lastmonth.Some? && TablesOf(lastyear.value) && MarksOf(lastyear.value, lastmonth.value))
    }

    ghost predicate TablesOf(y: int)
      reads this
    {
      && 1 <= y
      && yearlen == YearLen(y) && nextyearlen == YearLen(y + 1)
      && yearordinal == Ord(y, 0) && yearweekday == Weekday(yearordinal)
      && mmask == MMask(y) && mdaymask == MDayMask(y) && nmdaymask == NMDayMask(y)
      && wdaymask == WDayMask(yearweekday) && mrange == MRange(y)
    }

    ghost predicate MarksOf(y: int, month: int)
      requires WellFormed(rule) && 1 <= y
      reads this
    {
      && 1 <= month <= 12
      && LookupsFit(rule, y, month)
      && (rule.bynweekday != [] ==>
            && |nwdaymask| == YearLen(y)
            && forall i :: 0 <= i < YearLen(y) ==>
                 (nwdaymask[i] != 0 <==> MarkedBy(y, NthSpans(rule, y, month), rule.bynweekday, i)))
    }

    /** Rebuilds the tables for a month of a year; false is the IndexError of a lookup outside the table. */
    method Rebuild(year: int, month: int) returns (ok: bool)
      requires Consistent() && 1 <= year && 1 <= month <= 12
      modifies this
      ensures WellFormed(rule)
      ensures ok ==> Consistent() && lastyear == Some(year) && TablesOf(year) && MarksOf(year, month)
      ensures ok <==> LookupsFit(rule, year, month)
    {
      ok := true;
      if lastyear != Some(year) {
        YearTables(year);
      }
      var last := month;
      if rule.bynweekday != [] && (lastmonth != Some(month) || lastyear != Some(year)) {
        ok := MarkMonth(year, month);
        if rule.freq == YEARLY && rule.bymonth != [] {
          last := rule.bymonth[|rule.bymonth| - 1];
        }
      }
      lastyear, lastmonth := Some(year), Some(last);
      assert ok ==> TablesOf(year) && MarksOf(year, month);
    }

    /** The nth-weekday marks of a month of a year. */
    method MarkMonth(year: int, month: int) returns (ok: bool)
      requires WellFormed(rule) && TablesOf(year) && 1 <= month <= 12 && rule.bynweekday != []
      modifies this`nwdaymask
      ensures ok ==> MarksOf(year, month)
      ensures ok <==> LookupsFit(rule, year, month)
    {
      var spans := NthSpans(rule, year, month);
      SpansInYear(rule, year, month);
      ok := MarkNths(year, spans);
    }

    method YearTables(year: int)
      requires 1 <= year
      modifies this`yearlen, this`nextyearlen, this`yearordinal, this`yearweekday,
               this`mmask, this`mdaymask, this`nmdaymask, this`wdaymask, this`mrange
      ensures TablesOf(year)
    {
      yearlen := 365 + (if IsLeap(year) then 1 else 0);
      nextyearlen := 365 + (if IsLeap(year + 1) then 1 else 0);
      yearordinal := ToOrdinal(year, 1, 1);
      yearweekday := Weekday(yearordinal);
      mmask := MMask(year);
      mdaymask := MDayMask(year);
      nmdaymask := NMDayMask(year);
      wdaymask := WDayMask(yearweekday);
      mrange := MRange(year);
    }

    // ---- The filter ----

    /** The condition under which the generator drops table index i. */
    predicate Dropped(i: int)
      requires 0 <= i < |mmask| && i < |mdaymask| && i < |nmdaymask| && i < |wdaymask|
      requires nwdaymask == [] || i < |nwdaymask|
      reads this
    {
      || (rule.bymonth != [] && mmask[i] !in rule.bymonth)
      || (rule.byweekday != [] && wdaymask[i] !in rule.byweekday)
      || (nwdaymask != [] && nwdaymask[i] == 0)
      || ((rule.bymonthday != [] || rule.bynmonthday != []) &&
          mdaymask[i] !in rule.bymonthday && nmdaymask[i] !in rule.bynmonthday)
      || (rule.byyearday != [] &&
          ((i < yearlen && i + 1 !in rule.byyearday && -yearlen + i !in rule.byyearday) ||
           (i >= yearlen && i + 1 - yearlen !in rule.byyearday && -nextyearlen + i - yearlen !in rule.byyearday)))
    }

    /** Table indices the generator may look at: nth weekdays are only marked inside the year and month. */
    ghost predicate InReach(y: int, month: int, i: int)
      reads this
    {
      && 1 <= y && 0 <= i < YearLen(y) + 7
      && (rule.bynweekday != [] ==> i < YearLen(y) && (rule.freq == MONTHLY ==> MonthOf(Ord(y, i)) == month))
    }

    lemma MasksInReach(y: int, month: int, i: int)
      requires Consistent() && TablesOf(y) && MarksOf(y, month) && InReach(y, month, i)
      ensures 0 <= i < |mmask| && i < |mdaymask| && i < |nmdaymask| && i < |wdaymask|
      ensures nwdaymask == [] || i < |nwdaymask|
      ensures nwdaymask == [] <==> rule.bynweekday == []
      ensures mmask[i] == MonthOf(Ord(y, i))
      ensures wdaymask[i] == Weekday(Ord(y, i))
      ensures mdaymask[i] == MonthDay(Ord(y, i))
      ensures nmdaymask[i] == MonthDay(Ord(y, i)) - DaysInMonth(YearOf(Ord(y, i)), MonthOf(Ord(y, i))) - 1
    {
      TablesAreCalendar(y, i);
    }

    lemma YearDayFilter(y: int, i: int)
      requires TablesOf(y) && 0 <= i < YearLen(y) + 7
      ensures var n := Ord(y, i);
              if i < yearlen then i + 1 == YearDay(n) + 1 && -yearlen + i == YearDay(n) - YearLen(YearOf(n))
              else i + 1 - yearlen == YearDay(n) + 1 && -nextyearlen + i - yearlen == YearDay(n) - YearLen(YearOf(n))
    {
      if i < yearlen {
        OrdInYear(y, i);
      } else {
        OrdAfterYear(y, i);
      }
    }

    lemma NthFilter(y: int, month: int, i: int)
      requires Consistent() && InReach(y, month, i) && MarksOf(y, month)
      requires rule.bymonth == [] || MonthOf(Ord(y, i)) in rule.bymonth
      ensures rule.bynweekday != [] ==> (nwdaymask[i] != 0 <==> NthOk(rule, Ord(y, i)))
    {
      if rule.bynweekday != [] {
        MarkedIsNthOk(rule, y, month, i);
      }
    }

    /** The filter without the nth weekdays. */
    predicate PlainDropped(i: int)
      requires 0 <= i < |mmask| && i < |mdaymask| && i < |nmdaymask| && i < |wdaymask|
      reads this
    {
      || (rule.bymonth != [] && mmask[i] !in rule.bymonth)
      || (rule.byweekday != [] && wdaymask[i] !in rule.byweekday)
      || ((rule.bymonthday != [] || rule.bynmonthday != []) &&
          mdaymask[i] !in rule.bymonthday && nmdaymask[i] !in rule.bynmonthday)
      || (rule.byyearday != [] &&
          ((i < yearlen && i + 1 !in rule.byyearday && -yearlen + i !in rule.byyearday) ||
           (i >= yearlen && i + 1 - yearlen !in rule.byyearday && -nextyearlen + i - yearlen !in rule.byyearday)))
    }

    lemma PlainDroppedFrom(n: int, i: int)
      requires 1 <= n
      requires 0 <= i < |mmask| && i < |mdaymask| && i < |nmdaymask| && i < |wdaymask|
      requires mmask[i] == MonthOf(n) && wdaymask[i] == Weekday(n) && mdaymask[i] == MonthDay(n)
      requires nmdaymask[i] == MonthDay(n) - DaysInMonth(YearOf(n), MonthOf(n)) - 1
      requires if i < yearlen then i + 1 == YearDay(n) + 1 && -yearlen + i == YearDay(n) - YearLen(YearOf(n))
               else i + 1 - yearlen == YearDay(n) + 1 && -nextyearlen + i - yearlen == YearDay(n) - YearLen(YearOf(n))
      ensures PlainDropped(i) <==> !PlainDateOk(rule, n)
    {
      PlainDroppedBy(i, MonthOf(n), Weekday(n), MonthDay(n), nmdaymask[i], YearDay(n) + 1, YearDay(n) - YearLen(YearOf(n)));
      PlainPasses(rule, n, nmdaymask[i]);
    }

    lemma PlainDroppedBy(i: int, month: int, weekday: int, monthDay: int, monthEnd: int, yearDay: int, yearEnd: int)
      requires 0 <= i < |mmask| && i < |mdaymask| && i < |nmdaymask| && i < |wdaymask|
      requires mmask[i] == month && wdaymask[i] == weekday && mdaymask[i] == monthDay && nmdaymask[i] == monthEnd
      requires if i < yearlen then i + 1 == yearDay && -yearlen + i == yearEnd
               else i + 1 - yearlen == yearDay && -nextyearlen + i - yearlen == yearEnd
      ensures PlainDropped(i) <==> !Passes(rule, month, weekday, monthDay, monthEnd, yearDay, yearEnd)
    {
    }

    /** When the tables hold day n's own values at index i, the filter is the rule's own. */
    lemma DroppedFrom(n: int, i: int)
      requires 1 <= n
      requires 0 <= i < |mmask| && i < |mdaymask| && i < |nmdaymask| && i < |wdaymask|
      requires nwdaymask == [] || i < |nwdaymask|
      requires nwdaymask == [] <==> rule.bynweekday == []
      requires mmask[i] == MonthOf(n) && wdaymask[i] == Weekday(n) && mdaymask[i] == MonthDay(n)
      requires nmdaymask[i] == MonthDay(n) - DaysInMonth(YearOf(n), MonthOf(n)) - 1
      requires if i < yearlen then i + 1 == YearDay(n) + 1 && -yearlen + i == YearDay(n) - YearLen(YearOf(n))
               else i + 1 - yearlen == YearDay(n) + 1 && -nextyearlen + i - yearlen == YearDay(n) - YearLen(YearOf(n))
      requires rule.bynweekday != [] && (rule.bymonth == [] || MonthOf(n) in rule.bymonth) ==>
                 (nwdaymask[i] != 0 <==> NthOk(rule, n))
      ensures Dropped(i) <==> !DateOk(rule, n)
    {
      PlainDroppedFrom(n, i);
      assert Dropped(i) <==> PlainDropped(i) || (nwdaymask != [] && nwdaymask[i] == 0);
      assert DateOk(rule, n) <==> PlainDateOk(rule, n) && (rule.bynweekday == [] || NthOk(rule, n));
    }

    /** The masks keep exactly the days that pass the rule's filters on the calendar,
        days of the following year included. */
    lemma DroppedIsFiltered(y: int, month: int, i: int)
      requires Consistent() && TablesOf(y) && MarksOf(y, month) && InReach(y, month, i)
      ensures 0 <= i < |mmask| && i < |mdaymask| && i < |nmdaymask| && i < |wdaymask|
      ensures nwdaymask == [] || i < |nwdaymask|
      ensures Dropped(i) <==> !DateOk(rule, Ord(y, i))
    {
      MasksInReach(y, month, i);
      YearDayFilter(y, i);
      if rule.bymonth == [] || MonthOf(Ord(y, i)) in rule.bymonth {
        NthFilter(y, month, i);
      }
      DroppedFrom(Ord(y, i), i);
    }

    // ---- Day sets ----

    ghost predicate IsDaySet(dset: seq<Option<int>>, start: int, end: int) {
      && 0 <= start < end <= |dset|
      && forall i :: start <= i < end ==> dset[i] == Some(i)
    }

    method YDaySet() returns (dset: seq<Option<int>>, start: int, end: int)
      requires lastyear.Some? && Consistent()
      ensures IsDaySet(dset, start, end) && start == 0 && end == YearLen(lastyear.value)
    {
      dset := seq(yearlen, i => Some(i));
      start, end := 0, yearlen;
    }

    method MDaySet(month: int) returns (dset: seq<Option<int>>, start: int, end: int)
      requires lastyear.Some? && Consistent() && 1 <= month <= 12
      ensures IsDaySet(dset, start, end)
      ensures start == DaysBeforeMonth(lastyear.value, month) && end == DaysBeforeMonth(lastyear.value, month + 1)
    {
      start, end := mrange[month - 1], mrange[month];
      MonthSpanIs(lastyear.value, month);
      MonthSpanInYear(lastyear.value, month);
      dset := seq(yearlen, _ => None);
      for i := start to end
        invariant |dset| == yearlen
        invariant forall k :: start <= k < i ==> dset[k] == Some(k)
      {
        dset := dset[i := Some(i)];
      }
    }

    /** From the given day to the end of its week, across the year's end if need be. */
    method WDaySet(year: int, month: int, day: int) returns (dset: seq<Option<int>>, start: int, end: int)
      requires lastyear == Some(year) && Consistent() && Date(year, month, day).Valid()
      ensures IsDaySet(dset, start, end)
      ensures Ord(year, start) == ToOrdinal(year, month, day)
      ensures start < YearLen(year) && end <= start + 7
      ensures Weekday(Ord(year, end)) == rule.wkst
      ensures forall k :: start < k < end ==> Weekday(Ord(year, k)) != rule.wkst
    {
      var i := ToOrdinal(year, month, day) - yearordinal;
      start := i;
      IndexInYear(year, month, day);
      SevenDaysMeet(year, start, rule.wkst);
      dset := seq(yearlen + 7, _ => None);
      for j := 0 to 7
        invariant |dset| == yearlen + 7 && i == start + j
        invariant forall k :: start <= k < i ==> dset[k] == Some(k)
        invariant forall k :: start < k <= i ==> Weekday(Ord(year, k)) != rule.wkst
      {
        dset := dset[i := Some(i)];
        i := i + 1;
        WeekdayTable(year, i);
        if wdaymask[i] == rule.wkst {
          break;
        }
      }
      end := i;
    }

    method DDaySet(year: int, month: int, day: int) returns (dset: seq<Option<int>>, start: int, end: int)
      requires lastyear == Some(year) && Consistent() && Date(year, month, day).Valid()
      ensures IsDaySet(dset, start, end) && end == start + 1
      ensures Ord(year, start) == ToOrdinal(year, month, day) && start < YearLen(year)
    {
      var i := ToOrdinal(year, month, day) - yearordinal;
      IndexInYear(year, month, day);
      dset := seq(yearlen, _ => None)[i := Some(i)];
      start, end := i, i + 1;
    }

    /** At every index of the range the filter decides as the calendar filters, whose days are D. */
    ghost predicate FilterAgrees(D: iset<int>, y: int, start: int, end: int)
      reads this
    {
      && 1 <= y && 0 <= start
      && forall i :: start <= i < end ==> AgreesAt(D, y, i)
    }

    ghost predicate AgreesAt(D: iset<int>, y: int, i: int)
      reads this
      requires 1 <= y && 0 <= i
    {
      && i < |mmask| && i < |mdaymask| && i < |nmdaymask| && i < |wdaymask|
      && (nwdaymask == [] || i < |nwdaymask|)
      && (Dropped(i) <==> Ord(y, i) !in D)
    }

    lemma FilterAgreesInReach(y: int, month: int, start: int, end: int)
      requires Consistent() && 1 <= y && TablesOf(y) && MarksOf(y, month) && 0 <= start
      requires forall i :: start <= i < end ==> InReach(y, month, i)
      ensures FilterAgrees(DateSet(rule), y, start, end)
    {
      forall i | start <= i < end
        ensures AgreesAt(DateSet(rule), y, i)
      {
        assert InReach(y, month, i);
        DroppedIsFiltered(y, month, i);
      }
    }

    /** Drops the filtered days of a day set; the kept ones remain in place. */
    method FilterDays(dayset: seq<Option<int>>, start: int, end: int, ghost D: iset<int>, ghost y: int)
      returns (dset: seq<Option<int>>, filtered: bool)
      requires IsDaySet(dayset, start, end) && FilterAgrees(D, y, start, end)
      ensures |dset| == |dayset|
      ensures forall i :: start <= i < end ==>
                dset[i] == if Ord(y, i) in D then Some(i) else None
      ensures filtered <==> exists i :: start <= i < end && Ord(y, i) !in D
    {
      dset := dayset;
      filtered := false;
      for i := start to end
        invariant |dset| == |dayset|
        invariant forall k :: start <= k < i ==> dset[k] == if Ord(y, k) in D then Some(k) else None
        invariant forall k :: i <= k < end ==> dset[k] == Some(k)
        invariant filtered <==> exists k :: start <= k < i && Ord(y, k) !in D
      {
        assert AgreesAt(D, y, i);
        if Dropped(i) {
          dset := dset[i := None];
          filtered := true;
        }
      }
    }

    /** Fills nwdaymask from the lookups in wdaymask. */
    method MarkNths(year: int, spans: seq<(int, int)>) returns (ok: bool)
      requires WellFormed(rule) && TablesOf(year)
      requires forall a :: 0 <= a < |spans| ==> 0 <= spans[a].0 <= spans[a].1 < yearlen
      modifies this`nwdaymask
      ensures ok ==>
                && |nwdaymask| == yearlen
                && forall i :: 0 <= i < yearlen ==> (nwdaymask[i] != 0 <==> MarkedBy(year, spans, rule.bynweekday, i))
      ensures ok <==> LookupsOk(wdaymask, spans, rule.bynweekday)
    {
      nwdaymask := Repeat(0, yearlen);
      for a := 0 to |spans|
        invariant |nwdaymask| == yearlen
        invariant forall i :: 0 <= i < yearlen ==> (nwdaymask[i] != 0 <==> MarkedBy(year, spans[..a], rule.bynweekday, i))
        invariant LookupsOk(wdaymask, spans[..a], rule.bynweekday)
      {
        var (first, last) := spans[a];
        ghost var before := nwdaymask;
        for b := 0 to |rule.bynweekday|
          invariant |nwdaymask| == yearlen
          invariant forall i :: 0 <= i < yearlen ==>
                      (nwdaymask[i] != 0 <==> before[i] != 0 || exists c :: 0 <= c < b && NthAt(year, first, last, rule.bynweekday[c], i))
          invariant forall c :: 0 <= c < b ==> Reachable(|wdaymask|, spans[a], rule.bynweekday[c].1)
        {
          var p := rule.bynweekday[b];
          assert Reachable(|wdaymask|, spans[a], p.1) <==> PyIndex(|wdaymask|, Lookup(first, last, p.1)).Some?;
          if PyIndex(|wdaymask|, Lookup(first, last, p.1)).None? {
            return false;
          }
          var i := Landing(wdaymask, first, last, p);
          if first <= i <= last {
            nwdaymask := nwdaymask[i := 1];
          }
          forall j | 0 <= j < yearlen
            ensures NthAt(year, first, last, p, j) <==> first <= j <= last && i == j
          {
            LandingIsNth(year, first, last, p, j);
          }
        }
        MoreLookups(wdaymask, spans, rule.bynweekday, a);
        forall i | 0 <= i < yearlen
          ensures nwdaymask[i] != 0 <==> MarkedBy(year, spans[..a + 1], rule.bynweekday, i)
        {
          MoreSpans(year, spans, rule.bynweekday, a, i);
        }
      }
      assert spans[..|spans|] == spans;
      ok := true;
    }
  }

  lemma MoreLookups(wdaymask: seq<int>, spans: seq<(int, int)>, ps: seq<(int, int)>, a: int)
    requires 0 <= a < |spans| && LookupsOk(wdaymask, spans[..a], ps)
    requires forall c :: 0 <= c < |ps| ==> Reachable(|wdaymask|, spans[a], ps[c].1)
    ensures LookupsOk(wdaymask, spans[..a + 1], ps)
  {
    var all, fewer := spans[..a + 1], spans[..a];
    forall d, b | 0 <= d < |all| && 0 <= b < |ps|
      ensures Reachable(|wdaymask|, all[d], ps[b].1)
    {
      assert d < a ==> all[d] == fewer[d];
    }
  }

  lemma MoreSpans(y: int, spans: seq<(int, int)>, ps: seq<(int, int)>, a: int, i: int)
    requires 1 <= y && 0 <= a < |spans|
    ensures MarkedBy(y, spans[..a + 1], ps, i) <==>
              MarkedBy(y, spans[..a], ps, i) || exists c :: 0 <= c < |ps| && NthAt(y, spans[a].0, spans[a].1, ps[c], i)
  {
    var all := spans[..a + 1];
    assert forall k :: 0 <= k < a ==> all[k] == spans[..a][k];
  }
}
