/** Where the generator of rrule.py and a plain reading of its parts come apart, and where they cannot. */
module Readings {
  import opened Sequences
  import opened Calendar
  import opened Rules
  import opened Periods

  // ---- BYDAY with plain and numbered weekdays ----

  /** The date filters with the two kinds of BYDAY values read as alternatives. */
  predicate EitherDateOk(r: Rule, n: int)
    requires 1 <= n
  {
    && PlainDateOk(r.(byweekday := []), n)
    && ((r.byweekday == [] && r.bynweekday == []) || Weekday(n) in r.byweekday || NthOk(r, n))
  }

  /** The generator asks for both kinds. It departs from the alternatives exactly on the days that pass the other
      filters and meet only one kind, and only when both are given. */
  lemma BothKindsRequired(r: Rule, n: int)
    requires 1 <= n
    ensures DateOk(r, n) ==> EitherDateOk(r, n)
    ensures DateOk(r, n) != EitherDateOk(r, n) <==>
              && r.byweekday != [] && r.bynweekday != []
              && PlainDateOk(r.(byweekday := []), n)
              && (Weekday(n) in r.byweekday) != NthOk(r, n)
  {
    SamePlain(r, n);
    assert r.(byweekday := []).bynweekday == r.bynweekday;
  }

  lemma SamePlain(r: Rule, n: int)
    requires 1 <= n
    ensures PlainDateOk(r, n) <==> PlainDateOk(r.(byweekday := []), n) && (r.byweekday == [] || Weekday(n) in r.byweekday)
  {
  }

  /** When no weekday is given both ways, such a rule has no occurrence at all. */
  lemma DisjointKindsNeverRecur(r: Rule, out: seq<int>)
    requires r.interval >= 1 && DAY <= r.dtstart
    requires r.byweekday != [] && r.bynweekday != [] && forall p :: p in r.bynweekday ==> p.0 !in r.byweekday
    requires IsRecurrenceSet(r, out)
    ensures out == []
  {
    forall t
      ensures t !in out
    {
      if DAY <= t {
        DisjointKindsNeverMeet(r, DayOf(t));
      }
      assert t !in MatchSet(r);
    }
    NoMembers(out);
  }

  lemma DisjointKindsNeverMeet(r: Rule, n: int)
    requires 1 <= n
    requires r.byweekday != [] && r.bynweekday != [] && forall p :: p in r.bynweekday ==> p.0 !in r.byweekday
    ensures !DateOk(r, n)
  {
  }

  lemma NoMembers(out: seq<int>)
    requires forall t :: t !in out
    ensures out == []
  {
    var t := if out == [] then 0 else out[0];
    assert out == [] || t in out;
  }

  /** FREQ=MONTHLY;BYDAY=TU,+1MO: 1 January of the year 1, a first Monday, is an occurrence by the
      alternatives and none for the generator. */
  lemma FirstMondayOrTuesday(r: Rule)
    requires r.freq == MONTHLY && r.byweekday == [1] && r.bynweekday == [(0, 1)]
    requires r.bymonth == [] && r.bymonthday == [] && r.bynmonthday == [] && r.byyearday == []
    ensures EitherDateOk(r, 1) && !DateOk(r, 1)
  {
    assert YearDay(1) == 0 && MonthOf(1) == 1;
    assert NthSpan(r, 1).0 == 1;
    WeekdaysInIs(1, 1, 0);
    assert r.bynweekday[0] in r.bynweekday;
    assert NthOk(r, 1);
  }

  // ---- The first week of a WEEKLY rule ----

  /** A candidate when every week is taken as a whole, the first one included. */
  predicate WholeCandidate(r: Rule, t: int)
    requires r.interval >= 1 && DAY <= r.dtstart
  {
    && DAY <= t
    && DateOk(r, DayOf(t))
    && TimeOk(r, t)
    && (Period(r, t) - Period(r, r.dtstart)) % r.interval == 0
  }

  ghost predicate IsWholeSet(r: Rule, t: int, s: seq<int>)
    requires r.interval >= 1 && DAY <= r.dtstart && DAY <= t
  {
    && Increasing(s)
    && forall u :: u in s <==> WholeCandidate(r, u) && Period(r, u) == Period(r, t)
  }

  ghost predicate WholePicked(r: Rule, t: int)
    requires r.interval >= 1 && DAY <= r.dtstart
  {
    && WholeCandidate(r, t)
    && (r.bysetpos == [] || exists s, p :: IsWholeSet(r, t, s) && p in r.bysetpos && AtPosition(s, p, t))
  }

  /** The weeks of which the generator sees no less than the whole. */
  predicate SeenWhole(r: Rule, t: int)
    requires DAY <= r.dtstart && DAY <= t
  {
    r.freq != WEEKLY || Weekday(DayOf(r.dtstart)) == r.wkst || Period(r, r.dtstart) < Period(r, t)
  }

  /** From DTSTART on the two readings agree without BYSETPOS, when DTSTART falls on the week start, and in every
      week but the first. */
  lemma WholeWeeksAgree(r: Rule, t: int)
    requires r.interval >= 1 && DAY <= r.dtstart <= t && 0 <= r.wkst < 7
    requires r.bysetpos == [] || SeenWhole(r, t)
    ensures Picked(r, t) <==> WholePicked(r, t)
  {
    assert DayOf(r.dtstart) <= DayOf(t);
    if r.bysetpos != [] {
      forall u
        ensures Candidate(r, u) && Period(r, u) == Period(r, t) <==> WholeCandidate(r, u) && Period(r, u) == Period(r, t)
      {
        if DAY <= u && Period(r, u) == Period(r, t) {
          NoneCutOff(r, t, u);
        }
      }
      forall s
        ensures IsPeriodSet(r, t, s) <==> IsWholeSet(r, t, s)
      {
      }
    }
  }

  lemma NoneCutOff(r: Rule, t: int, u: int)
    requires DAY <= r.dtstart <= t && DAY <= u && 0 <= r.wkst < 7 && SeenWhole(r, t) && Period(r, u) == Period(r, t)
    ensures r.freq == WEEKLY ==> DayOf(r.dtstart) <= DayOf(u)
  {
    if r.freq == WEEKLY {
      WeeksKeepOrder(DayOf(r.dtstart), DayOf(t), DayOf(u), r.wkst);
    }
  }

  lemma WeeksKeepOrder(first: int, n: int, m: int, wkst: int)
    requires first <= n && 0 <= wkst < 7 && WeekIndex(m, wkst) == WeekIndex(n, wkst)
    requires Weekday(first) == wkst || WeekIndex(first, wkst) < WeekIndex(n, wkst)
    ensures first <= m
  {
    assert Weekday(first) == wkst ==> (first + 6 - wkst) % 7 == 0;
  }

  // ---- Exactly when the first week matters ----

  /** The members of K from lo to hi - 1, in order. */
  ghost function Members(K: iset<int>, lo: int, hi: int): seq<int>
    decreases hi - lo
  {
    if hi <= lo then [] else Members(K, lo, hi - 1) + (if hi - 1 in K then [hi - 1] else [])
  }

  lemma {:induction false} MembersAre(K: iset<int>, lo: int, hi: int)
    ensures Increasing(Members(K, lo, hi))
    ensures forall x :: x in Members(K, lo, hi) <==> x in K && lo <= x < hi
    decreases hi - lo
  {
    if lo < hi {
      MembersAre(K, lo, hi - 1);
      OneMember(K, lo, hi - 1, Members(K, lo, hi - 1), Members(K, lo, hi));
    }
  }

  lemma OneMember(K: iset<int>, lo: int, x: int, front: seq<int>, s: seq<int>)
    requires lo <= x && Increasing(front) && forall y :: y in front <==> y in K && lo <= y < x
    requires s == front + (if x in K then [x] else [])
    ensures Increasing(s) && forall y :: y in s <==> y in K && lo <= y < x + 1
  {
    forall i | 0 <= i < |front|
      ensures front[i] < x
    {
      assert front[i] in front;
    }
    IncreasingAppend(front, if x in K then [x] else []);
  }

  lemma {:induction false} MembersSplit(K: iset<int>, lo: int, mid: int, hi: int)
    requires lo <= mid <= hi
    ensures Members(K, lo, hi) == Members(K, lo, mid) + Members(K, mid, hi)
    decreases hi - mid
  {
    if mid < hi {
      MembersSplit(K, lo, mid, hi - 1);
      Associative(Members(K, lo, mid), Members(K, mid, hi - 1), if hi - 1 in K then [hi - 1] else []);
    } else {
      Associative(Members(K, lo, mid), [], []);
    }
  }

  lemma Associative(a: seq<int>, b: seq<int>, c: seq<int>)
    ensures a + (b + c) == a + b + c
    ensures a + [] == a
  {
  }

  lemma TwoParts(K: iset<int>, lo: int, mid: int, hi: int) returns (first: seq<int>, second: seq<int>)
    requires lo <= mid <= hi
    ensures Increasing(second) && Increasing(first + second)
    ensures forall u :: u in second <==> u in K && mid <= u < hi
    ensures forall u :: u in first + second <==> u in K && lo <= u < hi
  {
    MembersAre(K, mid, hi);
    MembersAre(K, lo, hi);
    MembersSplit(K, lo, mid, hi);
    first, second := Members(K, lo, mid), Members(K, mid, hi);
  }

  /** The ordinal of the first day of the week of DTSTART. */
  function WeekStart(r: Rule): int {
    7 * WeekIndex(DayOf(r.dtstart), r.wkst) - 6 + r.wkst
  }

  ghost function WholeSet(r: Rule): iset<int>
    requires r.interval >= 1 && DAY <= r.dtstart
  {
    iset t | WholeCandidate(r, t)
  }

  lemma InFirstWeek(r: Rule, u: int)
    requires r.freq == WEEKLY && DAY <= r.dtstart && DAY <= u
    ensures Period(r, u) == Period(r, r.dtstart) <==> WeekStart(r) * DAY <= u < (WeekStart(r) + 7) * DAY
    ensures WeekStart(r) <= DayOf(r.dtstart) < WeekStart(r) + 7
    ensures DayOf(r.dtstart) <= DayOf(u) <==> DayOf(r.dtstart) * DAY <= u
  {
    DayLine(WeekStart(r), WeekStart(r) + 7, u);
  }

  lemma WeekMember(r: Rule, u: int)
    requires r.freq == WEEKLY && r.interval >= 1 && DAY <= r.dtstart
    ensures u in WholeSet(r) && WeekStart(r) * DAY <= u < (WeekStart(r) + 7) * DAY <==>
              WholeCandidate(r, u) && Period(r, u) == Period(r, r.dtstart)
    ensures u in WholeSet(r) && DayOf(r.dtstart) * DAY <= u < (WeekStart(r) + 7) * DAY <==>
              Candidate(r, u) && Period(r, u) == Period(r, r.dtstart)
  {
    if DAY <= u {
      InFirstWeek(r, u);
      CandidateOfWeek(r, u);
    }
  }

  lemma CandidateOfWeek(r: Rule, u: int)
    requires r.freq == WEEKLY && r.interval >= 1 && DAY <= r.dtstart
    ensures Candidate(r, u) <==> WholeCandidate(r, u) && DayOf(r.dtstart) <= DayOf(u)
  {
  }

  /** kept lists the candidates of the first week as the generator takes it, cut + kept those of the whole week. */
  ghost predicate IsFirstWeek(r: Rule, cut: seq<int>, kept: seq<int>)
    requires r.interval >= 1 && DAY <= r.dtstart
  {
    IsPeriodSet(r, r.dtstart, kept) && IsWholeSet(r, r.dtstart, cut + kept)
  }

  /** Such lists exist: the first week loses its first candidates, and no others. */
  lemma FirstWeekLists(r: Rule) returns (cut: seq<int>, kept: seq<int>)
    requires r.freq == WEEKLY && r.interval >= 1 && DAY <= r.dtstart
    ensures IsFirstWeek(r, cut, kept)
  {
    InFirstWeek(r, r.dtstart);
    cut, kept := TwoParts(WholeSet(r), WeekStart(r) * DAY, DayOf(r.dtstart) * DAY, (WeekStart(r) + 7) * DAY);
    forall u
      ensures u in cut + kept <==> WholeCandidate(r, u) && Period(r, u) == Period(r, r.dtstart)
      ensures u in kept <==> Candidate(r, u) && Period(r, u) == Period(r, r.dtstart)
    {
      WeekMember(r, u);
    }
  }

  /** The choice of the i-th of n kept candidates does not depend on how the first week is taken: it is chosen from
      the end, or its position from the start is chosen both with and without the candidates cut off, or neither. */
  predicate SameChoice(bysetpos: seq<int>, cut: nat, n: nat, i: int) {
    i - n in bysetpos || (i + 1 in bysetpos <==> cut + i + 1 in bysetpos)
  }

  lemma ChosenAt(s: seq<int>, bysetpos: seq<int>, i: nat)
    requires Increasing(s) && i < |s|
    ensures (exists p :: p in bysetpos && AtPosition(s, p, s[i])) <==> i + 1 in bysetpos || i - |s| in bysetpos
  {
    forall p
      ensures AtPosition(s, p, s[i]) <==> p == i + 1 || p == i - |s|
    {
    }
  }

  lemma OnlyPeriodSet(r: Rule, t: int, s: seq<int>)
    requires r.interval >= 1 && DAY <= r.dtstart && DAY <= t && IsPeriodSet(r, t, s)
    ensures SetPosOk(r, t) <==> exists p :: p in r.bysetpos && AtPosition(s, p, t)
  {
    forall z | IsPeriodSet(r, t, z)
      ensures z == s
    {
      IncreasingUnique(z, s);
    }
  }

  lemma OnlyWholeSet(r: Rule, t: int, w: seq<int>)
    requires r.interval >= 1 && DAY <= r.dtstart && DAY <= t && r.bysetpos != [] && IsWholeSet(r, t, w) && t in w
    ensures WholePicked(r, t) <==> exists p :: p in r.bysetpos && AtPosition(w, p, t)
  {
    forall z | IsWholeSet(r, t, z)
      ensures z == w
    {
      IncreasingUnique(z, w);
    }
  }

  lemma GeneratorPicks(r: Rule, s: seq<int>, i: nat)
    requires r.interval >= 1 && DAY <= r.dtstart && r.bysetpos != [] && i < |s| && IsPeriodSet(r, r.dtstart, s)
    ensures Picked(r, s[i]) <==> i + 1 in r.bysetpos || i - |s| in r.bysetpos
    ensures DAY <= s[i] && Period(r, s[i]) == Period(r, r.dtstart)
  {
    var t := s[i];
    assert t in s;
    assert Candidate(r, t) && IsPeriodSet(r, t, s);
    OnlyPeriodSet(r, t, s);
    ChosenAt(s, r.bysetpos, i);
  }

  lemma WholeWeekPicks(r: Rule, w: seq<int>, j: nat)
    requires r.interval >= 1 && DAY <= r.dtstart && r.bysetpos != [] && j < |w| && IsWholeSet(r, r.dtstart, w)
    ensures WholePicked(r, w[j]) <==> j + 1 in r.bysetpos || j - |w| in r.bysetpos
  {
    var t := w[j];
    assert t in w;
    assert WholeCandidate(r, t) && IsWholeSet(r, t, w);
    OnlyWholeSet(r, t, w);
    ChosenAt(w, r.bysetpos, j);
  }

  /** What the generator and the whole-week reading pick in the first week, by the positions alone. */
  lemma PickedInFirstWeek(r: Rule, cut: seq<int>, kept: seq<int>, i: nat)
    requires r.interval >= 1 && DAY <= r.dtstart && r.bysetpos != [] && i < |kept| && IsFirstWeek(r, cut, kept)
    ensures Picked(r, kept[i]) <==> i + 1 in r.bysetpos || i - |kept| in r.bysetpos
    ensures WholePicked(r, kept[i]) <==> |cut| + i + 1 in r.bysetpos || i - |kept| in r.bysetpos
  {
    GeneratorPicks(r, kept, i);
    WholePickAt(r, cut, kept, cut + kept, |cut| + i, i);
  }

  lemma WholePickAt(r: Rule, cut: seq<int>, kept: seq<int>, w: seq<int>, j: nat, i: nat)
    requires r.interval >= 1 && DAY <= r.dtstart && r.bysetpos != [] && i < |kept| && IsWholeSet(r, r.dtstart, w)
    requires w == cut + kept && j == |cut| + i
    ensures WholePicked(r, kept[i]) <==> j + 1 in r.bysetpos || i - |kept| in r.bysetpos
  {
    var t := PlaceInWhole(cut, kept, w, j, i);
    WholeWeekPicks(r, w, j);
    assert j - |w| == i - |kept|;
  }

  lemma PlaceInWhole(cut: seq<int>, kept: seq<int>, w: seq<int>, j: nat, i: nat) returns (t: int)
    requires i < |kept| && w == cut + kept && j == |cut| + i
    ensures j < |w| == |cut| + |kept| && t == w[j] == kept[i]
  {
    t := w[j];
  }

  /** From DTSTART on the generator and the whole-week reading pick the same results exactly when every kept
      candidate of the first week is chosen, or not, in both ways of counting. */
  lemma ReadingsAgreeIff(r: Rule, cut: seq<int>, kept: seq<int>)
    requires r.interval >= 1 && DAY <= r.dtstart && 0 <= r.wkst < 7 && IsFirstWeek(r, cut, kept)
    ensures (forall t :: r.dtstart <= t ==> (Picked(r, t) <==> WholePicked(r, t))) <==>
              r.freq != WEEKLY || r.bysetpos == [] ||
              forall i :: 0 <= i < |kept| && r.dtstart <= kept[i] ==> SameChoice(r.bysetpos, |cut|, |kept|, i)
  {
    if r.freq != WEEKLY || r.bysetpos == [] {
      forall t | r.dtstart <= t
        ensures Picked(r, t) <==> WholePicked(r, t)
      {
        WholeWeeksAgree(r, t);
      }
    } else {
      forall i | 0 <= i < |kept|
        ensures (Picked(r, kept[i]) <==> WholePicked(r, kept[i])) <==> SameChoice(r.bysetpos, |cut|, |kept|, i)
      {
        PickedInFirstWeek(r, cut, kept, i);
      }
      forall t | r.dtstart <= t && t !in kept
        ensures Picked(r, t) <==> WholePicked(r, t)
      {
        OutsideFirstWeek(r, kept, t);
      }
    }
  }

  lemma OutsideFirstWeek(r: Rule, kept: seq<int>, t: int)
    requires r.freq == WEEKLY && r.interval >= 1 && DAY <= r.dtstart <= t && 0 <= r.wkst < 7
    requires IsPeriodSet(r, r.dtstart, kept) && t !in kept
    ensures Picked(r, t) <==> WholePicked(r, t)
  {
    PeriodMonotone(r, r.dtstart, t);
    if Period(r, r.dtstart) < Period(r, t) {
      WholeWeeksAgree(r, t);
    } else {
      CandidateOfWeek(r, t);
    }
  }

  /** In particular they agree when no candidate is cut off, and when all positions count from the end. */
  lemma FirstWeekUnaffected(r: Rule, cut: seq<int>, kept: seq<int>)
    requires r.interval >= 1 && DAY <= r.dtstart && 0 <= r.wkst < 7 && IsFirstWeek(r, cut, kept)
    requires cut == [] || forall p :: p in r.bysetpos ==> p < 0
    ensures forall t :: r.dtstart <= t ==> (Picked(r, t) <==> WholePicked(r, t))
  {
    ReadingsAgreeIff(r, cut, kept);
    forall i | 0 <= i < |kept|
      ensures SameChoice(r.bysetpos, |cut|, |kept|, i)
    {
    }
  }

  /** DTSTART on Wednesday 3 January of the year 1, weeks from Monday,
      FREQ=WEEKLY;BYDAY=MO,WE;BYSETPOS=1 at midnight. */
  predicate FirstOfMondayAndWednesday(r: Rule) {
    && r.freq == WEEKLY && r.interval == 1 && r.wkst == 0 && r.dtstart == 3 * DAY && r.bysetpos == [1]
    && r.byweekday == [0, 2] && r.bynweekday == [] && r.bymonth == [] && r.byyearday == []
    && r.bymonthday == [] && r.bynmonthday == [] && r.byhour == [0] && r.byminute == [0] && r.bysecond == [0]
  }

  lemma Midnight(r: Rule, u: int)
    requires FirstOfMondayAndWednesday(r) && DAY <= u
    ensures TimeOk(r, u) <==> u == DayOf(u) * DAY
    ensures DateOk(r, DayOf(u)) <==> Weekday(DayOf(u)) == 0 || Weekday(DayOf(u)) == 2
    ensures Period(r, u) == 1 <==> DayOf(u) <= 7
  {
    ZeroClock(u);
    FirstWeek(DayOf(u));
  }

  lemma ZeroClock(u: int)
    ensures HourOf(u) == 0 && MinuteOf(u) == 0 && SecondOf(u) == 0 <==> u == DayOf(u) * DAY
  {
    SplitSecond(u);
  }

  lemma FirstWeek(n: int)
    requires 1 <= n
    ensures WeekIndex(n, 0) == 1 <==> n <= 7
    ensures n <= 7 ==> (Weekday(n) == 0 <==> n == 1) && (Weekday(n) == 2 <==> n == 3)
  {
  }

  lemma FirstWeekOf(r: Rule, u: int)
    requires FirstOfMondayAndWednesday(r) && DAY <= u
    ensures WholeCandidate(r, u) && Period(r, u) == Period(r, 3 * DAY) <==> u == DAY || u == 3 * DAY
    ensures Candidate(r, u) && Period(r, u) == Period(r, 3 * DAY) <==> u == 3 * DAY
  {
    Midnight(r, u);
    OneByOne(r, u);
    CandidateIs(r, u, DayOf(u));
    FirstWeekDays(u, TimeOk(r, u), DateOk(r, DayOf(u)));
  }

  lemma FirstWeekDays(u: int, timeOk: bool, dateOk: bool)
    requires DAY <= u && (timeOk <==> u == DayOf(u) * DAY)
    requires dateOk <==> Weekday(DayOf(u)) == 0 || Weekday(DayOf(u)) == 2
    ensures timeOk && dateOk && DayOf(u) <= 7 <==> u == DAY || u == 3 * DAY
    ensures timeOk && dateOk && 3 <= DayOf(u) <= 7 <==> u == 3 * DAY
  {
    FirstWeek(DayOf(u));
  }

  lemma OneByOne(r: Rule, u: int)
    requires FirstOfMondayAndWednesday(r) && DAY <= u
    ensures (Period(r, u) - Period(r, r.dtstart)) % r.interval == 0
    ensures Period(r, 3 * DAY) == 1
  {
  }

  lemma CandidateIs(r: Rule, u: int, n: int)
    requires FirstOfMondayAndWednesday(r) && DAY <= u && n == DayOf(u)
    requires (Period(r, u) - Period(r, r.dtstart)) % r.interval == 0
    ensures WholeCandidate(r, u) <==> DateOk(r, n) && TimeOk(r, u)
    ensures Candidate(r, u) <==> DateOk(r, n) && TimeOk(r, u) && 3 <= n
  {
  }

  /** The first of Monday and Wednesday: the generator yields the Wednesday on which the rule starts; in the whole
      week it is not the first. */
  lemma FirstWeekIsCut(r: Rule)
    requires FirstOfMondayAndWednesday(r)
    ensures Picked(r, 3 * DAY) && !WholePicked(r, 3 * DAY)
  {
    var t := 3 * DAY;
    FirstWeekSets(r);
    assert 1 in r.bysetpos && AtPosition([t], 1, t);
    FirstWeekOf(r, t);
    forall s | IsWholeSet(r, t, s)
      ensures s == [DAY, t]
    {
      IncreasingUnique(s, [DAY, t]);
    }
  }

  lemma FirstWeekSets(r: Rule)
    requires FirstOfMondayAndWednesday(r)
    ensures IsPeriodSet(r, 3 * DAY, [3 * DAY]) && IsWholeSet(r, 3 * DAY, [DAY, 3 * DAY])
  {
    forall u
      ensures u in [3 * DAY] <==> Candidate(r, u) && Period(r, u) == Period(r, 3 * DAY)
      ensures u in [DAY, 3 * DAY] <==> WholeCandidate(r, u) && Period(r, u) == Period(r, 3 * DAY)
    {
      if DAY <= u {
        FirstWeekOf(r, u);
      }
    }
  }
}
