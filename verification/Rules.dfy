/** Recurrence rules as rrule.py stores them after normalisation, and what a rule means:
    which date-times recur, said on the calendar alone (section 3.3.10 of RFC 5545).
    A date-time is a number of seconds, 86400 * ordinal + second of the day. */
module Rules {
  import opened Sequences
  import opened Calendar
  import opened Listings

  datatype Freq = YEARLY | MONTHLY | WEEKLY | DAILY | HOURLY | MINUTELY | SECONDLY {
    function Rank(): int {
      match this
      case YEARLY => 0 case MONTHLY => 1 case WEEKLY => 2 case DAILY => 3
      case HOURLY => 4 case MINUTELY => 5 case SECONDLY => 6
    }
  }

  /** An empty list stands for a BYxxx part that is absent. */
  datatype Rule = Rule(
    freq: Freq,
    dtstart: int,
    interval: int,
    wkst: int,
    count: Option<int>,
    until: Option<int>,
    bysetpos: seq<int>,
    bymonth: seq<int>,
    bymonthday: seq<int>,
    bynmonthday: seq<int>,
    byyearday: seq<int>,
    byweekday: seq<int>,
    bynweekday: seq<(int, int)>,
    byhour: seq<int>,
    byminute: seq<int>,
    bysecond: seq<int>
  )

  const DAY: int := 86400

  function DayOf(t: int): int { t / DAY }

  function HourOf(t: int): int { t % DAY / 3600 }

  function MinuteOf(t: int): int { t % 3600 / 60 }

  function SecondOf(t: int): int { t % 60 }

  // ---- The meaning of a rule ----

  /** Day n is the k-th day of its weekday in lo..hi, counted from the start or, for k < 0, from the end. */
  predicate IsNth(k: int, lo: int, hi: int, n: int) {
    if k > 0 then WeekdaysIn(lo, n, Weekday(n)) == k
    else WeekdaysIn(n, hi, Weekday(n)) == -k
  }

  /** First and last day of the span in which day n is counted: its year, or its month. */
  function NthSpan(r: Rule, n: int): (int, int)
    requires 1 <= n
  {
    var y := YearOf(n);
    if r.freq == YEARLY && r.bymonth == [] then (DaysBeforeYear(y) + 1, DaysBeforeYear(y) + YearLen(y))
    else (ToOrdinal(y, MonthOf(n), 1), ToOrdinal(y, MonthOf(n), DaysInMonth(y, MonthOf(n))))
  }

  predicate NthOk(r: Rule, n: int)
    requires 1 <= n
  {
    var span := NthSpan(r, n);
    exists p :: p in r.bynweekday && p.0 == Weekday(n) && IsNth(p.1, span.0, span.1, n)
  }

  /** A day passes the filters by its month, weekday, day of the month and day of the year, the last two
      counted from the start and from the end. */
  predicate Passes(r: Rule, month: int, weekday: int, monthDay: int, monthEnd: int, yearDay: int, yearEnd: int) {
    && (r.bymonth == [] || month in r.bymonth)
    && (r.byweekday == [] || weekday in r.byweekday)
    && ((r.bymonthday == [] && r.bynmonthday == []) || monthDay in r.bymonthday || monthEnd in r.bynmonthday)
    && (r.byyearday == [] || yearDay in r.byyearday || yearEnd in r.byyearday)
  }

  /** The BYxxx parts that filter days, without the nth weekdays. */
  predicate PlainDateOk(r: Rule, n: int)
    requires 1 <= n
  {
    Passes(r, MonthOf(n), Weekday(n), MonthDay(n), MonthDay(n) - DaysInMonth(YearOf(n), MonthOf(n)) - 1,
           YearDay(n) + 1, YearDay(n) - YearLen(YearOf(n)))
  }

  /** The BYxxx parts that filter days. */
  predicate DateOk(r: Rule, n: int)
    requires 1 <= n
  {
    PlainDateOk(r, n) && (r.bynweekday == [] || NthOk(r, n))
  }

  ghost function DateSet(r: Rule): iset<int> {
    iset n | 1 <= n && DateOk(r, n)
  }

  predicate Allowed(x: int, list: seq<int>, mayBeAbsent: bool) {
    (mayBeAbsent && list == []) || x in list
  }

  /** The BYxxx parts that filter or expand times. */
  predicate TimeOk(r: Rule, t: int) {
    && Allowed(HourOf(t), r.byhour, r.freq.Rank() >= 4)
    && Allowed(MinuteOf(t), r.byminute, r.freq.Rank() >= 5)
    && Allowed(SecondOf(t), r.bysecond, r.freq.Rank() >= 6)
  }

  function WeekIndex(n: int, wkst: int): int {
    (n + 6 - wkst) / 7
  }

  /** The number of the FREQ period that holds t. */
  function Period(r: Rule, t: int): int
    requires DAY <= t
  {
    match r.freq
    case YEARLY => YearOf(DayOf(t))
    case MONTHLY => MonthIndex(DayOf(t))
    case WEEKLY => WeekIndex(DayOf(t), r.wkst)
    case DAILY => DayOf(t)
    case HOURLY => t / 3600
    case MINUTELY => t / 60
    case SECONDLY => t
  }

  /** t lies in a period that INTERVAL selects and passes every filter. The first week of a WEEKLY
      rule starts on the day of DTSTART. */
  predicate Candidate(r: Rule, t: int)
    requires r.interval >= 1 && DAY <= r.dtstart
  {
    && DAY <= t
    && DateOk(r, DayOf(t))
    && TimeOk(r, t)
    && (Period(r, t) - Period(r, r.dtstart)) % r.interval == 0
    && (r.freq == WEEKLY ==> DayOf(r.dtstart) <= DayOf(t))
  }

  /** s lists, in order, the candidates of the period that holds t. */
  ghost predicate IsPeriodSet(r: Rule, t: int, s: seq<int>)
    requires r.interval >= 1 && DAY <= r.dtstart && DAY <= t
  {
    && Increasing(s)
    && forall u :: u in s <==> Candidate(r, u) && Period(r, u) == Period(r, t)
  }

  /** t is at position p of s, counted from 1, or from the end for p < 0. */
  predicate AtPosition(s: seq<int>, p: int, t: int) {
    var i := if p > 0 then p - 1 else |s| + p;
    0 <= i < |s| && s[i] == t
  }

  ghost predicate SetPosOk(r: Rule, t: int)
    requires r.interval >= 1 && DAY <= r.dtstart && DAY <= t
  {
    exists s, p :: IsPeriodSet(r, t, s) && p in r.bysetpos && AtPosition(s, p, t)
  }

  ghost predicate Picked(r: Rule, t: int)
    requires r.interval >= 1 && DAY <= r.dtstart
  {
    Candidate(r, t) && (r.bysetpos == [] || SetPosOk(r, t))
  }

  /** t recurs, COUNT aside. */
  ghost predicate Matches(r: Rule, t: int)
    requires r.interval >= 1 && DAY <= r.dtstart
  {
    && Picked(r, t)
    && r.dtstart <= t
    && (r.until.Some? ==> t <= r.until.value)
    && DayOf(t) <= MaxOrdinal()
  }

  ghost function PickedSet(r: Rule): iset<int>
    requires r.interval >= 1 && DAY <= r.dtstart
  {
    iset t | Picked(r, t)
  }

  ghost function MatchSet(r: Rule): iset<int>
    requires r.interval >= 1 && DAY <= r.dtstart
  {
    iset t | Matches(r, t)
  }

  /** out is the recurrence set: all matches in order, or the first COUNT of them. */
  ghost predicate IsRecurrenceSet(r: Rule, out: seq<int>)
    requires r.interval >= 1 && DAY <= r.dtstart
  {
    Lists(MatchSet(r), out, r.count)
  }

  /** out is an initial part of the recurrences, in order. */
  ghost predicate IsInitialPart(r: Rule, out: seq<int>)
    requires r.interval >= 1 && DAY <= r.dtstart
  {
    StartsList(MatchSet(r), out, r.count)
  }

  /** The recurrence set is unique. */
  lemma RecurrenceSetUnique(r: Rule, a: seq<int>, b: seq<int>)
    requires r.interval >= 1 && DAY <= r.dtstart
    requires IsRecurrenceSet(r, a) && IsRecurrenceSet(r, b)
    ensures a == b
  {
    ListUnique(MatchSet(r), a, b, r.count);
  }

  /** out holds exactly the matches before b, and COUNT allows them. */
  ghost predicate Covers(r: Rule, out: seq<int>, b: int)
    requires r.interval >= 1 && DAY <= r.dtstart
  {
    ListsBelow(MatchSet(r), out, r.count, b)
  }
}
