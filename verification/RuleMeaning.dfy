/** What the keyword arguments of a rule mean: which date-times recur, said of the arguments and DTSTART alone. */
module RuleMeaning {
  import opened Sequences
  import opened Calendar
  import opened Listings
  import opened Rules
  import opened RuleInit
  import opened Stepping
  import opened Outcomes
  import Generator
  import Periods

  // ---- Days ----

  /** An argument that is absent or empty asks for nothing. */
  predicate Among(list: Option<seq<int>>, x: int) {
    list.None? || list.value == [] || x in list.value
  }

  predicate NoMonth(a: Args) {
    a.bymonth.None? || a.bymonth.value == []
  }

  predicate AmongEither(list: Option<seq<int>>, x: int, fromEnd: int) {
    Among(list, x) || fromEnd in list.value
  }

  /** A zero is no day of a month. */
  predicate NamesDay(list: Option<seq<int>>) {
    list.Some? && exists x :: x in list.value && x != 0
  }

  /** The number counts only in a year or a month. */
  predicate IsNumbered(w: WDay, f: Freq) {
    w.n != 0 && (f == YEARLY || f == MONTHLY)
  }

  /** Day n is in the k-th seven days of its month, or of its year when a yearly rule gives no month, counted from
      the start or, for k < 0, from the end. */
  predicate InSeventh(a: Args, k: int, n: int)
    requires 1 <= n
  {
    var wholeYear := a.freq == YEARLY && NoMonth(a);
    var before := if wholeYear then YearDay(n) else MonthDay(n) - 1;
    var after := if wholeYear then YearLen(YearOf(n)) - YearDay(n) - 1 else DaysInMonth(YearOf(n), MonthOf(n)) - MonthDay(n);
    if k > 0 then 7 * (k - 1) <= before < 7 * k else 7 * (-k - 1) <= after < 7 * -k
  }

  /** Plain weekdays and numbered ones, where given, are both asked for. */
  predicate WeekdayMeant(a: Args, n: int)
    requires 1 <= n
  {
    a.byweekday.Some? ==>
      var ws := a.byweekday.value;
      && ((forall w :: w in ws ==> IsNumbered(w, a.freq))
          || exists w :: w in ws && !IsNumbered(w, a.freq) && w.weekday == Weekday(n))
      && ((forall w :: w in ws ==> !IsNumbered(w, a.freq))
          || exists w :: w in ws && IsNumbered(w, a.freq) && w.weekday == Weekday(n) && InSeventh(a, w.n, n))
  }

  /** Day n is one that the arguments ask for, or, where none names a day, one like day d of DTSTART. */
  predicate DayMeant(a: Args, d: int, n: int)
    requires 1 <= d && 1 <= n
  {
    && Among(a.bymonth, MonthOf(n))
    && if a.byweekno.Some? || a.byyearday.Some? || a.bymonthday.Some? || a.byweekday.Some? || a.byeaster.Some? then
         && WeekdayMeant(a, n)
         && (NamesDay(a.bymonthday) ==> AmongEither(a.bymonthday, MonthDay(n), MonthDay(n) - DaysInMonth(YearOf(n), MonthOf(n)) - 1))
         && AmongEither(a.byyearday, YearDay(n) + 1, YearDay(n) - YearLen(YearOf(n)))
       else
         match a.freq
         case YEARLY => MonthDay(n) == MonthDay(d) && (a.bymonth.None? ==> MonthOf(n) == MonthOf(d))
         case MONTHLY => MonthDay(n) == MonthDay(d)
         case WEEKLY => (n - d) % 7 == 0
         case _ => true
  }

  lemma SortedMeans(list: Option<seq<int>>, x: int)
    ensures ListOf(MapSet(list)) == [] || x in ListOf(MapSet(list)) <==> Among(list, x)
    ensures x in ListOf(MapSet(list)) <==> list.Some? && x in list.value
    ensures ListOf(MapSet(list)) == [] <==> list.None? || list.value == []
  {
    if list.Some? {
      HasMember(list.value);
      HasMember(SortedSet(list.value));
    }
  }

  /** The n-th weekday is the one in the n-th seven days. */
  lemma NthIsSeventh(k: int, lo: int, hi: int, n: int)
    requires k != 0 && lo <= n <= hi
    ensures IsNth(k, lo, hi, n) <==> if k > 0 then 7 * (k - 1) <= n - lo < 7 * k else 7 * (-k - 1) <= hi - n < 7 * -k
  {
    if k > 0 {
      WeekdaysInIs(lo, n, Weekday(n));
      SeventhsBefore(lo, n);
    } else {
      WeekdaysInIs(n, hi, Weekday(n));
    }
  }

  lemma SeventhsBefore(lo: int, n: int)
    requires lo <= n
    ensures (n - lo + 7 - (Weekday(n) - Weekday(lo)) % 7) / 7 == (n - lo) / 7 + 1
  {
    assert (Weekday(n) - Weekday(lo)) % 7 == (n - lo) % 7;
  }

  lemma SpanOfDay(r: Rule, n: int)
    requires 1 <= n
    ensures var span := NthSpan(r, n);
            if r.freq == YEARLY && r.bymonth == [] then n - span.0 == YearDay(n) && span.1 - n == YearLen(YearOf(n)) - YearDay(n) - 1
            else n - span.0 == MonthDay(n) - 1 && span.1 - n == DaysInMonth(YearOf(n), MonthOf(n)) - MonthDay(n)
  {
    InMonthInterval(YearOf(n), MonthOf(n), n);
  }

  lemma SeventhMeans(a: Args, r: Rule, k: int, n: int)
    requires 1 <= n && k != 0 && r.freq == a.freq && (r.bymonth == [] <==> NoMonth(a))
    ensures var span := NthSpan(r, n); IsNth(k, span.0, span.1, n) <==> InSeventh(a, k, n)
  {
    var span := NthSpan(r, n);
    SpanOfDay(r, n);
    NthIsSeventh(k, span.0, span.1, n);
  }

  lemma WeekdaysMean(a: Args, r: Rule, n: int)
    requires 1 <= n && r.freq == a.freq && (r.bymonth == [] <==> NoMonth(a))
    requires r.byweekday == ListOf(PlainField(a.byweekday, a.freq)) && r.bynweekday == ListOf(NthField(a.byweekday, a.freq))
    ensures (r.byweekday == [] || Weekday(n) in r.byweekday) && (r.bynweekday == [] || NthOk(r, n)) <==> WeekdayMeant(a, n)
  {
    if a.byweekday.Some? {
      PlainMeans(a, r, n);
      NthsMean(a, r, n);
    }
  }

  lemma PlainMeans(a: Args, r: Rule, n: int)
    requires 1 <= n && a.byweekday.Some? && r.byweekday == ListOf(PlainField(a.byweekday, a.freq))
    ensures var ws := a.byweekday.value;
            r.byweekday == [] || Weekday(n) in r.byweekday <==>
            || (forall w :: w in ws ==> IsNumbered(w, a.freq))
            || exists w :: w in ws && !IsNumbered(w, a.freq) && w.weekday == Weekday(n)
  {
    var plain := Plain(a.byweekday.value, a.freq);
    HasMember(plain);
    HasMember(SortedSet(plain));
    forall w | w in a.byweekday.value && !IsNumbered(w, a.freq)
      ensures w.weekday in plain
    {
    }
  }

  lemma NthsMean(a: Args, r: Rule, n: int)
    requires 1 <= n && r.freq == a.freq && (r.bymonth == [] <==> NoMonth(a))
    requires a.byweekday.Some? && r.bynweekday == ListOf(NthField(a.byweekday, a.freq))
    ensures var ws := a.byweekday.value;
            r.bynweekday == [] || NthOk(r, n) <==>
            || (forall w :: w in ws ==> !IsNumbered(w, a.freq))
            || exists w :: w in ws && IsNumbered(w, a.freq) && w.weekday == Weekday(n) && InSeventh(a, w.n, n)
  {
    var ws := a.byweekday.value;
    NthMembers(ws, a.freq, r.bynweekday);
    forall w | w in ws && IsNumbered(w, a.freq)
      ensures var span := NthSpan(r, n); IsNth(w.n, span.0, span.1, n) <==> InSeventh(a, w.n, n)
    {
      SeventhMeans(a, r, w.n, n);
    }
    if w :| w in ws && IsNumbered(w, a.freq) && w.weekday == Weekday(n) && InSeventh(a, w.n, n) {
      assert (w.weekday, w.n) in r.bynweekday;
    }
    if r.bynweekday != [] && NthOk(r, n) {
      var span := NthSpan(r, n);
      var p :| p in r.bynweekday && p.0 == Weekday(n) && IsNth(p.1, span.0, span.1, n);
      var w := WDay(p.0, p.1);
      assert w in ws && IsNumbered(w, a.freq);
    }
  }

  lemma NthMembers(ws: seq<WDay>, f: Freq, nths: seq<(int, int)>)
    requires nths == ListOf(NthField(Some(ws), f))
    ensures forall p :: p in nths <==> WDay(p.0, p.1) in ws && IsNumbered(WDay(p.0, p.1), f)
    ensures nths == [] <==> forall w :: w in ws ==> !IsNumbered(w, f)
  {
    var all := Nths(ws, f);
    HasMember(all);
    HasMember(SortedPairs(all));
    forall w | w in ws && IsNumbered(w, f)
      ensures (w.weekday, w.n) in all
    {
    }
    if nths != [] {
      assert nths[0] in nths;
    }
  }

  lemma MonthDaysMean(list: Option<seq<int>>, x: int, fromEnd: int)
    requires fromEnd < 0 < x
    ensures var ps := if list.None? then [] else SortedSet(Positive(list.value));
            var ns := if list.None? then [] else SortedSet(Negative(list.value));
            (ps == [] && ns == []) || x in ps || fromEnd in ns <==>
            (NamesDay(list) ==> AmongEither(list, x, fromEnd))
  {
    if list.Some? {
      HasMember(Positive(list.value));
      HasMember(Negative(list.value));
      HasMember(SortedSet(Positive(list.value)));
      HasMember(SortedSet(Negative(list.value)));
      if y :| y in list.value && y != 0 {
        assert y in Positive(list.value) || y in Negative(list.value);
      }
    }
  }

  lemma YearDaysMean(list: Option<seq<int>>, x: int, fromEnd: int)
    ensures var s := ListOf(MapSet(list)); s == [] || x in s || fromEnd in s <==> AmongEither(list, x, fromEnd)
  {
    SortedMeans(list, x);
    SortedMeans(list, fromEnd);
  }

  /** The date filters of the rule that the constructor builds ask for the days that the arguments mean. */
  lemma DaysMean(a: Args, t: int, until: Option<int>, n: int)
    requires DAY <= t && Init(a, t).Some? && 1 <= n
    ensures DateOk(ToRule(Init(a, t).value, t, until), n) <==> DayMeant(a, DayOf(t), n)
  {
    var r := ToRule(Init(a, t).value, t, until);
    if NoDayGiven(a) {
      DefaultDays(a, t, r, n);
    } else {
      GivenFields(a, t, r);
      GivenDays(a, r, DayOf(t), n);
    }
  }

  /** The lists of a rule whose arguments name days. */
  lemma GivenFields(a: Args, t: int, r: Rule)
    requires DAY <= t && Init(a, t).Some? && !NoDayGiven(a) && r == ToRule(Init(a, t).value, t, r.until)
    ensures Gives(a, r)
  {
  }

  ghost predicate Gives(a: Args, r: Rule) {
    && r.freq == a.freq && r.bymonth == ListOf(MapSet(a.bymonth)) && r.byyearday == ListOf(MapSet(a.byyearday))
    && r.bymonthday == (if a.bymonthday.None? then [] else SortedSet(Positive(a.bymonthday.value)))
    && r.bynmonthday == (if a.bymonthday.None? then [] else SortedSet(Negative(a.bymonthday.value)))
    && r.byweekday == ListOf(PlainField(a.byweekday, a.freq)) && r.bynweekday == ListOf(NthField(a.byweekday, a.freq))
  }

  lemma GivenDays(a: Args, r: Rule, d: int, n: int)
    requires 1 <= d && 1 <= n && !NoDayGiven(a) && Gives(a, r)
    ensures DateOk(r, n) <==> DayMeant(a, d, n)
  {
    SortedMeans(a.bymonth, MonthOf(n));
    WeekdaysMean(a, r, n);
    MonthDaysMean(a.bymonthday, MonthDay(n), MonthDay(n) - DaysInMonth(YearOf(n), MonthOf(n)) - 1);
    YearDaysMean(a.byyearday, YearDay(n) + 1, YearDay(n) - YearLen(YearOf(n)));
  }

  lemma DefaultDays(a: Args, t: int, r: Rule, n: int)
    requires DAY <= t && Init(a, t).Some? && 1 <= n && NoDayGiven(a) && r == ToRule(Init(a, t).value, t, r.until)
    ensures DateOk(r, n) <==> DayMeant(a, DayOf(t), n)
  {
    var d := DayOf(t);
    DefaultFields(a, t, r);
    FewFilters(r, n);
    SortedMeans(a.bymonth, MonthOf(n));
    SortedMeans(Some([MonthOf(d)]), MonthOf(n));
    SameWeekday(n, d);
    DefaultMeant(a, d, n);
  }

  lemma FewFilters(r: Rule, n: int)
    requires 1 <= n && r.byyearday == [] && r.bynmonthday == [] && r.bynweekday == []
    ensures DateOk(r, n) <==> (r.bymonth == [] || MonthOf(n) in r.bymonth) && (r.bymonthday == [] || MonthDay(n) in r.bymonthday)
                              && (r.byweekday == [] || Weekday(n) in r.byweekday)
  {
  }

  lemma DefaultMeant(a: Args, d: int, n: int)
    requires 1 <= d && 1 <= n && NoDayGiven(a)
    ensures DayMeant(a, d, n) <==>
            && Among(if a.freq == YEARLY && a.bymonth.None? then Some([MonthOf(d)]) else a.bymonth, MonthOf(n))
            && (a.freq == YEARLY || a.freq == MONTHLY ==> MonthDay(n) == MonthDay(d))
            && (a.freq == WEEKLY ==> (n - d) % 7 == 0)
  {
  }

  lemma SameWeekday(n: int, d: int)
    ensures Weekday(n) == Weekday(d) <==> (n - d) % 7 == 0
  {
  }

  /** The lists of a rule whose arguments name no day. */
  lemma DefaultFields(a: Args, t: int, r: Rule)
    requires DAY <= t && Init(a, t).Some? && NoDayGiven(a) && r == ToRule(Init(a, t).value, t, r.until)
    ensures r.freq == a.freq && r.byyearday == [] && r.bynmonthday == [] && r.bynweekday == []
    ensures r.bymonth == ListOf(MapSet(if a.freq == YEARLY && a.bymonth.None? then Some([MonthOf(DayOf(t))]) else a.bymonth))
    ensures r.bymonthday == if a.freq == YEARLY || a.freq == MONTHLY then [MonthDay(DayOf(t))] else []
    ensures r.byweekday == if a.freq == WEEKLY then [Weekday(DayOf(t))] else []
  {
    DefaultDates(a, t, r);
    DefaultWeekdays(a, t, r);
  }

  lemma DefaultDates(a: Args, t: int, r: Rule)
    requires DAY <= t && Init(a, t).Some? && NoDayGiven(a) && r == ToRule(Init(a, t).value, t, r.until)
    ensures r.freq == a.freq && r.byyearday == [] && r.bynmonthday == []
    ensures r.bymonth == ListOf(MapSet(if a.freq == YEARLY && a.bymonth.None? then Some([MonthOf(DayOf(t))]) else a.bymonth))
    ensures r.bymonthday == if a.freq == YEARLY || a.freq == MONTHLY then [MonthDay(DayOf(t))] else []
  {
    PositiveOne(MonthDay(DayOf(t)));
  }

  lemma DefaultWeekdays(a: Args, t: int, r: Rule)
    requires DAY <= t && Init(a, t).Some? && NoDayGiven(a) && r == ToRule(Init(a, t).value, t, r.until)
    ensures r.bynweekday == [] && r.byweekday == if a.freq == WEEKLY then [Weekday(DayOf(t))] else []
  {
    OneWeekday(Weekday(DayOf(t)));
  }

  lemma OneWeekday(w: int)
    ensures PlainField(Some([WDay(w, 0)]), WEEKLY) == Some([w]) && ListOf(NthField(Some([WDay(w, 0)]), WEEKLY)) == []
  {
    var ws := [WDay(w, 0)];
    assert ws[1..] == [];
    assert Plain(ws, WEEKLY) == [w] + Plain([], WEEKLY);
    assert Nths(ws, WEEKLY) == [];
    SortedSetOfIncreasing([w]);
  }

  // ---- Times ----

  /** The value x of one clock field: where the argument is absent or, from its own frequency on, empty, it is that
      of DTSTART below that frequency and anything from it on. */
  predicate FieldMeant(given: Option<seq<int>>, free: bool, start: int, x: int) {
    if given.None? then free || x == start else x in given.value || (free && given.value == [])
  }

  /** u has a time of day that the arguments ask for, or, where they do not say, that of DTSTART. */
  predicate TimeMeant(a: Args, t: int, u: int) {
    && FieldMeant(a.byhour, a.freq in {HOURLY, MINUTELY, SECONDLY}, t % 86400 / 3600, u % 86400 / 3600)
    && FieldMeant(a.byminute, a.freq in {MINUTELY, SECONDLY}, t % 3600 / 60, u % 3600 / 60)
    && FieldMeant(a.bysecond, a.freq == SECONDLY, t % 60, u % 60)
  }

  /** A clock field of the rule, where INTERVAL selects the value x. */
  lemma FieldMeans(given: Option<seq<int>>, f: Freq, own: int, start: int, interval: int, base: int, x: int)
    requires base >= 1 && TimePart(given, f, own, start, interval, base).Some?
    requires f.Rank() == own && given.Some? ==> (x in given.value <==> x in Reached(given.value, start, interval, base))
    ensures Allowed(x, ListOf(TimePart(given, f, own, start, interval, base).value), f.Rank() >= own) <==>
            FieldMeant(given, f.Rank() >= own, start, x)
  {
    if given.Some? {
      HasMember(SortedSet(given.value));
      HasMember(SortedSet(Reached(given.value, start, interval, base)));
      HasMember(given.value);
    }
  }

  lemma TimesMean(a: Args, t: int, until: Option<int>, u: int)
    requires DAY <= t && a.interval >= 1 && Init(a, t).Some?
    requires a.freq.Rank() >= 4 ==> (u / Periods.UnitSeconds(a.freq) - t / Periods.UnitSeconds(a.freq)) % a.interval == 0
    ensures TimeOk(ToRule(Init(a, t).value, t, until), u) <==> TimeMeant(a, t, u)
  {
    if a.freq.Rank() >= 4 {
      OwnFieldKept(a, t, u);
    }
    FieldMeans(a.byhour, a.freq, 4, HourOf(t), a.interval, 24, HourOf(u));
    FieldMeans(a.byminute, a.freq, 5, MinuteOf(t), a.interval, 60, MinuteOf(u));
    FieldMeans(a.bysecond, a.freq, 6, SecondOf(t), a.interval, 60, SecondOf(u));
  }

  lemma OwnFieldKept(a: Args, t: int, u: int)
    requires a.freq.Rank() >= 4 && a.interval >= 1
    requires (u / Periods.UnitSeconds(a.freq) - t / Periods.UnitSeconds(a.freq)) % a.interval == 0
    ensures a.freq == HOURLY && a.byhour.Some? ==>
              (HourOf(u) in a.byhour.value <==> HourOf(u) in Reached(a.byhour.value, HourOf(t), a.interval, 24))
    ensures a.freq == MINUTELY && a.byminute.Some? ==>
              (MinuteOf(u) in a.byminute.value <==> MinuteOf(u) in Reached(a.byminute.value, MinuteOf(t), a.interval, 60))
    ensures a.freq == SECONDLY && a.bysecond.Some? ==>
              (SecondOf(u) in a.bysecond.value <==> SecondOf(u) in Reached(a.bysecond.value, SecondOf(t), a.interval, 60))
  {
    var given := match a.freq case HOURLY => a.byhour case MINUTELY => a.byminute case _ => a.bysecond;
    if given.Some? {
      ReachedIsEnough(a.freq, t, u, a.interval, given.value);
    }
  }

  // ---- Periods ----

  /** The first day of the week of day n. */
  function FirstOfWeek(n: int, wkst: int): int {
    n - (Weekday(n) - wkst) % 7
  }

  function WeekStarts(a: Args): int {
    if a.wkst.None? then 0 else a.wkst.value
  }

  /** How many years, months, weeks, days, hours, minutes or seconds lie between those of t and of u. */
  function Apart(a: Args, t: int, u: int): int
    requires DAY <= t && DAY <= u
  {
    var d, n := t / 86400, u / 86400;
    match a.freq
    case YEARLY => YearOf(n) - YearOf(d)
    case MONTHLY => 12 * (YearOf(n) - YearOf(d)) + MonthOf(n) - MonthOf(d)
    case WEEKLY => (FirstOfWeek(n, WeekStarts(a)) - FirstOfWeek(d, WeekStarts(a))) / 7
    case DAILY => n - d
    case HOURLY => u / 3600 - t / 3600
    case MINUTELY => u / 60 - t / 60
    case SECONDLY => u - t
  }

  lemma ApartIs(a: Args, r: Rule, t: int, u: int)
    requires DAY <= t && DAY <= u && r.freq == a.freq && r.wkst == WeekStarts(a)
    ensures Apart(a, t, u) == Period(r, u) - Period(r, t)
  {
    match a.freq
    case MONTHLY =>
      MonthIndexOf(DayOf(t));
      MonthIndexOf(DayOf(u));
    case WEEKLY =>
      WeekIs(DayOf(t), r.wkst);
      WeekIs(DayOf(u), r.wkst);
    case _ =>
  }

  lemma WeekIs(n: int, wkst: int)
    ensures FirstOfWeek(n, wkst) == 7 * WeekIndex(n, wkst) - 6 + wkst
  {
    assert (Weekday(n) - wkst) % 7 == (n + 6 - wkst) % 7;
  }

  // ---- Recurrences ----

  /** u recurs, BYSETPOS, COUNT and the limits in time aside. */
  predicate Meant(a: Args, t: int, u: int)
    requires DAY <= t && a.interval >= 1
  {
    && DAY <= u
    && Apart(a, t, u) % a.interval == 0
    && DayMeant(a, t / 86400, u / 86400)
    && TimeMeant(a, t, u)
    && (a.freq == WEEKLY ==> t / 86400 <= u / 86400)
  }

  /** The constructor's rule has as candidates what its arguments mean. */
  lemma CandidateMeans(a: Args, t: int, until: Option<int>, u: int)
    requires DAY <= t && a.interval >= 1 && Init(a, t).Some?
    ensures Candidate(ToRule(Init(a, t).value, t, until), u) <==> Meant(a, t, u)
  {
    if DAY <= u {
      var r, dateOk, timeOk := FiltersMean(a, t, until, u);
      CandidateByParts(r, u, dateOk, timeOk, Apart(a, t, u));
    }
  }

  lemma CandidateByParts(r: Rule, u: int, dateOk: bool, timeOk: bool, apart: int)
    requires r.interval >= 1 && DAY <= r.dtstart && DAY <= u
    requires dateOk == DateOk(r, DayOf(u)) && timeOk == TimeOk(r, u) && apart == Period(r, u) - Period(r, r.dtstart)
    ensures Candidate(r, u) <==> dateOk && timeOk && apart % r.interval == 0 && (r.freq == WEEKLY ==> DayOf(r.dtstart) <= DayOf(u))
  {
  }

  lemma FiltersMean(a: Args, t: int, until: Option<int>, u: int) returns (r: Rule, dateOk: bool, timeOk: bool)
    requires DAY <= t && a.interval >= 1 && Init(a, t).Some? && DAY <= u
    ensures r == ToRule(Init(a, t).value, t, until) && r.freq == a.freq && r.interval == a.interval && r.dtstart == t
    ensures dateOk == DateOk(r, DayOf(u)) && timeOk == TimeOk(r, u) && Apart(a, t, u) == Period(r, u) - Period(r, t)
    ensures dateOk <==> DayMeant(a, DayOf(t), DayOf(u))
    ensures Apart(a, t, u) % a.interval == 0 ==> (timeOk <==> TimeMeant(a, t, u))
  {
    r := ToRule(Init(a, t).value, t, until);
    dateOk, timeOk := DateOk(r, DayOf(u)), TimeOk(r, u);
    ApartIs(a, r, t, u);
    DaysMean(a, t, until, DayOf(u));
    if Apart(a, t, u) % a.interval == 0 {
      if a.freq.Rank() >= 4 {
        Periods.PeriodIsUnit(r, t);
        Periods.PeriodIsUnit(r, u);
      }
      TimesMean(a, t, until, u);
    }
  }

  /** s lists what recurs in the year, month, week, day, hour, minute or second of u, BYSETPOS aside. */
  ghost predicate ListsPeriod(a: Args, t: int, u: int, s: seq<int>)
    requires DAY <= t && a.interval >= 1 && DAY <= u
  {
    Increasing(s) && forall v :: v in s <==> Meant(a, t, v) && Apart(a, u, v) == 0
  }

  /** u is the p-th of s for a BYSETPOS value p, or the -p-th from the end. */
  predicate PickedFrom(bysetpos: seq<int>, s: seq<int>, u: int) {
    exists k :: 0 <= k < |s| && s[k] == u && (k + 1 in bysetpos || k - |s| in bysetpos)
  }

  /** u recurs, COUNT aside. */
  ghost predicate Recurs(a: Args, t: int, until: Option<int>, u: int)
    requires DAY <= t && a.interval >= 1
  {
    && Meant(a, t, u)
    && (a.bysetpos.None? || a.bysetpos.value == [] || exists s :: ListsPeriod(a, t, u, s) && PickedFrom(a.bysetpos.value, s, u))
    && t <= u
    && (until.Some? ==> u <= until.value)
    && u / 86400 <= MaxOrdinal()
  }

  lemma PickedMeans(bysetpos: seq<int>, s: seq<int>, u: int)
    requires 0 !in bysetpos
    ensures PickedFrom(bysetpos, s, u) <==> exists p :: p in bysetpos && AtPosition(s, p, u)
  {
    if PickedFrom(bysetpos, s, u) {
      var k :| 0 <= k < |s| && s[k] == u && (k + 1 in bysetpos || k - |s| in bysetpos);
      assert AtPosition(s, k + 1, u) && AtPosition(s, k - |s|, u);
    }
    if p :| p in bysetpos && AtPosition(s, p, u) {
      var k := if p > 0 then p - 1 else |s| + p;
      assert s[k] == u;
    }
  }

  lemma PeriodListMeans(a: Args, t: int, until: Option<int>, u: int, s: seq<int>)
    requires DAY <= t && a.interval >= 1 && Init(a, t).Some? && DAY <= u
    ensures IsPeriodSet(ToRule(Init(a, t).value, t, until), u, s) <==> ListsPeriod(a, t, u, s)
  {
    var r := ToRule(Init(a, t).value, t, until);
    forall v
      ensures Candidate(r, v) && Period(r, v) == Period(r, u) <==> Meant(a, t, v) && Apart(a, u, v) == 0
    {
      CandidateMeans(a, t, until, v);
      if DAY <= v {
        ApartIs(a, r, u, v);
      }
    }
  }

  /** The occurrences of the constructor's rule are those that its arguments mean. */
  lemma MatchesMean(a: Args, t: int, until: Option<int>, u: int)
    requires DAY <= t && a.interval >= 1 && Init(a, t).Some?
    ensures Matches(ToRule(Init(a, t).value, t, until), u) <==> Recurs(a, t, until, u)
  {
    var r := ToRule(Init(a, t).value, t, until);
    CandidateMeans(a, t, until, u);
    if Meant(a, t, u) {
      assert 0 !in r.bysetpos;
      forall s
        ensures IsPeriodSet(r, u, s) <==> ListsPeriod(a, t, u, s)
        ensures PickedFrom(r.bysetpos, s, u) <==> exists p :: p in r.bysetpos && AtPosition(s, p, u)
      {
        PeriodListMeans(a, t, until, u, s);
        PickedMeans(r.bysetpos, s, u);
      }
    }
  }

  ghost function RecursSet(a: Args, t: int, until: Option<int>): iset<int>
    requires DAY <= t && a.interval >= 1
  {
    iset u | Recurs(a, t, until, u)
  }

  /** A rule that gives no list recurs on DTSTART. */
  lemma StartRecurs(a: Args, t: int, until: Option<int>)
    requires DAY <= t && DayOf(t) <= MaxOrdinal() && a.interval >= 1 && (until.Some? ==> t <= until.value)
    requires a == Args(a.freq, a.interval, a.wkst, a.count, None, None, None, None, None, None, None, None, None, None)
    ensures Recurs(a, t, until, t)
  {
  }

  // ---- Refusals ----

  /** No step of INTERVAL leads to a value of the list. */
  ghost predicate NeverMet(list: Option<seq<int>>, start: int, interval: int, base: int)
    requires base >= 1
  {
    list.Some? && forall k :: k >= 1 ==> (start + k * interval) % base !in list.value
  }

  /** A BYSETPOS value is zero or too large, or the list at the level of FREQ holds nothing that INTERVAL meets. */
  ghost predicate Refused(a: Args, t: int) {
    || (a.bysetpos.Some? && exists p :: p in a.bysetpos.value && (p == 0 || p < -366 || 366 < p))
    || (a.freq == HOURLY && NeverMet(a.byhour, t % 86400 / 3600, a.interval, 24))
    || (a.freq == MINUTELY && NeverMet(a.byminute, t % 3600 / 60, a.interval, 60))
    || (a.freq == SECONDLY && NeverMet(a.bysecond, t % 60, a.interval, 60))
  }

  lemma NeverMetIff(list: seq<int>, start: int, interval: int, base: int)
    requires base >= 1 && interval >= 1 && forall x :: x in list ==> 0 <= x < base
    ensures Reached(list, start, interval, base) == [] <==> NeverMet(Some(list), start, interval, base)
  {
    KeptIsReachable(start, interval, list, base);
    if NeverMet(Some(list), start, interval, base) {
      forall k | k >= 1
        ensures Dial(start, k, interval, base) !in list
      {
      }
    } else {
      var k :| k >= 1 && (start + k * interval) % base in list;
      assert Dial(start, k, interval, base) in list;
    }
  }

  lemma TimePartFails(given: Option<seq<int>>, f: Freq, own: int, start: int, interval: int, base: int)
    requires base >= 1 && interval >= 1 && InRange(given, 0, base)
    ensures TimePart(given, f, own, start, interval, base).None? <==> f.Rank() == own && NeverMet(given, start, interval, base)
  {
    if given.Some? {
      assert forall x :: x in given.value ==> 0 <= x < base;
      NeverMetIff(given.value, start, interval, base);
    }
  }

  /** Below HOURLY the times are those given or DTSTART's, so that datetime.time accepts them. */
  lemma LawfulTimes(a: Args, t: int)
    requires DAY <= t && Lawful(a) && a.freq.Rank() < 4
    ensures TimesValid(TimePart(a.byhour, a.freq, 4, HourOf(t), a.interval, 24).value,
                       TimePart(a.byminute, a.freq, 5, MinuteOf(t), a.interval, 60).value,
                       TimePart(a.bysecond, a.freq, 6, SecondOf(t), a.interval, 60).value)
  {
    TimePartReady(a.byhour, a.freq, 4, HourOf(t), a.interval, 24);
    TimePartReady(a.byminute, a.freq, 5, MinuteOf(t), a.interval, 60);
    TimePartReady(a.bysecond, a.freq, 6, SecondOf(t), a.interval, 60);
  }

  lemma SetPosValidIff(s: seq<int>)
    ensures SetPosValid(s) <==> !exists p :: p in s && (p == 0 || p < -366 || 366 < p)
  {
    if !SetPosValid(s) {
      var i :| 0 <= i < |s| && !(s[i] != 0 && -366 <= s[i] <= 366);
      assert s[i] in s;
    }
  }

  /** Lawful arguments are refused with a ValueError in these cases only. */
  lemma RefusedIff(a: Args, t: int)
    requires DAY <= t && Lawful(a)
    ensures Init(a, t).None? <==> Refused(a, t)
  {
    TimePartFails(a.byhour, a.freq, 4, HourOf(t), a.interval, 24);
    TimePartFails(a.byminute, a.freq, 5, MinuteOf(t), a.interval, 60);
    TimePartFails(a.bysecond, a.freq, 6, SecondOf(t), a.interval, 60);
    if a.bysetpos.Some? {
      SetPosValidIff(a.bysetpos.value);
    }
    if a.freq.Rank() < 4 {
      LawfulTimes(a, t);
    }
  }

  // ---- What the constructor keeps for printing ----

  /** The given list in increasing order without repetitions, if one was given. */
  ghost predicate KeptInOrder(given: Option<seq<int>>, kept: Option<seq<int>>) {
    && (given.None? <==> kept.None?)
    && (given.Some? ==> Increasing(kept.value) && forall x :: x in kept.value <==> x in given.value)
  }

  /** Days from the start of the month, then days from its end, each in order; zeros are left out. */
  ghost predicate MonthDaysKept(given: Option<seq<int>>, kept: Option<seq<int>>) {
    && (given.None? <==> kept.None?)
    && (given.Some? ==> exists k :: 0 <= k <= |kept.value| && SplitByZero(kept.value, k)
                                    && forall x :: x in kept.value <==> x in given.value && x != 0)
  }

  ghost predicate SplitByZero(s: seq<int>, k: int)
    requires 0 <= k <= |s|
  {
    && Increasing(s[..k]) && Increasing(s[k..])
    && (forall i :: 0 <= i < k ==> s[i] > 0) && (forall i :: k <= i < |s| ==> s[i] < 0)
  }

  /** Plain weekdays, then numbered ones, each in order; a number that does not count is left out. */
  ghost predicate WeekdaysKept(given: Option<seq<WDay>>, kept: Option<seq<WDay>>, f: Freq) {
    && (given.None? <==> kept.None?)
    && (given.Some? ==> SameWeekdays(given.value, kept.value, f) && exists k :: 0 <= k <= |kept.value| && SplitByNumber(kept.value, k))
  }

  ghost predicate SameWeekdays(given: seq<WDay>, kept: seq<WDay>, f: Freq) {
    && (forall w :: w in kept && w.n != 0 <==> w in given && IsNumbered(w, f))
    && (forall d :: WDay(d, 0) in kept <==> exists w :: w in given && !IsNumbered(w, f) && w.weekday == d)
  }

  ghost predicate SplitByNumber(s: seq<WDay>, k: int)
    requires 0 <= k <= |s|
  {
    && (forall i, j :: 0 <= i < j < k ==> s[i].weekday < s[j].weekday)
    && (forall i, j :: k <= i < j < |s| ==> PairLess((s[i].weekday, s[i].n), (s[j].weekday, s[j].n)))
    && (forall i :: 0 <= i < k ==> s[i].n == 0) && (forall i :: k <= i < |s| ==> s[i].n != 0)
  }

  lemma SetKept(given: Option<seq<int>>)
    ensures KeptInOrder(given, MapSet(given))
  {
    if given.Some? {
      SortedSetIncreasing(given.value);
    }
  }

  lemma KeptMonthDays(given: Option<seq<int>>)
    ensures MonthDaysKept(given, OriginalMonthDays(given))
  {
    if given.Some? {
      var ps, ns := SortedSet(Positive(given.value)), SortedSet(Negative(given.value));
      var s, k := ps + ns, |ps|;
      SortedSetIncreasing(Positive(given.value));
      SortedSetIncreasing(Negative(given.value));
      SignsOf(ps, ns, s, k);
      SplitAt(ps, ns, s, k);
      MonthDaysAre(given.value, s, k);
    }
  }

  lemma SplitAt(ps: seq<int>, ns: seq<int>, s: seq<int>, k: nat)
    requires s == ps + ns && k == |ps| && Increasing(ps) && Increasing(ns)
    ensures Increasing(s[..k]) && Increasing(s[k..])
  {
    assert s[..k] == ps && s[k..] == ns;
  }

  lemma MonthDaysAre(given: seq<int>, s: seq<int>, k: nat)
    requires k <= |s| && SplitByZero(s, k) && forall x :: x in s <==> x in given && x != 0
    ensures MonthDaysKept(Some(given), Some(s))
  {
  }

  lemma SignsOf(ps: seq<int>, ns: seq<int>, s: seq<int>, k: nat)
    requires s == ps + ns && k == |ps| && (forall x :: x in ps ==> x > 0) && (forall x :: x in ns ==> x < 0)
    ensures (forall i :: 0 <= i < k ==> s[i] > 0) && (forall i :: k <= i < |s| ==> s[i] < 0)
  {
    forall i | 0 <= i < |s|
      ensures if i < k then s[i] > 0 else s[i] < 0
    {
      assert s[i] == if i < k then ps[i] else ns[i - k];
      assert i < k ==> ps[i] in ps;
      assert i >= k ==> ns[i - k] in ns;
    }
  }

  lemma KeptWeekdays(given: Option<seq<WDay>>, f: Freq)
    ensures WeekdaysKept(given, OriginalDays(given, f), f)
  {
    if given.Some? {
      var plain, nths := Plain(given.value, f), Nths(given.value, f);
      SortedSetIncreasing(plain);
      SortedPairsIncrease(nths);
      var ps, ns := SortedSet(plain), SortedPairs(nths);
      var s, k := PlainDays(ps) + NthDays(ns), |ps|;
      NumbersOf(ps, ns, s, k);
      MembersOf(ps, ns, s);
      KeptAre(given.value, f, ps, ns, s);
      WeekdaysAre(given.value, s, k, f);
    }
  }

  lemma WeekdaysAre(given: seq<WDay>, s: seq<WDay>, k: nat, f: Freq)
    requires k <= |s| && SplitByNumber(s, k) && SameWeekdays(given, s, f)
    ensures WeekdaysKept(Some(given), Some(s), f)
  {
  }

  lemma NumbersOf(ps: seq<int>, ns: seq<(int, int)>, s: seq<WDay>, k: nat)
    requires s == PlainDays(ps) + NthDays(ns) && k == |ps| && Increasing(ps) && PairsIncrease(ns)
    requires forall p :: p in ns ==> p.1 != 0
    ensures k <= |s| && SplitByNumber(s, k)
  {
    forall i | 0 <= i < |s|
      ensures if i < k then s[i] == WDay(ps[i], 0) else s[i] == WDay(ns[i - k].0, ns[i - k].1) && s[i].n != 0
    {
      assert i >= k ==> ns[i - k] in ns;
    }
  }

  lemma MembersOf(ps: seq<int>, ns: seq<(int, int)>, s: seq<WDay>)
    requires s == PlainDays(ps) + NthDays(ns)
    requires forall p :: p in ns ==> p.1 != 0
    ensures forall w :: w in s && w.n != 0 <==> (w.weekday, w.n) in ns
    ensures forall d :: WDay(d, 0) in s <==> d in ps
  {
    forall w
      ensures w in s <==> (w.n == 0 && w.weekday in ps) || (w.weekday, w.n) in ns
    {
      if i :| 0 <= i < |s| && s[i] == w {
        assert s[i] == if i < |ps| then WDay(ps[i], 0) else WDay(ns[i - |ps|].0, ns[i - |ps|].1);
      }
      if i :| 0 <= i < |ps| && ps[i] == w.weekday && w.n == 0 {
        assert s[i] == w;
      }
      if i :| 0 <= i < |ns| && ns[i] == (w.weekday, w.n) {
        assert s[|ps| + i] == w;
      }
    }
  }

  lemma KeptAre(given: seq<WDay>, f: Freq, ps: seq<int>, ns: seq<(int, int)>, s: seq<WDay>)
    requires (forall d :: d in ps <==> d in Plain(given, f)) && (forall p :: p in ns <==> p in Nths(given, f))
    requires forall w :: w in s && w.n != 0 <==> (w.weekday, w.n) in ns
    requires forall d :: WDay(d, 0) in s <==> d in ps
    ensures SameWeekdays(given, s, f)
  {
    forall w: WDay
      ensures (w.weekday, w.n) in ns <==> w in given && IsNumbered(w, f)
    {
      assert WDay(w.weekday, w.n) == w;
    }
  }

  /** What was given is kept, in order, for the printed line; defaults are not, and BYSETPOS keeps its own order. */
  lemma OriginalKept(a: Args, t: int)
    requires DAY <= t && Init(a, t).Some?
    ensures var o := Init(a, t).value.original;
            && o.bysetpos == (if a.bysetpos == Some([]) then None else a.bysetpos)
            && KeptInOrder(a.bymonth, o.bymonth) && KeptInOrder(a.byyearday, o.byyearday) && KeptInOrder(a.byweekno, o.byweekno)
            && MonthDaysKept(a.bymonthday, o.bymonthday) && WeekdaysKept(a.byweekday, o.byweekday, a.freq)
            && (a.byhour.None? <==> o.byhour.None?) && (a.byminute.None? <==> o.byminute.None?)
            && (a.bysecond.None? <==> o.bysecond.None?)
  {
    SetKept(a.bymonth);
    SetKept(a.byyearday);
    SetKept(a.byweekno);
    KeptMonthDays(a.bymonthday);
    KeptWeekdays(a.byweekday, a.freq);
  }

  // ---- From the arguments to the occurrences ----

  /** rrule(...) and its iteration: the arguments alone decide whether they are refused and what recurs. */
  method Recurrences(a: Args, t: int, until: Option<int>) returns (r: Option<(seq<int>, Outcome)>)
    requires DAY <= t && DayOf(t) <= MaxOrdinal() && Lawful(a)
    ensures r.None? <==> Refused(a, t)
    ensures r.Some? ==> StartsList(RecursSet(a, t, until), r.value.0, a.count)
    ensures r.Some? && r.value.1.Finished? ==> Lists(RecursSet(a, t, until), r.value.0, a.count)
  {
    var n := Construct(a, t);
    RefusedIff(a, t);
    if n.None? {
      return None;
    }
    InitIsReady(a, t, until);
    var rule := ToRule(n.value, t, until);
    var out, outcome := Generator.Iter(rule);
    forall u
      ensures Matches(rule, u) <==> Recurs(a, t, until, u)
    {
      MatchesMean(a, t, until, u);
    }
    assert MatchSet(rule) == RecursSet(a, t, until);
    r := Some((out, outcome));
  }
}
