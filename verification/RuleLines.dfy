/** What RRULE lines mean, line by line: the texts themselves on the calendar. */
module RuleLines {
  import opened Sequences
  import opened Text
  import opened Calendar
  import opened Rules
  import opened RuleInit
  import opened RuleText
  import opened RuleMeaning

  // ---- Reading lines of one and two parts ----

  lemma PairIs(name: string, k: Key, text: string)
    requires KeyOf(name) == Some(k) && PlainText(name) && PlainText(text) && ParseValue(k, text).Some?
    ensures ParsePair(name + "=" + text) == Some(Entry(k, ParseValue(k, text).value))
    ensures ';' !in name + "=" + text && ':' !in name + "=" + text
  {
    var pair := name + "=" + text;
    NoChar(name, '=');
    NoChar(text, '=');
    FindIn(name, '=', text);
    assert pair == name + ['='] + text;
    assert pair[..|name|] == name && pair[|name| + 1..] == text;
    UpperPlain(name);
    UpperPlain(text);
    NoChar(name, ';');
    NoChar(text, ';');
    NoChar(name, ':');
    NoChar(text, ':');
  }

  lemma OnePart(pair: string, e: Entry)
    requires ParsePair(pair) == Some(e) && ';' !in pair && ':' !in pair
    ensures Parse(pair) == ArgsOf(map[e.key := e.value])
  {
    FindIn(pair, ':', "");
    FindIn(pair, ';', "");
    assert Split(pair, ';') == [pair];
    assert [pair][..0] == [];
    assert ParsePairs([]) == Some(map[]);
    assert map[][e.key := e.value] == map[e.key := e.value];
  }

  lemma SplitInTwo(first: string, second: string)
    requires ';' !in first && ';' !in second
    ensures Split(first + ";" + second, ';') == [first, second]
  {
    SplitJoin(';', [first, second]);
    assert [first, second][1..] == [second];
    assert first + [';'] + second == first + ";" + second;
  }

  lemma TwoPairs(first: string, second: string, d: Entry, e: Entry)
    requires ParsePair(first) == Some(d) && ParsePair(second) == Some(e)
    ensures ParsePairs([first, second]) == Some(map[d.key := d.value][e.key := e.value])
  {
    assert [first, second][..1] == [first] && [first][..0] == [];
    assert ParsePairs([]) == Some(map[]);
    assert map[][d.key := d.value] == map[d.key := d.value];
    assert ParsePairs([first]) == Some(map[d.key := d.value]);
  }

  lemma TwoParts(first: string, second: string, d: Entry, e: Entry)
    requires ParsePair(first) == Some(d) && ';' !in first && ':' !in first
    requires ParsePair(second) == Some(e) && ';' !in second && ':' !in second
    ensures Parse(first + ";" + second) == ArgsOf(map[d.key := d.value][e.key := e.value])
  {
    var line := first + ";" + second;
    FindIn(line, ':', "");
    SplitInTwo(first, second);
    TwoPairs(first, second, d, e);
  }

  /** The arguments of a line that gives a frequency only. */
  function Only(f: Freq): Args {
    Args(f, 1, None, None, None, None, None, None, None, None, None, None, None, None)
  }

  /** The arguments of a line that gives a frequency and one other part. */
  function OneMore(f: Freq, k: Key, v: Value): Args {
    var n, ns, ds := IntArg(Some(v)), IntsArg(Some(v)), DaysArg(Some(v));
    Args(f, if k == KInterval && n.Some? then n.value else 1,
      if k == KWkst then n else None, if k == KCount then n else None,
      if k == KSetPos then ns else None, if k == KMonth then ns else None, if k == KMonthDay then ns else None,
      if k == KYearDay then ns else None, if k == KEaster then ns else None, if k == KWeekNo then ns else None,
      if k == KDay then ds else None,
      if k == KHour then ns else None, if k == KMinute then ns else None, if k == KSecond then ns else None)
  }

  lemma OneArg(f: Freq, k: Key, v: Value)
    requires k != KFreq
    ensures ArgsOf(map[KFreq := FreqValue(f)][k := v]) == Some(OneMore(f, k, v))
  {
    var kw := TwoLookups(f, k, v);
    OneArgFrom(f, k, v, kw);
  }

  lemma TwoLookups(f: Freq, k: Key, v: Value) returns (kw: Kwargs)
    requires k != KFreq
    ensures kw == map[KFreq := FreqValue(f)][k := v]
    ensures forall j: Key :: Lookup(kw, j) == if j == k then Some(v) else if j == KFreq then Some(FreqValue(f)) else None
  {
    kw := map[KFreq := FreqValue(f)][k := v];
  }

  lemma OneArgFrom(f: Freq, k: Key, v: Value, kw: Kwargs)
    requires k != KFreq
    requires forall j: Key :: Lookup(kw, j) == if j == k then Some(v) else if j == KFreq then Some(FreqValue(f)) else None
    ensures ArgsOf(kw) == Some(OneMore(f, k, v))
  {
  }

  lemma PlainLine(f: Freq)
    ensures Parse("FREQ=" + FreqName(f)) == Some(Only(f))
  {
    var fname := FreqName(f);
    FreqReads(f);
    FreqNamePlain(f);
    PairIs("FREQ", KFreq, fname);
    assert "FREQ=" == "FREQ" + "=";
    OnePart("FREQ=" + fname, Entry(KFreq, FreqValue(f)));
    OneLookup(f);
  }

  lemma OneLookup(f: Freq)
    ensures ArgsOf(map[KFreq := FreqValue(f)]) == Some(Only(f))
  {
  }

  lemma PartLine(f: Freq, name: string, k: Key, text: string)
    requires KeyOf(name) == Some(k) && k != KFreq && PlainText(name) && PlainText(text) && ParseValue(k, text).Some?
    ensures Parse("FREQ=" + FreqName(f) + ";" + (name + "=" + text)) == Some(OneMore(f, k, ParseValue(k, text).value))
  {
    var fname := FreqName(f);
    FreqReads(f);
    FreqNamePlain(f);
    PairIs("FREQ", KFreq, fname);
    assert "FREQ=" == "FREQ" + "=";
    PairIs(name, k, text);
    TwoParts("FREQ=" + fname, name + "=" + text, Entry(KFreq, FreqValue(f)), Entry(k, ParseValue(k, text).value));
    OneArg(f, k, ParseValue(k, text).value);
  }

  /** The property name may stand before the parts. */
  lemma Prefixed(line: string)
    requires ':' !in line
    ensures Parse("RRULE:" + line) == Parse(line)
  {
    assert "RRULE:" + line == "RRULE" + ([':'] + line);
    ValueRead("RRULE", line, "RRULE:" + line);
    FindIn(line, ':', "");
  }

  // ---- Frequencies ----

  /** The occurrences of the rule that the line gives for DTSTART t, none where it gives no rule. */
  ghost function Occurrences(line: string, t: int): iset<int>
    requires DAY <= t
  {
    iset u | Parse(line).Some? && Parse(line).value.interval >= 1 && Init(Parse(line).value, t).Some?
             && Matches(ToRule(Init(Parse(line).value, t).value, t, None), u)
  }

  /** From DTSTART to the last day of the calendar. */
  predicate InTime(t: int, u: int) {
    t <= u && u / 86400 <= MaxOrdinal()
  }

  lemma OccursWhen(line: string, a: Args, t: int, u: int)
    requires DAY <= t && Parse(line) == Some(a) && a.interval >= 1 && a.bysetpos == None
    ensures u in Occurrences(line, t) <==> Init(a, t).Some? && Meant(a, t, u) && InTime(t, u)
  {
    if Init(a, t).Some? {
      MatchesMean(a, t, None, u);
    }
  }

  lemma ClockParts(t: int, u: int)
    ensures (u - t) % 86400 == 0 <==> (u - t) % 3600 == 0 && t % 86400 / 3600 == u % 86400 / 3600
    ensures (u - t) % 3600 == 0 <==> (u - t) % 60 == 0 && t % 3600 / 60 == u % 3600 / 60
    ensures (u - t) % 60 == 0 <==> t % 60 == u % 60
  {
    HoursOf(t, u);
    MinutesOf(t, u);
    SameMinute(t, u);
  }

  lemma HoursOf(t: int, u: int)
    ensures (u - t) % 86400 == 0 <==> (u - t) % 3600 == 0 && t % 86400 / 3600 == u % 86400 / 3600
  {
    Periods.ClockOf(t);
    Periods.ClockOf(u);
    if (u - t) % 3600 == 0 {
      WholeHours(t, u, u / 3600 - t / 3600);
    } else if (u - t) % 86400 == 0 {
      DaysAreHours(u - t);
    }
  }

  lemma DaysAreHours(x: int)
    requires x % 86400 == 0
    ensures x % 3600 == 0
  {
  }

  lemma WholeHours(t: int, u: int, k: int)
    requires (u - t) % 3600 == 0 && k == u / 3600 - t / 3600
    ensures (u - t) % 86400 == 0 <==> t / 3600 % 24 == u / 3600 % 24
  {
    HoursApart(t, u, k);
    HoursInDay(k);
    SameHour(t / 3600, u / 3600);
  }

  lemma HoursApart(t: int, u: int, k: int)
    requires (u - t) % 3600 == 0 && k == u / 3600 - t / 3600
    ensures u - t == 3600 * k
  {
  }

  lemma SameHour(p: int, q: int)
    ensures (q - p) % 24 == 0 <==> p % 24 == q % 24
  {
  }

  lemma HoursInDay(k: int)
    ensures (3600 * k) % 86400 == 0 <==> k % 24 == 0
  {
  }

  lemma MinutesOf(t: int, u: int)
    ensures (u - t) % 3600 == 0 <==> (u - t) % 60 == 0 && t % 3600 / 60 == u % 3600 / 60
  {
    Periods.ClockOf(t);
    Periods.ClockOf(u);
    if (u - t) % 60 == 0 {
      WholeMinutes(t, u, u / 60 - t / 60);
    } else if (u - t) % 3600 == 0 {
      HoursAreMinutes(u - t);
    }
  }

  lemma HoursAreMinutes(x: int)
    requires x % 3600 == 0
    ensures x % 60 == 0
  {
  }

  lemma WholeMinutes(t: int, u: int, k: int)
    requires (u - t) % 60 == 0 && k == u / 60 - t / 60
    ensures (u - t) % 3600 == 0 <==> t / 60 % 60 == u / 60 % 60
  {
    MinutesApart(t, u, k);
    MinutesInHour(k);
    SameMinute(t / 60, u / 60);
  }

  lemma MinutesApart(t: int, u: int, k: int)
    requires (u - t) % 60 == 0 && k == u / 60 - t / 60
    ensures u - t == 60 * k
  {
  }

  lemma MinutesInHour(k: int)
    ensures (60 * k) % 3600 == 0 <==> k % 60 == 0
  {
  }

  lemma SameMinute(p: int, q: int)
    ensures (q - p) % 60 == 0 <==> p % 60 == q % 60
  {
  }

  // ---- The lines ----

  function FreqLine(f: Freq): string {
    match f
    case YEARLY => "FREQ=YEARLY" case MONTHLY => "FREQ=MONTHLY" case WEEKLY => "FREQ=WEEKLY" case DAILY => "FREQ=DAILY"
    case HOURLY => "FREQ=HOURLY" case MINUTELY => "FREQ=MINUTELY" case SECONDLY => "FREQ=SECONDLY"
  }

  /** u is to its year, month and so on what t is to its own. */
  predicate LikeStart(f: Freq, t: int, u: int)
    requires DAY <= t
  {
    match f
    case YEARLY =>
      && DAY <= u && (u - t) % 86400 == 0
      && MonthOf(u / 86400) == MonthOf(t / 86400) && MonthDay(u / 86400) == MonthDay(t / 86400)
    case MONTHLY => DAY <= u && (u - t) % 86400 == 0 && MonthDay(u / 86400) == MonthDay(t / 86400)
    case WEEKLY => (u - t) % 604800 == 0
    case DAILY => (u - t) % 86400 == 0
    case HOURLY => (u - t) % 3600 == 0
    case MINUTELY => (u - t) % 60 == 0
    case SECONDLY => true
  }

  /** FREQ with nothing else: every year, month, week, day, hour, minute or second like DTSTART. */
  lemma PlainLines(f: Freq, t: int, u: int)
    requires DAY <= t
    ensures u in Occurrences(FreqLine(f), t) <==> InTime(t, u) && LikeStart(f, t, u)
  {
    FreqLineIs(f);
    PlainOccurs(FreqLine(f), f, t, u);
  }

  lemma FreqLineIs(f: Freq)
    ensures FreqLine(f) == "FREQ=" + FreqName(f)
  {
  }

  lemma PlainOccurs(line: string, f: Freq, t: int, u: int)
    requires DAY <= t && line == "FREQ=" + FreqName(f)
    ensures u in Occurrences(line, t) <==> InTime(t, u) && LikeStart(f, t, u)
  {
    PlainLine(f);
    NothingRefused(f, t);
    OccursWhen(line, Only(f), t, u);
    if InTime(t, u) {
      OnlyMeans(f, t, u);
    }
  }

  lemma NothingRefused(f: Freq, t: int)
    requires DAY <= t
    ensures Init(Only(f), t).Some?
  {
    RefusedIff(Only(f), t);
  }

  lemma OnlyMeans(f: Freq, t: int, u: int)
    requires DAY <= t <= u
    ensures Meant(Only(f), t, u) <==> LikeStart(f, t, u)
  {
    ClockParts(t, u);
    WholeDays(t, u);
  }

  lemma WholeDays(t: int, u: int)
    ensures (u - t) % 604800 == 0 <==> (u - t) % 86400 == 0 && (u / 86400 - t / 86400) % 7 == 0
  {
    if (u - t) % 86400 == 0 {
      DaysApart(t, u, u / 86400 - t / 86400);
      DaysInWeek(u / 86400 - t / 86400);
    } else if (u - t) % 604800 == 0 {
      WeeksAreDays(u - t);
    }
  }

  lemma DaysApart(t: int, u: int, k: int)
    requires (u - t) % 86400 == 0 && k == u / 86400 - t / 86400
    ensures u - t == 86400 * k
  {
  }

  lemma DaysInWeek(k: int)
    ensures (86400 * k) % 604800 == 0 <==> k % 7 == 0
  {
  }

  lemma WeeksAreDays(x: int)
    requires x % 604800 == 0
    ensures x % 86400 == 0
  {
  }

  /** One part after the frequency, with a value that parses to v. */
  lemma PartOccurs(line: string, f: Freq, k: Key, v: Value, t: int, u: int)
    requires DAY <= t && k != KFreq && k != KSetPos && Suits(k, v)
    requires line == "FREQ=" + FreqName(f) + ";" + (Name(k) + "=" + ValueText(k, v))
    requires OneMore(f, k, v).interval >= 1
    ensures u in Occurrences(line, t) <==> Init(OneMore(f, k, v), t).Some? && Meant(OneMore(f, k, v), t, u) && InTime(t, u)
  {
    ValuePlain(k, v);
    ValueReads(k, v);
    NamePlain(k);
    NameReads(k);
    PartLine(f, Name(k), k, ValueText(k, v));
    OccursWhen(line, OneMore(f, k, v), t, u);
  }

  function DayLine(w: int): string
    requires 0 <= w < 7
  {
    match w
    case 0 => "FREQ=WEEKLY;BYDAY=MO" case 1 => "FREQ=WEEKLY;BYDAY=TU" case 2 => "FREQ=WEEKLY;BYDAY=WE" case 3 => "FREQ=WEEKLY;BYDAY=TH"
    case 4 => "FREQ=WEEKLY;BYDAY=FR" case 5 => "FREQ=WEEKLY;BYDAY=SA" case _ => "FREQ=WEEKLY;BYDAY=SU"
  }

  lemma DayLineIs(w: int)
    requires 0 <= w < 7
    ensures DayLine(w) == "FREQ=" + FreqName(WEEKLY) + ";" + (Name(KDay) + "=" + DayName(w))
  {
  }

  /** The ordinal of a Sunday, 31 August 1997; see LastOfAugust. */
  const SUNDAY: int := 729267

  /** MO to SU are the weekdays of 1 to 7 September 1997. */
  lemma WeekdayLines(w: int, t: int, u: int)
    requires DAY <= t && 0 <= w < 7
    ensures u in Occurrences(DayLine(w), t) <==> InTime(t, u) && (u - t) % 86400 == 0 && Weekday(u / 86400) == Weekday(SUNDAY + 1 + w)
  {
    var d := WDay(w, 0);
    DayLineIs(w);
    OneDayText(d);
    PartOccurs(DayLine(w), WEEKLY, KDay, DayList([d]), t, u);
    var a := OneDayArgs(WEEKLY, d);
    RefusedIff(a, t);
    if InTime(t, u) {
      WeeklyMeans(a, d, t, u);
    }
    MondayFirst(w);
  }

  lemma OneDayArgs(f: Freq, d: WDay) returns (a: Args)
    ensures a == OneMore(f, KDay, DayList([d])) && a == Only(f).(byweekday := Some([d]))
  {
    a := Only(f).(byweekday := Some([d]));
  }

  lemma WeeklyMeans(a: Args, d: WDay, t: int, u: int)
    requires DAY <= t <= u && d.n == 0 && a == Only(WEEKLY).(byweekday := Some([d])) && 0 <= d.weekday < 7
    ensures Meant(a, t, u) <==> (u - t) % 86400 == 0 && Weekday(u / 86400) == d.weekday
  {
    OneWeekdayMeant(a, d, u / 86400);
    ClockParts(t, u);
  }

  lemma OneDayText(d: WDay)
    requires IsDay(d)
    ensures Suits(KDay, DayList([d])) && ValueText(KDay, DayList([d])) == DayText(d)
  {
  }

  lemma OneWeekdayMeant(a: Args, d: WDay, n: int)
    requires 1 <= n && a.byweekday == Some([d])
    ensures WeekdayMeant(a, n) <==> Weekday(n) == d.weekday && (IsNumbered(d, a.freq) ==> InSeventh(a, d.n, n))
  {
    assert forall w :: w in [d] <==> w == d;
  }

  lemma LastOfAugust(y: int)
    requires y == 1997
    ensures ToOrdinal(y, 8, 31) == SUNDAY
  {
    DaysBeforeYearClosed(y);
    YearIsTwelveMonths(y);
  }

  lemma MondayFirst(w: int)
    requires 0 <= w < 7
    ensures Weekday(SUNDAY + 1 + w) == w
  {
  }

  /** The n-th weekday of the month, from its start or, for n < 0, from its end. */
  lemma NumberedDayLines(w: int, n: int, t: int, u: int)
    requires DAY <= t && 0 <= w < 7 && n != 0
    ensures u in Occurrences("FREQ=MONTHLY;BYDAY=" + DayText(WDay(w, n)), t) <==>
              InTime(t, u) && (u - t) % 86400 == 0 && Weekday(u / 86400) == w && InWeek(n, u / 86400)
  {
    var d := WDay(w, n);
    var line := "FREQ=MONTHLY;BYDAY=" + DayText(d);
    OneDayText(d);
    MonthDayLineIs(d);
    PartOccurs(line, MONTHLY, KDay, DayList([d]), t, u);
    var a := OneDayArgs(MONTHLY, d);
    RefusedIff(a, t);
    if InTime(t, u) {
      MonthlyMeans(a, d, t, u);
    }
  }

  lemma MonthDayLineIs(d: WDay)
    requires IsDay(d)
    ensures "FREQ=MONTHLY;BYDAY=" + DayText(d) == "FREQ=" + FreqName(MONTHLY) + ";" + (Name(KDay) + "=" + DayText(d))
  {
    assert "FREQ=MONTHLY;BYDAY=" == "FREQ=" + FreqName(MONTHLY) + ";" + (Name(KDay) + "=");
  }

  /** Day x is in the n-th seven days of its month. */
  predicate InWeek(n: int, x: int)
    requires 1 <= x
  {
    if n > 0 then 7 * (n - 1) < MonthDay(x) <= 7 * n
    else 7 * (-n - 1) <= DaysInMonth(YearOf(x), MonthOf(x)) - MonthDay(x) < 7 * -n
  }

  lemma MonthlyMeans(a: Args, d: WDay, t: int, u: int)
    requires DAY <= t <= u && d.n != 0 && a == Only(MONTHLY).(byweekday := Some([d]))
    ensures Meant(a, t, u) <==> (u - t) % 86400 == 0 && Weekday(u / 86400) == d.weekday && InWeek(d.n, u / 86400)
  {
    OneWeekdayMeant(a, d, u / 86400);
    ClockParts(t, u);
  }

  /** +1TU, 1TU and TU(+1) are the same day. */
  lemma DayForms(w: int, n: int)
    requires 0 <= w < 7 && n != 0
    ensures ParseDay(SignedText(n) + DayName(w)) == Some(WDay(w, n))
    ensures ParseDay(IntText(n) + DayName(w)) == Some(WDay(w, n))
    ensures ParseDay(DayName(w) + "(" + SignedText(n) + ")") == Some(WDay(w, n))
    ensures ParseDay(DayName(w) + "(" + IntText(n) + ")") == Some(WDay(w, n))
  {
    ParseIntText(n);
    IntPlain(n);
    LeadingNumber(w, n, SignedText(n));
    LeadingNumber(w, n, IntText(n));
    TrailingNumber(w, n, SignedText(n));
    TrailingNumber(w, n, IntText(n));
  }

  lemma LeadingNumber(w: int, n: int, number: string)
    requires 0 <= w < 7 && n != 0 && ParseInt(number) == Some(n)
    requires number != [] && forall i :: 0 <= i < |number| ==> IsSignOrDigit(number[i])
    ensures ParseDay(number + DayName(w)) == Some(WDay(w, n))
  {
    var name := DayName(w);
    var s := number + name;
    DayNamePlain(w);
    assert PlainText(s);
    NoChar(s, '(');
    WeekdayReads(w);
    LeadOfSigns(number, name);
    assert s[..|number|] == number && s[|number|..] == name;
  }

  lemma TrailingNumber(w: int, n: int, number: string)
    requires 0 <= w < 7 && n != 0 && ParseInt(number) == Some(n) && PlainText(number)
    ensures ParseDay(DayName(w) + "(" + number + ")") == Some(WDay(w, n))
  {
    var name := DayName(w);
    var s := name + "(" + number + ")";
    var rest := number + ")";
    DayNamePlain(w);
    NoChar(name, '(');
    NoChar(number, '(');
    FindIn(name, '(', rest);
    FindIn(rest, '(', "");
    assert s == name + ['('] + rest;
    assert s[..|name|] == name && s[|name| + 1..] == rest && rest[..|rest|] == rest;
    assert rest[..|rest| - 1] == number;
    WeekdayReads(w);
  }

  // ---- One numeric part ----

  /** The label of a part that takes a number. */
  function NumberLabel(k: Key): Option<string> {
    match k
    case KInterval => Some("INTERVAL=")
    case KMonth => Some("BYMONTH=")
    case KMonthDay => Some("BYMONTHDAY=")
    case KYearDay => Some("BYYEARDAY=")
    case KHour => Some("BYHOUR=")
    case KMinute => Some("BYMINUTE=")
    case KSecond => Some("BYSECOND=")
    case _ => None
  }

  /** What the number x asks of u in that part. */
  predicate NumberMeant(k: Key, x: int, t: int, u: int)
    requires DAY <= t && DAY <= u
  {
    var n := u / 86400;
    match k
    case KInterval => x >= 1 && (n - t / 86400) % x == 0 && (u - t) % 86400 == 0
    case KMonth => MonthOf(n) == x && (u - t) % 86400 == 0
    case KMonthDay => (x == 0 || MonthDay(n) == x || MonthDay(n) - DaysInMonth(YearOf(n), MonthOf(n)) - 1 == x) && (u - t) % 86400 == 0
    case KYearDay => (YearDay(n) + 1 == x || YearDay(n) - YearLen(YearOf(n)) == x) && (u - t) % 86400 == 0
    case KHour => u % 86400 / 3600 == x && (u - t) % 3600 == 0
    case KMinute => u % 3600 / 60 == x && (u - t) % 60 == 0 && u % 86400 / 3600 == t % 86400 / 3600
    case KSecond => u % 60 == x && u % 3600 / 60 == t % 3600 / 60 && u % 86400 / 3600 == t % 86400 / 3600
    case _ => false
  }

  function NumberValue(k: Key, x: int): (v: Value)
    ensures NumberLabel(k).Some? ==> Suits(k, v)
  {
    if k == KInterval then IntValue(x) else IntList([x])
  }

  lemma NumberLineIs(k: Key, x: int)
    requires NumberLabel(k).Some?
    ensures "FREQ=DAILY;" + (NumberLabel(k).value + IntText(x)) ==
            "FREQ=" + FreqName(DAILY) + ";" + (Name(k) + "=" + ValueText(k, NumberValue(k, x)))
  {
    LabelIs(k);
    OneNumberText(k, x);
  }

  lemma LabelIs(k: Key)
    requires NumberLabel(k).Some?
    ensures NumberLabel(k).value == Name(k) + "=" && "FREQ=DAILY;" == "FREQ=" + FreqName(DAILY) + ";"
  {
  }

  lemma OneNumberText(k: Key, x: int)
    requires NumberLabel(k).Some?
    ensures ValueText(k, NumberValue(k, x)) == IntText(x)
  {
  }

  /** A daily rule with one number restricts its days or replaces a part of its time; times off the clock never occur. */
  lemma NumberLines(k: Key, x: int, t: int, u: int)
    requires DAY <= t && NumberLabel(k).Some? && (k == KInterval ==> x >= 1)
    ensures u in Occurrences("FREQ=DAILY;" + (NumberLabel(k).value + IntText(x)), t) <==> InTime(t, u) && NumberMeant(k, x, t, u)
  {
    NumberLineIs(k, x);
    NumberOccurs("FREQ=DAILY;" + (NumberLabel(k).value + IntText(x)), k, x, t, u);
  }

  lemma NumberOccurs(line: string, k: Key, x: int, t: int, u: int)
    requires DAY <= t && NumberLabel(k).Some? && (k == KInterval ==> x >= 1)
    requires line == "FREQ=" + FreqName(DAILY) + ";" + (Name(k) + "=" + ValueText(k, NumberValue(k, x)))
    ensures u in Occurrences(line, t) <==> InTime(t, u) && NumberMeant(k, x, t, u)
  {
    var a := NumberArgs(k, x);
    PartOccurs(line, DAILY, k, NumberValue(k, x), t, u);
    NumberAccepted(a, k, x, t);
    if InTime(t, u) {
      NumberMeans(a, k, x, t, u);
    }
  }

  lemma NumberArgs(k: Key, x: int) returns (a: Args)
    requires NumberLabel(k).Some?
    ensures a == OneMore(DAILY, k, NumberValue(k, x))
    ensures match k
            case KInterval => a == Only(DAILY).(interval := x)
            case KMonth => a == Only(DAILY).(bymonth := Some([x]))
            case KMonthDay => a == Only(DAILY).(bymonthday := Some([x]))
            case KYearDay => a == Only(DAILY).(byyearday := Some([x]))
            case KHour => a == Only(DAILY).(byhour := Some([x]))
            case KMinute => a == Only(DAILY).(byminute := Some([x]))
            case _ => a == Only(DAILY).(bysecond := Some([x]))
  {
    a := OneMore(DAILY, k, NumberValue(k, x));
  }

  predicate OffClock(k: Key, x: int) {
    (k == KHour && !(0 <= x < 24)) || ((k == KMinute || k == KSecond) && !(0 <= x < 60))
  }

  lemma NumberAccepted(a: Args, k: Key, x: int, t: int)
    requires DAY <= t && NumberLabel(k).Some? && a == OneMore(DAILY, k, NumberValue(k, x))
    ensures Init(a, t).Some? <==> !OffClock(k, x)
  {
    var b := NumberArgs(k, x);
    DailyAccepted(b, t);
    SortedSetOfIncreasing([x]);
  }

  /** A daily rule without BYSETPOS is refused only for its times. */
  lemma DailyAccepted(a: Args, t: int)
    requires DAY <= t && a.freq == DAILY && a.bysetpos.None?
    ensures Init(a, t).Some? <==>
            TimesValid(Some(if a.byhour.None? then [HourOf(t)] else SortedSet(a.byhour.value)),
                       Some(if a.byminute.None? then [MinuteOf(t)] else SortedSet(a.byminute.value)),
                       Some(if a.bysecond.None? then [SecondOf(t)] else SortedSet(a.bysecond.value)))
  {
  }

  lemma NumberMeans(a: Args, k: Key, x: int, t: int, u: int)
    requires DAY <= t <= u && NumberLabel(k).Some? && (k == KInterval ==> x >= 1) && a == OneMore(DAILY, k, NumberValue(k, x))
    ensures Meant(a, t, u) <==> NumberMeant(k, x, t, u)
  {
    var b := NumberArgs(k, x);
    if k == KHour || k == KMinute || k == KSecond {
      TimeNumberMeans(b, k, x, t, u);
    } else {
      DateNumberMeans(b, k, x, t, u);
    }
  }

  lemma OneNumber(x: int, y: int, z: int)
    ensures Among(Some([x]), y) <==> y == x
    ensures AmongEither(Some([x]), y, z) <==> y == x || z == x
    ensures NamesDay(Some([x])) <==> x != 0
  {
    assert x in [x];
  }

  /** The three clock fields in a daily rule. */
  lemma DailyTime(a: Args, t: int, u: int)
    requires DAY <= t && a.freq == DAILY
    ensures TimeMeant(a, t, u) <==>
            && (if a.byhour.None? then u % 86400 / 3600 == t % 86400 / 3600 else u % 86400 / 3600 in a.byhour.value)
            && (if a.byminute.None? then u % 3600 / 60 == t % 3600 / 60 else u % 3600 / 60 in a.byminute.value)
            && (if a.bysecond.None? then u % 60 == t % 60 else u % 60 in a.bysecond.value)
  {
  }

  lemma TimeNumberMeans(a: Args, k: Key, x: int, t: int, u: int)
    requires DAY <= t <= u
    requires match k
             case KHour => a == Only(DAILY).(byhour := Some([x]))
             case KMinute => a == Only(DAILY).(byminute := Some([x]))
             case KSecond => a == Only(DAILY).(bysecond := Some([x]))
             case _ => false
    ensures Meant(a, t, u) <==> NumberMeant(k, x, t, u)
  {
    ClockParts(t, u);
    DailyMeant(a, t, u);
    DailyTime(a, t, u);
  }

  lemma DateNumberMeans(a: Args, k: Key, x: int, t: int, u: int)
    requires DAY <= t <= u && (k == KInterval ==> x >= 1)
    requires match k
             case KInterval => a == Only(DAILY).(interval := x)
             case KMonth => a == Only(DAILY).(bymonth := Some([x]))
             case KMonthDay => a == Only(DAILY).(bymonthday := Some([x]))
             case KYearDay => a == Only(DAILY).(byyearday := Some([x]))
             case _ => false
    ensures Meant(a, t, u) <==> NumberMeant(k, x, t, u)
  {
    DailyMeant(a, t, u);
    SameClock(a, t, u);
    DaysOfNumber(a, x, u / 86400);
  }

  lemma SameClock(a: Args, t: int, u: int)
    requires DAY <= t && a.freq == DAILY && a.byhour.None? && a.byminute.None? && a.bysecond.None?
    ensures TimeMeant(a, t, u) <==> (u - t) % 86400 == 0
  {
    ClockParts(t, u);
    DailyTime(a, t, u);
  }

  lemma DaysOfNumber(a: Args, x: int, n: int)
    requires 1 <= n
    ensures a == Only(DAILY).(interval := x) ==> DailyDay(a, n)
    ensures a == Only(DAILY).(bymonth := Some([x])) ==> (DailyDay(a, n) <==> MonthOf(n) == x)
    ensures a == Only(DAILY).(bymonthday := Some([x])) ==>
              (DailyDay(a, n) <==> x == 0 || MonthDay(n) == x || MonthDay(n) - DaysInMonth(YearOf(n), MonthOf(n)) - 1 == x)
    ensures a == Only(DAILY).(byyearday := Some([x])) ==>
              (DailyDay(a, n) <==> YearDay(n) + 1 == x || YearDay(n) - YearLen(YearOf(n)) == x)
  {
    OneNumber(x, MonthOf(n), 0);
    OneNumber(x, MonthDay(n), MonthDay(n) - DaysInMonth(YearOf(n), MonthOf(n)) - 1);
    OneNumber(x, YearDay(n) + 1, YearDay(n) - YearLen(YearOf(n)));
  }

  /** The three conditions on an occurrence of a daily rule. */
  lemma DailyMeant(a: Args, t: int, u: int)
    requires DAY <= t <= u && a.freq == DAILY && a.interval >= 1 && a.byweekday.None?
    ensures Meant(a, t, u) <==> (u / 86400 - t / 86400) % a.interval == 0 && DailyDay(a, u / 86400) && TimeMeant(a, t, u)
  {
  }

  predicate DailyDay(a: Args, n: int)
    requires 1 <= n
  {
    && Among(a.bymonth, MonthOf(n))
    && (NamesDay(a.bymonthday) ==> AmongEither(a.bymonthday, MonthDay(n), MonthDay(n) - DaysInMonth(YearOf(n), MonthOf(n)) - 1))
    && AmongEither(a.byyearday, YearDay(n) + 1, YearDay(n) - YearLen(YearOf(n)))
  }

  // ---- The other parts, lists and spellings ----

  /** The parts that only set an argument: COUNT, the positions, and the two filters outside the generator model. */
  function OtherLabel(k: Key): Option<string> {
    match k
    case KCount => Some("COUNT=")
    case KSetPos => Some("BYSETPOS=")
    case KWeekNo => Some("BYWEEKNO=")
    case KEaster => Some("BYEASTER=")
    case _ => None
  }

  lemma OtherLines(k: Key, x: int)
    requires OtherLabel(k).Some?
    ensures Parse("FREQ=DAILY;" + (OtherLabel(k).value + IntText(x))) ==
            Some(match k
                 case KCount => Only(DAILY).(count := Some(x))
                 case KSetPos => Only(DAILY).(bysetpos := Some([x]))
                 case KWeekNo => Only(DAILY).(byweekno := Some([x]))
                 case _ => Only(DAILY).(byeaster := Some([x])))
  {
    var v := if k == KCount then IntValue(x) else IntList([x]);
    OtherLineIs(k, x, v);
    ReadsTo("FREQ=DAILY;" + (OtherLabel(k).value + IntText(x)), DAILY, k, v);
  }

  lemma OtherLineIs(k: Key, x: int, v: Value)
    requires OtherLabel(k).Some? && v == if k == KCount then IntValue(x) else IntList([x])
    ensures Suits(k, v)
    ensures "FREQ=DAILY;" + (OtherLabel(k).value + IntText(x)) == "FREQ=" + FreqName(DAILY) + ";" + (Name(k) + "=" + ValueText(k, v))
  {
    OtherLabelIs(k);
    OtherText(k, x, v);
  }

  lemma OtherLabelIs(k: Key)
    requires OtherLabel(k).Some?
    ensures OtherLabel(k).value == Name(k) + "=" && "FREQ=DAILY;" == "FREQ=" + FreqName(DAILY) + ";"
  {
  }

  lemma OtherText(k: Key, x: int, v: Value)
    requires OtherLabel(k).Some? && v == if k == KCount then IntValue(x) else IntList([x])
    ensures Suits(k, v) && ValueText(k, v) == IntText(x)
  {
  }

  lemma Relabel(head: string, a: string, b: string, text: string)
    requires head == a + b
    ensures head + text == a + (b + text)
  {
  }

  lemma ReadsTo(line: string, f: Freq, k: Key, v: Value)
    requires k != KFreq && Suits(k, v) && line == "FREQ=" + FreqName(f) + ";" + (Name(k) + "=" + ValueText(k, v))
    ensures Parse(line) == Some(OneMore(f, k, v))
  {
    ValuePlain(k, v);
    ValueReads(k, v);
    NamePlain(k);
    NameReads(k);
    PartLine(f, Name(k), k, ValueText(k, v));
  }

  function WeekStartLine(w: int): string
    requires 0 <= w < 7
  {
    match w
    case 0 => "FREQ=DAILY;WKST=MO" case 1 => "FREQ=DAILY;WKST=TU" case 2 => "FREQ=DAILY;WKST=WE" case 3 => "FREQ=DAILY;WKST=TH"
    case 4 => "FREQ=DAILY;WKST=FR" case 5 => "FREQ=DAILY;WKST=SA" case _ => "FREQ=DAILY;WKST=SU"
  }

  lemma WeekStartLines(w: int)
    requires 0 <= w < 7
    ensures Parse(WeekStartLine(w)) == Some(Only(DAILY).(wkst := Some(w)))
  {
    assert WeekStartLine(w) == "FREQ=" + FreqName(DAILY) + ";" + (Name(KWkst) + "=" + DayName(w));
    ReadsTo(WeekStartLine(w), DAILY, KWkst, DayValue(w));
  }

  /** Members of a list are set apart by commas; BYWEEKDAY is BYDAY. */
  lemma ListLines(head: string, x: int, y: int, d: WDay, e: WDay)
    requires IsDay(d) && IsDay(e)
    ensures head == "FREQ=DAILY;BYMONTH=" ==>
              Parse(head + (IntText(x) + "," + IntText(y))) == Some(Only(DAILY).(bymonth := Some([x, y])))
    ensures head == "FREQ=DAILY;BYDAY=" || head == "FREQ=DAILY;BYWEEKDAY=" ==>
              Parse(head + (DayText(d) + "," + DayText(e))) == Some(Only(DAILY).(byweekday := Some([d, e])))
  {
    if head == "FREQ=DAILY;BYMONTH=" {
      MonthList(head, x, y);
    } else if head == "FREQ=DAILY;BYDAY=" {
      DayListLine(head, "BYDAY", d, e);
    } else if head == "FREQ=DAILY;BYWEEKDAY=" {
      DayListLine(head, "BYWEEKDAY", d, e);
    }
  }

  lemma MonthList(head: string, x: int, y: int)
    requires head == "FREQ=DAILY;BYMONTH="
    ensures Parse(head + (IntText(x) + "," + IntText(y))) == Some(Only(DAILY).(bymonth := Some([x, y])))
  {
    TwoMonths(x, y);
    MonthHead(head);
    HeadReads(head, DAILY, KMonth, IntList([x, y]));
  }

  lemma MonthHead(head: string)
    requires head == "FREQ=DAILY;BYMONTH="
    ensures head == "FREQ=" + FreqName(DAILY) + ";" + (Name(KMonth) + "=")
  {
  }

  lemma HeadReads(head: string, f: Freq, k: Key, v: Value)
    requires k != KFreq && Suits(k, v) && head == "FREQ=" + FreqName(f) + ";" + (Name(k) + "=")
    ensures Parse(head + ValueText(k, v)) == Some(OneMore(f, k, v))
  {
    Relabel(head, "FREQ=" + FreqName(f) + ";", Name(k) + "=", ValueText(k, v));
    ReadsTo(head + ValueText(k, v), f, k, v);
  }

  lemma TwoMonths(x: int, y: int)
    ensures ValueText(KMonth, IntList([x, y])) == IntText(x) + "," + IntText(y)
  {
    assert IntTexts([x, y]) == [IntText(x), IntText(y)];
    JoinTwo(',', IntText(x), IntText(y));
  }

  lemma TwoDays(d: WDay, e: WDay)
    requires IsDay(d) && IsDay(e)
    ensures ValueText(KDay, DayList([d, e])) == DayText(d) + "," + DayText(e)
  {
    assert DayTexts([d, e]) == [DayText(d), DayText(e)];
    JoinTwo(',', DayText(d), DayText(e));
  }

  lemma DayListLine(head: string, name: string, d: WDay, e: WDay)
    requires IsDay(d) && IsDay(e)
    requires (name == "BYDAY" || name == "BYWEEKDAY") && head == "FREQ=DAILY;" + (name + "=")
    ensures Parse(head + (DayText(d) + "," + DayText(e))) == Some(Only(DAILY).(byweekday := Some([d, e])))
  {
    var v := DayList([d, e]);
    TwoDays(d, e);
    ValuePlain(KDay, v);
    ValueReads(KDay, v);
    NamedDayLine(head, name, ValueText(KDay, v), v);
  }

  lemma NamedDayLine(head: string, name: string, text: string, v: Value)
    requires name == "BYDAY" || name == "BYWEEKDAY"
    requires head == "FREQ=DAILY;" + (name + "=") && PlainText(text) && ParseValue(KDay, text) == Some(v)
    ensures Parse(head + text) == Some(OneMore(DAILY, KDay, v))
  {
    assert "FREQ=DAILY;" == "FREQ=" + FreqName(DAILY) + ";";
    Relabel(head, "FREQ=DAILY;", name + "=", text);
    PartLine(DAILY, name, KDay, text);
  }

  lemma JoinTwo(sep: char, a: string, b: string)
    ensures Join(sep, [a, b]) == a + [sep] + b
  {
    assert [a, b][1..] == [b];
  }

  // ---- Small letters ----

  /** The letters that upper() changes. */
  lemma UpperLetters(s: string, t: string)
    requires s == "abcdefghijklmnopqrstuvwxyz" && t == "ABCDEFGHIJKLMNOPQRSTUVWXYZ"
    ensures Upper(s) == t && Upper(t) == t
    ensures forall c :: c !in s ==> UpperChar(c) == c
  {
    forall i | 0 <= i < 26
      ensures s[i] == 'a' + i as char && t[i] == 'A' + i as char
    {
    }
    forall c | 'a' <= c <= 'z'
      ensures c in s
    {
      assert s[c as int - 'a' as int] == c;
    }
  }

  /** Names and values may be written in small letters. */
  lemma AnyCase(pair: string)
    ensures ParsePair(Upper(pair)) == ParsePair(pair)
  {
    UpperKeepsFind(pair, '=');
    var i := Find(pair, '=');
    if i < |pair| {
      UpperOfParts(pair, i);
      UpperKeepsEquals(pair[i + 1..]);
    }
  }

  lemma UpperOfParts(s: string, i: nat)
    requires i < |s|
    ensures Upper(Upper(s)[..i]) == Upper(s[..i]) && Upper(Upper(s)[i + 1..]) == Upper(s[i + 1..])
    ensures Upper(s)[i + 1..] == Upper(s[i + 1..])
  {
    assert Upper(s)[..i] == Upper(s[..i]);
    assert Upper(s)[i + 1..] == Upper(s[i + 1..]);
  }

  lemma UpperKeepsEquals(s: string)
    ensures '=' in Upper(s) <==> '=' in s
  {
    if i :| 0 <= i < |s| && s[i] == '=' {
      assert Upper(s)[i] == '=';
    }
  }

  lemma {:induction false} UpperKeepsFind(s: string, c: char)
    requires c == '='
    ensures Find(Upper(s), c) == Find(s, c)
  {
    if s != [] && s[0] != c {
      assert Upper(s)[1..] == Upper(s[1..]);
      UpperKeepsFind(s[1..], c);
    }
  }

  // ---- The printed line in full ----

  function Heading(k: Key): string {
    match k
    case KFreq => "FREQ=" case KInterval => "INTERVAL=" case KWkst => "WKST=" case KCount => "COUNT="
    case KSetPos => "BYSETPOS=" case KMonth => "BYMONTH=" case KMonthDay => "BYMONTHDAY=" case KYearDay => "BYYEARDAY="
    case KWeekNo => "BYWEEKNO=" case KDay => "BYDAY=" case KHour => "BYHOUR=" case KMinute => "BYMINUTE="
    case KSecond => "BYSECOND=" case KEaster => "BYEASTER="
  }

  function IntsShown(list: Option<seq<int>>): Option<string> {
    if list.None? || list.value == [] then None else Some(Join(',', IntTexts(list.value)))
  }

  /** What each part shows of a rule: nothing where it would say the default. */
  function TextShown(n: Normal, k: Key): Option<string>
    requires Named(n)
  {
    var o := n.original;
    match k
    case KFreq => Some(FreqName(n.freq))
    case KInterval => if n.interval == 1 then None else Some(IntText(n.interval))
    case KWkst => if n.wkst == 0 then None else Some(DayName(n.wkst))
    case KCount => if n.count.None? then None else Some(IntText(n.count.value))
    case KSetPos => IntsShown(o.bysetpos)
    case KMonth => IntsShown(o.bymonth)
    case KMonthDay => IntsShown(o.bymonthday)
    case KYearDay => IntsShown(o.byyearday)
    case KWeekNo => IntsShown(o.byweekno)
    case KDay => if o.byweekday.None? || o.byweekday.value == [] then None else Some(Join(',', DayTexts(o.byweekday.value)))
    case KHour => IntsShown(o.byhour)
    case KMinute => IntsShown(o.byminute)
    case KSecond => IntsShown(o.bysecond)
    case KEaster => IntsShown(o.byeaster)
  }

  function Shown(n: Normal, k: Key): string
    requires Named(n)
  {
    if TextShown(n, k).None? then "" else ";" + (Heading(k) + TextShown(n, k).value)
  }

  function AllShown(n: Normal, ks: seq<Key>): string
    requires Named(n)
  {
    if ks == [] then "" else Shown(n, ks[0]) + AllShown(n, ks[1..])
  }

  /** The line is FREQ and then, in this order, the parts that say something. */
  lemma StrInFull(n: Normal)
    requires Named(n)
    ensures Print(n) == "RRULE:FREQ=" + (FreqName(n.freq) + AllShown(n,
              [KInterval, KWkst, KCount, KSetPos, KMonth, KMonthDay, KYearDay, KWeekNo, KDay, KHour, KMinute, KSecond, KEaster]))
  {
    var ks := [KInterval, KWkst, KCount, KSetPos, KMonth, KMonthDay, KYearDay, KWeekNo, KDay, KHour, KMinute, KSecond, KEaster];
    assert PRINT_ORDER == [KFreq] + ks;
    FreqFirst(n, ks, PRINT_ORDER);
  }

  lemma FreqFirst(n: Normal, ks: seq<Key>, all: seq<Key>)
    requires Named(n) && all == [KFreq] + ks && KFreq !in ks
    ensures Line(Entries(n, all)) == "RRULE:FREQ=" + (FreqName(n.freq) + AllShown(n, ks))
  {
    var first := Entry(KFreq, FreqValue(n.freq));
    var es := Entries(n, ks);
    assert all[1..] == ks;
    assert Entries(n, all) == [first] + es;
    FirstText(first, es);
    JoinRest(EntryText(first), es);
    RestShown(n, ks);
    Assembled(EntryText(first), FreqName(n.freq), AllShown(n, ks));
  }

  lemma Assembled(first: string, fname: string, rest: string)
    requires first == "FREQ" + ['='] + fname
    ensures "RRULE" + [':'] + (first + rest) == "RRULE:FREQ=" + (fname + rest)
  {
  }

  lemma FirstText(first: Entry, es: seq<Entry>)
    requires Suits(first.key, first.value) && AllSuit(es)
    ensures AllSuit([first] + es) && EntryTexts([first] + es) == [EntryText(first)] + EntryTexts(es)
  {
    var all := [first] + es;
    assert AllSuit(all);
    TailTexts(all);
    assert all[1..] == es;
  }

  function Rest(es: seq<Entry>): string
    requires AllSuit(es)
  {
    if es == [] then "" else ";" + EntryText(es[0]) + Rest(es[1..])
  }

  lemma {:induction false} JoinRest(first: string, es: seq<Entry>)
    requires AllSuit(es)
    ensures Join(';', [first] + EntryTexts(es)) == first + Rest(es)
    decreases |es|
  {
    if es == [] {
      assert [first] + EntryTexts(es) == [first];
    } else {
      JoinRest(EntryText(es[0]), es[1..]);
      TailTexts(es);
      JoinMore(first, EntryText(es[0]), EntryTexts(es[1..]), Rest(es[1..]));
    }
  }

  lemma TailTexts(es: seq<Entry>)
    requires AllSuit(es) && es != []
    ensures EntryTexts(es) == [EntryText(es[0])] + EntryTexts(es[1..])
  {
  }

  lemma JoinMore(first: string, second: string, parts: seq<string>, rest: string)
    requires Join(';', [second] + parts) == second + rest
    ensures Join(';', [first] + ([second] + parts)) == first + (";" + second + rest)
  {
    assert ([first] + ([second] + parts))[1..] == [second] + parts;
    assert first + [';'] + (second + rest) == first + (";" + second + rest);
  }

  lemma {:induction false} RestShown(n: Normal, ks: seq<Key>)
    requires Named(n) && KFreq !in ks
    ensures Rest(Entries(n, ks)) == AllShown(n, ks)
    decreases |ks|
  {
    if ks != [] {
      RestShown(n, ks[1..]);
      OneShown(n, ks[0]);
      if ValueOf(n, ks[0]).Some? {
        var e := Entry(ks[0], ValueOf(n, ks[0]).value);
        assert ([e] + Entries(n, ks[1..]))[1..] == Entries(n, ks[1..]);
      }
    }
  }

  lemma OneShown(n: Normal, k: Key)
    requires Named(n) && k != KFreq
    ensures Shown(n, k) == if ValueOf(n, k).None? then "" else ";" + EntryText(Entry(k, ValueOf(n, k).value))
  {
    HeadingIs(k);
    TextShownIs(n, k);
  }

  lemma HeadingIs(k: Key)
    ensures Heading(k) == Name(k) + ['=']
  {
  }

  lemma TextShownIs(n: Normal, k: Key)
    requires Named(n)
    ensures TextShown(n, k) == if ValueOf(n, k).None? then None else Some(ValueText(k, ValueOf(n, k).value))
  {
  }
}
