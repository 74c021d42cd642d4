/** rrule.__str__ and _rrulestr._parse_rfc_rrule: printing the RRULE line of a rule and reading it back. */
module RuleText {
  import opened Sequences
  import opened Text
  import opened Calendar
  import opened Rules
  import opened RuleInit
  import opened Stepping

  /** The parts of an RRULE, in the order in which they are printed. */
  datatype Key =
    | KFreq | KInterval | KWkst | KCount | KSetPos | KMonth | KMonthDay | KYearDay
    | KWeekNo | KDay | KHour | KMinute | KSecond | KEaster

  datatype Value = FreqValue(freq: Freq) | IntValue(n: int) | DayValue(weekday: int) | IntList(ints: seq<int>) | DayList(days: seq<WDay>)

  /** The keyword arguments collected while a line is read. */
  type Kwargs = map<Key, Value>

  const PRINT_ORDER: seq<Key> :=
    [KFreq, KInterval, KWkst, KCount, KSetPos, KMonth, KMonthDay, KYearDay, KWeekNo, KDay, KHour, KMinute, KSecond, KEaster]

  function Name(k: Key): string {
    match k
    case KFreq => "FREQ" case KInterval => "INTERVAL" case KWkst => "WKST" case KCount => "COUNT"
    case KSetPos => "BYSETPOS" case KMonth => "BYMONTH" case KMonthDay => "BYMONTHDAY" case KYearDay => "BYYEARDAY"
    case KWeekNo => "BYWEEKNO" case KDay => "BYDAY" case KHour => "BYHOUR" case KMinute => "BYMINUTE"
    case KSecond => "BYSECOND" case KEaster => "BYEASTER"
  }

  /** The handler that getattr finds for a name; BYWEEKDAY is another name of BYDAY. */
  function KeyOf(name: string): Option<Key> {
    if name == "FREQ" then Some(KFreq)
    else if name == "INTERVAL" then Some(KInterval)
    else if name == "WKST" then Some(KWkst)
    else if name == "COUNT" then Some(KCount)
    else if name == "BYSETPOS" then Some(KSetPos)
    else if name == "BYMONTH" then Some(KMonth)
    else if name == "BYMONTHDAY" then Some(KMonthDay)
    else if name == "BYYEARDAY" then Some(KYearDay)
    else if name == "BYWEEKNO" then Some(KWeekNo)
    else if name == "BYDAY" || name == "BYWEEKDAY" then Some(KDay)
    else if name == "BYHOUR" then Some(KHour)
    else if name == "BYMINUTE" then Some(KMinute)
    else if name == "BYSECOND" then Some(KSecond)
    else if name == "BYEASTER" then Some(KEaster)
    else None
  }

  function FreqName(f: Freq): string {
    match f
    case YEARLY => "YEARLY" case MONTHLY => "MONTHLY" case WEEKLY => "WEEKLY" case DAILY => "DAILY"
    case HOURLY => "HOURLY" case MINUTELY => "MINUTELY" case SECONDLY => "SECONDLY"
  }

  function FreqOf(s: string): Option<Freq> {
    if s == "YEARLY" then Some(YEARLY)
    else if s == "MONTHLY" then Some(MONTHLY)
    else if s == "WEEKLY" then Some(WEEKLY)
    else if s == "DAILY" then Some(DAILY)
    else if s == "HOURLY" then Some(HOURLY)
    else if s == "MINUTELY" then Some(MINUTELY)
    else if s == "SECONDLY" then Some(SECONDLY)
    else None
  }

  function DayName(w: int): string
    requires 0 <= w < 7
  {
    match w case 0 => "MO" case 1 => "TU" case 2 => "WE" case 3 => "TH" case 4 => "FR" case 5 => "SA" case _ => "SU"
  }

  function WeekdayOf(s: string): Option<int> {
    if s == "MO" then Some(0)
    else if s == "TU" then Some(1)
    else if s == "WE" then Some(2)
    else if s == "TH" then Some(3)
    else if s == "FR" then Some(4)
    else if s == "SA" then Some(5)
    else if s == "SU" then Some(6)
    else None
  }

  // ---- Printing ----

  predicate IsDay(w: WDay) { 0 <= w.weekday < 7 }

  /** Every weekday is one of MO to SU. */
  predicate Named(n: Normal) {
    && 0 <= n.wkst < 7
    && (n.original.byweekday.Some? ==> forall i :: 0 <= i < |n.original.byweekday.value| ==> IsDay(n.original.byweekday.value[i]))
  }

  function DayText(w: WDay): string
    requires IsDay(w)
  {
    if w.n != 0 then SignedText(w.n) + DayName(w.weekday) else DayName(w.weekday)
  }

  function IntTexts(s: seq<int>): (r: seq<string>)
    ensures |r| == |s| && forall i :: 0 <= i < |s| ==> r[i] == IntText(s[i])
  {
    seq(|s|, i requires 0 <= i < |s| => IntText(s[i]))
  }

  function DayTexts(s: seq<WDay>): (r: seq<string>)
    requires forall i :: 0 <= i < |s| ==> IsDay(s[i])
    ensures |r| == |s| && forall i :: 0 <= i < |s| ==> r[i] == DayText(s[i])
  {
    seq(|s|, i requires 0 <= i < |s| => DayText(s[i]))
  }

  /** v is a value that part k can print. */
  predicate Suits(k: Key, v: Value) {
    match k
    case KFreq => v.FreqValue?
    case KInterval => v.IntValue?
    case KCount => v.IntValue?
    case KWkst => v.DayValue? && 0 <= v.weekday < 7
    case KDay => v.DayList? && v.days != [] && forall i :: 0 <= i < |v.days| ==> IsDay(v.days[i])
    case _ => v.IntList? && v.ints != []
  }

  function ValueText(k: Key, v: Value): string
    requires Suits(k, v)
  {
    match v
    case FreqValue(f) => FreqName(f)
    case IntValue(n) => IntText(n)
    case DayValue(w) => DayName(w)
    case IntList(s) => Join(',', IntTexts(s))
    case DayList(s) => Join(',', DayTexts(s))
  }

  function NonEmpty(s: Option<seq<int>>): Option<Value> {
    if s.None? || s.value == [] then None else Some(IntList(s.value))
  }

  /** What part k prints; None where the part is left out. */
  function ValueOf(n: Normal, k: Key): (v: Option<Value>)
    requires Named(n)
    ensures v.Some? ==> Suits(k, v.value)
  {
    var o := n.original;
    match k
    case KFreq => Some(FreqValue(n.freq))
    case KInterval => if n.interval != 1 then Some(IntValue(n.interval)) else None
    case KWkst => if n.wkst != 0 then Some(DayValue(n.wkst)) else None
    case KCount => if n.count.Some? then Some(IntValue(n.count.value)) else None
    case KSetPos => NonEmpty(o.bysetpos)
    case KMonth => NonEmpty(o.bymonth)
    case KMonthDay => NonEmpty(o.bymonthday)
    case KYearDay => NonEmpty(o.byyearday)
    case KWeekNo => NonEmpty(o.byweekno)
    case KDay => if o.byweekday.None? || o.byweekday.value == [] then None else Some(DayList(o.byweekday.value))
    case KHour => NonEmpty(o.byhour)
    case KMinute => NonEmpty(o.byminute)
    case KSecond => NonEmpty(o.bysecond)
    case KEaster => NonEmpty(o.byeaster)
  }

  datatype Entry = Entry(key: Key, value: Value)

  predicate AllSuit(es: seq<Entry>) {
    forall i :: 0 <= i < |es| ==> Suits(es[i].key, es[i].value)
  }

  function Entries(n: Normal, ks: seq<Key>): (es: seq<Entry>)
    requires Named(n)
    ensures AllSuit(es)
  {
    if ks == [] then []
    else if ValueOf(n, ks[0]).None? then Entries(n, ks[1..])
    else [Entry(ks[0], ValueOf(n, ks[0]).value)] + Entries(n, ks[1..])
  }

  function EntryText(e: Entry): string
    requires Suits(e.key, e.value)
  {
    Name(e.key) + ['='] + ValueText(e.key, e.value)
  }

  function EntryTexts(es: seq<Entry>): (r: seq<string>)
    requires AllSuit(es)
    ensures |r| == |es| && forall i :: 0 <= i < |es| ==> r[i] == EntryText(es[i])
  {
    seq(|es|, i requires 0 <= i < |es| => EntryText(es[i]))
  }

  function Line(es: seq<Entry>): string
    requires AllSuit(es)
  {
    "RRULE" + [':'] + Join(';', EntryTexts(es))
  }

  /** The RRULE line of a rule. */
  function Print(n: Normal): string
    requires Named(n)
  {
    Line(Entries(n, PRINT_ORDER))
  }

  lemma {:induction false} EntriesStep(n: Normal, ks: seq<Key>, k: Key)
    requires Named(n)
    ensures Entries(n, ks + [k]) == Entries(n, ks) + (if ValueOf(n, k).None? then [] else [Entry(k, ValueOf(n, k).value)])
  {
    if ks == [] {
      assert [k][1..] == [];
    } else {
      EntriesStep(n, ks[1..], k);
      assert (ks + [k])[1..] == ks[1..] + [k];
    }
  }

  /** The texts grow as the parts that say something do. */
  lemma TextsStep(n: Normal, ks: seq<Key>, k: Key)
    requires Named(n)
    ensures EntryTexts(Entries(n, ks + [k])) == EntryTexts(Entries(n, ks)) +
              (if ValueOf(n, k).None? then [] else [Name(k) + ['='] + ValueText(k, ValueOf(n, k).value)])
  {
    EntriesStep(n, ks, k);
    TextsAppend(Entries(n, ks), if ValueOf(n, k).None? then [] else [Entry(k, ValueOf(n, k).value)]);
  }

  lemma TextsAppend(es: seq<Entry>, more: seq<Entry>)
    requires AllSuit(es) && AllSuit(more)
    ensures AllSuit(es + more) && EntryTexts(es + more) == EntryTexts(es) + EntryTexts(more)
  {
  }

  /** rrule.__str__ without its DTSTART line. */
  method Str(n: Normal) returns (s: string)
    requires Named(n)
    ensures s == Print(n)
  {
    var parts := Parts(n, PRINT_ORDER);
    s := "RRULE" + [':'] + Join(';', parts);
  }

  /** The parts that say something, in the given order. */
  method Parts(n: Normal, order: seq<Key>) returns (parts: seq<string>)
    requires Named(n)
    ensures parts == EntryTexts(Entries(n, order))
  {
    parts := [];
    for i := 0 to |order|
      invariant parts == EntryTexts(Entries(n, order[..i]))
    {
      var k := order[i];
      assert order[..i + 1] == order[..i] + [k];
      TextsStep(n, order[..i], k);
      var value := ValueOf(n, k);
      if value.Some? {
        parts := parts + [Name(k) + ['='] + ValueText(k, value.value)];
      }
    }
    assert order[..|order|] == order;
  }

  // ---- Reading ----

  function UpperChar(c: char): char {
    if 'a' <= c <= 'z' then 'A' + (c - 'a') else c
  }

  /** s.upper() on ASCII. */
  function Upper(s: string): (r: string)
    ensures |r| == |s| && forall i :: 0 <= i < |s| ==> r[i] == UpperChar(s[i])
  {
    seq(|s|, i requires 0 <= i < |s| => UpperChar(s[i]))
  }

  predicate IsSignOrDigit(c: char) {
    c == '+' || c == '-' || IsDigit(c)
  }

  /** Where the scan over signs and digits stops: at the first other character, or at the last character. */
  function Lead(s: string): (i: nat)
    requires s != []
    ensures i < |s|
  {
    if |s| == 1 || !IsSignOrDigit(s[0]) then 0 else 1 + Lead(s[1..])
  }

  function Numbered(w: string, n: string): Option<WDay> {
    if ParseInt(n).None? || WeekdayOf(w).None? || ParseInt(n).value == 0 then None
    else Some(WDay(WeekdayOf(w).value, ParseInt(n).value))
  }

  /** One member of a BYDAY list: TH(+1), +1TH or TH. */
  function ParseDay(s: string): Option<WDay> {
    if Find(s, '(') < |s| then
      var rest := s[Find(s, '(') + 1..];
      var second := rest[..Find(rest, '(')];
      if second == [] then None else Numbered(s[..Find(s, '(')], second[..|second| - 1])
    else if s == [] then None
    else if Lead(s) == 0 then
      if WeekdayOf(s).None? then None else Some(WDay(WeekdayOf(s).value, 0))
    else Numbered(s[Lead(s)..], s[..Lead(s)])
  }

  /** Each part read with `parse`; None where one of them fails. */
  function ParseAll<V>(parse: string -> Option<V>, parts: seq<string>): Option<seq<V>> {
    if parts == [] then Some([])
    else if parse(parts[0]).None? || ParseAll(parse, parts[1..]).None? then None
    else Some([parse(parts[0]).value] + ParseAll(parse, parts[1..]).value)
  }

  function ParseDays(parts: seq<string>): Option<seq<WDay>> {
    ParseAll((s: string) => ParseDay(s), parts)
  }

  function ParseInts(parts: seq<string>): Option<seq<int>> {
    ParseAll((s: string) => ParseInt(s), parts)
  }

  /** What the handler of part k makes of a text; None is its ValueError or KeyError. */
  function ParseValue(k: Key, s: string): Option<Value> {
    match k
    case KFreq => if FreqOf(s).None? then None else Some(FreqValue(FreqOf(s).value))
    case KInterval => if ParseInt(s).None? then None else Some(IntValue(ParseInt(s).value))
    case KCount => if ParseInt(s).None? then None else Some(IntValue(ParseInt(s).value))
    case KWkst => if WeekdayOf(s).None? then None else Some(DayValue(WeekdayOf(s).value))
    case KDay => if ParseDays(Split(s, ',')).None? then None else Some(DayList(ParseDays(Split(s, ',')).value))
    case _ => if ParseInts(Split(s, ',')).None? then None else Some(IntList(ParseInts(Split(s, ',')).value))
  }

  /** One name=value pair. */
  function ParsePair(pair: string): Option<Entry> {
    var i := Find(pair, '=');
    if i == |pair| || '=' in pair[i + 1..] then None
    else
      var k, text := KeyOf(Upper(pair[..i])), Upper(pair[i + 1..]);
      if k.None? || ParseValue(k.value, text).None? then None
      else Some(Entry(k.value, ParseValue(k.value, text).value))
  }

  /** A later pair replaces an earlier one of the same name. */
  function ParsePairs(pairs: seq<string>): Option<Kwargs> {
    if pairs == [] then Some(map[])
    else
      var last := |pairs| - 1;
      if ParsePairs(pairs[..last]).None? || ParsePair(pairs[last]).None? then None
      else Some(ParsePairs(pairs[..last]).value[ParsePair(pairs[last]).value.key := ParsePair(pairs[last]).value.value])
  }

  function Lookup(kw: Kwargs, k: Key): Option<Value> {
    if k in kw then Some(kw[k]) else None
  }

  function IntArg(v: Option<Value>): Option<int> {
    if v.Some? && v.value.IntValue? then Some(v.value.n) else if v.Some? && v.value.DayValue? then Some(v.value.weekday) else None
  }

  function IntsArg(v: Option<Value>): Option<seq<int>> {
    if v.Some? && v.value.IntList? then Some(v.value.ints) else None
  }

  function DaysArg(v: Option<Value>): Option<seq<WDay>> {
    if v.Some? && v.value.DayList? then Some(v.value.days) else None
  }

  /** The call rrule(**rrkwargs): FREQ is required, INTERVAL is 1 by default. */
  function ArgsOf(kw: Kwargs): Option<Args> {
    var freq, interval := Lookup(kw, KFreq), IntArg(Lookup(kw, KInterval));
    if freq.None? || !freq.value.FreqValue? then None
    else
      Some(Args(freq.value.freq, if interval.None? then 1 else interval.value, IntArg(Lookup(kw, KWkst)), IntArg(Lookup(kw, KCount)),
        IntsArg(Lookup(kw, KSetPos)), IntsArg(Lookup(kw, KMonth)), IntsArg(Lookup(kw, KMonthDay)), IntsArg(Lookup(kw, KYearDay)),
        IntsArg(Lookup(kw, KEaster)), IntsArg(Lookup(kw, KWeekNo)), DaysArg(Lookup(kw, KDay)),
        IntsArg(Lookup(kw, KHour)), IntsArg(Lookup(kw, KMinute)), IntsArg(Lookup(kw, KSecond))))
  }

  /** The value part of a line; None where the line has another property name or a second colon. */
  function RuleValue(line: string): Option<string> {
    var i := Find(line, ':');
    if i == |line| then Some(line)
    else if line[..i] == "RRULE" && ':' !in line[i + 1..] then Some(line[i + 1..])
    else None
  }

  /** The arguments a line carries; None where reading it raises an error. */
  function Parse(line: string): Option<Args> {
    if RuleValue(line).None? || ParsePairs(Split(RuleValue(line).value, ';')).None? then None
    else ArgsOf(ParsePairs(Split(RuleValue(line).value, ';')).value)
  }

  lemma {:induction false} PairFails(pairs: seq<string>, i: nat)
    requires i <= |pairs| && ParsePairs(pairs[..i]).None?
    ensures ParsePairs(pairs).None?
    decreases |pairs| - i
  {
    if i == |pairs| {
      assert pairs[..i] == pairs;
    } else {
      assert pairs[..i + 1][..i] == pairs[..i];
      PairFails(pairs, i + 1);
    }
  }

  /** _parse_rfc_rrule, up to the call of the constructor. */
  method ParseLine(line: string) returns (r: Option<Args>)
    ensures r == Parse(line)
  {
    var value := RuleValue(line);
    if value.None? {
      return None;
    }
    var rrkwargs := CollectPairs(Split(value.value, ';'));
    if rrkwargs.None? {
      return None;
    }
    r := ArgsOf(rrkwargs.value);
  }

  /** The loop over the pairs. */
  method CollectPairs(pairs: seq<string>) returns (r: Option<Kwargs>)
    ensures r == ParsePairs(pairs)
  {
    var rrkwargs: Kwargs := map[];
    for i := 0 to |pairs|
      invariant ParsePairs(pairs[..i]) == Some(rrkwargs)
    {
      assert pairs[..i + 1][..i] == pairs[..i];
      var entry := ParsePair(pairs[i]);
      if entry.None? {
        PairFails(pairs, i + 1);
        return None;
      }
      rrkwargs := rrkwargs[entry.value.key := entry.value.value];
    }
    assert pairs[..|pairs|] == pairs;
    r := Some(rrkwargs);
  }

  // ---- Printed text is made of plain characters ----

  predicate PlainChar(c: char) {
    'A' <= c <= 'Z' || IsSignOrDigit(c) || c == ','
  }

  predicate PlainText(s: string) {
    forall i :: 0 <= i < |s| ==> PlainChar(s[i])
  }

  lemma NamesPlain(k: Key, f: Freq, w: int)
    requires 0 <= w < 7
    ensures PlainText(Name(k)) && PlainText(FreqName(f)) && PlainText(DayName(w))
  {
    NamePlain(k);
    FreqNamePlain(f);
    DayNamePlain(w);
  }

  lemma NamePlain(k: Key)
    ensures PlainText(Name(k))
  {
  }

  lemma FreqNamePlain(f: Freq)
    ensures PlainText(FreqName(f))
  {
  }

  lemma DayNamePlain(w: int)
    requires 0 <= w < 7
    ensures PlainText(DayName(w))
  {
  }

  lemma IntPlain(n: int)
    ensures PlainText(IntText(n)) && PlainText(SignedText(n)) && ',' !in IntText(n) && ',' !in SignedText(n)
  {
  }

  lemma {:induction false} JoinPlain(parts: seq<string>)
    requires forall i :: 0 <= i < |parts| ==> PlainText(parts[i])
    ensures PlainText(Join(',', parts))
  {
    if |parts| > 1 {
      JoinPlain(parts[1..]);
    }
  }

  lemma DayTextPlain(w: WDay)
    requires IsDay(w)
    ensures PlainText(DayText(w)) && ',' !in DayText(w)
  {
    NamesPlain(KFreq, YEARLY, w.weekday);
    IntPlain(w.n);
  }

  lemma ValuePlain(k: Key, v: Value)
    requires Suits(k, v)
    ensures PlainText(ValueText(k, v))
  {
    match v
    case FreqValue(f) => NamesPlain(k, f, 0);
    case IntValue(n) => IntPlain(n);
    case DayValue(w) => NamesPlain(k, YEARLY, w);
    case IntList(s) =>
      forall i | 0 <= i < |s|
        ensures PlainText(IntTexts(s)[i])
      {
        IntPlain(s[i]);
      }
      JoinPlain(IntTexts(s));
    case DayList(s) =>
      forall i | 0 <= i < |s|
        ensures PlainText(DayTexts(s)[i])
      {
        DayTextPlain(s[i]);
      }
      JoinPlain(DayTexts(s));
  }

  lemma UpperPlain(s: string)
    requires PlainText(s)
    ensures Upper(s) == s
  {
  }

  // ---- Each part reads back ----

  lemma NameReads(k: Key)
    ensures KeyOf(Name(k)) == Some(k)
  {
  }

  lemma FreqReads(f: Freq)
    ensures FreqOf(FreqName(f)) == Some(f)
  {
  }

  lemma WeekdayReads(w: int)
    requires 0 <= w < 7
    ensures WeekdayOf(DayName(w)) == Some(w)
  {
  }

  lemma {:induction false} LeadOfSigns(a: string, b: string)
    requires b != [] && !IsSignOrDigit(b[0]) && forall i :: 0 <= i < |a| ==> IsSignOrDigit(a[i])
    ensures Lead(a + b) == |a|
  {
    if a == [] {
      assert a + b == b;
    } else {
      LeadOfSigns(a[1..], b);
      assert (a + b)[1..] == a[1..] + b;
    }
  }

  lemma NoChar(s: string, c: char)
    requires PlainText(s) && !PlainChar(c)
    ensures c !in s && Find(s, c) == |s|
  {
  }

  lemma DayReads(w: WDay)
    requires IsDay(w)
    ensures ParseDay(DayText(w)) == Some(w)
  {
    var name, s := DayName(w.weekday), DayText(w);
    DayTextPlain(w);
    NoChar(s, '(');
    WeekdayReads(w.weekday);
    if w.n == 0 {
      LeadOfSigns("", name);
      assert "" + name == name;
    } else {
      var number := SignedText(w.n);
      LeadOfSigns(number, name);
      ParseIntText(w.n);
      assert s[..|number|] == number && s[|number|..] == name;
    }
  }

  lemma {:induction false} AllRead<V>(parse: string -> Option<V>, parts: seq<string>, values: seq<V>)
    requires |parts| == |values| && forall i :: 0 <= i < |parts| ==> parse(parts[i]) == Some(values[i])
    ensures ParseAll(parse, parts) == Some(values)
  {
    if parts != [] {
      AllRead(parse, parts[1..], values[1..]);
      assert values == [values[0]] + values[1..];
    }
  }

  lemma IntsRead(s: seq<int>)
    ensures ParseInts(IntTexts(s)) == Some(s)
  {
    var parse := (s: string) => ParseInt(s);
    forall i | 0 <= i < |s|
      ensures parse(IntTexts(s)[i]) == Some(s[i])
    {
      ParseIntText(s[i]);
    }
    AllRead(parse, IntTexts(s), s);
  }

  lemma DaysRead(s: seq<WDay>)
    requires forall i :: 0 <= i < |s| ==> IsDay(s[i])
    ensures ParseDays(DayTexts(s)) == Some(s)
  {
    var parse := (s: string) => ParseDay(s);
    forall i | 0 <= i < |s|
      ensures parse(DayTexts(s)[i]) == Some(s[i])
    {
      DayReads(s[i]);
    }
    AllRead(parse, DayTexts(s), s);
  }

  lemma ValueReads(k: Key, v: Value)
    requires Suits(k, v)
    ensures ParseValue(k, ValueText(k, v)) == Some(v)
  {
    match v
    case FreqValue(f) => FreqReads(f);
    case IntValue(n) => ParseIntText(n);
    case DayValue(w) => WeekdayReads(w);
    case IntList(s) =>
      forall i | 0 <= i < |s|
        ensures ',' !in IntTexts(s)[i]
      {
        IntPlain(s[i]);
      }
      SplitJoin(',', IntTexts(s));
      IntsRead(s);
    case DayList(s) =>
      forall i | 0 <= i < |s|
        ensures ',' !in DayTexts(s)[i]
      {
        DayTextPlain(s[i]);
      }
      SplitJoin(',', DayTexts(s));
      DaysRead(s);
  }

  lemma PairReads(k: Key, text: string)
    requires PlainText(text) && ParseValue(k, text).Some?
    ensures ParsePair(Name(k) + ['='] + text) == Some(Entry(k, ParseValue(k, text).value))
  {
    var name := Name(k);
    var pair := name + ['='] + text;
    NamesPlain(k, YEARLY, 0);
    NoChar(name, '=');
    NoChar(text, '=');
    FindIn(name, '=', text);
    assert pair[..|name|] == name && pair[|name| + 1..] == text;
    UpperPlain(name);
    UpperPlain(text);
    NameReads(k);
  }

  lemma EntryReads(e: Entry)
    requires Suits(e.key, e.value)
    ensures ParsePair(EntryText(e)) == Some(e)
  {
    ValuePlain(e.key, e.value);
    ValueReads(e.key, e.value);
    PairReads(e.key, ValueText(e.key, e.value));
  }

  lemma EntryTextPlain(e: Entry, c: char)
    requires Suits(e.key, e.value) && !PlainChar(c) && c != '='
    ensures c !in EntryText(e)
  {
    NamesPlain(e.key, YEARLY, 0);
    ValuePlain(e.key, e.value);
    NoChar(Name(e.key), c);
    NoChar(ValueText(e.key, e.value), c);
  }

  // ---- The line reads back ----

  function Collected(es: seq<Entry>): Kwargs {
    if es == [] then map[] else Collected(es[..|es| - 1])[es[|es| - 1].key := es[|es| - 1].value]
  }

  lemma {:induction false} EntriesRead(es: seq<Entry>)
    requires AllSuit(es)
    ensures ParsePairs(EntryTexts(es)) == Some(Collected(es))
  {
    if es != [] {
      var last := |es| - 1;
      EntriesRead(es[..last]);
      EntryReads(es[last]);
      assert EntryTexts(es)[..last] == EntryTexts(es[..last]);
    }
  }

  /** Reading a printed line gives the entries it was printed from. */
  lemma LineReads(es: seq<Entry>)
    requires AllSuit(es) && es != []
    ensures Parse(Line(es)) == ArgsOf(Collected(es))
  {
    var value := Join(';', EntryTexts(es));
    TextsPlain(es);
    SplitJoin(';', EntryTexts(es));
    JoinChars(';', EntryTexts(es), ':');
    ValueRead("RRULE", value, Line(es));
    EntriesRead(es);
  }

  lemma TextsPlain(es: seq<Entry>)
    requires AllSuit(es)
    ensures forall i :: 0 <= i < |EntryTexts(es)| ==> ';' !in EntryTexts(es)[i] && ':' !in EntryTexts(es)[i]
  {
    var parts := EntryTexts(es);
    forall i | 0 <= i < |parts|
      ensures ';' !in parts[i] && ':' !in parts[i]
    {
      EntryTextPlain(es[i], ';');
      EntryTextPlain(es[i], ':');
    }
  }

  lemma ValueRead(name: string, value: string, line: string)
    requires name == "RRULE" && ':' !in value && line == name + ([':'] + value)
    ensures RuleValue(line) == Some(value)
  {
    FindIn(name, ':', value);
    assert line == name + [':'] + value;
    assert line[..5] == name && line[6..] == value;
  }

  predicate Distinct(ks: seq<Key>) {
    forall i, j :: 0 <= i < j < |ks| ==> ks[i] != ks[j]
  }

  lemma {:induction false} CollectedValues(n: Normal, ks: seq<Key>, k: Key)
    requires Named(n) && Distinct(ks)
    ensures Lookup(Collected(Entries(n, ks)), k) == if k in ks then ValueOf(n, k) else None
  {
    if ks != [] {
      var last := |ks| - 1;
      CollectedValues(n, ks[..last], k);
      assert ks == ks[..last] + [ks[last]];
      EntriesStep(n, ks[..last], ks[last]);
      CollectedStep(n, ks[last], Entries(n, ks[..last]), Entries(n, ks));
    }
  }

  lemma CollectedStep(n: Normal, k: Key, before: seq<Entry>, es: seq<Entry>)
    requires Named(n)
    requires es == before + (if ValueOf(n, k).None? then [] else [Entry(k, ValueOf(n, k).value)])
    ensures Collected(es) == if ValueOf(n, k).None? then Collected(before) else Collected(before)[k := ValueOf(n, k).value]
  {
    if ValueOf(n, k).None? {
      assert es == before;
    } else {
      assert es[..|es| - 1] == before;
    }
  }

  lemma ScalarArgs(n: Normal)
    requires Named(n)
    ensures IntArg(ValueOf(n, KInterval)) == if n.interval == 1 then None else Some(n.interval)
    ensures IntArg(ValueOf(n, KWkst)) == if n.wkst == 0 then None else Some(n.wkst)
    ensures IntArg(ValueOf(n, KCount)) == n.count
  {
  }

  lemma ListArgs(n: Normal)
    requires Named(n)
    ensures var o := n.original;
            && IntsArg(ValueOf(n, KSetPos)) == Listed(o.bysetpos) && IntsArg(ValueOf(n, KMonth)) == Listed(o.bymonth)
            && IntsArg(ValueOf(n, KMonthDay)) == Listed(o.bymonthday) && IntsArg(ValueOf(n, KYearDay)) == Listed(o.byyearday)
            && IntsArg(ValueOf(n, KEaster)) == Listed(o.byeaster) && IntsArg(ValueOf(n, KWeekNo)) == Listed(o.byweekno)
            && DaysArg(ValueOf(n, KDay)) == Listed(o.byweekday) && IntsArg(ValueOf(n, KHour)) == Listed(o.byhour)
            && IntsArg(ValueOf(n, KMinute)) == Listed(o.byminute) && IntsArg(ValueOf(n, KSecond)) == Listed(o.bysecond)
  {
    DateArgs(n);
    TimeArgs(n);
  }

  lemma DateArgs(n: Normal)
    requires Named(n)
    ensures var o := n.original;
            && IntsArg(ValueOf(n, KSetPos)) == Listed(o.bysetpos) && IntsArg(ValueOf(n, KMonth)) == Listed(o.bymonth)
            && IntsArg(ValueOf(n, KMonthDay)) == Listed(o.bymonthday) && IntsArg(ValueOf(n, KYearDay)) == Listed(o.byyearday)
            && IntsArg(ValueOf(n, KEaster)) == Listed(o.byeaster) && IntsArg(ValueOf(n, KWeekNo)) == Listed(o.byweekno)
  {
  }

  lemma TimeArgs(n: Normal)
    requires Named(n)
    ensures var o := n.original;
            && DaysArg(ValueOf(n, KDay)) == Listed(o.byweekday) && IntsArg(ValueOf(n, KHour)) == Listed(o.byhour)
            && IntsArg(ValueOf(n, KMinute)) == Listed(o.byminute) && IntsArg(ValueOf(n, KSecond)) == Listed(o.bysecond)
  {
  }

  lemma ValuesAreArgs(n: Normal, kw: Kwargs)
    requires Named(n) && forall k :: Lookup(kw, k) == ValueOf(n, k)
    ensures ArgsOf(kw) == Some(Reread(n))
  {
    ScalarArgs(n);
    ListArgs(n);
    var v := Lookup(kw, KFreq);
    assert v == Some(FreqValue(n.freq));
    ghost var interval := IntArg(Lookup(kw, KInterval));
    assert (if interval.None? then 1 else interval.value) == n.interval;
  }

  lemma AllCollected(n: Normal, ks: seq<Key>)
    requires Named(n) && Distinct(ks) && forall k: Key :: k in ks
    ensures ArgsOf(Collected(Entries(n, ks))) == Some(Reread(n)) && Entries(n, ks) != []
  {
    var kw := Collected(Entries(n, ks));
    forall k
      ensures Lookup(kw, k) == ValueOf(n, k)
    {
      CollectedValues(n, ks, k);
    }
    ValuesAreArgs(n, kw);
  }

  /** Reading the printed rule gives its non-empty original arguments. */
  lemma PrintReads(n: Normal)
    requires Named(n)
    ensures Parse(Print(n)) == Some(Reread(n))
  {
    forall k
      ensures k in PRINT_ORDER
    {
      AllPrinted(k);
    }
    PrintedReads(n, PRINT_ORDER);
  }

  lemma PrintedReads(n: Normal, order: seq<Key>)
    requires Named(n) && Distinct(order) && forall k :: k in order
    ensures Parse(Line(Entries(n, order))) == Some(Reread(n))
  {
    AllCollected(n, order);
    LineReads(Entries(n, order));
  }

  lemma AllPrinted(k: Key)
    ensures k in PRINT_ORDER
  {
    var i := match k
      case KFreq => 0 case KInterval => 1 case KWkst => 2 case KCount => 3 case KSetPos => 4 case KMonth => 5 case KMonthDay => 6
      case KYearDay => 7 case KWeekNo => 8 case KDay => 9 case KHour => 10 case KMinute => 11 case KSecond => 12 case KEaster => 13;
    assert PRINT_ORDER[i] == k;
  }

  // ---- Round trip ----

  /** No list argument is empty, and the days of the month name at least one day. */
  predicate NothingEmpty(a: Args) {
    && a.bysetpos != Some([]) && a.bymonth != Some([]) && a.byyearday != Some([]) && a.byeaster != Some([])
    && a.byweekno != Some([]) && a.byweekday != Some([])
    && a.byhour != Some([]) && a.byminute != Some([]) && a.bysecond != Some([])
    && (a.bymonthday.Some? ==> exists i :: 0 <= i < |a.bymonthday.value| && a.bymonthday.value[i] != 0)
  }

  lemma ListedIffNonEmpty(s: seq<int>)
    ensures SortedSet(s) == [] <==> s == []
  {
    HasMember(s);
    HasMember(SortedSet(s));
  }

  /** Printing a rule and reading the line back rebuilds the rule, field for field, exactly when no list
      argument was empty and BYMONTHDAY was not all zeros. */
  lemma RoundTripIff(a: Args, t: int)
    requires DAY <= t && Init(a, t).Some? && Named(Init(a, t).value)
    ensures Parse(Print(Init(a, t).value)).Some?
    ensures Init(Parse(Print(Init(a, t).value)).value, t) == Init(a, t) <==> NothingEmpty(a)
  {
    PrintReads(Init(a, t).value);
    RereadIff(a, t);
    ListedIff(a, t);
  }

  /** BYMONTHDAY=0 with FREQ=YEARLY recurs on every day; what is printed, FREQ=YEARLY alone, does not. */
  lemma ZeroMonthDay(t: int, until: Option<int>)
    requires DAY <= t
    ensures var a := Args(YEARLY, 1, None, None, None, None, Some([0]), None, None, None, None, None, None, None);
            && Init(a, t).Some? && Init(a, t).value.bymonthday == [] && Init(a, t).value.bynmonthday == []
            && Parse(Print(Init(a, t).value)).Some?
            && Init(Parse(Print(Init(a, t).value)).value, t).Some?
            && Init(Parse(Print(Init(a, t).value)).value, t).value.bymonthday == [MonthDay(DayOf(t))]
    ensures var a := Args(YEARLY, 1, None, None, None, None, Some([0]), None, None, None, None, None, None, None);
            var before := ToRule(Init(a, t).value, t, until);
            var again := ToRule(Init(Parse(Print(Init(a, t).value)).value, t).value, t, until);
            forall n :: 1 <= n ==>
              && DateOk(before, n)
              && (DateOk(again, n) <==> MonthOf(n) == MonthOf(DayOf(t)) && MonthDay(n) == MonthDay(DayOf(t)))
  {
    var a := Args(YEARLY, 1, None, None, None, None, Some([0]), None, None, None, None, None, None, None);
    ZeroIsDropped(a, t);
    var n := Init(a, t).value;
    PrintReads(n);
    DefaultDay(Reread(n), t);
    EveryDay(ToRule(n, t, until));
    OneDay(ToRule(Init(Reread(n), t).value, t, until), DayOf(t));
  }

  lemma EveryDay(r: Rule)
    requires r.bymonth == [] && r.byweekday == [] && r.bymonthday == [] && r.bynmonthday == []
    requires r.byyearday == [] && r.bynweekday == []
    ensures forall n :: 1 <= n ==> DateOk(r, n)
  {
  }

  lemma OneDay(r: Rule, d: int)
    requires 1 <= d && r.bymonth == [MonthOf(d)] && r.bymonthday == [MonthDay(d)] && r.bynmonthday == []
    requires r.byweekday == [] && r.byyearday == [] && r.bynweekday == []
    ensures forall n :: 1 <= n ==> (DateOk(r, n) <==> MonthOf(n) == MonthOf(d) && MonthDay(n) == MonthDay(d))
  {
  }

  /** A zero among the month days is neither a day from the start nor one from the end. */
  lemma ZeroIsDropped(a: Args, t: int)
    requires DAY <= t
    requires a == Args(YEARLY, 1, None, None, None, None, Some([0]), None, None, None, None, None, None, None)
    ensures Init(a, t).Some? && Init(a, t).value.bymonthday == [] && Init(a, t).value.bynmonthday == []
    ensures var n := Init(a, t).value;
            n.bymonth == None && n.byyearday == None && n.byweekday == None && ListOf(n.bynweekday) == []
    ensures var b := Reread(Init(a, t).value); b.freq == YEARLY && b.interval == 1 && NoDayGiven(b) && b == Blank(b)
    ensures Named(Init(a, t).value)
  {
    MonthDaysListed([0]);
  }

  /** Arguments with nothing given but the frequency. */
  function Blank(a: Args): Args {
    Args(a.freq, a.interval, None, None, None, None, None, None, None, None, None, None, None, None)
  }

  /** The month day of DTSTART stands in for the day of a yearly rule. */
  lemma DefaultDay(b: Args, t: int)
    requires DAY <= t && b == Blank(b) && b.freq == YEARLY && b.interval == 1
    ensures Init(b, t).Some? && Init(b, t).value.bymonthday == [MonthDay(DayOf(t))]
    ensures var n := Init(b, t).value;
            && n.bymonth == Some([MonthOf(DayOf(t))]) && n.bynmonthday == [] && n.byyearday == None
            && n.byweekday == None && ListOf(n.bynweekday) == []
  {
    assert WithDefaults(b, t) == Days(Some([MonthOf(DayOf(t))]), Some([MonthDay(DayOf(t))]), None);
    PositiveOne(MonthDay(DayOf(t)));
    SortedSetOfIncreasing([MonthOf(DayOf(t))]);
  }

  lemma MonthDaysListed(s: seq<int>)
    ensures SortedSet(Positive(s)) + SortedSet(Negative(s)) == [] <==> forall i :: 0 <= i < |s| ==> s[i] == 0
  {
    ListedIffNonEmpty(Positive(s));
    ListedIffNonEmpty(Negative(s));
    HasMember(Positive(s));
    HasMember(Negative(s));
    if i :| 0 <= i < |s| && s[i] != 0 {
      assert s[i] in s;
      assert s[i] in Positive(s) || s[i] in Negative(s);
    }
  }

  lemma WeekdaysListed(ws: seq<WDay>, f: Freq)
    ensures OriginalDays(Some(ws), f) == Some([]) <==> ws == []
  {
    var ps, ns := SortedSet(Plain(ws, f)), SortedPairs(Nths(ws, f));
    if ws != [] {
      var w := ws[0];
      assert w in ws;
      assert w.n == 0 || f.Rank() > 1 ==> w.weekday in Plain(ws, f);
      assert w.n != 0 && f.Rank() <= 1 ==> (w.weekday, w.n) in Nths(ws, f);
      assert |PlainDays(ps) + NthDays(ns)| == |ps| + |ns| > 0;
    } else {
      assert Plain(ws, f) == [] && Nths(ws, f) == [];
      assert PlainDays(ps) + NthDays(ns) == [];
    }
  }

  lemma TimeListed(given: Option<seq<int>>, f: Freq, own: int, start: int, interval: int, base: int)
    requires base >= 1 && TimePart(given, f, own, start, interval, base).Some? && given.Some?
    ensures TimePart(given, f, own, start, interval, base).value == Some([]) <==> given == Some([])
  {
    ListedIffNonEmpty(given.value);
    ListedIffNonEmpty(Reached(given.value, start, interval, base));
  }

  lemma EasterListed(s: seq<int>)
    ensures SortSeq(s) == [] <==> s == []
  {
    SortSeqOrders(s);
  }

  lemma DaysListedIff(a: Args, t: int)
    requires DAY <= t && Init(a, t).Some?
    ensures var o := Init(a, t).value.original;
            && (o.bymonth == Some([]) <==> a.bymonth == Some([])) && (o.byyearday == Some([]) <==> a.byyearday == Some([]))
            && (o.byweekno == Some([]) <==> a.byweekno == Some([])) && (o.byeaster == Some([]) <==> a.byeaster == Some([]))
  {
    if a.bymonth.Some? { ListedIffNonEmpty(a.bymonth.value); }
    if a.byyearday.Some? { ListedIffNonEmpty(a.byyearday.value); }
    if a.byweekno.Some? { ListedIffNonEmpty(a.byweekno.value); }
    if a.byeaster.Some? { EasterListed(a.byeaster.value); }
  }

  lemma TimesListedIff(a: Args, t: int)
    requires DAY <= t && Init(a, t).Some?
    ensures var o := Init(a, t).value.original;
            && (o.byhour == Some([]) <==> a.byhour == Some([])) && (o.byminute == Some([]) <==> a.byminute == Some([]))
            && (o.bysecond == Some([]) <==> a.bysecond == Some([]))
  {
    if a.byhour.Some? { TimeListed(a.byhour, a.freq, 4, HourOf(t), a.interval, 24); }
    if a.byminute.Some? { TimeListed(a.byminute, a.freq, 5, MinuteOf(t), a.interval, 60); }
    if a.bysecond.Some? { TimeListed(a.bysecond, a.freq, 6, SecondOf(t), a.interval, 60); }
  }

  lemma ListedIff(a: Args, t: int)
    requires DAY <= t && Init(a, t).Some?
    ensures AllListed(Init(a, t).value) <==> NothingEmpty(a)
  {
    DaysListedIff(a, t);
    TimesListedIff(a, t);
    if a.bymonthday.Some? { MonthDaysListed(a.bymonthday.value); }
    if a.byweekday.Some? { WeekdaysListed(a.byweekday.value, a.freq); }
  }
}
