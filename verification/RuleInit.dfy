/** rrule.__init__: from keyword arguments to the normalised fields of a rule. */
module RuleInit {
  import opened Sequences
  import opened Calendar
  import opened Rules
  import opened Stepping
  import opened Products
  import opened Advance
  import opened IterInfos
  import opened Emission

  /** A weekday constant; n == 0 stands for a weekday without a number. */
  datatype WDay = WDay(weekday: int, n: int)

  /** The keyword arguments; None is an argument that was not given. A scalar argument is a list of one. */
  datatype Args = Args(
    freq: Freq,
    interval: int,
    wkst: Option<int>,
    count: Option<int>,
    bysetpos: Option<seq<int>>,
    bymonth: Option<seq<int>>,
    bymonthday: Option<seq<int>>,
    byyearday: Option<seq<int>>,
    byeaster: Option<seq<int>>,
    byweekno: Option<seq<int>>,
    byweekday: Option<seq<WDay>>,
    byhour: Option<seq<int>>,
    byminute: Option<seq<int>>,
    bysecond: Option<seq<int>>
  )

  /** _original_rule: what was given, in normal form; None where nothing was given or a default was derived. */
  datatype Original = Original(
    bysetpos: Option<seq<int>>,
    bymonth: Option<seq<int>>,
    bymonthday: Option<seq<int>>,
    byyearday: Option<seq<int>>,
    byeaster: Option<seq<int>>,
    byweekno: Option<seq<int>>,
    byweekday: Option<seq<WDay>>,
    byhour: Option<seq<int>>,
    byminute: Option<seq<int>>,
    bysecond: Option<seq<int>>
  )

  /** The fields of a rule object. */
  datatype Normal = Normal(
    freq: Freq,
    interval: int,
    wkst: int,
    count: Option<int>,
    bysetpos: Option<seq<int>>,
    bymonth: Option<seq<int>>,
    bymonthday: seq<int>,
    bynmonthday: seq<int>,
    byyearday: Option<seq<int>>,
    byeaster: Option<seq<int>>,
    byweekno: Option<seq<int>>,
    byweekday: Option<seq<int>>,
    bynweekday: Option<seq<(int, int)>>,
    byhour: Option<seq<int>>,
    byminute: Option<seq<int>>,
    bysecond: Option<seq<int>>,
    original: Original
  )

  // ---- Sorted sets of pairs ----

  predicate PairLess(a: (int, int), b: (int, int)) {
    a.0 < b.0 || (a.0 == b.0 && a.1 < b.1)
  }

  ghost predicate PairsIncrease(s: seq<(int, int)>) {
    forall i, j :: 0 <= i < j < |s| ==> PairLess(s[i], s[j])
  }

  function InsertPair(x: (int, int), s: seq<(int, int)>): (r: seq<(int, int)>)
    ensures forall y :: y in r <==> y == x || y in s
  {
    if s == [] then [x]
    else if PairLess(x, s[0]) then [x] + s
    else if x == s[0] then s
    else
      assert s == [s[0]] + s[1..];
      [s[0]] + InsertPair(x, s[1..])
  }

  /** tuple(sorted(set(s))) for pairs. */
  function SortedPairs(s: seq<(int, int)>): (r: seq<(int, int)>)
    ensures forall y :: y in r <==> y in s
  {
    if s == [] then [] else
      assert s == [s[0]] + s[1..];
      InsertPair(s[0], SortedPairs(s[1..]))
  }

  lemma {:induction false} InsertPairIncreases(x: (int, int), s: seq<(int, int)>)
    requires PairsIncrease(s)
    ensures PairsIncrease(InsertPair(x, s))
  {
    if s != [] && !PairLess(x, s[0]) && x != s[0] {
      InsertPairIncreases(x, s[1..]);
      var t := InsertPair(x, s[1..]);
      forall i | 0 <= i < |t|
        ensures PairLess(s[0], t[i])
      {
        assert t[i] in t;
      }
    }
  }

  lemma {:induction false} SortedPairsIncrease(s: seq<(int, int)>)
    ensures PairsIncrease(SortedPairs(s))
  {
    if s != [] {
      SortedPairsIncrease(s[1..]);
      InsertPairIncreases(s[0], SortedPairs(s[1..]));
    }
  }

  lemma PairTail(s: seq<(int, int)>)
    requires PairsIncrease(s) && s != []
    ensures forall x :: x in s[1..] <==> x in s && x != s[0]
  {
    assert s == [s[0]] + s[1..];
  }

  lemma {:induction false} PairsUnique(s: seq<(int, int)>, t: seq<(int, int)>)
    requires PairsIncrease(s) && PairsIncrease(t)
    requires forall x :: x in s <==> x in t
    ensures s == t
  {
    HasMember(s);
    HasMember(t);
    if s != [] {
      assert s[0] in s && t[0] in t;
      assert s[0] == t[0];
      PairTail(s);
      PairTail(t);
      PairsUnique(s[1..], t[1..]);
      assert s == [s[0]] + s[1..] && t == [t[0]] + t[1..];
    }
  }

  // ---- Filters ----

  function Positive(s: seq<int>): (r: seq<int>)
    ensures forall x :: x in r <==> x in s && x > 0
  {
    if s == [] then [] else
      assert s == [s[0]] + s[1..];
      (if s[0] > 0 then [s[0]] else []) + Positive(s[1..])
  }

  function Negative(s: seq<int>): (r: seq<int>)
    ensures forall x :: x in r <==> x in s && x < 0
  {
    if s == [] then [] else
      assert s == [s[0]] + s[1..];
      (if s[0] < 0 then [s[0]] else []) + Negative(s[1..])
  }

  /** The weekdays that count as plain: without a number, or at a FREQ below MONTHLY. */
  function Plain(ws: seq<WDay>, f: Freq): (r: seq<int>)
    ensures forall x :: x in r <==> exists w :: w in ws && w.weekday == x && (w.n == 0 || f.Rank() > 1)
  {
    if ws == [] then [] else
      assert ws == [ws[0]] + ws[1..];
      (if ws[0].n == 0 || f.Rank() > 1 then [ws[0].weekday] else []) + Plain(ws[1..], f)
  }

  function Nths(ws: seq<WDay>, f: Freq): (r: seq<(int, int)>)
    ensures forall p :: p in r <==> WDay(p.0, p.1) in ws && p.1 != 0 && f.Rank() <= 1
  {
    if ws == [] then [] else
      assert ws == [ws[0]] + ws[1..];
      (if ws[0].n == 0 || f.Rank() > 1 then [] else [(ws[0].weekday, ws[0].n)]) + Nths(ws[1..], f)
  }

  function PlainDays(s: seq<int>): (r: seq<WDay>)
    ensures |r| == |s| && forall i :: 0 <= i < |s| ==> r[i] == WDay(s[i], 0)
  {
    seq(|s|, i requires 0 <= i < |s| => WDay(s[i], 0))
  }

  function NthDays(s: seq<(int, int)>): (r: seq<WDay>)
    ensures |r| == |s| && forall i :: 0 <= i < |s| ==> r[i] == WDay(s[i].0, s[i].1)
  {
    seq(|s|, i requires 0 <= i < |s| => WDay(s[i].0, s[i].1))
  }

  // ---- The constructor ----

  predicate SetPosValid(s: seq<int>) {
    forall i :: 0 <= i < |s| ==> s[i] != 0 && -366 <= s[i] <= 366
  }

  function MapSet(s: Option<seq<int>>): Option<seq<int>> {
    match s case None => None case Some(x) => Some(SortedSet(x))
  }

  /** No argument says which days recur. */
  predicate NoDayGiven(a: Args) {
    a.byweekno.None? && a.byyearday.None? && a.bymonthday.None? && a.byweekday.None? && a.byeaster.None?
  }

  /** One of BYHOUR, BYMINUTE, BYSECOND. own is the FREQ level it belongs to; outer None is the empty-set ValueError. */
  function TimePart(given: Option<seq<int>>, f: Freq, own: int, start: int, interval: int, base: int): Option<Option<seq<int>>>
    requires base >= 1
  {
    match given
    case None => Some(if f.Rank() < own then Some([start]) else None)
    case Some(s) =>
      if f.Rank() == own then
        if Reached(s, start, interval, base) == [] then None
        else Some(Some(SortedSet(Reached(s, start, interval, base))))
      else Some(Some(SortedSet(s)))
  }

  /** The day arguments after the defaults taken from DTSTART. */
  datatype Days = Days(bymonth: Option<seq<int>>, bymonthday: Option<seq<int>>, byweekday: Option<seq<WDay>>)

  function WithDefaults(a: Args, t: int): Days
    requires DAY <= t
  {
    var n := DayOf(t);
    if !NoDayGiven(a) then Days(a.bymonth, a.bymonthday, a.byweekday)
    else match a.freq
      case YEARLY => Days(if a.bymonth.None? then Some([MonthOf(n)]) else a.bymonth, Some([MonthDay(n)]), None)
      case MONTHLY => Days(a.bymonth, Some([MonthDay(n)]), None)
      case WEEKLY => Days(a.bymonth, None, Some([WDay(Weekday(n), 0)]))
      case _ => Days(a.bymonth, None, None)
  }

  function PlainField(ws: Option<seq<WDay>>, f: Freq): Option<seq<int>> {
    if ws.None? || Plain(ws.value, f) == [] then None else Some(SortedSet(Plain(ws.value, f)))
  }

  function NthField(ws: Option<seq<WDay>>, f: Freq): Option<seq<(int, int)>> {
    if ws.None? || (Plain(ws.value, f) != [] && Nths(ws.value, f) == []) then None
    else Some(SortedPairs(Nths(ws.value, f)))
  }

  function OriginalDays(ws: Option<seq<WDay>>, f: Freq): Option<seq<WDay>> {
    if ws.None? then None
    else Some(PlainDays(SortedSet(Plain(ws.value, f))) + NthDays(SortedPairs(Nths(ws.value, f))))
  }

  function OriginalMonthDays(s: Option<seq<int>>): Option<seq<int>> {
    if s.None? then None else Some(SortedSet(Positive(s.value)) + SortedSet(Negative(s.value)))
  }

  /** datetime.time accepts every combination of hour, minute and second. */
  predicate TimesValid(h: Option<seq<int>>, m: Option<seq<int>>, s: Option<seq<int>>) {
    h.None? || m.None? || s.None? || h.value == [] || m.value == [] || s.value == []
    || ((forall i :: 0 <= i < |h.value| ==> 0 <= h.value[i] < 24)
        && (forall i :: 0 <= i < |m.value| ==> 0 <= m.value[i] < 60)
        && (forall i :: 0 <= i < |s.value| ==> 0 <= s.value[i] < 60))
  }

  /** The field assignments, given the days, the weekday parts and the time parts. */
  function Fields(a: Args, d: Days, byweekday: Option<seq<int>>, bynweekday: Option<seq<(int, int)>>, weekdays: Option<seq<WDay>>,
                  h: Option<seq<int>>, m: Option<seq<int>>, s: Option<seq<int>>): Normal {
    Normal(a.freq, a.interval, if a.wkst.None? then 0 else a.wkst.value, a.count,
      a.bysetpos,
      MapSet(d.bymonth),
      if d.bymonthday.None? then [] else SortedSet(Positive(d.bymonthday.value)),
      if d.bymonthday.None? then [] else SortedSet(Negative(d.bymonthday.value)),
      MapSet(a.byyearday),
      if a.byeaster.None? then None else Some(SortSeq(a.byeaster.value)),
      MapSet(a.byweekno),
      byweekday, bynweekday,
      h, m, s,
      Original(
        if a.bysetpos == Some([]) then None else a.bysetpos,
        MapSet(a.bymonth),
        OriginalMonthDays(a.bymonthday),
        MapSet(a.byyearday),
        if a.byeaster.None? then None else Some(SortSeq(a.byeaster.value)),
        MapSet(a.byweekno),
        weekdays,
        if a.byhour.None? then None else h,
        if a.byminute.None? then None else m,
        if a.bysecond.None? then None else s))
  }

  /** rrule.__init__ for DTSTART t; None stands for its ValueErrors. */
  function Init(a: Args, t: int): Option<Normal>
    requires DAY <= t
  {
    var d := WithDefaults(a, t);
    var h := TimePart(a.byhour, a.freq, 4, HourOf(t), a.interval, 24);
    var m := TimePart(a.byminute, a.freq, 5, MinuteOf(t), a.interval, 60);
    var s := TimePart(a.bysecond, a.freq, 6, SecondOf(t), a.interval, 60);
    if (a.bysetpos.Some? && !SetPosValid(a.bysetpos.value)) || h.None? || m.None? || s.None?
       || (a.freq.Rank() < 4 && !TimesValid(h.value, m.value, s.value)) then None
    else
      Some(Fields(a, d, PlainField(d.byweekday, a.freq), NthField(d.byweekday, a.freq), OriginalDays(a.byweekday, a.freq),
                  h.value, m.value, s.value))
  }

  lemma PositiveOne(x: int)
    requires x > 0
    ensures SortedSet(Positive([x])) == [x] && SortedSet(Negative([x])) == []
  {
    assert [x][1..] == [];
    assert Positive([x]) == [x] + Positive([]);
    assert Negative([x]) == Negative([]) == [];
    SortedSetOfIncreasing([x]);
  }

  // ---- The constructor's own steps ----

  /** The check of every BYSETPOS value. */
  method CheckSetPos(s: seq<int>) returns (ok: bool)
    ensures ok == SetPosValid(s)
  {
    for k := 0 to |s|
      invariant SetPosValid(s[..k])
    {
      if s[k] == 0 || !(-366 <= s[k] <= 366) {
        return false;
      }
    }
    ok := true;
  }

  lemma {:induction false} PlainSnoc(ws: seq<WDay>, w: WDay, f: Freq)
    ensures Plain(ws + [w], f) == Plain(ws, f) + (if w.n == 0 || f.Rank() > 1 then [w.weekday] else [])
  {
    if ws == [] {
      assert ws + [w] == [w] && [w][1..] == [];
    } else {
      PlainSnoc(ws[1..], w, f);
      assert (ws + [w])[1..] == ws[1..] + [w];
    }
  }

  lemma {:induction false} NthsSnoc(ws: seq<WDay>, w: WDay, f: Freq)
    ensures Nths(ws + [w], f) == Nths(ws, f) + (if w.n == 0 || f.Rank() > 1 then [] else [(w.weekday, w.n)])
  {
    if ws == [] {
      assert ws + [w] == [w] && [w][1..] == [];
    } else {
      NthsSnoc(ws[1..], w, f);
      assert (ws + [w])[1..] == ws[1..] + [w];
      var front := if ws[0].n == 0 || f.Rank() > 1 then [] else [(ws[0].weekday, ws[0].n)];
      var back := if w.n == 0 || f.Rank() > 1 then [] else [(w.weekday, w.n)];
      Regrouped(front, Nths(ws[1..], f), back);
    }
  }

  lemma Regrouped<T>(a: seq<T>, b: seq<T>, c: seq<T>)
    ensures a + (b + c) == a + b + c
  {
  }

  /** The loop that tells plain weekdays from nth weekdays. */
  method SplitWeekdays(ws: seq<WDay>, f: Freq) returns (plain: seq<int>, nths: seq<(int, int)>)
    ensures plain == Plain(ws, f) && nths == Nths(ws, f)
  {
    plain, nths := [], [];
    for k := 0 to |ws|
      invariant plain == Plain(ws[..k], f) && nths == Nths(ws[..k], f)
    {
      var wday := ws[k];
      assert ws[..k + 1] == ws[..k] + [wday];
      PlainSnoc(ws[..k], wday, f);
      NthsSnoc(ws[..k], wday, f);
      if wday.n == 0 || f.Rank() > 1 {
        plain := plain + [wday.weekday];
      } else {
        nths := nths + [(wday.weekday, wday.n)];
      }
    }
    assert ws[..|ws|] == ws;
  }

  /** One of BYHOUR, BYMINUTE and BYSECOND. */
  method BuildTimePart(given: Option<seq<int>>, f: Freq, own: int, start: int, interval: int, base: int)
    returns (r: Option<Option<seq<int>>>)
    requires base >= 1
    ensures r == TimePart(given, f, own, start, interval, base)
  {
    if given.None? {
      r := Some(if f.Rank() < own then Some([start]) else None);
    } else if f.Rank() == own {
      var kept := ConstructByset(start, interval, given.value, base);
      r := if kept.None? then None else Some(Some(SortedSet(kept.value)));
    } else {
      r := Some(Some(SortedSet(given.value)));
    }
  }

  /** byweekday, bynweekday and the original weekdays. */
  method BuildWeekdays(ws: Option<seq<WDay>>, f: Freq)
    returns (byweekday: Option<seq<int>>, bynweekday: Option<seq<(int, int)>>, original: Option<seq<WDay>>)
    ensures byweekday == PlainField(ws, f) && bynweekday == NthField(ws, f) && original == OriginalDays(ws, f)
  {
    if ws.None? {
      return None, None, None;
    }
    var plain, nths := SplitWeekdays(ws.value, f);
    byweekday, bynweekday := Some(SortedSet(plain)), Some(SortedPairs(nths));
    if plain == [] {
      byweekday := None;
    } else if nths == [] {
      bynweekday := None;
    }
    original := Some(PlainDays(SortedSet(plain)) + NthDays(SortedPairs(nths)));
  }

  /** The days that DTSTART stands for when no argument names any. */
  method BuildDays(a: Args, t: int) returns (d: Days)
    requires DAY <= t
    ensures d == WithDefaults(a, t)
  {
    var n := DayOf(t);
    d := Days(a.bymonth, a.bymonthday, a.byweekday);
    if NoDayGiven(a) {
      if a.freq == YEARLY {
        if a.bymonth == None {
          d := d.(bymonth := Some([MonthOf(n)]));
        }
        d := d.(bymonthday := Some([MonthDay(n)]));
      } else if a.freq == MONTHLY {
        d := d.(bymonthday := Some([MonthDay(n)]));
      } else if a.freq == WEEKLY {
        d := d.(byweekday := Some([WDay(Weekday(n), 0)]));
      }
    }
  }

  /** rrule.__init__ step by step; None stands for its ValueErrors. */
  method Construct(a: Args, t: int) returns (r: Option<Normal>)
    requires DAY <= t
    ensures r == Init(a, t)
  {
    if a.bysetpos.Some? {
      var ok := CheckSetPos(a.bysetpos.value);
      if !ok {
        return None;
      }
    }
    var d := BuildDays(a, t);
    var plainDays, nthDays, original := BuildWeekdays(d.byweekday, a.freq);
    if a.byweekday == None {
      original := None;
    }
    var h := BuildTimePart(a.byhour, a.freq, 4, HourOf(t), a.interval, 24);
    var m := BuildTimePart(a.byminute, a.freq, 5, MinuteOf(t), a.interval, 60);
    var s := BuildTimePart(a.bysecond, a.freq, 6, SecondOf(t), a.interval, 60);
    if h == None || m == None || s == None || (a.freq.Rank() < 4 && !TimesValid(h.value, m.value, s.value)) {
      return None;
    }
    r := Some(Fields(a, d, plainDays, nthDays, original, h.value, m.value, s.value));
  }

  // ---- Reading the original arguments back ----

  function Listed<T>(s: Option<seq<T>>): Option<seq<T>> {
    if s == Some([]) then None else s
  }

  /** The arguments that the printed rule carries: the non-empty original lists. */
  function Reread(n: Normal): Args {
    var o := n.original;
    Args(n.freq, n.interval, if n.wkst == 0 then None else Some(n.wkst), n.count,
         Listed(o.bysetpos), Listed(o.bymonth), Listed(o.bymonthday), Listed(o.byyearday), Listed(o.byeaster),
         Listed(o.byweekno), Listed(o.byweekday), Listed(o.byhour), Listed(o.byminute), Listed(o.bysecond))
  }

  /** Every list that was given is non-empty in normal form, so that printing it keeps it. */
  predicate AllListed(n: Normal) {
    var o := n.original;
    n.bysetpos != Some([]) && o.bymonth != Some([]) && o.bymonthday != Some([]) && o.byyearday != Some([])
    && o.byeaster != Some([]) && o.byweekno != Some([]) && o.byweekday != Some([])
    && o.byhour != Some([]) && o.byminute != Some([]) && o.bysecond != Some([])
  }

  lemma SortedSetTwice(s: seq<int>)
    ensures SortedSet(SortedSet(s)) == SortedSet(s)
  {
    SortedSetIncreasing(s);
    SortedSetOfIncreasing(SortedSet(s));
  }

  lemma SameSet(s: seq<int>, t: seq<int>)
    requires forall x :: x in s <==> x in t
    ensures SortedSet(s) == SortedSet(t)
  {
    SortedSetIncreasing(s);
    SortedSetIncreasing(t);
    IncreasingUnique(SortedSet(s), SortedSet(t));
  }

  lemma SamePairs(s: seq<(int, int)>, t: seq<(int, int)>)
    requires forall x :: x in s <==> x in t
    ensures SortedPairs(s) == SortedPairs(t)
  {
    SortedPairsIncrease(s);
    SortedPairsIncrease(t);
    PairsUnique(SortedPairs(s), SortedPairs(t));
  }

  lemma MonthDaysReread(s: seq<int>)
    ensures var o := SortedSet(Positive(s)) + SortedSet(Negative(s));
            SortedSet(Positive(o)) == SortedSet(Positive(s)) && SortedSet(Negative(o)) == SortedSet(Negative(s))
  {
    var o := SortedSet(Positive(s)) + SortedSet(Negative(s));
    SameSet(Positive(o), Positive(s));
    SameSet(Negative(o), Negative(s));
  }

  lemma DaysReread(ws: seq<WDay>, f: Freq)
    ensures var o := PlainDays(SortedSet(Plain(ws, f))) + NthDays(SortedPairs(Nths(ws, f)));
            && SortedSet(Plain(o, f)) == SortedSet(Plain(ws, f)) && SortedPairs(Nths(o, f)) == SortedPairs(Nths(ws, f))
            && (Plain(o, f) == [] <==> Plain(ws, f) == []) && (Nths(o, f) == [] <==> Nths(ws, f) == [])
  {
    var ps, ns := SortedSet(Plain(ws, f)), SortedPairs(Nths(ws, f));
    var o := PlainDays(ps) + NthDays(ns);
    OriginalMembers(ps, ns, f);
    SameSet(Plain(o, f), Plain(ws, f));
    SamePairs(Nths(o, f), Nths(ws, f));
    HasMember(Plain(o, f));
    HasMember(Plain(ws, f));
    HasMember(Nths(o, f));
    HasMember(Nths(ws, f));
  }

  lemma PlainDaysMembers(s: seq<int>, w: WDay)
    ensures w in PlainDays(s) <==> w.n == 0 && w.weekday in s
  {
    if w.n == 0 && w.weekday in s {
      var i :| 0 <= i < |s| && s[i] == w.weekday;
      assert PlainDays(s)[i] == w;
    }
  }

  lemma NthDaysMembers(s: seq<(int, int)>, w: WDay)
    ensures w in NthDays(s) <==> (w.weekday, w.n) in s
  {
    if (w.weekday, w.n) in s {
      var i :| 0 <= i < |s| && s[i] == (w.weekday, w.n);
      assert NthDays(s)[i] == w;
    }
  }

  lemma OriginalMembers(ps: seq<int>, ns: seq<(int, int)>, f: Freq)
    requires forall p :: p in ns ==> p.1 != 0 && f.Rank() <= 1
    ensures forall x :: x in Plain(PlainDays(ps) + NthDays(ns), f) <==> x in ps
    ensures forall p :: p in Nths(PlainDays(ps) + NthDays(ns), f) <==> p in ns
  {
    var o := PlainDays(ps) + NthDays(ns);
    forall w: WDay
      ensures w in o <==> (w.n == 0 && w.weekday in ps) || (w.weekday, w.n) in ns
    {
      PlainDaysMembers(ps, w);
      NthDaysMembers(ns, w);
    }
    forall x
      ensures x in Plain(o, f) <==> x in ps
    {
      if x in ps {
        assert WDay(x, 0) in o;
      }
    }
    forall p: (int, int)
      ensures p in Nths(o, f) <==> p in ns
    {
      assert WDay(p.0, p.1) in o <==> (p.1 == 0 && p.0 in ps) || p in ns;
    }
  }

  lemma ReachedReread(s: seq<int>, start: int, interval: int, base: int)
    requires base >= 1
    ensures SortedSet(Reached(SortedSet(Reached(s, start, interval, base)), start, interval, base)) ==
            SortedSet(Reached(s, start, interval, base))
    ensures Reached(SortedSet(Reached(s, start, interval, base)), start, interval, base) == [] <==> Reached(s, start, interval, base) == []
  {
    var r := Reached(s, start, interval, base);
    var q := Reached(SortedSet(r), start, interval, base);
    SameSet(q, r);
    HasMember(q);
    HasMember(r);
  }

  /** Constructing a rule from the arguments read back gives the same rule, fields and original lists alike,
      exactly when no given list is empty in normal form. */
  lemma RereadIff(a: Args, t: int)
    requires DAY <= t && Init(a, t).Some?
    ensures Init(Reread(Init(a, t).value), t) == Init(a, t) <==> AllListed(Init(a, t).value)
  {
    if AllListed(Init(a, t).value) {
      RereadSame(a, t);
    } else {
      EmptyListLost(Init(a, t).value, t);
    }
  }

  lemma RereadSame(a: Args, t: int)
    requires DAY <= t && Init(a, t).Some? && AllListed(Init(a, t).value)
    ensures Init(Reread(Init(a, t).value), t) == Init(a, t)
  {
    var n := Init(a, t).value;
    var b := Reread(n);
    ListsReread(a, t);
    TimesReread(a, t);
    DaysReread2(a, t);
    var m := Init(b, t);
    assert m.Some?;
    assert m.value.original == n.original;
    assert m.value == n;
  }

  lemma DaysReread2(a: Args, t: int)
    requires DAY <= t && Init(a, t).Some? && AllListed(Init(a, t).value)
    ensures var n, d := Init(a, t).value, WithDefaults(Reread(Init(a, t).value), t);
            && MapSet(d.bymonth) == n.bymonth
            && (if d.bymonthday.None? then [] else SortedSet(Positive(d.bymonthday.value))) == n.bymonthday
            && (if d.bymonthday.None? then [] else SortedSet(Negative(d.bymonthday.value))) == n.bynmonthday
            && PlainField(d.byweekday, a.freq) == n.byweekday && NthField(d.byweekday, a.freq) == n.bynweekday
  {
    ListsReread(a, t);
  }

  lemma EmptyListLost(n: Normal, t: int)
    requires DAY <= t && !AllListed(n)
    ensures Init(Reread(n), t) != Some(n)
  {
  }

  lemma TimesReread(a: Args, t: int)
    requires DAY <= t && Init(a, t).Some? && AllListed(Init(a, t).value)
    ensures var n, b := Init(a, t).value, Reread(Init(a, t).value);
            && TimePart(b.byhour, a.freq, 4, HourOf(t), a.interval, 24) == Some(n.byhour)
            && TimePart(b.byminute, a.freq, 5, MinuteOf(t), a.interval, 60) == Some(n.byminute)
            && TimePart(b.bysecond, a.freq, 6, SecondOf(t), a.interval, 60) == Some(n.bysecond)
  {
    TimePartReread(a.byhour, a.freq, 4, HourOf(t), a.interval, 24);
    TimePartReread(a.byminute, a.freq, 5, MinuteOf(t), a.interval, 60);
    TimePartReread(a.bysecond, a.freq, 6, SecondOf(t), a.interval, 60);
  }

  lemma TimePartReread(given: Option<seq<int>>, f: Freq, own: int, start: int, interval: int, base: int)
    requires base >= 1 && TimePart(given, f, own, start, interval, base).Some?
    ensures given.Some? ==>
              var r := TimePart(given, f, own, start, interval, base);
              r.value.Some? && TimePart(r.value, f, own, start, interval, base) == r
  {
    if given.Some? {
      SortedSetTwice(given.value);
      ReachedReread(given.value, start, interval, base);
    }
  }

  lemma ListsReread(a: Args, t: int)
    requires DAY <= t && Init(a, t).Some? && AllListed(Init(a, t).value)
    ensures var n, b := Init(a, t).value, Reread(Init(a, t).value);
            && NoDayGiven(b) == NoDayGiven(a)
            && MapSet(b.bymonth) == MapSet(a.bymonth) && b.bymonth.None? == a.bymonth.None?
            && MapSet(b.byyearday) == MapSet(a.byyearday) && MapSet(b.byweekno) == MapSet(a.byweekno)
            && b.byeaster == n.byeaster && (b.byeaster.Some? ==> SortSeq(b.byeaster.value) == b.byeaster.value)
            && OriginalMonthDays(b.bymonthday) == OriginalMonthDays(a.bymonthday)
            && (b.bymonthday.Some? ==> SortedSet(Positive(b.bymonthday.value)) == n.bymonthday
                                       && SortedSet(Negative(b.bymonthday.value)) == n.bynmonthday)
            && OriginalDays(b.byweekday, a.freq) == OriginalDays(a.byweekday, a.freq)
            && (b.byweekday.Some? ==> PlainField(b.byweekday, a.freq) == n.byweekday
                                      && NthField(b.byweekday, a.freq) == n.bynweekday)
  {
    if a.bymonth.Some? { SortedSetTwice(a.bymonth.value); }
    if a.byyearday.Some? { SortedSetTwice(a.byyearday.value); }
    if a.byweekno.Some? { SortedSetTwice(a.byweekno.value); }
    if a.byeaster.Some? {
      SortSeqOrders(a.byeaster.value);
      SortSeqOfSorted(SortSeq(a.byeaster.value));
    }
    if a.bymonthday.Some? { MonthDaysReread(a.bymonthday.value); }
    if a.byweekday.Some? { DaysReread(a.byweekday.value, a.freq); }
  }

  // ---- From the constructor to the generator ----

  function ListOf<T>(s: Option<seq<T>>): seq<T> {
    match s case None => [] case Some(x) => x
  }

  /** The fields the generator reads. */
  function ToRule(n: Normal, t: int, until: Option<int>): Rule {
    Rule(n.freq, t, n.interval, n.wkst, n.count, until, ListOf(n.bysetpos), ListOf(n.bymonth), n.bymonthday, n.bynmonthday,
         ListOf(n.byyearday), ListOf(n.byweekday), ListOf(n.bynweekday), ListOf(n.byhour), ListOf(n.byminute), ListOf(n.bysecond))
  }

  predicate InRange(s: Option<seq<int>>, lo: int, hi: int) {
    s.Some? ==> forall i :: 0 <= i < |s.value| ==> lo <= s.value[i] < hi
  }

  /** Arguments with the values that section 3.3.10 of RFC 5545 allows. */
  predicate Lawful(a: Args) {
    && a.interval >= 1
    && (a.wkst.Some? ==> 0 <= a.wkst.value < 7)
    && (a.byweekday.Some? ==> forall i :: 0 <= i < |a.byweekday.value| ==> 0 <= a.byweekday.value[i].weekday < 7)
    && InRange(a.bymonth, 1, 13)
    && InRange(a.byhour, 0, 24) && InRange(a.byminute, 0, 60) && InRange(a.bysecond, 0, 60)
  }

  lemma SortedOnDial(s: seq<int>, hi: int)
    requires forall x :: x in s ==> 0 <= x < hi
    ensures OnDial(SortedSet(s), hi)
  {
    SortedSetIncreasing(s);
    forall i | 0 <= i < |SortedSet(s)|
      ensures 0 <= SortedSet(s)[i] < hi
    {
      assert SortedSet(s)[i] in SortedSet(s);
    }
  }

  lemma ReachedFits(s: seq<int>, start: int, interval: int, base: int)
    requires base >= 1 && interval >= 1
    requires forall x :: x in s ==> 0 <= x < base
    ensures Fits(start, interval, SortedSet(Reached(s, start, interval, base)), base)
  {
    assert AbsGcd(interval, base) == Gcd(interval, base);
  }

  lemma TimePartReady(given: Option<seq<int>>, f: Freq, own: int, start: int, interval: int, base: int)
    requires base >= 1 && interval >= 1 && 0 <= start < base && InRange(given, 0, base)
    requires TimePart(given, f, own, start, interval, base).Some?
    ensures OnDial(ListOf(TimePart(given, f, own, start, interval, base).value), base)
    ensures f.Rank() == own ==> Fits(start, interval, ListOf(TimePart(given, f, own, start, interval, base).value), base)
  {
    if given.Some? {
      forall x | x in given.value
        ensures 0 <= x < base
      {
      }
      SortedOnDial(given.value, base);
      if f.Rank() == own {
        SortedOnDial(Reached(given.value, start, interval, base), base);
        ReachedFits(given.value, start, interval, base);
      }
    }
  }

  lemma NthFieldReady(a: Args, d: Option<seq<WDay>>)
    requires d.Some? ==> forall i :: 0 <= i < |d.value| ==> 0 <= d.value[i].weekday < 7
    ensures AreNths(ListOf(NthField(d, a.freq))) && (ListOf(NthField(d, a.freq)) != [] ==> a.freq.Rank() <= 1)
  {
    var s := ListOf(NthField(d, a.freq));
    forall k | 0 <= k < |s|
      ensures 0 <= s[k].0 < 7 && s[k].1 != 0 && a.freq.Rank() <= 1
    {
      assert s[k] in s;
      assert WDay(s[k].0, s[k].1) in d.value;
    }
    if s != [] {
      assert s[0] in s;
    }
  }

  lemma MonthsReady(s: Option<seq<int>>)
    requires InRange(s, 1, 13)
    ensures AreMonths(ListOf(MapSet(s)))
  {
    var r := ListOf(MapSet(s));
    forall k | 0 <= k < |r|
      ensures 1 <= r[k] <= 12
    {
      assert r[k] in r;
    }
  }

  /** What the constructor builds from lawful arguments is what the generator needs. */
  lemma InitIsReady(a: Args, t: int, until: Option<int>)
    requires DAY <= t && DayOf(t) <= MaxOrdinal() && Lawful(a) && Init(a, t).Some?
    ensures Ready(ToRule(Init(a, t).value, t, until))
  {
    var d := WithDefaults(a, t);
    TimesReady(a, t);
    NthFieldReady(a, d.byweekday);
    MonthsReady(d.bymonth);
  }

  lemma TimesReady(a: Args, t: int)
    requires DAY <= t && Lawful(a) && Init(a, t).Some?
    ensures var h := TimePart(a.byhour, a.freq, 4, HourOf(t), a.interval, 24);
            h.Some? && OnDial(ListOf(h.value), 24) && (a.freq == HOURLY ==> Fits(HourOf(t), a.interval, ListOf(h.value), 24))
    ensures var m := TimePart(a.byminute, a.freq, 5, MinuteOf(t), a.interval, 60);
            m.Some? && OnDial(ListOf(m.value), 60) && (a.freq == MINUTELY ==> Fits(MinuteOf(t), a.interval, ListOf(m.value), 60))
    ensures var s := TimePart(a.bysecond, a.freq, 6, SecondOf(t), a.interval, 60);
            s.Some? && OnDial(ListOf(s.value), 60) && (a.freq == SECONDLY ==> Fits(SecondOf(t), a.interval, ListOf(s.value), 60))
  {
    TimePartReady(a.byhour, a.freq, 4, HourOf(t), a.interval, 24);
    TimePartReady(a.byminute, a.freq, 5, MinuteOf(t), a.interval, 60);
    TimePartReady(a.bysecond, a.freq, 6, SecondOf(t), a.interval, 60);
  }

  // ---- Dropping unreachable members changes nothing ----

  lemma ResidueOfStep(x: int, y: int, interval: int, base: int)
    requires interval >= 1 && base >= 1 && (y - x) % interval == 0
    ensures (y % base - x % base) % Gcd(interval, base) == 0
  {
    var k := DivExact(y - x, interval);
    var s, t, p, q := Bezout(interval, base);
    var g := Gcd(interval, base);
    var turns := y / base - x / base;
    assert y % base - x % base == k * interval - turns * base by {
      assert y == y / base * base + y % base && x == x / base * base + x % base;
      assert turns * base == y / base * base - x / base * base;
    }
    CommonFactor(k, p, turns, q, g);
    DivModIs(y % base - x % base, k * p - turns * q, 0, g);
  }

  /** The value at the FREQ level of a candidate. */
  function OwnValue(f: Freq, u: int): int {
    match f case HOURLY => HourOf(u) case MINUTELY => MinuteOf(u) case _ => SecondOf(u)
  }

  function OwnBase(f: Freq): int {
    if f == HOURLY then 24 else 60
  }

  lemma OwnValueIs(f: Freq, u: int)
    requires f.Rank() >= 4
    ensures OwnValue(f, u) == (u / Periods.UnitSeconds(f)) % OwnBase(f)
  {
    Periods.ClockOf(u);
  }

  /** At a point that INTERVAL selects, membership in the given set and in the set that __construct_byset
      keeps are the same; where it keeps nothing, no selected point has a member value. */
  lemma ReachedIsEnough(f: Freq, t: int, u: int, interval: int, given: seq<int>)
    requires f.Rank() >= 4 && interval >= 1
    requires (u / Periods.UnitSeconds(f) - t / Periods.UnitSeconds(f)) % interval == 0
    ensures OwnValue(f, u) in given <==> OwnValue(f, u) in Reached(given, OwnValue(f, t), interval, OwnBase(f))
  {
    OwnValueIs(f, u);
    OwnValueIs(f, t);
    ResidueOfStep(t / Periods.UnitSeconds(f), u / Periods.UnitSeconds(f), interval, OwnBase(f));
  }

  /** The rule with another list at the FREQ level. */
  function WithOwn(r: Rule, list: seq<int>): Rule {
    match r.freq case HOURLY => r.(byhour := list) case MINUTELY => r.(byminute := list) case _ => r.(bysecond := list)
  }

  /** The day filters do not look at the time lists. */
  lemma DateReads(a: Rule, b: Rule, n: int)
    requires 1 <= n && a.freq == b.freq && a.bymonth == b.bymonth && a.byweekday == b.byweekday && a.bynweekday == b.bynweekday
    requires a.bymonthday == b.bymonthday && a.bynmonthday == b.bynmonthday && a.byyearday == b.byyearday
    ensures DateOk(a, n) == DateOk(b, n)
  {
    assert NthSpan(a, n) == NthSpan(b, n);
    assert PlainDateOk(a, n) == PlainDateOk(b, n);
  }

  lemma TimeReads(r: Rule, list: seq<int>, u: int)
    requires r.freq.Rank() >= 4
    ensures TimeOk(WithOwn(r, list), u) <==> TimeOk(WithOwn(r, []), u) && Allowed(OwnValue(r.freq, u), list, true)
  {
  }

  lemma SameButOwn(r: Rule, list: seq<int>, u: int)
    requires r.freq.Rank() >= 4 && r.interval >= 1 && DAY <= r.dtstart
    ensures Candidate(WithOwn(r, list), u) <==> Candidate(WithOwn(r, []), u) && Allowed(OwnValue(r.freq, u), list, true)
  {
    var a, b := WithOwn(r, list), WithOwn(r, []);
    if DAY <= u {
      DateReads(a, b, DayOf(u));
      TimeReads(r, list, u);
      Periods.PeriodIsUnit(a, u);
      Periods.PeriodIsUnit(b, u);
      Periods.PeriodIsUnit(a, r.dtstart);
      Periods.PeriodIsUnit(b, r.dtstart);
    }
  }

  /** Dropping the members of the FREQ-level list that __construct_byset drops leaves the candidates of a rule
      as they were; when it drops all of them, which is the ValueError, there were no candidates. */
  lemma ConstructBysetKeepsMeaning(r: Rule, given: seq<int>, u: int)
    requires r.freq.Rank() >= 4 && r.interval >= 1 && DAY <= r.dtstart && given != []
    ensures var kept := SortedSet(Reached(given, OwnValue(r.freq, r.dtstart), r.interval, OwnBase(r.freq)));
            if kept == [] then !Candidate(WithOwn(r, given), u)
            else Candidate(WithOwn(r, kept), u) <==> Candidate(WithOwn(r, given), u)
  {
    var kept := OwnAgree(r, given, u);
    SameCandidate(r, given, kept, u);
  }

  lemma OwnAgree(r: Rule, given: seq<int>, u: int) returns (kept: seq<int>)
    requires r.freq.Rank() >= 4 && r.interval >= 1 && DAY <= r.dtstart
    ensures kept == SortedSet(Reached(given, OwnValue(r.freq, r.dtstart), r.interval, OwnBase(r.freq)))
    ensures Candidate(WithOwn(r, []), u) ==> (OwnValue(r.freq, u) in given <==> OwnValue(r.freq, u) in kept)
  {
    kept := SortedSet(Reached(given, OwnValue(r.freq, r.dtstart), r.interval, OwnBase(r.freq)));
    if Candidate(WithOwn(r, []), u) {
      OwnStep(r, u);
      KeptIsEnough(r.freq, r.dtstart, r.interval, given, u);
    }
  }

  lemma SameCandidate(r: Rule, given: seq<int>, kept: seq<int>, u: int)
    requires r.freq.Rank() >= 4 && r.interval >= 1 && DAY <= r.dtstart && given != []
    requires Candidate(WithOwn(r, []), u) ==> (OwnValue(r.freq, u) in given <==> OwnValue(r.freq, u) in kept)
    ensures if kept == [] then !Candidate(WithOwn(r, given), u)
            else Candidate(WithOwn(r, kept), u) <==> Candidate(WithOwn(r, given), u)
  {
    var a := WithOwnList(r, given, u);
    var b := WithOwnList(r, kept, u);
  }

  /** Whether u is a candidate for a list at the FREQ level, as a condition on the list. */
  lemma WithOwnList(r: Rule, list: seq<int>, u: int) returns (candidate: bool)
    requires r.freq.Rank() >= 4 && r.interval >= 1 && DAY <= r.dtstart
    ensures candidate == Candidate(WithOwn(r, list), u)
    ensures candidate <==> Candidate(WithOwn(r, []), u) && (list == [] || OwnValue(r.freq, u) in list)
  {
    SameButOwn(r, list, u);
    candidate := Candidate(WithOwn(r, list), u);
  }

  lemma KeptIsEnough(f: Freq, t: int, interval: int, given: seq<int>, u: int)
    requires f.Rank() >= 4 && interval >= 1
    requires (u / Periods.UnitSeconds(f) - t / Periods.UnitSeconds(f)) % interval == 0
    ensures OwnValue(f, u) in given <==> OwnValue(f, u) in SortedSet(Reached(given, OwnValue(f, t), interval, OwnBase(f)))
  {
    ReachedIsEnough(f, t, u, interval, given);
  }

  lemma OwnStep(r: Rule, u: int)
    requires r.freq.Rank() >= 4 && r.interval >= 1 && DAY <= r.dtstart && Candidate(WithOwn(r, []), u)
    ensures (u / Periods.UnitSeconds(r.freq) - r.dtstart / Periods.UnitSeconds(r.freq)) % r.interval == 0
  {
    var b := WithOwn(r, []);
    assert b.freq == r.freq && b.interval == r.interval && b.dtstart == r.dtstart;
    PeriodOfClock(b, u);
  }

  lemma PeriodOfClock(r: Rule, u: int)
    requires r.freq.Rank() >= 4 && r.interval >= 1 && DAY <= r.dtstart && Candidate(r, u)
    ensures (u / Periods.UnitSeconds(r.freq) - r.dtstart / Periods.UnitSeconds(r.freq)) % r.interval == 0
  {
    Periods.PeriodIsUnit(r, u);
    Periods.PeriodIsUnit(r, r.dtstart);
  }
}
