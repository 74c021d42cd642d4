/** rruleset._iter: the heap-based merge of rules and dates minus exclusions
    (sections 3.8.5.1 and 3.8.5.2 of RFC 5545). */
module RuleSets {
  import opened Sequences

  /** The list that is kept as a heap and shared by its items. */
  class GenList {
    var items: seq<GenItem>

    constructor ()
      ensures items == []
    {
      items := [];
    }
  }

  /** One source of the merge: an iterator and the value it produced last. */
  class GenItem {
    const genlist: GenList
    const gen: seq<int>
    var pos: nat
    var dt: int

    /** _genitem.__init__ on an iterator that has a first value. */
    constructor (l: GenList, g: seq<int>)
      requires g != [] && NonDecreasing(g)
      ensures genlist == l && gen == g && pos == 1 && Valid()
    {
      genlist := l;
      gen := g;
      pos := 1;
      dt := g[0];
    }

    ghost predicate Valid()
      reads this
    {
      1 <= pos <= |gen| && dt == gen[pos - 1] && NonDecreasing(gen)
    }

    /** t is this item's value or still to come from it. */
    ghost predicate Holds(t: int)
      reads this
    {
      exists i :: pos <= i + 1 && 0 <= i < |gen| && gen[i] == t
    }

    ghost function Left(): (n: nat)
      reads this
    {
      if pos <= |gen| then |gen| - pos + 1 else 0
    }

    /** _genitem.__next__, only ever called on the root of the heap. At the end of the iterator the
        item leaves the heap; otherwise it stays in place with its next value. */
    method Next()
      requires genlist.items != [] && genlist.items[0] == this
      requires AllValid(genlist.items) && OrderedFrom(genlist.items, 0)
      modifies this, genlist
      ensures AllValid(genlist.items)
      ensures old(pos) < |gen| ==>
                && genlist.items == old(genlist.items) && OrderedFrom(genlist.items, 1)
                && Left() < old(Left())
                && forall t :: old(Holds(t)) <==> Holds(t) || t == old(dt)
      ensures old(pos) == |gen| ==>
                && old(Left()) > 0 && (forall t :: old(Holds(t)) <==> t == old(dt))
                && multiset(genlist.items) == multiset(old(genlist.items)[1..])
                && OrderedFrom(genlist.items, 0)
    {
      assert this in genlist.items;
      OthersDiffer(genlist.items);
      if pos < |gen| {
        dt := gen[pos];
        pos := pos + 1;
      } else {
        genlist.items := HeapPop(genlist.items);
        SubValid(old(genlist.items), genlist.items);
      }
    }
  }

  ghost predicate AllValid(s: seq<GenItem>)
    reads s
  {
    && (forall x :: x in s ==> x.Valid())
    && Distinct(s)
  }

  ghost predicate Distinct(s: seq<GenItem>) {
    forall x :: x in s ==> multiset(s)[x] == 1
  }

  lemma OthersDiffer(s: seq<GenItem>)
    requires Distinct(s) && s != []
    ensures s[0] !in s[1..]
    ensures Distinct(s[1..])
    ensures multiset(s[1..]) == multiset(s) - multiset{s[0]}
  {
    assert s == [s[0]] + s[1..];
    assert s[0] in s;
    forall x | x in s[1..]
      ensures multiset(s[1..])[x] == 1
    {
      assert x in s;
    }
  }

  lemma PermutedValid(s: seq<GenItem>, t: seq<GenItem>)
    requires AllValid(s) && multiset(t) == multiset(s)
    ensures AllValid(t)
  {
    MultisetMembers(t, s);
    forall x | x in t
      ensures x.Valid() && multiset(t)[x] == 1
    {
      assert x in s;
    }
  }

  lemma SubValid(s: seq<GenItem>, t: seq<GenItem>)
    requires AllValid(s) && s != [] && multiset(t) == multiset(s[1..])
    ensures AllValid(t)
  {
    OthersDiffer(s);
    forall x | x in s[1..]
      ensures x.Valid()
    {
      assert x in s;
    }
    PermutedValid(s[1..], t);
  }

  /** The values still to come from a list of items. */
  ghost function Pending(s: seq<GenItem>): iset<int>
    reads s
  {
    iset t | IsPending(s, t)
  }

  ghost predicate IsPending(s: seq<GenItem>, t: int)
    reads s
  {
    exists x :: x in s && x.Holds(t)
  }

  // ---- Binary heaps, ordered by dt (heapq) ----

  function Parent(j: int): (p: int)
    ensures j > 0 ==> 0 <= p < j
  {
    (j - 1) / 2
  }

  /** Every entry whose parent is at lo or later is no smaller than its parent. */
  ghost predicate OrderedFrom(s: seq<GenItem>, lo: int)
    reads s
  {
    forall j :: 0 < j < |s| && lo <= Parent(j) ==> s[Parent(j)].dt <= s[j].dt
  }

  lemma {:induction false} RootIsLeast(s: seq<GenItem>, j: int)
    requires OrderedFrom(s, 0) && 0 <= j < |s|
    ensures s[0].dt <= s[j].dt
    decreases j
  {
    if j > 0 {
      RootIsLeast(s, Parent(j));
    }
  }

  function Swap(s: seq<GenItem>, i: int, j: int): (r: seq<GenItem>)
    requires 0 <= i < |s| && 0 <= j < |s|
    ensures |r| == |s| && r[i] == s[j] && r[j] == s[i]
    ensures forall k :: 0 <= k < |s| && k != i && k != j ==> r[k] == s[k]
    ensures multiset(r) == multiset(s)
  {
    s[i := s[j]][j := s[i]]
  }

  /** Order everywhere from lo on, except perhaps between pos and its children. */
  ghost predicate OrderedBut(s: seq<GenItem>, lo: int, pos: int)
    reads s
  {
    && (forall j :: 0 < j < |s| && lo <= Parent(j) && Parent(j) != pos ==> s[Parent(j)].dt <= s[j].dt)
    && (forall j :: 0 < j < |s| && Parent(j) == pos && 0 < pos && lo <= Parent(pos) ==> s[Parent(pos)].dt <= s[j].dt)
  }

  /** Moves the entry at start down until the order holds from start on. */
  method SiftDown(s: seq<GenItem>, start: nat) returns (r: seq<GenItem>)
    requires start < |s| && OrderedFrom(s, start + 1)
    ensures |r| == |s| && multiset(r) == multiset(s) && OrderedFrom(r, start)
  {
    r := s;
    var pos := start;
    while 2 * pos + 1 < |r|
      invariant start <= pos < |r| == |s| && multiset(r) == multiset(s)
      invariant OrderedBut(r, start, pos)
    {
      var child := SmallerChild(r, pos);
      if r[pos].dt <= r[child].dt {
        Settled(r, start, pos, child);
        return;
      }
      SwapKeeps(r, start, pos, child);
      r := Swap(r, pos, child);
      pos := child;
    }
    NoChildren(r, start, pos);
  }

  /** The child with the smaller entry. */
  method SmallerChild(s: seq<GenItem>, pos: nat) returns (child: nat)
    requires 2 * pos + 1 < |s|
    ensures pos < child < |s| && LeastChild(s, pos, child)
  {
    child := 2 * pos + 1;
    if child + 1 < |s| && s[child + 1].dt < s[child].dt {
      child := child + 1;
    }
    forall j | 0 < j < |s| && Parent(j) == pos
      ensures j == 2 * pos + 1 || j == 2 * pos + 2
    {
    }
  }

  lemma NoChildren(s: seq<GenItem>, lo: int, pos: nat)
    requires |s| <= 2 * pos + 1 && OrderedBut(s, lo, pos)
    ensures OrderedFrom(s, lo)
  {
    assert forall j :: 0 < j < |s| ==> Parent(j) != pos;
  }

  ghost predicate LeastChild(s: seq<GenItem>, pos: int, child: int)
    requires 0 <= child < |s|
    reads s
  {
    Parent(child) == pos && 0 < child && forall j :: 0 < j < |s| && Parent(j) == pos ==> s[child].dt <= s[j].dt
  }

  lemma Settled(s: seq<GenItem>, lo: int, pos: int, child: int)
    requires 0 <= pos < child < |s| && OrderedBut(s, lo, pos) && LeastChild(s, pos, child)
    requires s[pos].dt <= s[child].dt
    ensures OrderedFrom(s, lo)
  {
  }

  lemma SwapKeeps(s: seq<GenItem>, lo: int, pos: int, child: int)
    requires 0 <= lo <= pos < child < |s| && OrderedBut(s, lo, pos) && LeastChild(s, pos, child)
    requires s[child].dt < s[pos].dt
    ensures OrderedBut(Swap(s, pos, child), lo, child)
  {
    var r := Swap(s, pos, child);
    forall j | 0 < j < |r| && lo <= Parent(j) && Parent(j) != child
      ensures r[Parent(j)].dt <= r[j].dt
    {
    }
    forall j | 0 < j < |r| && Parent(j) == child
      ensures r[pos].dt <= r[j].dt
    {
      assert s[Parent(j)].dt <= s[j].dt;
    }
  }

  method Heapify(s: seq<GenItem>) returns (r: seq<GenItem>)
    ensures |r| == |s| && multiset(r) == multiset(s) && OrderedFrom(r, 0)
  {
    r := s;
    var k := |s| / 2;
    assert forall j :: 0 < j < |r| ==> Parent(j) < k;
    while k > 0
      invariant 0 <= k <= |s| / 2 && |r| == |s| && multiset(r) == multiset(s) && OrderedFrom(r, k)
    {
      k := k - 1;
      r := SiftDown(r, k);
    }
  }

  method HeapPop(s: seq<GenItem>) returns (r: seq<GenItem>)
    requires s != [] && OrderedFrom(s, 0)
    ensures multiset(r) == multiset(s[1..]) && OrderedFrom(r, 0)
  {
    var last := s[|s| - 1];
    r := s[..|s| - 1];
    assert s == r + [last];
    if r != [] {
      assert s[1..] == r[1..] + [last];
      assert r == [r[0]] + r[1..];
      r := SiftDown(r[0 := last], 0);
      assert r[..] == r;
    }
  }

  // ---- The merge ----

  /** A total of what the items still hold; it bounds the run. */
  ghost function Total(s: seq<GenItem>): (n: nat)
    reads s
  {
    if s == [] then 0 else s[0].Left() + Total(s[1..])
  }

  lemma TotalStep(s: seq<GenItem>)
    requires s != []
    ensures Total(s) == s[0].Left() + Total(s[1..])
  {
  }

  lemma {:induction false} TotalSplit(s: seq<GenItem>, k: int)
    requires 0 <= k < |s|
    ensures Total(s) == s[k].Left() + Total(s[..k] + s[k + 1..])
    decreases k
  {
    var u := s[..k] + s[k + 1..];
    TotalStep(s);
    if k > 0 {
      var tail := s[1..];
      TotalSplit(tail, k - 1);
      assert u[1..] == tail[..k - 1] + tail[k..];
      TotalStep(u);
    } else {
      assert u == s[1..];
    }
  }

  lemma RemoveOne<T>(s: seq<T>, t: seq<T>, k: int)
    requires s != [] && 0 <= k < |t| && t[k] == s[0] && multiset(s) == multiset(t)
    ensures multiset(s[1..]) == multiset(t[..k] + t[k + 1..])
  {
    assert s == [s[0]] + s[1..];
    assert t == t[..k] + [t[k]] + t[k + 1..];
    assert multiset(t) == multiset(t[..k]) + multiset{t[k]} + multiset(t[k + 1..]);
    assert multiset(s[1..]) == multiset(s) - multiset{s[0]};
    assert multiset(t[..k] + t[k + 1..]) == multiset(t) - multiset{t[k]};
  }

  lemma {:induction false} TotalPermuted(s: seq<GenItem>, t: seq<GenItem>)
    requires multiset(s) == multiset(t)
    ensures Total(s) == Total(t)
    decreases |s|
  {
    MultisetMembers(s, t);
    assert |multiset(s)| == |s| && |multiset(t)| == |t|;
    if s != [] {
      assert s[0] in t;
      var k :| 0 <= k < |t| && t[k] == s[0];
      RemoveOne(s, t, k);
      TotalSplit(t, k);
      TotalPermuted(s[1..], t[..k] + t[k + 1..]);
      TotalStep(s);
    }
  }

  lemma PendingPermuted(s: seq<GenItem>, t: seq<GenItem>)
    requires multiset(s) == multiset(t)
    ensures Pending(s) == Pending(t)
  {
    MultisetMembers(s, t);
  }

  lemma PendingFirst(s: seq<GenItem>)
    requires s != []
    ensures forall t :: t in Pending(s) <==> s[0].Holds(t) || t in Pending(s[1..])
  {
    assert s == [s[0]] + s[1..];
  }

  lemma Recombine(before: seq<GenItem>, now: seq<GenItem>)
    requires before != [] && multiset(now) == multiset(before)
    ensures forall t :: t in Pending(now) <==> before[0].Holds(t) || t in Pending(before[1..])
    ensures Total(now) == before[0].Left() + Total(before[1..])
  {
    PendingFirst(before);
    PendingPermuted(before, now);
    TotalStep(before);
    TotalPermuted(before, now);
  }

  /** Advances the root item and restores the heap; only its old value can be lost. */
  method AdvanceRoot(l: GenList)
    requires l.items != [] && AllValid(l.items) && OrderedFrom(l.items, 0) && l.items[0].genlist == l
    modifies l, l.items[0]
    ensures AllValid(l.items) && OrderedFrom(l.items, 0)
    ensures forall x :: x in l.items ==> x in old(l.items)
    ensures forall t :: t in old(Pending(l.items)) <==> t in Pending(l.items) || t == old(l.items[0].dt)
    ensures Total(l.items) < old(Total(l.items))
  {
    var item := l.items[0];
    ghost var before, rest := l.items, l.items[1..];
    Recombine(before, before);
    ghost var more := NextRoot(l, before, rest);
    if l.items != [] && l.items[0] == item {
      Resift(l, before);
      Recombine(before, l.items);
      MultisetMembers(l.items, before);
    } else {
      PendingPermuted(rest, l.items);
      TotalPermuted(rest, l.items);
      MultisetMembers(l.items, rest);
    }
  }

  /** The call of __next__ on the root; `more` tells that its iterator had another value. */
  method NextRoot(l: GenList, ghost before: seq<GenItem>, ghost rest: seq<GenItem>) returns (ghost more: bool)
    requires l.items == before != [] && rest == before[1..] && AllValid(before) && OrderedFrom(before, 0)
    requires before[0].genlist == l
    modifies l, before[0]
    ensures AllValid(l.items)
    ensures more ==> l.items == before && OrderedFrom(before, 1) && before[0].Left() < old(before[0].Left())
    ensures !more ==> multiset(l.items) == multiset(rest) && OrderedFrom(l.items, 0) && old(before[0].Left()) > 0
    ensures more <==> l.items != [] && l.items[0] == before[0]
    ensures forall t :: old(before[0].Holds(t)) <==> t == old(before[0].dt) || (more && before[0].Holds(t))
    ensures Pending(rest) == old(Pending(rest)) && Total(rest) == old(Total(rest))
  {
    var item := l.items[0];
    assert item in l.items;
    OthersDiffer(before);
    ghost var others, total := Pending(rest), Total(rest);
    more := item.pos < |item.gen|;
    item.Next();
    assert Pending(rest) == others && Total(rest) == total;
    if !more {
      MultisetMembers(l.items, rest);
      assert l.items != [] ==> l.items[0] in l.items;
    }
  }

  /** heapreplace of the root by itself, after its value has grown. */
  method Resift(l: GenList, ghost before: seq<GenItem>)
    requires l.items == before != [] && AllValid(before) && OrderedFrom(before, 1)
    modifies l
    ensures multiset(l.items) == multiset(before) && AllValid(l.items) && OrderedFrom(l.items, 0)
  {
    l.items := SiftDown(l.items, 0);
    PermutedValid(before, l.items);
  }

  // ---- The run ----

  /** The sources of one side: the sorted dates, then the rules. */
  function Sources(dates: seq<int>, rules: seq<seq<int>>): seq<seq<int>> {
    [SortSeq(dates)] + rules
  }

  /** The values of a list of sources. */
  ghost function Values(sources: seq<seq<int>>): iset<int> {
    iset t | InSource(sources, t)
  }

  ghost predicate InSource(sources: seq<seq<int>>, t: int) {
    exists g :: g in sources && t in g
  }

  /** t is one of the dates or comes from one of the rules. */
  ghost predicate Given(dates: seq<int>, rules: seq<seq<int>>, t: int) {
    t in dates || exists g :: g in rules && t in g
  }

  lemma SourcesGive(dates: seq<int>, rules: seq<seq<int>>, t: int)
    ensures t in Values(Sources(dates, rules)) <==> Given(dates, rules, t)
  {
    var all := Sources(dates, rules);
    SortSeqMembers(dates);
    assert all[0] in all;
    forall g
      ensures g in all <==> g == SortSeq(dates) || g in rules
    {
    }
  }

  /** The merge of a recurrence set: what the dates and rules give, without what the exclusions give. */
  ghost function SetValues(rdates: seq<int>, rrules: seq<seq<int>>, exdates: seq<int>, exrules: seq<seq<int>>): iset<int> {
    iset t | Given(rdates, rrules, t) && !Given(exdates, exrules, t)
  }

  /** Creates the items of one side and makes them a heap. */
  method Load(sources: seq<seq<int>>) returns (l: GenList)
    requires forall g :: g in sources ==> NonDecreasing(g)
    ensures fresh(l) && (forall x :: x in l.items ==> fresh(x) && x.genlist == l)
    ensures AllValid(l.items) && OrderedFrom(l.items, 0)
    ensures Pending(l.items) == Values(sources)
  {
    l := new GenList();
    for k := 0 to |sources|
      invariant fresh(l) && (forall x :: x in l.items ==> fresh(x) && x.genlist == l)
      invariant AllValid(l.items) && Pending(l.items) == Values(sources[..k])
    {
      assert sources[k] in sources;
      MoreValues(sources, k);
      AddSource(l, sources[k]);
    }
    assert sources[..|sources|] == sources;
    var r := Heapify(l.items);
    PermutedValid(l.items, r);
    PendingPermuted(l.items, r);
    MultisetMembers(r, l.items);
    l.items := r;
  }

  /** _genitem.__init__: the item joins the list unless its iterator is empty. */
  method AddSource(l: GenList, g: seq<int>)
    requires NonDecreasing(g) && AllValid(l.items) && forall x :: x in l.items ==> x.genlist == l
    modifies l
    ensures forall x :: x in l.items ==> x in old(l.items) || fresh(x)
    ensures (forall x :: x in l.items ==> x.genlist == l) && AllValid(l.items)
    ensures forall t :: t in Pending(l.items) <==> t in old(Pending(l.items)) || t in g
  {
    if g != [] {
      ghost var before := l.items;
      var item := new GenItem(l, g);
      assert Pending(before) == old(Pending(l.items));
      l.items := l.items + [item];
      AddItem(before, item);
    }
  }

  lemma MoreValues(sources: seq<seq<int>>, k: int)
    requires 0 <= k < |sources|
    ensures forall t :: t in Values(sources[..k + 1]) <==> t in Values(sources[..k]) || t in sources[k]
  {
    assert sources[..k + 1] == sources[..k] + [sources[k]];
    assert forall g :: g in sources[..k + 1] <==> g in sources[..k] || g == sources[k];
  }

  lemma AddItem(s: seq<GenItem>, x: GenItem)
    requires AllValid(s) && x !in s && x.Valid() && x.pos == 1
    ensures AllValid(s + [x])
    ensures forall t :: t in Pending(s + [x]) <==> t in Pending(s) || t in x.gen
  {
    var r := s + [x];
    forall y | y in r
      ensures y.Valid() && multiset(r)[y] == 1
    {
      assert y in s || y == x;
    }
    forall t
      ensures t in Pending(r) <==> t in Pending(s) || t in x.gen
    {
      assert x.Holds(t) <==> t in x.gen;
      assert forall y :: y in r <==> y in s || y == x;
    }
  }

  /** Everything before the root is gone, and the root's value is the least still to come. */
  lemma RootIsFirst(s: seq<GenItem>, t: int)
    requires s != [] && AllValid(s) && OrderedFrom(s, 0) && t in Pending(s)
    ensures s[0].dt <= t && s[0].dt in Pending(s)
  {
    assert s[0] in s && s[0].Holds(s[0].dt);
    var x :| x in s && x.Holds(t);
    var j :| 0 <= j < |s| && s[j] == x;
    RootIsLeast(s, j);
  }

  /** What the merge has settled: everything up to `last` is out if it belongs out, and the rest is still to come. */
  ghost predicate Merged(R: iset<int>, E: iset<int>, pr: iset<int>, pe: iset<int>, last: Option<int>, out: seq<int>) {
    && (forall t :: t in R ==> t in pr || (last.Some? && t <= last.value))
    && (forall t :: t in pr ==> t in R && (last.Some? ==> last.value <= t))
    && (forall t :: t in E ==> t in pe || (last.Some? && t < last.value))
    && (forall t :: t in pe ==> t in E)
    && Increasing(out)
    && (forall t :: t in out <==> t in R && t !in E && last.Some? && t <= last.value)
  }

  /** Drops the exclusions below dt. */
  method SkipExclusions(exlist: GenList, dt: int, ghost E: iset<int>)
    requires AllValid(exlist.items) && OrderedFrom(exlist.items, 0)
    requires forall x :: x in exlist.items ==> x.genlist == exlist
    requires forall t :: t in E ==> t in Pending(exlist.items) || t < dt
    requires forall t :: t in Pending(exlist.items) ==> t in E
    modifies exlist, exlist.items
    ensures AllValid(exlist.items) && OrderedFrom(exlist.items, 0)
    ensures forall x :: x in exlist.items ==> x in old(exlist.items)
    ensures forall t :: t in E ==> t in Pending(exlist.items) || t < dt
    ensures forall t :: t in Pending(exlist.items) ==> t in E
    ensures dt in E <==> exlist.items != [] && exlist.items[0].dt == dt
  {
    while exlist.items != [] && exlist.items[0].dt < dt
      invariant AllValid(exlist.items) && OrderedFrom(exlist.items, 0)
      invariant forall x :: x in exlist.items ==> x in old(exlist.items)
      invariant forall t :: t in E ==> t in Pending(exlist.items) || t < dt
      invariant forall t :: t in Pending(exlist.items) ==> t in E
      decreases Total(exlist.items)
    {
      assert exlist.items[0] in exlist.items;
      AdvanceRoot(exlist);
    }
    if exlist.items != [] {
      assert exlist.items[0] in exlist.items;
      assert exlist.items[0].Holds(exlist.items[0].dt);
      if dt in E {
        RootIsFirst(exlist.items, dt);
      }
    }
  }

  lemma RootIsMinimum(s: seq<GenItem>)
    requires s != [] && AllValid(s) && OrderedFrom(s, 0)
    ensures s[0] in s && s[0].dt in Pending(s) && forall t :: t in Pending(s) ==> s[0].dt <= t
  {
    assert s[0] in s && s[0].Holds(s[0].dt);
    forall t | t in Pending(s)
      ensures s[0].dt <= t
    {
      RootIsFirst(s, t);
    }
  }

  lemma BeforeSkip(R: iset<int>, E: iset<int>, pr: iset<int>, pe: iset<int>, last: Option<int>, out: seq<int>, dt: int)
    requires Merged(R, E, pr, pe, last, out)
    requires dt in pr && forall t :: t in pr ==> dt <= t
    ensures forall t :: t in E ==> t in pe || t < dt
    ensures forall t :: t in pe ==> t in E
  {
    YieldStep(R, E, pr, pe, last, out, dt);
  }

  /** The value at the root goes out unless it is excluded. */
  lemma Yielded(R: iset<int>, E: iset<int>, pr: iset<int>, pe: iset<int>, pe': iset<int>,
                last: Option<int>, out: seq<int>, dt: int)
    requires Merged(R, E, pr, pe, last, out) && last != Some(dt)
    requires dt in pr && forall t :: t in pr ==> dt <= t
    requires (forall t :: t in E ==> t in pe' || t < dt) && forall t :: t in pe' ==> t in E
    ensures Merged(R, E, pr, pe', Some(dt), if dt in E then out else out + [dt])
  {
    YieldStep(R, E, pr, pe, last, out, dt);
  }

  lemma YieldStep(R: iset<int>, E: iset<int>, pr: iset<int>, pe: iset<int>, last: Option<int>, out: seq<int>, dt: int)
    requires Merged(R, E, pr, pe, last, out)
    requires dt in pr && forall t :: t in pr ==> dt <= t
    ensures last.Some? ==> last.value <= dt
    ensures last != Some(dt) ==> Increasing(out + [dt])
    ensures last != Some(dt) ==> forall t :: t in R && t <= dt ==> t == dt || (last.Some? && t <= last.value)
  {
    if last != Some(dt) {
      forall i | 0 <= i < |out|
        ensures out[i] < dt
      {
        assert out[i] in out;
      }
      IncreasingAppend(out, [dt]);
    }
  }

  /** The two heaps of a merge, which share no item. */
  ghost predicate Heaps(rlist: GenList, exlist: GenList)
    reads rlist, exlist, rlist.items, exlist.items
  {
    && rlist != exlist
    && (forall x :: x in rlist.items ==> x.genlist == rlist)
    && (forall x :: x in exlist.items ==> x.genlist == exlist)
    && AllValid(rlist.items) && OrderedFrom(rlist.items, 0)
    && AllValid(exlist.items) && OrderedFrom(exlist.items, 0)
  }

  lemma Apart(rlist: GenList, exlist: GenList)
    requires Heaps(rlist, exlist)
    ensures forall j :: 0 <= j < |rlist.items| ==> rlist.items[j] in rlist.items && rlist.items[j] !in exlist.items
  {
    assert forall j :: 0 <= j < |rlist.items| ==> rlist.items[j] in rlist.items;
  }

  /** Skipping exclusions leaves the other heap as it is. */
  method SkipFor(rlist: GenList, exlist: GenList, dt: int, ghost E: iset<int>)
    requires Heaps(rlist, exlist)
    requires forall t :: t in E ==> t in Pending(exlist.items) || t < dt
    requires forall t :: t in Pending(exlist.items) ==> t in E
    modifies exlist, exlist.items
    ensures Heaps(rlist, exlist)
    ensures rlist.items == old(rlist.items) && Pending(rlist.items) == old(Pending(rlist.items))
    ensures forall x :: x in rlist.items ==> x.dt == old(x.dt)
    ensures forall x :: x in exlist.items ==> x in old(exlist.items)
    ensures forall t :: t in E ==> t in Pending(exlist.items) || t < dt
    ensures forall t :: t in Pending(exlist.items) ==> t in E
    ensures dt in E <==> exlist.items != [] && exlist.items[0].dt == dt
  {
    Apart(rlist, exlist);
    ghost var pr := Pending(rlist.items);
    SkipExclusions(exlist, dt, E);
    assert Pending(rlist.items) == pr;
  }

  /** The body of the loop up to the advance of the root: yields its value unless it repeats or is excluded. */
  method Visit(rlist: GenList, exlist: GenList, last: Option<int>, out: seq<int>, total: nat,
               ghost R: iset<int>, ghost E: iset<int>)
    returns (last': Option<int>, out': seq<int>, total': nat)
    requires Heaps(rlist, exlist) && rlist.items != [] && total == |out|
    requires Merged(R, E, Pending(rlist.items), Pending(exlist.items), last, out)
    modifies exlist, exlist.items
    ensures Heaps(rlist, exlist) && total' == |out'|
    ensures forall x :: x in exlist.items ==> x in old(exlist.items)
    ensures last' == Some(rlist.items[0].dt)
    ensures Merged(R, E, Pending(rlist.items), Pending(exlist.items), last', out')
  {
    var ritem := rlist.items[0];
    var dt := ritem.dt;
    ghost var pr, pe := Pending(rlist.items), Pending(exlist.items);
    RootIsMinimum(rlist.items);
    last', out', total' := last, out, total;
    if last != Some(dt) {
      BeforeSkip(R, E, pr, pe, last, out, dt);
      SkipFor(rlist, exlist, dt, E);
      Yielded(R, E, pr, pe, Pending(exlist.items), last, out, dt);
      if exlist.items == [] || dt != exlist.items[0].dt {
        out', total' := out + [dt], total + 1;
      }
      last' := Some(dt);
    }
  }

  /** The advance of the root keeps what is settled, since the root's value is. */
  method Advance(rlist: GenList, exlist: GenList, ghost last: Option<int>, ghost out: seq<int>,
                 ghost R: iset<int>, ghost E: iset<int>)
    requires Heaps(rlist, exlist) && rlist.items != [] && last == Some(rlist.items[0].dt)
    requires Merged(R, E, Pending(rlist.items), Pending(exlist.items), last, out)
    modifies rlist, rlist.items[0]
    ensures Heaps(rlist, exlist)
    ensures exlist.items == old(exlist.items) && forall x :: x in rlist.items ==> x in old(rlist.items)
    ensures Merged(R, E, Pending(rlist.items), Pending(exlist.items), last, out)
    ensures Total(rlist.items) < old(Total(rlist.items))
  {
    ghost var pe := Pending(exlist.items);
    assert rlist.items[0] in rlist.items;
    assert rlist.items[0] !in exlist.items;
    AdvanceRoot(rlist);
    assert Pending(exlist.items) == pe;
  }

  /** One turn of the loop. */
  method Turn(rlist: GenList, exlist: GenList, last: Option<int>, out: seq<int>, total: nat,
              ghost R: iset<int>, ghost E: iset<int>)
    returns (last': Option<int>, out': seq<int>, total': nat)
    requires Heaps(rlist, exlist) && rlist.items != [] && total == |out|
    requires Merged(R, E, Pending(rlist.items), Pending(exlist.items), last, out)
    modifies rlist, rlist.items, exlist, exlist.items
    ensures Heaps(rlist, exlist) && total' == |out'|
    ensures forall x :: x in rlist.items ==> x in old(rlist.items)
    ensures forall x :: x in exlist.items ==> x in old(exlist.items)
    ensures Merged(R, E, Pending(rlist.items), Pending(exlist.items), last', out')
    ensures Total(rlist.items) < old(Total(rlist.items))
  {
    assert forall j :: 0 <= j < |rlist.items| ==> rlist.items[j] in rlist.items && rlist.items[j] !in exlist.items;
    ghost var left := Total(rlist.items);
    last', out', total' := Visit(rlist, exlist, last, out, total, R, E);
    assert Total(rlist.items) == left;
    Advance(rlist, exlist, last', out', R, E);
  }

  /** rruleset._iter: yields, in strictly increasing order and without repetition, exactly the values of the
      dates and rules that no exclusion has; the length it records is the number yielded. */
  method Iter(rdates: seq<int>, rrules: seq<seq<int>>, exdates: seq<int>, exrules: seq<seq<int>>)
    returns (out: seq<int>, len: nat)
    requires forall g :: g in rrules || g in exrules ==> NonDecreasing(g)
    ensures Increasing(out)
    ensures forall t :: t in out <==> t in SetValues(rdates, rrules, exdates, exrules)
    ensures len == |out|
  {
    ghost var R, E := Values(Sources(rdates, rrules)), Values(Sources(exdates, exrules));
    SortSeqOrders(rdates);
    SortSeqOrders(exdates);
    var rlist := Load(Sources(rdates, rrules));
    var exlist := Load(Sources(exdates, exrules));
    assert forall i :: 0 <= i < |rlist.items| ==> rlist.items[i] in rlist.items;
    assert forall i :: 0 <= i < |exlist.items| ==> exlist.items[i] in exlist.items;
    out, len := MergeAll(rlist, exlist, R, E);
    forall t
      ensures t in R - E <==> t in SetValues(rdates, rrules, exdates, exrules)
    {
      SourcesGive(rdates, rrules, t);
      SourcesGive(exdates, exrules, t);
    }
  }

  /** The loop of rruleset._iter over two loaded heaps. */
  method MergeAll(rlist: GenList, exlist: GenList, ghost R: iset<int>, ghost E: iset<int>)
    returns (out: seq<int>, total: nat)
    requires Heaps(rlist, exlist) && R == Pending(rlist.items) && E == Pending(exlist.items)
    modifies rlist, rlist.items, exlist, exlist.items
    ensures Increasing(out) && (forall t :: t in out <==> t in R && t !in E) && total == |out|
  {
    out, total := [], 0;
    var last: Option<int> := None;
    while rlist.items != []
      invariant forall x :: x in rlist.items ==> x in old(rlist.items)
      invariant forall x :: x in exlist.items ==> x in old(exlist.items)
      invariant Heaps(rlist, exlist) && total == |out|
      invariant Merged(R, E, Pending(rlist.items), Pending(exlist.items), last, out)
      decreases Total(rlist.items)
    {
      assert forall i :: 0 <= i < |rlist.items| ==> rlist.items[i] in rlist.items;
      assert forall i :: 0 <= i < |exlist.items| ==> exlist.items[i] in exlist.items;
      last, out, total := Turn(rlist, exlist, last, out, total, R, E);
    }
  }
}
