/** idna/intranges.py: a set of integers as sorted runs, each run one integer, searched by bisection. */
module IntRanges {
  import opened Sequences

  const SHIFT: int := 0x1_0000_0000

  /** (start << 32) | end, for an end below 2^32. */
  function EncodeRange(start: int, end: int): int
    requires 0 <= end < SHIFT
  {
    start * SHIFT + end
  }

  /** (r >> 32, r & (2^32 - 1)) */
  function DecodeRange(r: int): (int, int) {
    (r / SHIFT, r % SHIFT)
  }

  /** The start stands above the lower 32 bits, which hold the end. */
  lemma Packing(start: int, end: int)
    requires 0 <= end < 0x1_0000_0000
    ensures EncodeRange(start, end) == start * 0x1_0000_0000 + end && DecodeRange(start * 0x1_0000_0000 + end) == (start, end)
  {
  }

  /** The values start <= x < end. */
  datatype Run = Run(start: int, end: int)

  ghost predicate Codable(runs: seq<Run>) {
    forall i :: 0 <= i < |runs| ==> 0 <= runs[i].start < runs[i].end < SHIFT
  }

  ghost function Encoded(runs: seq<Run>): (r: seq<int>)
    requires Codable(runs)
    ensures |r| == |runs| && forall i :: 0 <= i < |runs| ==> r[i] == EncodeRange(runs[i].start, runs[i].end)
  {
    seq(|runs|, i requires 0 <= i < |runs| => EncodeRange(runs[i].start, runs[i].end))
  }

  /** Each run starts no earlier than at the last member of the runs before it; equal members of the list
      end a run, so that the next run may start with the same member. */
  ghost predicate Ordered(runs: seq<Run>) {
    forall i, j :: 0 <= i < j < |runs| ==> runs[i].end - 1 <= runs[j].start
  }

  ghost predicate Covers(runs: seq<Run>, x: int) {
    exists i :: 0 <= i < |runs| && runs[i].start <= x < runs[i].end
  }

  /** The ranges are the codes of ordered runs that cover exactly the members of list. */
  ghost predicate Represents(ranges: seq<int>, list: seq<int>) {
    exists runs :: Codable(runs) && Ordered(runs) && ranges == Encoded(runs) && forall x :: Covers(runs, x) <==> x in list
  }

  lemma DecodeOfEncode(start: int, end: int)
    requires 0 <= end < SHIFT
    ensures DecodeRange(EncodeRange(start, end)) == (start, end)
  {
  }

  /** Codes are ordered as their starts. */
  lemma EncodeOrder(run: Run, x: int)
    requires 0 <= run.start < run.end < SHIFT
    ensures EncodeRange(run.start, run.end) < EncodeRange(x, 0) <==> run.start < x
  {
  }

  /** The codes are sorted, as bisection needs. */
  lemma EncodedSorted(runs: seq<Run>)
    requires Codable(runs) && Ordered(runs)
    ensures NonDecreasing(Encoded(runs))
  {
  }

  // ---- intranges_from_list ----

  /** s[a..b] counts up by one. */
  ghost predicate CountsUp(s: seq<int>, a: int, b: int) {
    0 <= a <= b <= |s| && forall k :: a <= k < b ==> s[k] == s[a] + (k - a)
  }

  ghost predicate CoversExactly(runs: seq<Run>, s: seq<int>) {
    forall x :: Covers(runs, x) <==> x in s
  }

  lemma AddRun(runs: seq<Run>, s: seq<int>, a: nat, b: nat)
    requires a < b && CountsUp(s, a, b) && CoversExactly(runs, s[..a])
    ensures CoversExactly(runs + [Run(s[a], s[b - 1] + 1)], s[..b])
  {
    var run := Run(s[a], s[b - 1] + 1);
    var more := runs + [run];
    forall x
      ensures Covers(more, x) <==> x in s[..b]
    {
      if x in s[..b] {
        var k :| 0 <= k < b && s[..b][k] == x;
        if k < a {
          assert s[..a][k] == x;
          assert Covers(runs, x);
          var i :| 0 <= i < |runs| && runs[i].start <= x < runs[i].end;
          assert more[i] == runs[i];
        } else {
          assert more[|runs|] == run;
        }
      }
      if Covers(more, x) {
        var i :| 0 <= i < |more| && more[i].start <= x < more[i].end;
        if i < |runs| {
          assert more[i] == runs[i];
          assert Covers(runs, x);
          var k :| 0 <= k < a && s[..a][k] == x;
          assert s[..b][k] == x;
        } else {
          assert s[a + (x - s[a])] == x;
          assert s[..b][a + (x - s[a])] == x;
        }
      }
    }
  }

  /** The first n members of s, cut into stretches that count up by one, are the runs in order, and ranges
      are their codes. */
  ghost predicate Cut(s: seq<int>, n: int, runs: seq<Run>, ranges: seq<int>)
    decreases |runs|
  {
    |runs| == |ranges|
    && if runs == [] then n == 0
       else
         var last := |runs| - 1;
         var run := runs[last];
         var a := n - (run.end - run.start);
         && 0 <= a < n && CountsUp(s, a, n) && run == Run(s[a], s[n - 1] + 1)
         && 0 <= run.start && run.end < SHIFT && ranges[last] == EncodeRange(run.start, run.end)
         && Cut(s, a, runs[..last], ranges[..last])
  }

  lemma CutMore(s: seq<int>, a: nat, b: nat, runs: seq<Run>, ranges: seq<int>) returns (more: seq<Run>)
    requires Cut(s, a, runs, ranges) && a < b && CountsUp(s, a, b)
    requires 0 <= s[a] && s[b - 1] + 1 < SHIFT
    ensures Cut(s, b, more, ranges + [EncodeRange(s[a], s[b - 1] + 1)])
  {
    var codes := ranges + [EncodeRange(s[a], s[b - 1] + 1)];
    more := runs + [Run(s[a], s[b - 1] + 1)];
    assert more[..|runs|] == runs && codes[..|runs|] == ranges;
  }

  lemma {:induction false} CutCodes(s: seq<int>, n: nat, runs: seq<Run>, ranges: seq<int>)
    requires Cut(s, n, runs, ranges)
    ensures Codable(runs) && ranges == Encoded(runs)
    decreases |runs|
  {
    if runs != [] {
      var last := |runs| - 1;
      CutCodes(s, n - (runs[last].end - runs[last].start), runs[..last], ranges[..last]);
      assert runs == runs[..last] + [runs[last]] && ranges == ranges[..last] + [ranges[last]];
    }
  }

  /** The runs are ordered, cover exactly the members, and end at the last of them. */
  lemma {:induction false} CutRepresents(s: seq<int>, n: nat, runs: seq<Run>, ranges: seq<int>)
    requires Cut(s, n, runs, ranges) && NonDecreasing(s) && n <= |s|
    ensures Ordered(runs) && CoversExactly(runs, s[..n])
    ensures forall j :: 0 <= j < |runs| ==> n > 0 && runs[j].end <= s[n - 1] + 1
    decreases |runs|
  {
    if runs != [] {
      var last := |runs| - 1;
      var front, run := runs[..last], runs[last];
      var a := n - (run.end - run.start);
      CutRepresents(s, a, front, ranges[..last]);
      AddRun(front, s, a, n);
      assert runs == front + [run];
    }
  }

  /** Writes the members s[a..b] as one range. */
  method WriteRange(s: seq<int>, a: nat, b: nat, ranges: seq<int>, ghost runs: seq<Run>)
    returns (written: seq<int>, ghost more: seq<Run>)
    requires Cut(s, a, runs, ranges) && a < b && CountsUp(s, a, b)
    requires 0 <= s[a] && s[b - 1] + 1 < SHIFT
    ensures Cut(s, b, more, written)
  {
    var currentRange := s[a..b];
    written := ranges + [EncodeRange(currentRange[0], currentRange[|currentRange| - 1] + 1)];
    more := CutMore(s, a, b, runs, ranges);
  }

  lemma ShortEnough(s: seq<int>, a: nat, b: nat)
    requires (forall i :: 0 <= i < |s| ==> 0 <= s[i] < SHIFT - 1) && a < |s| && b < |s|
    ensures 0 <= s[a] && s[b] + 1 < SHIFT
  {
  }

  lemma CountsOn(s: seq<int>, a: int, b: int)
    requires 0 <= a <= b < |s| && CountsUp(s, a, b) && (a < b ==> s[b] == s[b - 1] + 1)
    ensures CountsUp(s, a, b + 1)
  {
  }

  /** One turn of the loop: the run goes on, or it is written. */
  method NextMember(s: seq<int>, i: nat, lastWrite: int, ranges: seq<int>, ghost runs: seq<Run>)
    returns (last: int, written: seq<int>, ghost more: seq<Run>)
    requires forall k :: 0 <= k < |s| ==> 0 <= s[k] < SHIFT - 1
    requires i < |s| && -1 <= lastWrite < i && CountsUp(s, lastWrite + 1, i) && Cut(s, lastWrite + 1, runs, ranges)
    requires lastWrite + 1 < i ==> s[i] == s[i - 1] + 1
    ensures -1 <= last <= i && (i + 1 == |s| ==> last == i)
    ensures CountsUp(s, last + 1, i + 1) && Cut(s, last + 1, more, written)
    ensures last < i && i + 1 < |s| ==> s[i + 1] == s[i] + 1
  {
    CountsOn(s, lastWrite + 1, i);
    if i + 1 < |s| && s[i] == s[i + 1] - 1 {
      return lastWrite, ranges, runs;
    }
    ShortEnough(s, lastWrite + 1, i);
    written, more := WriteRange(s, lastWrite + 1, i + 1, ranges, runs);
    last := i;
  }

  /** The loop of intranges_from_list over the sorted list. */
  method CutSorted(s: seq<int>) returns (ranges: seq<int>, ghost runs: seq<Run>)
    requires forall i :: 0 <= i < |s| ==> 0 <= s[i] < SHIFT - 1
    ensures Cut(s, |s|, runs, ranges)
  {
    ranges := [];
    var lastWrite := -1;
    runs := [];
    for i := 0 to |s|
      invariant -1 <= lastWrite < i && (i == |s| ==> lastWrite == i - 1)
      invariant CountsUp(s, lastWrite + 1, i)
      invariant lastWrite + 1 < i < |s| ==> s[i] == s[i - 1] + 1
      invariant Cut(s, lastWrite + 1, runs, ranges)
    {
      lastWrite, ranges, runs := NextMember(s, i, lastWrite, ranges, runs);
    }
  }

  /** intranges_from_list. */
  method FromList(list: seq<int>) returns (ranges: seq<int>)
    requires forall x :: x in list ==> 0 <= x < SHIFT - 1
    ensures Represents(ranges, list) && NonDecreasing(ranges)
  {
    var sortedList := SortSeq(list);
    InRange(list);
    ghost var runs;
    ranges, runs := CutSorted(sortedList);
    AllWritten(list, runs, ranges);
  }

  lemma AllWritten(list: seq<int>, runs: seq<Run>, ranges: seq<int>)
    requires Cut(SortSeq(list), |list|, runs, ranges)
    ensures Represents(ranges, list) && NonDecreasing(ranges)
  {
    var s := SortSeq(list);
    SortSeqOrders(list);
    SortSeqMembers(list);
    assert s[..|s|] == s;
    CutCodes(s, |s|, runs, ranges);
    CutRepresents(s, |s|, runs, ranges);
    EncodedSorted(runs);
  }

  lemma InRange(list: seq<int>)
    requires forall x :: x in list ==> 0 <= x < SHIFT - 1
    ensures forall i :: 0 <= i < |SortSeq(list)| ==> 0 <= SortSeq(list)[i] < SHIFT - 1
  {
    SortSeqMembers(list);
    forall i | 0 <= i < |SortSeq(list)|
      ensures 0 <= SortSeq(list)[i] < SHIFT - 1
    {
      assert SortSeq(list)[i] in SortSeq(list);
    }
  }

  // ---- intranges_contain ----

  /** bisect.bisect_left. */
  method BisectLeft(a: seq<int>, x: int) returns (pos: nat)
    requires NonDecreasing(a)
    ensures pos <= |a|
    ensures forall i :: 0 <= i < pos ==> a[i] < x
    ensures forall i :: pos <= i < |a| ==> x <= a[i]
  {
    var lo, hi := 0, |a|;
    while lo < hi
      invariant 0 <= lo <= hi <= |a|
      invariant forall i :: 0 <= i < lo ==> a[i] < x
      invariant forall i :: hi <= i < |a| ==> x <= a[i]
    {
      var mid := (lo + hi) / 2;
      if a[mid] < x {
        lo := mid + 1;
      } else {
        hi := mid;
      }
    }
    pos := lo;
  }

  /** Where the bisection stops, the two neighbours decide. */
  lemma NeighboursDecide(runs: seq<Run>, x: int, pos: nat)
    requires Codable(runs) && Ordered(runs) && pos <= |runs|
    requires forall i :: 0 <= i < pos ==> runs[i].start < x
    requires forall i :: pos <= i < |runs| ==> x <= runs[i].start
    ensures Covers(runs, x) <==> (pos > 0 && x < runs[pos - 1].end) || (pos < |runs| && runs[pos].start == x)
  {
    if Covers(runs, x) {
      var i :| 0 <= i < |runs| && runs[i].start <= x < runs[i].end;
      if i > pos {
        assert runs[pos].end - 1 <= runs[i].start;
      }
    }
  }

  lemma StartsSplit(runs: seq<Run>, x: int, pos: nat)
    requires Codable(runs) && pos <= |runs|
    requires forall i :: 0 <= i < pos ==> Encoded(runs)[i] < EncodeRange(x, 0)
    requires forall i :: pos <= i < |runs| ==> EncodeRange(x, 0) <= Encoded(runs)[i]
    ensures forall i :: 0 <= i < pos ==> runs[i].start < x
    ensures forall i :: pos <= i < |runs| ==> x <= runs[i].start
  {
    forall i | 0 <= i < |runs|
      ensures i < pos ==> runs[i].start < x
      ensures pos <= i ==> x <= runs[i].start
    {
      EncodeOrder(runs[i], x);
      assert Encoded(runs)[i] == EncodeRange(runs[i].start, runs[i].end);
    }
  }

  /** intranges_contain: membership in the list that the ranges were made from. */
  method Contain(x: int, ranges: seq<int>, ghost list: seq<int>) returns (r: bool)
    requires Represents(ranges, list)
    ensures r <==> x in list
  {
    ghost var runs: seq<Run> :| Codable(runs) && Ordered(runs) && ranges == Encoded(runs) && forall x :: Covers(runs, x) <==> x in list;
    EncodedSorted(runs);
    var tuple := EncodeRange(x, 0);
    var pos := BisectLeft(ranges, tuple);
    StartsSplit(runs, x, pos);
    NeighboursDecide(runs, x, pos);
    if pos > 0 {
      DecodeOfEncode(runs[pos - 1].start, runs[pos - 1].end);
      var left, right := DecodeRange(ranges[pos - 1]).0, DecodeRange(ranges[pos - 1]).1;
      if left <= x < right {
        return true;
      }
    }
    if pos < |ranges| {
      DecodeOfEncode(runs[pos].start, runs[pos].end);
      var left := DecodeRange(ranges[pos]).0;
      if left == x {
        return true;
      }
    }
    r := false;
  }
}
