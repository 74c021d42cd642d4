/** Sorted sequences: what Python's sorted(...) and sorted(set(...)) return. */
module Sequences {
  datatype Option<+T> = None | Some(value: T)

  ghost predicate Increasing(s: seq<int>) {
    forall i, j :: 0 <= i < j < |s| ==> s[i] < s[j]
  }

  ghost predicate NonDecreasing(s: seq<int>) {
    forall i, j :: 0 <= i < j < |s| ==> s[i] <= s[j]
  }

  function Insert(x: int, s: seq<int>): (r: seq<int>)
    ensures multiset(r) == multiset(s) + multiset{x}
    ensures |r| == |s| + 1
  {
    if s == [] then [x]
    else if x <= s[0] then [x] + s
    else
      assert s == [s[0]] + s[1..];
      [s[0]] + Insert(x, s[1..])
  }

  /** sorted(s). */
  function SortSeq(s: seq<int>): (r: seq<int>)
    ensures multiset(r) == multiset(s)
    ensures |r| == |s|
  {
    if s == [] then [] else
      assert s == [s[0]] + s[1..];
      Insert(s[0], SortSeq(s[1..]))
  }

  lemma MultisetMembers<T>(s: seq<T>, t: seq<T>)
    requires multiset(s) == multiset(t)
    ensures forall x :: x in s <==> x in t
  {
    forall x
      ensures x in s <==> x in t
    {
      assert x in s <==> x in multiset(s);
      assert x in t <==> x in multiset(t);
    }
  }

  lemma {:induction false} InsertMember(x: int, s: seq<int>, i: nat)
    requires i <= |s|
    ensures Insert(x, s)[i] == x || exists j :: 0 <= j < |s| && Insert(x, s)[i] == s[j]
  {
    if s != [] && x > s[0] && i > 0 {
      InsertMember(x, s[1..], i - 1);
      assert Insert(x, s)[i] == Insert(x, s[1..])[i - 1];
      if Insert(x, s[1..])[i - 1] != x {
        var j :| 0 <= j < |s[1..]| && Insert(x, s[1..])[i - 1] == s[1..][j];
        assert s[j + 1] == s[1..][j];
      }
    }
  }

  lemma {:induction false} InsertKeepsOrder(x: int, s: seq<int>)
    requires NonDecreasing(s)
    ensures NonDecreasing(Insert(x, s))
  {
    if s != [] && x > s[0] {
      InsertKeepsOrder(x, s[1..]);
      var t := Insert(x, s[1..]);
      forall i | 0 <= i < |t|
        ensures s[0] <= t[i]
      {
        InsertMember(x, s[1..], i);
      }
    }
  }

  lemma {:induction false} SortSeqOrders(s: seq<int>)
    ensures NonDecreasing(SortSeq(s))
  {
    if s != [] {
      SortSeqOrders(s[1..]);
      InsertKeepsOrder(s[0], SortSeq(s[1..]));
    }
  }

  lemma SortSeqMembers(s: seq<int>)
    ensures forall x :: x in SortSeq(s) <==> x in s
  {
    MultisetMembers(SortSeq(s), s);
  }

  /** Sorting a sorted list changes nothing. */
  lemma {:induction false} SortSeqOfSorted(s: seq<int>)
    requires NonDecreasing(s)
    ensures SortSeq(s) == s
  {
    if s != [] {
      SortSeqOfSorted(s[1..]);
      assert |s| > 1 ==> s[0] <= s[1];
    }
  }

  function InsertOnce(x: int, s: seq<int>): (r: seq<int>)
    ensures forall y :: y in r <==> y == x || y in s
  {
    if s == [] then [x]
    else if x < s[0] then [x] + s
    else if x == s[0] then s
    else
      assert s == [s[0]] + s[1..];
      [s[0]] + InsertOnce(x, s[1..])
  }

  /** tuple(sorted(set(s))). */
  function SortedSet(s: seq<int>): (r: seq<int>)
    ensures forall y :: y in r <==> y in s
  {
    if s == [] then [] else
      assert s == [s[0]] + s[1..];
      InsertOnce(s[0], SortedSet(s[1..]))
  }

  lemma {:induction false} InsertOnceIncreasing(x: int, s: seq<int>)
    requires Increasing(s)
    ensures Increasing(InsertOnce(x, s))
  {
    if s != [] && x > s[0] {
      InsertOnceIncreasing(x, s[1..]);
      var t := InsertOnce(x, s[1..]);
      forall i | 0 <= i < |t|
        ensures s[0] < t[i]
      {
        assert t[i] in t;
      }
    }
  }

  lemma {:induction false} SortedSetIncreasing(s: seq<int>)
    ensures Increasing(SortedSet(s))
  {
    if s != [] {
      SortedSetIncreasing(s[1..]);
      InsertOnceIncreasing(s[0], SortedSet(s[1..]));
    }
  }

  lemma HasMember<T>(s: seq<T>)
    ensures s != [] ==> exists x :: x in s
  {
    if s != [] {
      assert s[0] in s;
    }
  }

  lemma InTail(s: seq<int>)
    requires Increasing(s) && s != []
    ensures forall x :: x in s[1..] <==> x in s && x != s[0]
  {
    assert s == [s[0]] + s[1..];
  }

  /** A strictly increasing sequence is determined by its members. */
  lemma {:induction false} IncreasingUnique(s: seq<int>, t: seq<int>)
    requires Increasing(s) && Increasing(t)
    requires forall x :: x in s <==> x in t
    ensures s == t
  {
    HasMember(s);
    HasMember(t);
    if s != [] {
      assert s[0] in s && t[0] in t;
      assert s[0] == t[0];
      InTail(s);
      InTail(t);
      IncreasingUnique(s[1..], t[1..]);
      assert s == [s[0]] + s[1..] && t == [t[0]] + t[1..];
    }
  }

  /** sorted(set(...)) of an already normalised list is that list. */
  lemma SortedSetOfIncreasing(s: seq<int>)
    requires Increasing(s)
    ensures SortedSet(s) == s
  {
    SortedSetIncreasing(s);
    IncreasingUnique(SortedSet(s), s);
  }

  lemma IncreasingAppend(s: seq<int>, t: seq<int>)
    requires Increasing(s) && Increasing(t)
    requires s != [] && t != [] ==> s[|s| - 1] < t[0]
    ensures Increasing(s + t)
  {
    forall i, j | 0 <= i < j < |s + t|
      ensures (s + t)[i] < (s + t)[j]
    {
      if i < |s| <= j {
        assert s[i] <= s[|s| - 1] && t[0] <= t[j - |s|];
      }
    }
  }
}
