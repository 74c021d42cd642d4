/** Listing a set of time points in increasing order, up to a limit. */
module Listings {
  import opened Sequences

  ghost predicate WithinLimit(n: nat, limit: Option<int>) {
    limit.Some? ==> n <= if limit.value < 0 then 0 else limit.value
  }

  /** out is an initial part of M in increasing order, no longer than the limit. */
  ghost predicate StartsList(M: iset<int>, out: seq<int>, limit: Option<int>) {
    && Increasing(out)
    && (forall t :: t in out ==> t in M)
    && (forall t, i :: 0 <= i < |out| && t in M && t <= out[i] ==> t in out)
    && WithinLimit(|out|, limit)
  }

  /** out is all of M, or its first `limit` members. */
  ghost predicate Lists(M: iset<int>, out: seq<int>, limit: Option<int>) {
    && StartsList(M, out, limit)
    && (limit.None? || |out| < limit.value ==> forall t :: t in M ==> t in out)
  }

  /** out is all of M below b, and that is within the limit. */
  ghost predicate ListsBelow(M: iset<int>, out: seq<int>, limit: Option<int>, b: int) {
    && Increasing(out)
    && (forall t :: t in out <==> t in M && t < b)
    && WithinLimit(|out|, limit)
  }

  lemma ListUnique(M: iset<int>, a: seq<int>, b: seq<int>, limit: Option<int>)
    requires Lists(M, a, limit) && Lists(M, b, limit)
    ensures a == b
  {
    if |a| <= |b| { ShorterList(M, a, b, limit); } else { ShorterList(M, b, a, limit); }
  }

  lemma ShorterList(M: iset<int>, a: seq<int>, b: seq<int>, limit: Option<int>)
    requires Lists(M, a, limit) && Lists(M, b, limit) && |a| <= |b|
    ensures a == b
  {
    ListsNest(M, a, b, limit, |a|);
    forall x | x in b
      ensures x in a
    {
      if |a| < |b| {
        assert limit.None? || |a| < limit.value;
      }
    }
    forall x
      ensures x in a <==> x in b
    {
    }
    IncreasingUnique(a, b);
  }

  lemma {:induction false} ListsNest(M: iset<int>, a: seq<int>, b: seq<int>, limit: Option<int>, k: nat)
    requires StartsList(M, a, limit) && StartsList(M, b, limit) && k <= |a| <= |b|
    ensures forall i :: 0 <= i < k ==> a[i] == b[i]
  {
    if k > 0 {
      ListsNest(M, a, b, limit, k - 1);
      NotBefore(M, a, b, limit, k - 1);
      NotBefore(M, b, a, limit, k - 1);
    }
  }

  lemma NotBefore(M: iset<int>, a: seq<int>, b: seq<int>, limit: Option<int>, k: nat)
    requires StartsList(M, a, limit) && StartsList(M, b, limit) && k < |a| && k < |b|
    requires forall i :: 0 <= i < k ==> a[i] == b[i]
    ensures a[k] >= b[k]
  {
    var t := a[k];
    assert t in a;
    if t in b {
      var j :| 0 <= j < |b| && b[j] == t;
      assert j >= k;
    }
  }

  lemma BelowStarts(M: iset<int>, out: seq<int>, limit: Option<int>, b: int)
    requires ListsBelow(M, out, limit, b)
    ensures StartsList(M, out, limit)
  {
    forall i | 0 <= i < |out|
      ensures out[i] < b
    {
      assert out[i] in out;
    }
  }

  lemma BelowAll(M: iset<int>, out: seq<int>, limit: Option<int>, b: int)
    requires ListsBelow(M, out, limit, b)
    requires forall t :: t in M ==> t < b
    ensures Lists(M, out, limit)
  {
    BelowStarts(M, out, limit, b);
  }

  // ---- One yield step ----

  datatype Offered = Stop | Continue(out: seq<int>)

  /** What the generator does with one result: end at UNTIL or COUNT, skip what is before DTSTART, else yield. */
  function Offer(first: int, until: Option<int>, limit: Option<int>, out: seq<int>, res: int): Offered {
    if until.Some? && res > until.value then Stop
    else if res >= first then
      if limit.Some? && limit.value - |out| - 1 < 0 then Stop else Continue(out + [res])
    else Continue(out)
  }

  /** UNTIL or COUNT ends the run at the result t: it is past UNTIL, or the members of M before it use up COUNT. */
  ghost predicate Stops(M: iset<int>, first: int, until: Option<int>, limit: Option<int>, t: int) {
    || (until.Some? && until.value < t)
    || (first <= t && limit.Some? && exists s :: ListsBelow(M, s, None, t) && limit.value <= |s|)
  }

  ghost predicate StopsWithin(M: iset<int>, first: int, until: Option<int>, limit: Option<int>, rs: seq<int>) {
    exists t :: t in rs && Stops(M, first, until, limit, t)
  }

  lemma StopsWithinMore(M: iset<int>, first: int, until: Option<int>, limit: Option<int>, rs: seq<int>, x: int)
    ensures StopsWithin(M, first, until, limit, rs + [x]) <==>
              StopsWithin(M, first, until, limit, rs) || Stops(M, first, until, limit, x)
  {
    assert x in rs + [x];
    if StopsWithin(M, first, until, limit, rs) {
      var t :| t in rs && Stops(M, first, until, limit, t);
      assert t in rs + [x];
    }
  }

  lemma StopsWithinPart(M: iset<int>, first: int, until: Option<int>, limit: Option<int>, rs: seq<int>, part: seq<int>)
    requires part <= rs && StopsWithin(M, first, until, limit, part)
    ensures StopsWithin(M, first, until, limit, rs)
  {
    var t :| t in part && Stops(M, first, until, limit, t);
    assert t in rs;
  }

  /** The offered result stops the run exactly when it is one at which UNTIL or COUNT ends it. */
  lemma OfferStops(M: iset<int>, K: iset<int>, first: int, until: Option<int>, end: int, limit: Option<int>,
                   out: seq<int>, b: int, res: int)
    requires Restricts(M, K, first, until, end)
    requires ListsBelow(M, out, limit, b) && b <= res
    requires forall t :: b <= t < res ==> t !in K
    ensures Offer(first, until, limit, out, res).Stop? <==> Stops(M, first, until, limit, res)
  {
    assert ListsBelow(M, out, None, res);
    forall s | ListsBelow(M, s, None, res)
      ensures s == out
    {
      IncreasingUnique(s, out);
    }
  }

  /** M is K restricted to first..until, and to points below the end of the calendar. */
  ghost predicate Restricts(M: iset<int>, K: iset<int>, first: int, until: Option<int>, end: int) {
    forall t :: t in M <==> t in K && first <= t < end && (until.Some? ==> t <= until.value)
  }

  lemma OfferStep(M: iset<int>, K: iset<int>, first: int, until: Option<int>, end: int, limit: Option<int>,
                  out: seq<int>, b: int, res: int)
    requires Restricts(M, K, first, until, end)
    requires ListsBelow(M, out, limit, b) && b <= res < end && res in K
    requires forall t :: b <= t < res ==> t !in K
    ensures Offer(first, until, limit, out, res).Stop? ==> Lists(M, out, limit)
    ensures Offer(first, until, limit, out, res).Continue? ==>
              ListsBelow(M, Offer(first, until, limit, out, res).out, limit, res + 1)
  {
    BelowStarts(M, out, limit, b);
    if until.Some? && res > until.value {
      assert forall t :: t in M ==> t < b;
    } else if res >= first && !(limit.Some? && limit.value - |out| - 1 < 0) {
      forall i | 0 <= i < |out|
        ensures out[i] < res
      {
        assert out[i] in out;
      }
      IncreasingAppend(out, [res]);
    }
  }

  /** rs lists K between P and Q. */
  ghost predicate Spans(K: iset<int>, P: int, Q: int, rs: seq<int>) {
    Increasing(rs) && forall t :: t in rs <==> t in K && P <= t < Q
  }

  /** The bound below which everything is settled once the results `done` were offered. */
  function Settled(P: int, done: seq<int>): int {
    if done == [] then P else done[|done| - 1] + 1
  }

  lemma NextResult(K: iset<int>, P: int, Q: int, rs: seq<int>, done: seq<int>, res: int)
    requires Spans(K, P, Q, rs) && done + [res] <= rs
    ensures res in K && Settled(P, done) <= res < Q
    ensures forall t :: Settled(P, done) <= t < res ==> t !in K
    ensures Settled(P, done + [res]) == res + 1
  {
    var k := |done|;
    assert rs[k] == (done + [res])[k] == res;
    assert rs[k] in rs;
    assert k > 0 ==> rs[k - 1] == (done + [res])[k - 1] == done[k - 1];
    assert k > 0 ==> rs[k - 1] in rs;
    forall t | Settled(P, done) <= t < res
      ensures t !in rs
    {
      forall j | 0 <= j < |rs|
        ensures rs[j] != t
      {
        if j < k {
          assert rs[j] <= rs[k - 1];
        }
      }
    }
  }

  lemma NoMoreResults(M: iset<int>, K: iset<int>, P: int, Q: int, rs: seq<int>, out: seq<int>, limit: Option<int>)
    requires Spans(K, P, Q, rs) && P <= Q && forall t :: t in M ==> t in K
    requires ListsBelow(M, out, limit, Settled(P, rs))
    ensures ListsBelow(M, out, limit, Q)
  {
    var b := Settled(P, rs);
    assert P <= b <= Q by {
      if rs != [] { assert rs[|rs| - 1] in rs; }
    }
    forall t | b <= t < Q
      ensures t !in rs
    {
      forall j | 0 <= j < |rs|
        ensures rs[j] != t
      {
        assert rs[j] <= rs[|rs| - 1];
      }
    }
  }

  /** Offers a list of results one by one; stopped tells that UNTIL or COUNT ended the recurrence. */
  method OfferAll(first: int, until: Option<int>, limit: Option<int>, rs: seq<int>, out: seq<int>,
                  ghost M: iset<int>, ghost K: iset<int>, ghost end: int, ghost P: int, ghost Q: int)
    returns (out': seq<int>, stopped: bool)
    requires Restricts(M, K, first, until, end) && Spans(K, P, Q, rs) && P <= Q
    requires ListsBelow(M, out, limit, P)
    requires forall t :: t in rs ==> t < end
    ensures stopped ==> Lists(M, out', limit)
    ensures !stopped ==> ListsBelow(M, out', limit, Q)
    ensures stopped <==> StopsWithin(M, first, until, limit, rs)
  {
    out' := out;
    for k := 0 to |rs|
      invariant ListsBelow(M, out', limit, Settled(P, rs[..k]))
      invariant !StopsWithin(M, first, until, limit, rs[..k])
    {
      var res := rs[k];
      assert rs[..k + 1] == rs[..k] + [res];
      NextResult(K, P, Q, rs, rs[..k], res);
      OfferStep(M, K, first, until, end, limit, out', Settled(P, rs[..k]), res);
      OfferStops(M, K, first, until, end, limit, out', Settled(P, rs[..k]), res);
      StopsWithinMore(M, first, until, limit, rs[..k], res);
      match Offer(first, until, limit, out', res)
      case Stop =>
        StopsWithinPart(M, first, until, limit, rs, rs[..k + 1]);
        return out', true;
      case Continue(o) => out' := o;
    }
    assert rs[..|rs|] == rs;
    NoMoreResults(M, K, P, Q, rs, out', limit);
    stopped := false;
  }
}
