/** Ordered products: every base combined with every offset, as the nested loops over
    hours, minutes, seconds and over days, times produce them. */
module Products {
  import opened Sequences
  import opened Stepping

  function Shift(x: int, offs: seq<int>): (r: seq<int>)
    ensures |r| == |offs| && forall i :: 0 <= i < |r| ==> r[i] == x + offs[i]
  {
    seq(|offs|, i requires 0 <= i < |offs| => x + offs[i])
  }

  function Product(bases: seq<int>, scale: int, offs: seq<int>): seq<int> {
    if bases == [] then []
    else Product(bases[..|bases| - 1], scale, offs) + Shift(bases[|bases| - 1] * scale, offs)
  }

  /** Values of a dial: strictly increasing and in 0..scale - 1. */
  ghost predicate OnDial(s: seq<int>, scale: int) {
    Increasing(s) && forall i :: 0 <= i < |s| ==> 0 <= s[i] < scale
  }

  lemma ShiftMembers(b: int, scale: int, offs: seq<int>, x: int)
    requires scale > 0 && OnDial(offs, scale)
    ensures x in Shift(b * scale, offs) <==> x / scale == b && x % scale in offs
  {
    var s := Shift(b * scale, offs);
    if x in s {
      var i :| 0 <= i < |s| && s[i] == x;
      DivModIs(x, b, offs[i], scale);
    }
    if x / scale == b && x % scale in offs {
      assert x == b * scale + x % scale;
      var i :| 0 <= i < |offs| && offs[i] == x % scale;
      assert s[i] == x;
    }
  }

  lemma {:induction false} ProductMembers(bases: seq<int>, scale: int, offs: seq<int>, x: int)
    requires scale > 0 && OnDial(offs, scale)
    ensures x in Product(bases, scale, offs) <==> x / scale in bases && x % scale in offs
  {
    if bases != [] {
      var k := |bases| - 1;
      ProductMembers(bases[..k], scale, offs, x);
      ShiftMembers(bases[k], scale, offs, x);
      assert bases == bases[..k] + [bases[k]];
    }
  }

  lemma ShiftIncreasing(x: int, offs: seq<int>)
    requires Increasing(offs)
    ensures Increasing(Shift(x, offs))
  {
  }

  lemma {:induction false} ProductIncreasing(bases: seq<int>, scale: int, offs: seq<int>)
    requires scale > 0 && OnDial(offs, scale) && Increasing(bases)
    ensures Increasing(Product(bases, scale, offs))
  {
    if bases != [] {
      var k := |bases| - 1;
      var p, s := Product(bases[..k], scale, offs), Shift(bases[k] * scale, offs);
      ProductIncreasing(bases[..k], scale, offs);
      ShiftIncreasing(bases[k] * scale, offs);
      if p != [] && s != [] {
        var x := p[|p| - 1];
        assert x in p;
        ProductMembers(bases[..k], scale, offs, x);
        var j :| 0 <= j < k && bases[..k][j] == x / scale;
        assert bases[j] < bases[k];
        BelowNext(x, bases[k], scale);
      }
      IncreasingAppend(p, s);
    }
  }

  lemma BelowNext(x: int, b: int, scale: int)
    requires scale > 0 && x / scale < b
    ensures x < b * scale
  {
    var q := x / scale;
    assert x == q * scale + x % scale;
    assert (q + 1) * scale == q * scale + scale;
    MulOrder(q + 1, b, scale);
  }

  lemma MulOrder(a: int, b: int, s: int)
    requires a <= b && s >= 0
    ensures a * s <= b * s
  {
    assert (b - a) * s == b * s - a * s;
  }

  /** A prefix of the bases gives a prefix of the product. */
  lemma {:induction false} ProductPrefix(bases: seq<int>, k: nat, scale: int, offs: seq<int>)
    requires k <= |bases|
    ensures Product(bases[..k], scale, offs) <= Product(bases, scale, offs)
    decreases |bases|
  {
    if k < |bases| {
      ProductPrefix(bases[..|bases| - 1], k, scale, offs);
      assert bases[..|bases| - 1][..k] == bases[..k];
    } else {
      assert bases[..k] == bases;
    }
  }

  lemma {:induction false} ProductLength(bases: seq<int>, scale: int, offs: seq<int>)
    ensures |Product(bases, scale, offs)| == |bases| * |offs|
  {
    if bases != [] {
      ProductLength(bases[..|bases| - 1], scale, offs);
      assert |bases| * |offs| == (|bases| - 1) * |offs| + |offs|;
    }
  }

  /** Entry a * |offs| + b is base a with offset b. */
  lemma ProductAt(bases: seq<int>, scale: int, offs: seq<int>, a: int, b: int)
    requires 0 <= a < |bases| && 0 <= b < |offs|
    ensures 0 <= a * |offs| + b < |Product(bases, scale, offs)|
    ensures Product(bases, scale, offs)[a * |offs| + b] == bases[a] * scale + offs[b]
  {
    ProductPrefix(bases, a + 1, scale, offs);
    ProductLength(bases[..a], scale, offs);
    ProductOfLast(bases, a, scale, offs);
    InBlock(Product(bases[..a], scale, offs), Shift(bases[a] * scale, offs), Product(bases, scale, offs), b);
  }

  lemma InBlock(before: seq<int>, block: seq<int>, all: seq<int>, b: int)
    requires before + block <= all && 0 <= b < |block|
    ensures |before| + b < |all| && all[|before| + b] == block[b]
  {
    assert (before + block)[|before| + b] == block[b];
  }

  lemma ShiftAppend(x: int, a: seq<int>, b: seq<int>)
    ensures Shift(x, a + b) == Shift(x, a) + Shift(x, b)
  {
  }

  lemma ProductOfLast(bases: seq<int>, k: nat, scale: int, offs: seq<int>)
    requires k < |bases|
    ensures Product(bases[..k + 1], scale, offs) == Product(bases[..k], scale, offs) + Shift(bases[k] * scale, offs)
  {
    assert bases[..k + 1][..k] == bases[..k];
  }

  // ---- Time sets ----

  /** All times of day with the given hours, minutes and seconds, in order. */
  ghost function Times(hs: seq<int>, ms: seq<int>, ss: seq<int>): seq<int> {
    Product(hs, 3600, Product(ms, 60, ss))
  }

  lemma TimesMembers(hs: seq<int>, ms: seq<int>, ss: seq<int>, t: int)
    requires OnDial(ms, 60) && OnDial(ss, 60)
    ensures t in Times(hs, ms, ss) <==> t / 3600 in hs && t % 3600 / 60 in ms && t % 60 in ss
  {
    var inner := Product(ms, 60, ss);
    ProductDial(ms, 60, ss, 60);
    ProductMembers(hs, 3600, inner, t);
    ProductMembers(ms, 60, ss, t % 3600);
    MinuteDial(t);
  }

  lemma MinuteDial(t: int)
    ensures t % 3600 % 60 == t % 60
  {
  }

  lemma TimesDial(hs: seq<int>, ms: seq<int>, ss: seq<int>)
    requires OnDial(hs, 24) && OnDial(ms, 60) && OnDial(ss, 60)
    ensures OnDial(Times(hs, ms, ss), 86400)
  {
    ProductDial(ms, 60, ss, 60);
    ProductDial(hs, 3600, Product(ms, 60, ss), 24);
  }

  lemma ProductDial(bases: seq<int>, scale: int, offs: seq<int>, turns: int)
    requires scale > 0 && OnDial(offs, scale) && OnDial(bases, turns)
    ensures OnDial(Product(bases, scale, offs), turns * scale)
  {
    var p := Product(bases, scale, offs);
    ProductIncreasing(bases, scale, offs);
    forall i | 0 <= i < |p|
      ensures 0 <= p[i] < turns * scale
    {
      assert p[i] in p;
      ProductMembers(bases, scale, offs, p[i]);
      BelowNext(p[i], turns, scale);
      NotNegative(p[i], scale);
    }
  }

  lemma NotNegative(x: int, scale: int)
    requires scale > 0 && 0 <= x / scale
    ensures 0 <= x
  {
    assert x == scale * (x / scale) + x % scale;
  }

  /** The innermost loop: all seconds of a minute. */
  method AddMinute(tset: seq<int>, hour: int, minute: int, ss: seq<int>) returns (r: seq<int>)
    ensures r == tset + Shift(hour, Shift(minute, ss))
  {
    r := tset;
    for k := 0 to |ss|
      invariant r == tset + Shift(hour, Shift(minute, ss[..k]))
    {
      r := r + [hour + minute + ss[k]];
      assert ss[..k + 1] == ss[..k] + [ss[k]];
    }
    assert ss[..|ss|] == ss;
  }

  lemma MinuteMore(tset: seq<int>, hour: int, ms: seq<int>, j: nat, ss: seq<int>)
    requires j < |ms|
    ensures tset + Shift(hour, Product(ms[..j], 60, ss)) + Shift(hour, Shift(ms[j] * 60, ss)) ==
            tset + Shift(hour, Product(ms[..j + 1], 60, ss))
  {
    ProductOfLast(ms, j, 60, ss);
    ShiftAppend(hour, Product(ms[..j], 60, ss), Shift(ms[j] * 60, ss));
  }

  /** The inner two loops: all minutes and seconds of an hour. */
  method AddHour(tset: seq<int>, hour: int, ms: seq<int>, ss: seq<int>) returns (r: seq<int>)
    ensures r == tset + Shift(hour * 3600, Product(ms, 60, ss))
  {
    r := tset;
    for j := 0 to |ms|
      invariant r == tset + Shift(hour * 3600, Product(ms[..j], 60, ss))
    {
      r := AddMinute(r, hour * 3600, ms[j] * 60, ss);
      MinuteMore(tset, hour * 3600, ms, j, ss);
    }
    assert ms[..|ms|] == ms;
  }

  /** The nested loops that build a time set; the final sort finds it already in order. */
  method BuildTimes(hs: seq<int>, ms: seq<int>, ss: seq<int>) returns (tset: seq<int>)
    requires OnDial(hs, 24) && OnDial(ms, 60) && OnDial(ss, 60)
    ensures OnDial(tset, 86400)
    ensures forall t :: t in tset <==> t / 3600 in hs && t % 3600 / 60 in ms && t % 60 in ss
  {
    tset := [];
    for i := 0 to |hs|
      invariant tset == Product(hs[..i], 3600, Product(ms, 60, ss))
    {
      tset := AddHour(tset, hs[i], ms, ss);
      ProductOfLast(hs, i, 3600, Product(ms, 60, ss));
    }
    assert hs[..|hs|] == hs;
    assert tset == Times(hs, ms, ss);
    forall t
      ensures t in tset <==> t / 3600 in hs && t % 3600 / 60 in ms && t % 60 in ss
    {
      TimesMembers(hs, ms, ss, t);
    }
    TimesDial(hs, ms, ss);
    SortSeqOfSorted(tset);
    tset := SortSeq(tset);
  }
}
