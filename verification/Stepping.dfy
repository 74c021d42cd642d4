/** The modular stepping of rrule.py: which values k * INTERVAL reaches on a dial of `base` positions,
    and the distance to the next one in a BYxxx set. */
module Stepping {
  import opened Sequences

  // ---- gcd and what it reaches ----

  function Gcd(a: int, b: int): (g: int)
    requires a >= 0 && b >= 0 && a + b > 0
    ensures g > 0
    decreases b, a
  {
    if b == 0 then a else Gcd(b, a % b)
  }

  lemma MulLess(B: int, d: int)
    requires B > 0 && -B < B * d < B
    ensures d == 0
  {
  }

  lemma DivModIs(z: int, k: int, x: int, B: int)
    requires B > 0 && 0 <= x < B && z == k * B + x
    ensures z / B == k && z % B == x
  {
    var d := z / B - k;
    assert z == B * (z / B) + z % B;
    assert B * d == x - z % B by {
      assert B * d == B * (z / B) - B * k;
    }
    MulLess(B, d);
  }

  /** gcd divides both arguments and is an integer combination of them. */
  lemma {:induction false} Bezout(a: int, b: int) returns (s: int, t: int, p: int, q: int)
    requires a >= 0 && b >= 0 && a + b > 0
    ensures s * a + t * b == Gcd(a, b)
    ensures a == p * Gcd(a, b) && b == q * Gcd(a, b)
    decreases b
  {
    if b == 0 {
      s, t, p, q := 1, 0, 1, 0;
    } else {
      var g := Gcd(b, a % b);
      var s', t', p', q' := Bezout(b, a % b);
      var d := a / b;
      assert a == d * b + a % b;
      s, t := t', s' - d * t';
      BezoutStep(a, b, d, a % b, s', t', g);
      p, q := d * p' + q', p';
      FactorStep(d, p', q', g);
    }
  }

  lemma FactorStep(d: int, p: int, q: int, g: int)
    ensures (d * p + q) * g == d * (p * g) + q * g
  {
    assert (d * p) * g == d * (p * g);
  }

  lemma BezoutStep(a: int, b: int, d: int, m: int, s: int, t: int, g: int)
    requires a == d * b + m && s * b + t * m == g
    ensures t * a + (s - d * t) * b == g
  {
    assert t * a == t * (d * b) + t * m;
    assert (s - d * t) * b == s * b - (d * t) * b;
    assert t * (d * b) == (d * t) * b;
  }

  /** A count m of steps can be replaced by one in 1..base. */
  lemma Wrap(m: int, base: int) returns (n: int, e: int)
    requires base >= 1
    ensures 1 <= n <= base && n == m + e * base
  {
    var f := m / base;
    assert m == f * base + m % base;
    if m % base == 0 {
      n, e := base, 1 - f;
      assert (1 - f) * base == base - f * base;
    } else {
      n, e := m % base, -f;
    }
  }

  /** If g = s * i + t * base divides x - v then k * s steps lead from v to x, up to turns of the dial. */
  lemma StepsTo(v: int, i: int, base: int, x: int, s: int, t: int, k: int)
    requires x - v == k * (s * i + t * base)
    ensures v + (k * s) * i == x - (k * t) * base
  {
    assert k * (s * i + t * base) == k * (s * i) + k * (t * base);
    assert k * (s * i) == (k * s) * i;
    assert k * (t * base) == (k * t) * base;
  }

  lemma MoreTurns(m: int, e: int, base: int, i: int)
    ensures (m + e * base) * i == m * i + (e * i) * base
  {
    assert (m + e * base) * i == m * i + (e * base) * i;
    assert (e * base) * i == (e * i) * base;
  }

  lemma DivExact(z: int, g: int) returns (k: int)
    requires g > 0 && z % g == 0
    ensures z == k * g
  {
    k := z / g;
  }

  /** Position x of the dial is reached from v by steps of i within `base` rounds
      whenever gcd(i, base) divides x - v. */
  lemma Reaches(v: int, i: int, base: int, x: int) returns (n: int)
    requires i >= 1 && base >= 1 && 0 <= x < base
    requires (x - v) % Gcd(i, base) == 0
    ensures 1 <= n <= base && (v + n * i) % base == x
  {
    var g := Gcd(i, base);
    var s, t, p, q := Bezout(i, base);
    var k := DivExact(x - v, g);
    StepsTo(v, i, base, x, s, t, k);
    var e;
    n, e := Wrap(k * s, base);
    MoreTurns(k * s, e, base, i);
    assert (e * i) * base - (k * t) * base == (e * i - k * t) * base;
    DivModIs(v + n * i, e * i - k * t, x, base);
  }

  lemma CommonFactor(n: int, p: int, k: int, q: int, g: int)
    ensures n * (p * g) - k * (q * g) == (n * p - k * q) * g
  {
    assert n * (p * g) == (n * p) * g;
    assert k * (q * g) == (k * q) * g;
  }

  /** Conversely every position reached keeps its residue modulo gcd(i, base). */
  lemma ReachedKeepsResidue(v: int, i: int, base: int, n: int)
    requires i >= 1 && base >= 1
    ensures ((v + n * i) % base - v) % Gcd(i, base) == 0
  {
    var g := Gcd(i, base);
    var s, t, p, q := Bezout(i, base);
    var z := v + n * i;
    var k, w := z / base, z % base;
    assert z == k * base + w;
    CommonFactor(n, p, k, q, g);
    DivModIs(w - v, n * p - k * q, 0, g);
  }

  /** After base / gcd rounds the dial is back where it was. */
  lemma FullTurn(i: int, base: int) returns (k: int)
    requires i >= 1 && base >= 1
    ensures base / Gcd(i, base) >= 1
    ensures (base / Gcd(i, base)) * i == k * base
  {
    var g := Gcd(i, base);
    var s, t, p, q := Bezout(i, base);
    DivModIs(base, q, 0, g);
    k := p;
    SwapFactors(q, p, g);
    FactorPositive(q, g);
  }

  lemma SwapFactors(q: int, p: int, g: int)
    ensures q * (p * g) == p * (q * g)
  {
  }

  lemma FactorPositive(q: int, g: int)
    requires g > 0 && q * g >= 1
    ensures q >= 1
  {
  }

  // ---- __construct_byset ----

  /** gcd(interval, base); an interval may be given as zero or less. */
  function AbsGcd(interval: int, base: int): (g: int)
    requires base >= 1
    ensures g > 0
  {
    Gcd(if interval < 0 then -interval else interval, base)
  }

  /** The members that are kept: those a multiple of the gcd away from start. */
  function Reached(s: seq<int>, start: int, interval: int, base: int): (r: seq<int>)
    requires base >= 1
    ensures forall x :: x in r <==> x in s && (x - start) % AbsGcd(interval, base) == 0
  {
    if s == [] then []
    else
      var last := |s| - 1;
      assert s == s[..last] + [s[last]];
      Reached(s[..last], start, interval, base) + (if (s[last] - start) % AbsGcd(interval, base) == 0 then [s[last]] else [])
  }

  /** The kept members, as a list that sorting makes a set; None is the empty-set ValueError. */
  method ConstructByset(start: int, interval: int, byxxx: seq<int>, base: int) returns (r: Option<seq<int>>)
    requires base >= 1
    ensures r == if Reached(byxxx, start, interval, base) == [] then None else Some(Reached(byxxx, start, interval, base))
  {
    var cset: seq<int> := [];
    var g := AbsGcd(interval, base);
    for k := 0 to |byxxx|
      invariant cset == Reached(byxxx[..k], start, interval, base)
    {
      var num := byxxx[k];
      assert byxxx[..k + 1][..k] == byxxx[..k];
      assert g == 1 ==> (num - start) % g == 0;
      if g == 1 || (num - start) % g == 0 {
        cset := cset + [num];
      }
    }
    assert byxxx[..|byxxx|] == byxxx;
    r := if |cset| == 0 then None else Some(cset);
  }

  /** What is kept is what steps of INTERVAL from start reach on the dial, and nothing is kept exactly when
      no step ever reaches a member. */
  lemma KeptIsReachable(start: int, interval: int, byxxx: seq<int>, base: int)
    requires interval >= 1 && base >= 1
    requires forall x :: x in byxxx ==> 0 <= x < base
    ensures forall x :: x in Reached(byxxx, start, interval, base) <==>
                          x in byxxx && exists n :: 1 <= n <= base && Dial(start, n, interval, base) == x
    ensures Reached(byxxx, start, interval, base) == [] <==> forall n :: n >= 1 ==> Dial(start, n, interval, base) !in byxxx
  {
    ReachableSet(start, interval, byxxx, base);
    var kept := Reached(byxxx, start, interval, base);
    if kept != [] {
      assert kept[0] in kept;
      var n :| 1 <= n <= base && Dial(start, n, interval, base) == kept[0];
    } else {
      forall n | n >= 1
        ensures Dial(start, n, interval, base) !in byxxx
      {
        assert Dial(start, n, interval, base) !in kept;
      }
    }
  }

  /** Where n steps lead on the dial. */
  function Dial(start: int, n: int, interval: int, base: int): int
    requires base >= 1
  {
    (start + n * interval) % base
  }

  lemma ReachableSet(start: int, interval: int, byxxx: seq<int>, base: int)
    requires interval >= 1 && base >= 1
    requires forall x :: x in byxxx ==> 0 <= x < base
    ensures forall x :: x in byxxx ==>
              ((x - start) % Gcd(interval, base) == 0 <==> exists n :: 1 <= n <= base && Dial(start, n, interval, base) == x)
    ensures forall n :: n >= 1 ==> (Dial(start, n, interval, base) - start) % Gcd(interval, base) == 0
  {
    forall n | n >= 1
      ensures (Dial(start, n, interval, base) - start) % Gcd(interval, base) == 0
    {
      ReachedKeepsResidue(start, interval, base, n);
    }
    forall x | x in byxxx && (x - start) % Gcd(interval, base) == 0
      ensures exists n :: 1 <= n <= base && Dial(start, n, interval, base) == x
    {
      var n := Reaches(start, interval, base, x);
      assert Dial(start, n, interval, base) == x;
    }
  }

  // ---- __mod_distance ----

  /** divmod of the least number of further steps that meets byxxx; None when a whole turn meets nothing. */
  method ModDistance(value: int, interval: int, byxxx: seq<int>, base: int) returns (r: Option<(int, int)>, ghost n: int)
    requires interval >= 1 && base >= 1
    ensures r.Some? ==>
              && 1 <= n <= base
              && r.value.0 * base + r.value.1 == value + n * interval
              && r.value.1 == Dial(value, n, interval, base)
              && r.value.1 in byxxx
              && forall m :: 1 <= m < n ==> Dial(value, m, interval, base) !in byxxx
    ensures r.None? <==> forall m :: m >= 1 ==> Dial(value, m, interval, base) !in byxxx
  {
    var accumulator := 0;
    var v := value;
    n := 0;
    for ii := 1 to base + 1
      invariant accumulator * base + v == value + (ii - 1) * interval
      invariant forall m :: 1 <= m < ii ==> Dial(value, m, interval, base) !in byxxx
    {
      var z := v + interval;
      var div := z / base;
      v := z % base;
      assert accumulator * base + z == value + ii * interval;
      assert z == div * base + v;
      accumulator := accumulator + div;
      assert accumulator * base + v == value + ii * interval;
      DivModIs(value + ii * interval, accumulator, v, base);
      if v in byxxx {
        n := ii;
        return Some((accumulator, v)), n;
      }
    }
    NeverReached(value, interval, byxxx, base);
    r := None;
  }

  lemma NeverReached(value: int, interval: int, byxxx: seq<int>, base: int)
    requires interval >= 1 && base >= 1
    requires forall m :: 1 <= m <= base ==> Dial(value, m, interval, base) !in byxxx
    ensures forall m :: m >= 1 ==> Dial(value, m, interval, base) !in byxxx
  {
    forall m | m >= 1
      ensures Dial(value, m, interval, base) !in byxxx
    {
      var x := Dial(value, m, interval, base);
      ReachedKeepsResidue(value, interval, base, m);
      var n := Reaches(value, interval, base, x);
      assert Dial(value, n, interval, base) == x;
    }
  }
}
