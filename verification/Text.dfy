/** Decimal numbers, hexadecimal strings, joining and splitting, as Python's str, int, bytes.hex, join and split do. */
module Text {
  import opened Sequences

  predicate IsDigit(c: char) {
    '0' <= c <= '9'
  }

  function DigitChar(d: int): (c: char)
    requires 0 <= d < 10
    ensures IsDigit(c) && DigitValue(c) == d
  {
    '0' + d as char
  }

  function DigitValue(c: char): (d: int)
    requires IsDigit(c)
    ensures 0 <= d < 10
  {
    c as int - '0' as int
  }

  predicate AllDigits(s: string) {
    forall i :: 0 <= i < |s| ==> IsDigit(s[i])
  }

  /** str(n) for n >= 0. */
  function NatText(n: nat): (s: string)
    ensures s != [] && AllDigits(s)
  {
    if n < 10 then [DigitChar(n)] else NatText(n / 10) + [DigitChar(n % 10)]
  }

  function DigitsValue(s: string): (n: int)
    requires AllDigits(s)
    ensures 0 <= n
  {
    if s == [] then 0 else DigitsValue(s[..|s| - 1]) * 10 + DigitValue(s[|s| - 1])
  }

  lemma {:induction false} NatTextValue(n: nat)
    ensures DigitsValue(NatText(n)) == n
  {
    var s := NatText(n);
    if n >= 10 {
      NatTextValue(n / 10);
      assert s[..|s| - 1] == NatText(n / 10);
    } else {
      assert s[..0] == "";
    }
  }

  function Power10(k: nat): (p: int)
    ensures p >= 1
  {
    if k == 0 then 1 else 10 * Power10(k - 1)
  }

  /** The character k places from the end is the digit of 10^k, and there are no leading zeros. */
  lemma {:induction false} DigitPlaces(n: nat, k: nat)
    requires k < |NatText(n)|
    ensures NatText(n)[|NatText(n)| - 1 - k] == "0123456789"[n / Power10(k) % 10]
    ensures n >= 10 ==> NatText(n)[0] != '0'
    decreases n
  {
    var s := NatText(n);
    if n >= 10 {
      var t := NatText(n / 10);
      DigitPlaces(n / 10, |t| - 1);
      if n / 10 < 10 {
        assert t == [DigitChar(n / 10)];
      }
      if k > 0 {
        DigitPlaces(n / 10, k - 1);
        NextPlace(n, Power10(k - 1));
      }
    }
  }

  lemma NextPlace(n: nat, p: int)
    requires p >= 1
    ensures n / 10 / p == n / (10 * p)
  {
    var q, r := n / (10 * p), n % (10 * p);
    assert n == q * p * 10 + r;
    assert n / 10 == q * p + r / 10;
    assert 0 <= r / 10 < p;
    QuotientIs(n / 10, q, r / 10, p);
  }

  lemma QuotientIs(x: int, q: int, r: int, p: int)
    requires 0 <= r < p && x == q * p + r
    ensures x / p == q
  {
    var d := x / p - q;
    assert d * p + x % p == r;
    WholeTurns(d, p);
  }

  lemma WholeTurns(d: int, p: int)
    requires p >= 1
    ensures (d >= 1 ==> d * p >= p) && (d <= -1 ==> d * p <= -p)
  {
  }

  /** str(n). */
  function IntText(n: int): (s: string)
    ensures s != []
  {
    if n < 0 then "-" + NatText(-n) else NatText(n)
  }

  /** format(n, "+d"). */
  function SignedText(n: int): string {
    if n < 0 then "-" + NatText(-n) else "+" + NatText(n)
  }

  /** A minus sign for negative numbers, and a plus sign where asked for. */
  lemma SignsAre(n: int)
    requires n >= 0
    ensures IntText(n) == NatText(n) && SignedText(n) == "+" + NatText(n)
    ensures n > 0 ==> IntText(-n) == "-" + NatText(n) == SignedText(-n)
    ensures ParseInt("-" + NatText(n)) == Some(-n) && ParseInt("+" + NatText(n)) == Some(n) && ParseInt(NatText(n)) == Some(n)
  {
    var s := NatText(n);
    NatTextValue(n);
    assert ("-" + s)[1..] == s && ("+" + s)[1..] == s;
    assert IsDigit(s[0]);
  }

  /** int(s) on an optional sign followed by digits; None is the ValueError. */
  function ParseInt(s: string): Option<int> {
    if s != [] && s[0] == '-' && s[1..] != [] && AllDigits(s[1..]) then Some(-DigitsValue(s[1..]))
    else if s != [] && s[0] == '+' && s[1..] != [] && AllDigits(s[1..]) then Some(DigitsValue(s[1..]))
    else if s != [] && AllDigits(s) then Some(DigitsValue(s))
    else None
  }

  lemma ParseIntText(n: int)
    ensures ParseInt(IntText(n)) == Some(n) && ParseInt(SignedText(n)) == Some(n)
  {
    var s := NatText(if n < 0 then -n else n);
    NatTextValue(if n < 0 then -n else n);
    assert IsDigit(s[0]);
    assert ("-" + s)[1..] == s && ("+" + s)[1..] == s;
  }

  /** Every character of a printed number is a digit or its sign. */
  lemma IntTextChars(n: int)
    ensures forall i :: 0 <= i < |IntText(n)| ==> IsDigit(IntText(n)[i]) || IntText(n)[i] == '-'
  {
  }

  // ---- sep.join and str.split ----

  function Join(sep: char, parts: seq<string>): string {
    if parts == [] then ""
    else if |parts| == 1 then parts[0]
    else parts[0] + [sep] + Join(sep, parts[1..])
  }

  /** Index of the first sep, or the length. */
  function Find(s: string, sep: char): (i: nat)
    ensures i <= |s| && sep !in s[..i] && (i < |s| ==> s[i] == sep)
  {
    if s == [] || s[0] == sep then 0
    else
      var i := Find(s[1..], sep) + 1;
      assert s[..i] == [s[0]] + s[1..][..i - 1];
      i
  }

  /** s.split(sep). */
  function Split(s: string, sep: char): (parts: seq<string>)
    ensures parts != []
    decreases |s|
  {
    var i := Find(s, sep);
    if i == |s| then [s] else [s[..i]] + Split(s[i + 1..], sep)
  }

  lemma {:induction false} FindIn(a: string, sep: char, b: string)
    requires sep !in a
    ensures Find(a, sep) == |a|
    ensures Find(a + [sep] + b, sep) == |a|
  {
    if a != [] {
      FindIn(a[1..], sep, b);
      assert (a + [sep] + b)[1..] == a[1..] + [sep] + b;
    }
  }

  /** Splitting undoes joining when no part contains the separator. */
  lemma {:induction false} SplitJoin(sep: char, parts: seq<string>)
    requires parts != [] && forall i :: 0 <= i < |parts| ==> sep !in parts[i]
    ensures Split(Join(sep, parts), sep) == parts
  {
    var s := Join(sep, parts);
    if |parts| == 1 {
      FindIn(parts[0], sep, "");
    } else {
      var rest := Join(sep, parts[1..]);
      FindIn(parts[0], sep, rest);
      assert s[..|parts[0]|] == parts[0] && s[|parts[0]| + 1..] == rest;
      SplitJoin(sep, parts[1..]);
      assert parts == [parts[0]] + parts[1..];
    }
  }

  lemma {:induction false} JoinChars(sep: char, parts: seq<string>, c: char)
    requires c != sep && forall i :: 0 <= i < |parts| ==> c !in parts[i]
    ensures c !in Join(sep, parts)
  {
    if |parts| > 1 {
      JoinChars(sep, parts[1..], c);
    }
  }

  // ---- bytes ----

  type Byte = x: int | 0 <= x < 256

  function HexDigit(d: int): (c: char)
    requires 0 <= d < 16
  {
    if d < 10 then '0' + d as char else 'a' + (d - 10) as char
  }

  function HexValue(c: char): (v: Option<int>)
    ensures v.Some? ==> 0 <= v.value < 16
  {
    if '0' <= c <= '9' then Some(c as int - '0' as int)
    else if 'a' <= c <= 'f' then Some(c as int - 'a' as int + 10)
    else if 'A' <= c <= 'F' then Some(c as int - 'A' as int + 10)
    else None
  }

  /** v.hex(). */
  function Hex(v: seq<Byte>): string {
    if v == [] then "" else [HexDigit(v[0] / 16), HexDigit(v[0] % 16)] + Hex(v[1..])
  }

  /** bytes.fromhex(s) on an unspaced string; None is the ValueError. */
  function FromHex(s: string): Option<seq<Byte>> {
    if s == [] then Some([])
    else if |s| == 1 || HexValue(s[0]).None? || HexValue(s[1]).None? then None
    else
      match FromHex(s[2..])
      case None => None
      case Some(rest) => Some([HexValue(s[0]).value * 16 + HexValue(s[1]).value] + rest)
  }

  /** Two digits a byte, the high one first. */
  lemma {:induction false} HexDigits(v: seq<Byte>, i: nat)
    requires i < |v|
    ensures |Hex(v)| == 2 * |v|
    ensures Hex(v)[2 * i] == "0123456789abcdef"[v[i] / 16] && Hex(v)[2 * i + 1] == "0123456789abcdef"[v[i] % 16]
    decreases |v|
  {
    HexDigitIs(v[i] / 16);
    HexDigitIs(v[i] % 16);
    if |v| == 1 {
      assert Hex(v[1..]) == "";
    } else {
      HexDigits(v[1..], if i > 0 then i - 1 else 0);
    }
  }

  lemma HexDigitIs(d: int)
    requires 0 <= d < 16
    ensures HexDigit(d) == "0123456789abcdef"[d]
  {
  }

  lemma HexDigitValue(d: int)
    requires 0 <= d < 16
    ensures HexValue(HexDigit(d)) == Some(d)
  {
  }

  lemma {:induction false} FromHexOfHex(v: seq<Byte>)
    ensures FromHex(Hex(v)) == Some(v)
  {
    if v != [] {
      FromHexOfHex(v[1..]);
      HexDigitValue(v[0] / 16);
      HexDigitValue(v[0] % 16);
      assert Hex(v)[2..] == Hex(v[1..]);
      assert v == [v[0]] + v[1..];
    }
  }

  lemma {:induction false} HexChars(v: seq<Byte>)
    ensures forall i :: 0 <= i < |Hex(v)| ==> HexValue(Hex(v)[i]).Some?
  {
    if v != [] {
      HexChars(v[1..]);
      HexDigitValue(v[0] / 16);
      HexDigitValue(v[0] % 16);
    }
  }
}
