/** The constructs of a query, said of its characters: where literals, identifiers, comments, dollar quotes, names and
    dollar numbers begin and end. */
module QueryGrammar {
  import opened Sequences
  import opened Statements

  // ---- The constructs ----

  predicate Follows(q: string, a: nat, c: char)
    requires a <= |q|
  {
    a > 0 && q[a - 1] == c
  }

  /** t with every quote doubled. */
  function Doubled(t: string): string {
    if t == "" then "" else (if t[0] == '\'' then "''" else [t[0]]) + Doubled(t[1..])
  }

  /** From i to b: a text with its quotes doubled and a quote that is not, or such a text to the end of the query. */
  ghost predicate IsDoubledText(q: string, i: nat, b: nat, t: string)
    requires i <= b <= |q|
  {
    || (q[i..b] == Doubled(t) + "'" && (b == |q| || q[b] != '\''))
    || (b == |q| && q[i..b] == Doubled(t))
  }

  ghost predicate EndsDoubled(q: string, i: nat, b: nat)
    requires i <= b <= |q|
  {
    exists t :: IsDoubledText(q, i, b, t)
  }

  datatype Quote = Identifier | Comment | Escaped | Dollars

  /** The character at k closes such a text. */
  predicate Closes(kind: Quote, q: string, k: nat)
    requires 0 < k < |q|
  {
    match kind
    case Identifier => q[k] == '"'
    case Comment => q[k] == '\n'
    case Escaped => q[k] == '\'' && q[k - 1] != '\\'
    case Dollars => q[k] == '$' && q[k - 1] == '$'
  }

  /** The text that opens at a ends with the first character that closes it, or with the query. */
  predicate ClosesFirst(kind: Quote, q: string, a: nat, b: nat)
    requires a < b <= |q|
  {
    (forall k :: a < k < b - 1 ==> !Closes(kind, q, k)) && (b == |q| || (a < b - 1 && Closes(kind, q, b - 1)))
  }

  /** The text that opens at a, outside all others, if one does. */
  predicate Opens(kind: Quote, q: string, a: nat)
    requires a < |q|
  {
    match kind
    case Identifier => q[a] == '"'
    case Comment => q[a] == '-' && Follows(q, a, '-')
    case Escaped => q[a] == '\'' && Follows(q, a, 'E')
    case Dollars => q[a] == '$' && Follows(q, a, '$')
  }

  predicate IsLiteralAt(q: string, a: nat)
    requires a < |q|
  {
    q[a] == '\'' && !Follows(q, a, 'E')
  }

  /** A colon before a character that is neither a colon nor an equals sign, and not after a colon. */
  predicate IsNameAt(q: string, a: nat)
    requires a < |q|
  {
    q[a] == ':' && a + 1 < |q| && q[a + 1] != ':' && q[a + 1] != '=' && !Follows(q, a, ':')
  }

  /** A dollar before a digit, and not after a dollar. */
  predicate IsNumberAt(q: string, a: nat, cs: Chars)
    requires a < |q|
  {
    q[a] == '$' && a + 1 < |q| && cs.isDigit(q[a + 1]) && !Follows(q, a, '$')
  }

  /** After its first character a name goes on through letters, digits and underscores, and no further. */
  predicate IsName(q: string, a: nat, b: nat, cs: Chars)
    requires a < b <= |q|
  {
    && IsNameAt(q, a) && a + 2 <= b
    && (forall k :: a + 2 <= k < b ==> cs.isAlnum(q[k]) || q[k] == '_')
    && (b == |q| || !(cs.isAlnum(q[b]) || q[b] == '_'))
  }

  predicate IsNumber(q: string, a: nat, b: nat, cs: Chars)
    requires a < b <= |q|
  {
    && IsNumberAt(q, a, cs) && a + 2 <= b
    && (forall k :: a + 1 <= k < b ==> cs.isDigit(q[k]))
    && (b == |q| || !cs.isDigit(q[b]))
  }

  /** A character that starts nothing. A colon or a lone dollar must not end the query. */
  predicate IsOther(q: string, a: nat, cs: Chars)
    requires a < |q|
  {
    && !IsLiteralAt(q, a) && !IsNameAt(q, a) && !IsNumberAt(q, a, cs) && (forall kind :: !Opens(kind, q, a))
    && (q[a] == ':' || q[a] == '$' ==> a + 1 < |q|)
  }

  /** q[a..b] is one construct, which reads as the tokens ts. */
  ghost predicate IsConstruct(q: string, a: nat, b: nat, ts: seq<Token>, cs: Chars) {
    && a < b <= |q|
    && (|| (IsLiteralAt(q, a) && EndsDoubled(q, a + 1, b) && ts == [Raw(q[a..b])])
        || ((exists kind :: Opens(kind, q, a) && ClosesFirst(kind, q, a, b)) && ts == [Raw(q[a..b])])
        || (IsName(q, a, b, cs) && ts == [Name(q[a + 1..b])])
        || (IsNumber(q, a, b, cs) && ts == [Raw("$"), Index(q[a + 1..b])])
        || (IsOther(q, a, cs) && b == a + 1 && ts == [Raw(q[a..b])]))
  }

  // ---- The reading by ends agrees ----

  lemma DoubledCons(c: char, t: string)
    ensures Doubled([c] + t) == (if c == '\'' then "''" else [c]) + Doubled(t)
  {
    assert ([c] + t)[1..] == t;
  }

  /** What the search for the end passes over is such a text. */
  lemma {:induction false} QuotedText(q: string, i: nat) returns (t: string)
    requires i <= |q|
    ensures IsDoubledText(q, i, EndQuoted(q, i), t)
    decreases |q| - i
  {
    var b := EndQuoted(q, i);
    if i == |q| {
      t := "";
    } else if q[i] != '\'' {
      var rest := QuotedText(q, i + 1);
      t := [q[i]] + rest;
      DoubledCons(q[i], rest);
      assert q[i..b] == [q[i]] + q[i + 1..b];
    } else if i + 1 < |q| && q[i + 1] == '\'' {
      var rest := QuotedText(q, i + 2);
      t := "'" + rest;
      DoubledCons('\'', rest);
      assert q[i..b] == "''" + q[i + 2..b];
    } else {
      t := "";
      assert q[i..b] == "'";
    }
  }

  /** And no other end will do. */
  lemma {:induction false} QuotedOnce(q: string, i: nat, b: nat, t: string)
    requires i <= b <= |q| && IsDoubledText(q, i, b, t)
    ensures b == EndQuoted(q, i)
    decreases |t|
  {
    if t == "" {
      assert q[i..b] == "'" || q[i..b] == "";
      if q[i..b] == "'" {
        assert q[i] == q[i..b][0];
      }
    } else {
      var first := if t[0] == '\'' then "''" else [t[0]];
      var j := i + |first|;
      TakeFirst(q, i, b, first, Doubled(t[1..]));
      QuotedOnce(q, j, b, t[1..]);
    }
  }

  /** The doubled text after its first character. */
  lemma TakeFirst(q: string, i: nat, b: nat, first: string, rest: string)
    requires i <= b <= |q| && (q[i..b] == first + rest + "'" || q[i..b] == first + rest)
    ensures i + |first| <= b && q[i..i + |first|] == first
    ensures q[i..b] == first + rest + "'" ==> q[i + |first|..b] == rest + "'"
    ensures q[i..b] == first + rest ==> q[i + |first|..b] == rest
    ensures forall k :: 0 <= k < |first| ==> q[i + k] == first[k]
  {
    var j := i + |first|;
    assert q[i..j] == q[i..b][..|first|] && q[j..b] == q[i..b][|first|..];
    forall k | 0 <= k < |first|
      ensures q[i + k] == first[k]
    {
      assert q[i..j][k] == q[i + k];
    }
  }

  lemma QuotedIff(q: string, i: nat, b: nat)
    requires i <= b <= |q|
    ensures EndsDoubled(q, i, b) <==> b == EndQuoted(q, i)
  {
    var t := QuotedText(q, i);
    if u :| IsDoubledText(q, i, b, u) {
      QuotedOnce(q, i, b, u);
    }
  }

  /** Where the search for the closing character ends. */
  function QuoteEnd(kind: Quote, q: string, i: nat): (j: nat)
    requires 1 <= i <= |q|
    ensures i <= j <= |q|
  {
    match kind
    case Identifier => EndAt(q, i, '"')
    case Comment => EndAt(q, i, '\n')
    case Escaped => EndEscaped(q, i)
    case Dollars => EndDollar(q, i)
  }

  lemma {:induction false} EndIsFirst(kind: Quote, q: string, i: nat)
    requires 1 <= i <= |q|
    ensures var j := QuoteEnd(kind, q, i);
            (forall k :: i <= k < j - 1 ==> !Closes(kind, q, k)) && (j == |q| || (i < j && Closes(kind, q, j - 1)))
            && (j == |q| || i < j)
    decreases |q| - i
  {
    if i < |q| && !Closes(kind, q, i) {
      EndIsFirst(kind, q, i + 1);
    }
  }

  lemma ClosesIff(kind: Quote, q: string, a: nat, b: nat)
    requires a < b <= |q|
    ensures ClosesFirst(kind, q, a, b) <==> b == QuoteEnd(kind, q, a + 1)
  {
    var j := QuoteEnd(kind, q, a + 1);
    EndIsFirst(kind, q, a + 1);
    var atB := if a + 1 < b then Closes(kind, q, b - 1) else false;
    var atJ := if a + 1 < j then Closes(kind, q, j - 1) else false;
  }

  lemma {:induction false} EndRunIs(q: string, i: nat, p: char -> bool)
    requires i <= |q|
    ensures var j := EndRun(q, i, p); (forall k :: i <= k < j ==> p(q[k])) && (j == |q| || !p(q[j]))
    decreases |q| - i
  {
    if i < |q| && p(q[i]) {
      EndRunIs(q, i + 1, p);
    }
  }

  lemma RunIff(q: string, i: nat, b: nat, p: char -> bool)
    requires i <= b <= |q|
    ensures (forall k :: i <= k < b ==> p(q[k])) && (b == |q| || !p(q[b])) <==> b == EndRun(q, i, p)
  {
    EndRunIs(q, i, p);
  }

  lemma QuoteIff(kind: Quote, q: string, a: nat, b: nat, ts: seq<Token>, cs: Chars)
    requires a < b <= |q| && Opens(kind, q, a)
    ensures LexOne(q, a, cs) == Some(Construct(ts, b)) <==> ClosesFirst(kind, q, a, b) && ts == [Raw(q[a..b])]
  {
    ClosesIff(kind, q, a, b);
  }

  lemma LiteralIff(q: string, a: nat, b: nat, ts: seq<Token>, cs: Chars)
    requires a < b <= |q| && IsLiteralAt(q, a)
    ensures LexOne(q, a, cs) == Some(Construct(ts, b)) <==> EndsDoubled(q, a + 1, b) && ts == [Raw(q[a..b])]
  {
    QuotedIff(q, a + 1, b);
  }

  lemma NameIff(q: string, a: nat, b: nat, ts: seq<Token>, cs: Chars)
    requires a < b <= |q| && IsNameAt(q, a)
    ensures LexOne(q, a, cs) == Some(Construct(ts, b)) <==> IsName(q, a, b, cs) && ts == [Name(q[a + 1..b])]
  {
    if a + 2 <= b {
      RunIff(q, a + 2, b, (x: char) => NameChar(cs, x));
    }
  }

  lemma NumberIff(q: string, a: nat, b: nat, ts: seq<Token>, cs: Chars)
    requires a < b <= |q| && IsNumberAt(q, a, cs)
    ensures LexOne(q, a, cs) == Some(Construct(ts, b)) <==> IsNumber(q, a, b, cs) && ts == [Raw("$"), Index(q[a + 1..b])]
  {
    if a + 2 <= b {
      RunIff(q, a + 2, b, cs.isDigit);
    }
  }

  lemma OtherIff(q: string, a: nat, b: nat, ts: seq<Token>, cs: Chars)
    requires a < b <= |q| && !IsLiteralAt(q, a) && !IsNameAt(q, a) && !IsNumberAt(q, a, cs) && forall kind :: !Opens(kind, q, a)
    ensures LexOne(q, a, cs) == Some(Construct(ts, b)) <==> IsOther(q, a, cs) && b == a + 1 && ts == [Raw(q[a..b])]
  {
    assert !Opens(Identifier, q, a) && !Opens(Comment, q, a) && !Opens(Escaped, q, a) && !Opens(Dollars, q, a);
    if b == a + 1 {
      assert q[a..b] == [q[a]];
    }
  }

  /** The construct that is read at a is the one that the characters make. */
  lemma ConstructIff(q: string, a: nat, b: nat, ts: seq<Token>, cs: Chars)
    requires a < |q|
    ensures LexOne(q, a, cs) == Some(Construct(ts, b)) <==> IsConstruct(q, a, b, ts, cs)
  {
    if a < b <= |q| {
      if IsLiteralAt(q, a) {
        LiteralIff(q, a, b, ts, cs);
      } else if IsNameAt(q, a) {
        NameIff(q, a, b, ts, cs);
      } else if IsNumberAt(q, a, cs) {
        NumberIff(q, a, b, ts, cs);
      } else if kind :| Opens(kind, q, a) {
        QuoteIff(kind, q, a, b, ts, cs);
      } else {
        OtherIff(q, a, b, ts, cs);
      }
    }
  }

  // ---- The whole query ----

  /** From a on the query is a sequence of constructs that read as ts. */
  ghost predicate Reading(q: string, a: nat, ts: seq<Token>, cs: Chars)
    requires a <= |q|
    decreases |q| - a
  {
    if a == |q| then ts == []
    else exists b: nat, n: nat :: a < b <= |q| && n <= |ts| && IsConstruct(q, a, b, ts[..n], cs) && Reading(q, b, ts[n..], cs)
  }

  /** A query is taken apart into ts exactly when its characters make these constructs; nothing else can be read. */
  lemma {:induction false} ReadingIff(q: string, a: nat, ts: seq<Token>, cs: Chars)
    requires a <= |q|
    ensures Lex(q, a, cs) == Some(ts) <==> Reading(q, a, ts, cs)
    decreases |q| - a
  {
    if a < |q| {
      if Lex(q, a, cs) == Some(ts) {
        var us, b, rest := FirstConstruct(q, a, ts, cs);
        ConstructIff(q, a, b, us, cs);
        ReadingIff(q, b, rest, cs);
        ReadsOn(q, a, b, us, rest, ts, cs);
      } else if Reading(q, a, ts, cs) {
        var b: nat, n: nat :| a < b <= |q| && n <= |ts| && IsConstruct(q, a, b, ts[..n], cs) && Reading(q, b, ts[n..], cs);
        ReadingIff(q, b, ts[n..], cs);
        LexesOn(q, a, b, n, ts, cs);
      }
    }
  }

  /** The first construct of a query that can be taken apart, and the rest. */
  lemma FirstConstruct(q: string, a: nat, ts: seq<Token>, cs: Chars) returns (us: seq<Token>, b: nat, rest: seq<Token>)
    requires a < |q| && Lex(q, a, cs) == Some(ts)
    ensures LexOne(q, a, cs) == Some(Construct(us, b)) && a < b <= |q| && Lex(q, b, cs) == Some(rest) && ts == us + rest
    ensures forall k :: Starts(q, b, k, cs) ==> Starts(q, a, k, cs)
  {
    us, b := LexOne(q, a, cs).value.tokens, LexOne(q, a, cs).value.end;
    rest := Lex(q, b, cs).value;
  }

  lemma ReadsOn(q: string, a: nat, b: nat, us: seq<Token>, rest: seq<Token>, ts: seq<Token>, cs: Chars)
    requires a < b <= |q| && ts == us + rest && IsConstruct(q, a, b, us, cs) && Reading(q, b, rest, cs)
    ensures Reading(q, a, ts, cs)
  {
    var n := |us|;
    assert ts[..n] == us && ts[n..] == rest;
    assert IsConstruct(q, a, b, ts[..n], cs) && Reading(q, b, ts[n..], cs);
  }

  lemma LexesOn(q: string, a: nat, b: nat, n: nat, ts: seq<Token>, cs: Chars)
    requires a < b <= |q| && n <= |ts| && IsConstruct(q, a, b, ts[..n], cs) && Lex(q, b, cs) == Some(ts[n..])
    ensures Lex(q, a, cs) == Some(ts)
  {
    ConstructIff(q, a, b, ts[..n], cs);
    assert ts == ts[..n] + ts[n..];
  }

  /** Position k lies between constructs, so outside of all quotes and comments. */
  ghost predicate Outside(q: string, k: nat, cs: Chars)
    decreases k
  {
    k == 0 || exists b: nat, ts :: b < k && IsConstruct(q, b, k, ts, cs) && Outside(q, b, cs)
  }

  lemma {:induction false} StartsOutside(q: string, i: nat, k: nat, cs: Chars)
    requires i <= |q| && Starts(q, i, k, cs) && Outside(q, i, cs)
    ensures Outside(q, k, cs)
    decreases |q| - i
  {
    if i != k {
      var Construct(ts, j) := LexOne(q, i, cs).value;
      ConstructIff(q, i, j, ts, cs);
      StartsOutside(q, j, k, cs);
    }
  }

  lemma {:induction false} StartsThen(q: string, i: nat, b: nat, k: nat, cs: Chars)
    requires i <= |q| && Starts(q, i, b, cs) && b < k < |q| && LexOne(q, b, cs).Some? && LexOne(q, b, cs).value.end == k
    ensures Starts(q, i, k, cs)
    decreases |q| - i
  {
    if i != b {
      StartsThen(q, LexOne(q, i, cs).value.end, b, k, cs);
    }
  }

  lemma {:induction false} OutsideStarts(q: string, k: nat, cs: Chars)
    requires k < |q| && Outside(q, k, cs)
    ensures Starts(q, 0, k, cs)
    decreases k
  {
    if k > 0 {
      var b: nat, ts :| b < k && IsConstruct(q, b, k, ts, cs) && Outside(q, b, cs);
      ConstructIff(q, b, k, ts, cs);
      OutsideStarts(q, b, cs);
      StartsThen(q, 0, b, k, cs);
    }
  }

  /** The positions where the reading starts constructs are those between constructs. */
  lemma StartsIff(q: string, k: nat, cs: Chars)
    ensures Starts(q, 0, k, cs) <==> k < |q| && Outside(q, k, cs)
  {
    if Starts(q, 0, k, cs) {
      StartsOutside(q, 0, k, cs);
      StartsBefore(q, 0, k, cs);
    } else if k < |q| && Outside(q, k, cs) {
      OutsideStarts(q, k, cs);
    }
  }

  lemma {:induction false} StartsBefore(q: string, i: nat, k: nat, cs: Chars)
    requires i <= |q| && Starts(q, i, k, cs)
    ensures k < |q|
    decreases |q| - i
  {
    if i != k {
      StartsBefore(q, LexOne(q, i, cs).value.end, k, cs);
    }
  }

  /** Where the i-th token begins. */
  function PlaceOf(ts: seq<Token>, i: nat): nat
    requires i <= |ts|
  {
    |Source(ts[..i])|
  }

  /** The name n stands at a: behind its colon, and as long as can be. */
  predicate NameStandsAt(q: string, a: nat, n: string, cs: Chars) {
    a + 1 + |n| <= |q| && IsName(q, a, a + 1 + |n|, cs) && n == q[a + 1..a + 1 + |n|]
  }

  /** Every name stands at its place, outside all quotes and comments. */
  lemma NamesStand(q: string, ts: seq<Token>, i: nat, cs: Chars)
    requires Lex(q, 0, cs) == Some(ts) && i < |ts| && ts[i].Name?
    ensures Outside(q, PlaceOf(ts, i), cs) && NameStandsAt(q, PlaceOf(ts, i), ts[i].name, cs)
  {
    var a := NameAt(q, 0, ts, i, cs);
    StartsIff(q, a, cs);
  }

  lemma {:induction false} NameAt(q: string, from: nat, ts: seq<Token>, i: nat, cs: Chars) returns (a: nat)
    requires from <= |q| && Lex(q, from, cs) == Some(ts) && i < |ts| && ts[i].Name?
    ensures a == from + PlaceOf(ts, i) && Starts(q, from, a, cs) && NameStandsAt(q, a, ts[i].name, cs)
    decreases |q| - from
  {
    var us, j, rest := FirstConstruct(q, from, ts, cs);
    if i < |us| {
      FirstName(q, from, j, us, i, cs);
      assert ts[..i] == [];
      a := from;
    } else {
      a := NameAt(q, j, rest, i - |us|, cs);
      PlaceAfter(q, from, j, us, rest, i, cs);
    }
  }

  lemma FirstName(q: string, a: nat, j: nat, us: seq<Token>, i: nat, cs: Chars)
    requires a < |q| && LexOne(q, a, cs) == Some(Construct(us, j)) && i < |us| && us[i].Name?
    ensures i == 0 && NameStandsAt(q, a, us[i].name, cs)
  {
    ConstructIff(q, a, j, us, cs);
    assert us == [Name(q[a + 1..j])];
  }

  lemma PlaceAfter(q: string, a: nat, j: nat, us: seq<Token>, rest: seq<Token>, i: nat, cs: Chars)
    requires a < |q| && LexOne(q, a, cs) == Some(Construct(us, j)) && |us| <= i <= |us + rest|
    ensures a + PlaceOf(us + rest, i) == j + PlaceOf(rest, i - |us|)
  {
    LexOneSource(q, a, cs);
    assert (us + rest)[..i] == us + rest[..i - |us|];
    SourceAppend(us, rest[..i - |us|]);
  }

  // ---- A query in full ----

  lemma LexName(q: string, a: nat, n: string, cs: Chars)
    requires NameStandsAt(q, a, n, cs)
    ensures LexOne(q, a, cs) == Some(Construct([Name(n)], a + 1 + |n|))
  {
    ConstructIff(q, a, a + 1 + |n|, [Name(n)], cs);
  }

  lemma SharedPlaces(q: string, cs: Chars)
    requires q == ":a_b,:c,:a_b" && cs.isAlnum('b') && !cs.isAlnum(',')
    ensures NameStandsAt(q, 0, "a_b", cs) && NameStandsAt(q, 5, "c", cs) && NameStandsAt(q, 8, "a_b", cs)
    ensures |q| == 12 && q[4] == ',' && q[7] == ','
  {
    assert q[1..4] == "a_b" && q[6..7] == "c" && q[9..12] == "a_b";
  }

  lemma SharedTokens(q: string, cs: Chars, n: string, m: string, sep: string)
    requires q == ":a_b,:c,:a_b" && cs.isAlnum('b') && !cs.isAlnum(',') && n == "a_b" && m == "c" && sep == ","
    ensures Lex(q, 0, cs) == Some([Name(n), Raw(sep), Name(m), Raw(sep), Name(n)])
  {
    SharedPlaces(q, cs);
    FiveConstructs(q, cs, n, m, sep);
  }

  lemma FiveConstructs(q: string, cs: Chars, n: string, m: string, sep: string)
    requires |q| == 12 && |n| == 3 && |m| == 1 && sep == [','] && q[4] == ',' && q[7] == ','
    requires NameStandsAt(q, 0, n, cs) && NameStandsAt(q, 5, m, cs) && NameStandsAt(q, 8, n, cs)
    ensures Lex(q, 0, cs) == Some([Name(n), Raw(sep), Name(m), Raw(sep), Name(n)])
  {
    LexName(q, 0, n, cs);
    LexPlain(q, 4, cs, sep);
    LexName(q, 5, m, cs);
    LexPlain(q, 7, cs, sep);
    LexName(q, 8, n, cs);
    assert Lex(q, 12, cs) == Some([]);
    LexOn(q, 8, cs, [Name(n)], 12, [], [Name(n)]);
    LexOn(q, 7, cs, [Raw(sep)], 8, [Name(n)], [Raw(sep), Name(n)]);
    LexOn(q, 5, cs, [Name(m)], 7, [Raw(sep), Name(n)], [Name(m), Raw(sep), Name(n)]);
    LexOn(q, 4, cs, [Raw(sep)], 5, [Name(m), Raw(sep), Name(n)], [Raw(sep), Name(m), Raw(sep), Name(n)]);
    LexOn(q, 0, cs, [Name(n)], 4, [Raw(sep), Name(m), Raw(sep), Name(n)], [Name(n), Raw(sep), Name(m), Raw(sep), Name(n)]);
  }

  /** A name in front of tokens that are already rendered. */
  lemma NameFirst(n: string, ts: seq<Token>, all: seq<Token>, ps: seq<Placeholder>, cs: Chars, text: string, final: seq<Placeholder>)
    requires all == [Name(n)] + ts && Render(ts, WithName(ps, n), cs) == Stmt(text, final)
    ensures Render(all, ps, cs) == Stmt(Dollar(Position(ps, Named(n))) + text, final)
  {
    assert all[1..] == ts;
  }

  lemma RawFirst(s: string, ts: seq<Token>, all: seq<Token>, ps: seq<Placeholder>, cs: Chars, text: string, final: seq<Placeholder>)
    requires all == [Raw(s)] + ts && Render(ts, ps, cs) == Stmt(text, final)
    ensures Render(all, ps, cs) == Stmt(s + text, final)
  {
    assert all[1..] == ts;
  }

  lemma SharedStatement(cs: Chars, n: string, m: string, sep: string)
    requires n != m
    ensures Render([Name(n), Raw(sep), Name(m), Raw(sep), Name(n)], [], cs)
            == Stmt("$1" + (sep + ("$2" + (sep + ("$1" + "")))), [Named(n), Named(m)])
  {
    var one, two := [Named(n)], [Named(n), Named(m)];
    TwoDollars();
    TwoNames(n, m);
    NameFirst(n, [], [Name(n)], two, cs, "", two);
    RawFirst(sep, [Name(n)], [Raw(sep), Name(n)], two, cs, "$1" + "", two);
    NameFirst(m, [Raw(sep), Name(n)], [Name(m), Raw(sep), Name(n)], one, cs, sep + ("$1" + ""), two);
    RawFirst(sep, [Name(m), Raw(sep), Name(n)], [Raw(sep), Name(m), Raw(sep), Name(n)], one, cs, "$2" + (sep + ("$1" + "")), two);
    NameFirst(n, [Raw(sep), Name(m), Raw(sep), Name(n)], [Name(n), Raw(sep), Name(m), Raw(sep), Name(n)], [], cs,
              sep + ("$2" + (sep + ("$1" + ""))), two);
  }

  lemma TwoNames(n: string, m: string)
    requires n != m
    ensures WithName([], n) == [Named(n)] && Position([], Named(n)) == 0
    ensures WithName([Named(n)], m) == [Named(n), Named(m)] && Position([Named(n)], Named(m)) == 1
    ensures WithName([Named(n), Named(m)], n) == [Named(n), Named(m)] && Position([Named(n), Named(m)], Named(n)) == 0
  {
  }

  lemma TwoDollars()
    ensures Dollar(0) == "$1" && Dollar(1) == "$2"
  {
  }

  /** Running to_statement and make_vals on ":a_b,:c,:a_b": equal names share a number and each gets its argument. */
  method SharedNames<V>(cs: Chars, q: string, a: V, c: V) returns (st: Statement, vals: Option<seq<V>>)
    requires q == ":a_b,:c,:a_b" && cs.isAlnum('b') && !cs.isAlnum(',')
    ensures st == Stmt("$1,$2,$1", [Named("a_b"), Named("c")])
    ensures vals == Some([a, c])
  {
    SharedTokens(q, cs, "a_b", "c", ",");
    SharedStatement(cs, "a_b", "c", ",");
    assert "a_b"[0] != "c"[0];
    st := ToStatement(q, cs);
    var args := [("c", c), ("a_b", a)];
    vals := MakeVals(st.placeholders, args);
    SharedValues(a, c, args);
    if vals.Some? {
      assert vals.value == [vals.value[0], vals.value[1]];
    }
  }

  lemma SharedValues<V>(a: V, c: V, args: seq<(string, V)>)
    requires args == [("c", c), ("a_b", a)]
    ensures ValueOf(args, Named("a_b")) == Some(a) && ValueOf(args, Named("c")) == Some(c)
  {
    assert "a_b"[0] != "c"[0];
    var rest := [("a_b", a)];
    assert args[1..] == rest;
    assert Lookup(rest, "a_b") == Some(a);
  }
}
