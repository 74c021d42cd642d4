/** to_statement of pg8000/native.py: `:name` parameters become `$k`. */
module Statements {
  import opened Sequences
  import opened Text

  /** Python's str.isalnum, str.isdigit and int, of which nothing is assumed. */
  datatype Chars = Chars(isAlnum: char -> bool, isDigit: char -> bool, toInt: string -> Option<int>)

  // ---- What a query consists of ----

  /** Raw text is kept; Name is a `:name` parameter without its colon; Index holds the digits of a `$n`. */
  datatype Token = Raw(text: string) | Name(name: string) | Index(digits: string)

  /** The text a token stands for in the query. */
  function SourceOf(t: Token): string {
    match t case Raw(s) => s case Name(n) => ":" + n case Index(d) => d
  }

  function Source(ts: seq<Token>): string {
    if ts == [] then "" else SourceOf(ts[0]) + Source(ts[1..])
  }

  /** End of a '...' literal whose text starts at i: past the first quote that is not doubled. */
  function EndQuoted(q: string, i: nat): (j: nat)
    requires i <= |q|
    ensures i <= j <= |q|
    decreases |q| - i
  {
    if i == |q| then i
    else if q[i] != '\'' then EndQuoted(q, i + 1)
    else if i + 1 < |q| && q[i + 1] == '\'' then EndQuoted(q, i + 2)
    else i + 1
  }

  /** End of a "..." identifier or of a comment: past the first c. */
  function EndAt(q: string, i: nat, c: char): (j: nat)
    requires i <= |q|
    ensures i <= j <= |q|
    decreases |q| - i
  {
    if i == |q| then i else if q[i] == c then i + 1 else EndAt(q, i + 1, c)
  }

  /** End of an E'...' literal: past the first quote that does not follow a backslash. */
  function EndEscaped(q: string, i: nat): (j: nat)
    requires 1 <= i <= |q|
    ensures i <= j <= |q|
    decreases |q| - i
  {
    if i == |q| then i else if q[i] == '\'' && q[i - 1] != '\\' then i + 1 else EndEscaped(q, i + 1)
  }

  /** End of a $$...$$ literal: past the first dollar that follows a dollar. */
  function EndDollar(q: string, i: nat): (j: nat)
    requires 1 <= i <= |q|
    ensures i <= j <= |q|
    decreases |q| - i
  {
    if i == |q| then i else if q[i] == '$' && q[i - 1] == '$' then i + 1 else EndDollar(q, i + 1)
  }

  /** End of a run of characters. */
  function EndRun(q: string, i: nat, p: char -> bool): (j: nat)
    requires i <= |q|
    ensures i <= j <= |q|
    decreases |q| - i
  {
    if i == |q| || !p(q[i]) then i else EndRun(q, i + 1, p)
  }

  predicate NameChar(cs: Chars, c: char) {
    cs.isAlnum(c) || c == '_'
  }

  function Prev(q: string, i: nat): Option<char>
    requires i <= |q|
  {
    if i == 0 then None else Some(q[i - 1])
  }

  /** The tokens of one construct, and where it ends. */
  datatype Construct = Construct(tokens: seq<Token>, end: nat)

  /** The construct that starts at i, outside all quotes, and where it ends. None stands for the errors on a
      colon or a dollar that ends the query. */
  function LexOne(q: string, i: nat, cs: Chars): (r: Option<Construct>)
    requires i < |q|
    ensures r.Some? ==> i < r.value.end <= |q|
  {
    var c, prev := q[i], Prev(q, i);
    if c == '\'' then
      var j := if prev == Some('E') then EndEscaped(q, i + 1) else EndQuoted(q, i + 1);
      Some(Construct([Raw(q[i..j])], j))
    else if c == '"' then
      var j := EndAt(q, i + 1, '"');
      Some(Construct([Raw(q[i..j])], j))
    else if c == '-' && prev == Some('-') then
      var j := EndAt(q, i + 1, '\n');
      Some(Construct([Raw(q[i..j])], j))
    else if c == '$' && prev == Some('$') then
      var j := EndDollar(q, i + 1);
      Some(Construct([Raw(q[i..j])], j))
    else if c == '$' then
      if i + 1 == |q| then None
      else if cs.isDigit(q[i + 1]) then
        var j := EndRun(q, i + 2, cs.isDigit);
        Some(Construct([Raw("$"), Index(q[i + 1..j])], j))
      else Some(Construct([Raw("$")], i + 1))
    else if c == ':' then
      if i + 1 == |q| then None
      else if q[i + 1] != ':' && q[i + 1] != '=' && prev != Some(':') then
        var j := EndRun(q, i + 2, (x: char) => NameChar(cs, x));
        Some(Construct([Name(q[i + 1..j])], j))
      else Some(Construct([Raw(":")], i + 1))
    else Some(Construct([Raw([c])], i + 1))
  }

  function Lex(q: string, i: nat, cs: Chars): Option<seq<Token>>
    requires i <= |q|
    decreases |q| - i
  {
    if i == |q| then Some([])
    else
      match LexOne(q, i, cs)
      case None => None
      case Some(Construct(ts, j)) =>
        match Lex(q, j, cs)
        case None => None
        case Some(rest) => Some(ts + rest)
  }

  /** Taking a query apart loses and changes nothing. */
  lemma {:induction false} LexIsLossless(q: string, i: nat, cs: Chars)
    requires i <= |q| && Lex(q, i, cs).Some?
    ensures Source(Lex(q, i, cs).value) == q[i..]
    decreases |q| - i
  {
    if i < |q| {
      var Construct(ts, j) := LexOne(q, i, cs).value;
      LexOneSource(q, i, cs);
      LexIsLossless(q, j, cs);
      SourceAppend(ts, Lex(q, j, cs).value);
      SlicesJoin(q, i, j);
    } else {
      assert q[i..] == "";
    }
  }

  lemma SlicesJoin(q: string, i: nat, j: nat)
    requires i <= j <= |q|
    ensures q[i..j] + q[j..] == q[i..]
  {
  }

  lemma SourceSingle(t: Token)
    ensures Source([t]) == SourceOf(t)
  {
    assert [t][1..] == [];
  }

  lemma LexOneSource(q: string, i: nat, cs: Chars)
    requires i < |q| && LexOne(q, i, cs).Some?
    ensures Source(LexOne(q, i, cs).value.tokens) == q[i..LexOne(q, i, cs).value.end]
  {
    var Construct(ts, j) := LexOne(q, i, cs).value;
    assert q[i..j] == [q[i]] + q[i + 1..j];
    if |ts| == 2 {
      assert ts == [Raw("$"), Index(q[i + 1..j])];
      SourceOfTwo(ts);
    } else {
      assert ts == [ts[0]];
      SourceSingle(ts[0]);
    }
  }

  lemma SourceOfTwo(ts: seq<Token>)
    requires |ts| == 2
    ensures Source(ts) == SourceOf(ts[0]) + SourceOf(ts[1])
  {
    assert ts[1..] == [ts[1]];
    SourceSingle(ts[1]);
  }

  lemma {:induction false} SourceAppend(a: seq<Token>, b: seq<Token>)
    ensures Source(a + b) == Source(a) + Source(b)
    decreases |a|
  {
    if a == [] {
      assert a + b == b;
    } else {
      assert (a + b)[1..] == a[1..] + b;
      SourceAppend(a[1..], b);
    }
  }

  // ---- What a query becomes ----

  /** A placeholder: a name, or the argument number of a `$n`. */
  datatype Placeholder = Named(name: string) | Numbered(index: int)

  datatype Statement = Fail | Stmt(text: string, placeholders: seq<Placeholder>)

  /** placeholders.index(p); the length when p is missing. */
  function Position(ps: seq<Placeholder>, p: Placeholder): (k: nat)
    ensures k <= |ps| && (k < |ps| ==> ps[k] == p) && (forall i :: 0 <= i < k ==> ps[i] != p)
    ensures k == |ps| <==> p !in ps
  {
    if ps == [] then 0 else if ps[0] == p then 0 else
      assert ps == [ps[0]] + ps[1..];
      Position(ps[1..], p) + 1
  }

  /** Adds a name unless it is there. */
  function WithName(ps: seq<Placeholder>, n: string): seq<Placeholder> {
    if Named(n) in ps then ps else ps + [Named(n)]
  }

  function Dollar(k: nat): string {
    "$" + IntText(k + 1)
  }

  /** The statement for the rest of a query when `ps` were met before it. */
  function Render(ts: seq<Token>, ps: seq<Placeholder>, cs: Chars): Statement
    decreases |ts|
  {
    if ts == [] then Stmt("", ps)
    else
      match ts[0]
      case Raw(s) => Prepend(s, Render(ts[1..], ps, cs))
      case Name(n) => Prepend(Dollar(Position(ps, Named(n))), Render(ts[1..], WithName(ps, n), cs))
      case Index(d) =>
        if cs.toInt(d).None? then Fail
        else Prepend(d, Render(ts[1..], ps + [Numbered(cs.toInt(d).value - 1)], cs))
  }

  function Prepend(s: string, st: Statement): Statement {
    match st case Fail => Fail case Stmt(t, ps) => Stmt(s + t, ps)
  }

  function RenderAll(ts: Option<seq<Token>>, ps: seq<Placeholder>, cs: Chars): Statement {
    match ts case None => Fail case Some(s) => Render(s, ps, cs)
  }

  /** The reserved keyword names. */
  function CheckReserved(st: Statement): Statement {
    if st.Stmt? && (Named("types") in st.placeholders || Named("stream") in st.placeholders) then Fail else st
  }

  /** What to_statement returns, by construct. */
  function StatementOf(q: string, cs: Chars): Statement {
    CheckReserved(RenderAll(Lex(q, 0, cs), [], cs))
  }

  // ---- The state machine ----

  datatype Mode = OUT | IN_SQ | IN_QI | IN_ES | IN_PN | IN_CO | IN_DQ | IN_DP

  /** The machine's variables between two characters. */
  datatype Machine = Machine(mode: Mode, inQuoteEscape: bool, placeholders: seq<Placeholder>, output: string)

  /** The placeholders that are complete: all but the one being read. */
  function Complete(m: Machine): seq<Placeholder> {
    if (m.mode == IN_PN || m.mode == IN_DP) && m.placeholders != [] then m.placeholders[..|m.placeholders| - 1]
    else m.placeholders
  }

  /** The text of the placeholder being read. */
  function Partial(m: Machine): string {
    if m.placeholders != [] && m.placeholders[|m.placeholders| - 1].Named?
    then m.placeholders[|m.placeholders| - 1].name else ""
  }

  /** Machines that occur before character i. */
  predicate Fits(m: Machine, q: string, i: nat) {
    && i <= |q|
    && (m.mode != OUT ==> 1 <= i)
    && (m.inQuoteEscape ==> m.mode == IN_SQ && i < |q| && q[i] == '\'')
    && (m.mode == IN_PN || m.mode == IN_DP ==>
          i < |q| && m.placeholders != [] && m.placeholders[|m.placeholders| - 1].Named?)
  }

  function RestFrom(q: string, j: nat, ps: seq<Placeholder>, cs: Chars): Statement
    requires j <= |q|
  {
    RenderAll(Lex(q, j, cs), ps, cs)
  }

  /** What the rest of the query must add to the output: the rest of the construct at hand, then the constructs after it. */
  function Ahead(m: Machine, q: string, i: nat, cs: Chars): Statement
    requires Fits(m, q, i)
  {
    var ps := Complete(m);
    match m.mode
    case OUT => RestFrom(q, i, ps, cs)
    case IN_SQ =>
      var j := EndQuoted(q, if m.inQuoteEscape then i + 1 else i);
      Prepend(q[i..j], RestFrom(q, j, ps, cs))
    case IN_QI => var j := EndAt(q, i, '"'); Prepend(q[i..j], RestFrom(q, j, ps, cs))
    case IN_CO => var j := EndAt(q, i, '\n'); Prepend(q[i..j], RestFrom(q, j, ps, cs))
    case IN_ES => var j := EndEscaped(q, i); Prepend(q[i..j], RestFrom(q, j, ps, cs))
    case IN_DQ => var j := EndDollar(q, i); Prepend(q[i..j], RestFrom(q, j, ps, cs))
    case IN_PN =>
      var j := EndRun(q, i + 1, (x: char) => NameChar(cs, x));
      var n := Partial(m) + q[i..j];
      Prepend(Dollar(Position(ps, Named(n))), RestFrom(q, j, WithName(ps, n), cs))
    case IN_DP =>
      var j := EndRun(q, i + 1, cs.isDigit);
      NumberRest(q, i, j, ps, cs.toInt(Partial(m) + q[i..j]), cs)
  }

  /** The rest of a dollar number q[i..j] whose value is k. */
  function NumberRest(q: string, i: nat, j: nat, ps: seq<Placeholder>, k: Option<int>, cs: Chars): Statement
    requires i <= j <= |q|
  {
    if k.None? then Fail else Prepend(q[i..j], RestFrom(q, j, ps + [Numbered(k.value - 1)], cs))
  }

  lemma NumberRestSplit(q: string, i: nat, j: nat, ps: seq<Placeholder>, k: Option<int>, cs: Chars)
    requires i < j <= |q|
    ensures NumberRest(q, i, j, ps, k, cs) == Prepend([q[i]], NumberRest(q, i + 1, j, ps, k, cs))
  {
    if k.Some? {
      SplitFirst(q, i, j, RestFrom(q, j, ps + [Numbered(k.value - 1)], cs));
    }
  }

  /** The output so far and the rest make up the whole statement. */
  predicate OnTrack(m: Machine, q: string, i: nat, cs: Chars)
    requires Fits(m, q, i)
  {
    RestFrom(q, 0, [], cs) == Prepend(m.output, Ahead(m, q, i, cs))
  }

  lemma PrependTwice(a: string, b: string, st: Statement)
    ensures Prepend(a, Prepend(b, st)) == Prepend(a + b, st)
  {
    if st.Stmt? {
      assert a + (b + st.text) == a + b + st.text;
    }
  }

  lemma PrependNothing(st: Statement)
    ensures Prepend("", st) == st
  {
    if st.Stmt? {
      assert "" + st.text == st.text;
    }
  }

  /** A step keeps the machine on track when what it outputs and what is then ahead is what was ahead. */
  lemma StaysOnTrack(m: Machine, m2: Machine, q: string, i: nat, emitted: string, cs: Chars)
    requires i < |q| && Fits(m, q, i) && Fits(m2, q, i + 1) && OnTrack(m, q, i, cs)
    requires m2.output == m.output + emitted
    requires Ahead(m, q, i, cs) == Prepend(emitted, Ahead(m2, q, i + 1, cs))
    ensures OnTrack(m2, q, i + 1, cs)
  {
    PrependTwice(m.output, emitted, Ahead(m2, q, i + 1, cs));
  }

  lemma SliceStep(q: string, i: nat, j: nat)
    requires i < j <= |q|
    ensures q[i..j] == [q[i]] + q[i + 1..j]
  {
  }

  /** One character of a construct that ends at j is output, and the rest of it is still ahead. */
  lemma SplitFirst(q: string, i: nat, j: nat, st: Statement)
    requires i < j <= |q|
    ensures Prepend(q[i..j], st) == Prepend([q[i]], Prepend(q[i + 1..j], st))
  {
    SliceStep(q, i, j);
    PrependTwice([q[i]], q[i + 1..j], st);
  }

  lemma RenderRaw(s: string, ts: seq<Token>, ps: seq<Placeholder>, cs: Chars)
    ensures Render([Raw(s)] + ts, ps, cs) == Prepend(s, Render(ts, ps, cs))
  {
    assert ([Raw(s)] + ts)[1..] == ts;
  }

  /** The rest of a query that starts with a kept construct. */
  lemma RestOfRaw(q: string, i: nat, ps: seq<Placeholder>, cs: Chars, s: string, j: nat)
    requires i < |q| && LexOne(q, i, cs) == Some(Construct([Raw(s)], j))
    ensures RestFrom(q, i, ps, cs) == Prepend(s, RestFrom(q, j, ps, cs))
  {
    if Lex(q, j, cs).Some? {
      RenderRaw(s, Lex(q, j, cs).value, ps, cs);
    }
  }

  lemma RestOfName(q: string, i: nat, ps: seq<Placeholder>, cs: Chars, n: string, j: nat)
    requires i < |q| && LexOne(q, i, cs) == Some(Construct([Name(n)], j))
    ensures RestFrom(q, i, ps, cs) == Prepend(Dollar(Position(ps, Named(n))), RestFrom(q, j, WithName(ps, n), cs))
  {
    if Lex(q, j, cs).Some? {
      assert ([Name(n)] + Lex(q, j, cs).value)[1..] == Lex(q, j, cs).value;
    }
  }

  lemma RestOfIndex(q: string, i: nat, ps: seq<Placeholder>, cs: Chars, d: string, j: nat)
    requires i < |q| && LexOne(q, i, cs) == Some(Construct([Raw("$"), Index(d)], j))
    ensures RestFrom(q, i, ps, cs) ==
            Prepend("$", if cs.toInt(d).None? then Fail
                         else Prepend(d, RestFrom(q, j, ps + [Numbered(cs.toInt(d).value - 1)], cs)))
  {
    if Lex(q, j, cs).Some? {
      var rest := Lex(q, j, cs).value;
      assert [Raw("$"), Index(d)] + rest == [Raw("$")] + ([Index(d)] + rest);
      RenderRaw("$", [Index(d)] + rest, ps, cs);
      RenderIndex(d, rest, ps, cs);
    }
  }

  lemma RenderIndex(d: string, ts: seq<Token>, ps: seq<Placeholder>, cs: Chars)
    ensures Render([Index(d)] + ts, ps, cs) ==
            if cs.toInt(d).None? then Fail
            else Prepend(d, Render(ts, ps + [Numbered(cs.toInt(d).value - 1)], cs))
  {
    assert ([Index(d)] + ts)[1..] == ts;
  }

  ghost predicate StepOk(m: Machine, q: string, i: nat, cs: Chars, r: Option<Machine>)
    requires i < |q|
  {
    match r
    case None => RestFrom(q, 0, [], cs) == Fail
    case Some(m2) => Fits(m2, q, i + 1) && OnTrack(m2, q, i + 1, cs)
  }

  /** Outside all quotes. None stands for the error on a colon or dollar that ends the query. */
  method StepOut(m: Machine, q: string, i: nat, cs: Chars) returns (r: Option<Machine>)
    requires i < |q| && m.mode == OUT && Fits(m, q, i) && OnTrack(m, q, i, cs)
    ensures StepOk(m, q, i, cs, r)
  {
    var c, prev := q[i], Prev(q, i);
    var next := if i + 1 < |q| then Some(q[i + 1]) else None;
    var m2 := m.(output := m.output + [c]);
    if c == '\'' {
      m2 := m2.(mode := if prev == Some('E') then IN_ES else IN_SQ);
    } else if c == '"' {
      m2 := m2.(mode := IN_QI);
    } else if c == '-' {
      if prev == Some('-') {
        m2 := m2.(mode := IN_CO);
      }
    } else if c == '$' {
      if prev == Some('$') {
        m2 := m2.(mode := IN_DQ);
      } else if next == None {
        return None;
      } else if cs.isDigit(next.value) {
        m2 := m2.(mode := IN_DP, placeholders := m.placeholders + [Named("")]);
        EnterNumber(m, m2, q, i, cs);
        return Some(m2);
      }
    } else if c == ':' {
      if next == None {
        return None;
      }
      if next.value != ':' && next.value != '=' && prev != Some(':') {
        m2 := m.(mode := IN_PN, placeholders := m.placeholders + [Named("")]);
        EnterName(m, m2, q, i, cs);
        return Some(m2);
      }
    }
    EnterRaw(m, m2, q, i, cs);
    r := Some(m2);
  }

  lemma EnterRaw(m: Machine, m2: Machine, q: string, i: nat, cs: Chars)
    requires i < |q| && m.mode == OUT && Fits(m, q, i) && OnTrack(m, q, i, cs)
    requires var c, prev := q[i], Prev(q, i);
             m2 == m.(output := m.output + [c],
                      mode := if c == '\'' then (if prev == Some('E') then IN_ES else IN_SQ)
                              else if c == '"' then IN_QI
                              else if c == '-' && prev == Some('-') then IN_CO
                              else if c == '$' && prev == Some('$') then IN_DQ else OUT)
    requires LexOne(q, i, cs).Some? && |LexOne(q, i, cs).value.tokens| == 1 && LexOne(q, i, cs).value.tokens[0].Raw?
    ensures Fits(m2, q, i + 1) && OnTrack(m2, q, i + 1, cs)
  {
    var j := LexOne(q, i, cs).value.end;
    RawToken(q, i, cs);
    RestOfRaw(q, i, m.placeholders, cs, q[i..j], j);
    SplitFirst(q, i, j, RestFrom(q, j, m.placeholders, cs));
    AfterRaw(m2, q, i, j, cs);
    StaysOnTrack(m, m2, q, i, [q[i]], cs);
  }

  lemma RawToken(q: string, i: nat, cs: Chars)
    requires i < |q| && LexOne(q, i, cs).Some?
    requires |LexOne(q, i, cs).value.tokens| == 1 && LexOne(q, i, cs).value.tokens[0].Raw?
    ensures LexOne(q, i, cs).value.tokens == [Raw(q[i..LexOne(q, i, cs).value.end])]
  {
    assert q[i..i + 1] == [q[i]];
  }

  /** What is ahead once the first character of a kept construct was read. */
  lemma AfterRaw(m2: Machine, q: string, i: nat, j: nat, cs: Chars)
    requires i < |q| && i < j <= |q| && Fits(m2, q, i + 1) && !m2.inQuoteEscape
    requires match m2.mode
             case OUT => j == i + 1
             case IN_SQ => j == EndQuoted(q, i + 1)
             case IN_QI => j == EndAt(q, i + 1, '"')
             case IN_CO => j == EndAt(q, i + 1, '\n')
             case IN_ES => j == EndEscaped(q, i + 1)
             case IN_DQ => j == EndDollar(q, i + 1)
             case _ => false
    ensures Ahead(m2, q, i + 1, cs) == Prepend(q[i + 1..j], RestFrom(q, j, m2.placeholders, cs))
  {
    if m2.mode == OUT {
      assert q[i + 1..j] == "";
      PrependNothing(RestFrom(q, j, m2.placeholders, cs));
    }
  }

  lemma EnterName(m: Machine, m2: Machine, q: string, i: nat, cs: Chars)
    requires i + 1 < |q| && m.mode == OUT && Fits(m, q, i) && OnTrack(m, q, i, cs)
    requires q[i] == ':' && q[i + 1] != ':' && q[i + 1] != '=' && Prev(q, i) != Some(':')
    requires m2 == m.(mode := IN_PN, placeholders := m.placeholders + [Named("")])
    ensures Fits(m2, q, i + 1) && OnTrack(m2, q, i + 1, cs)
  {
    NameBegins(m, m2, q, i, cs);
    PrependNothing(Ahead(m2, q, i + 1, cs));
    assert m2.output == m.output + "";
    StaysOnTrack(m, m2, q, i, "", cs);
  }

  lemma NameBegins(m: Machine, m2: Machine, q: string, i: nat, cs: Chars)
    requires i + 1 < |q| && m.mode == OUT && Fits(m, q, i) && Fits(m2, q, i + 1)
    requires q[i] == ':' && q[i + 1] != ':' && q[i + 1] != '=' && Prev(q, i) != Some(':')
    requires m2.mode == IN_PN && m2.placeholders == m.placeholders + [Named("")]
    ensures Ahead(m, q, i, cs) == Ahead(m2, q, i + 1, cs)
  {
    var j := EndRun(q, i + 2, (x: char) => NameChar(cs, x));
    RestOfName(q, i, m.placeholders, cs, q[i + 1..j], j);
    assert Complete(m2) == m.placeholders;
    assert Partial(m2) + q[i + 1..j] == q[i + 1..j];
  }

  lemma EnterNumber(m: Machine, m2: Machine, q: string, i: nat, cs: Chars)
    requires i + 1 < |q| && m.mode == OUT && Fits(m, q, i) && OnTrack(m, q, i, cs)
    requires q[i] == '$' && Prev(q, i) != Some('$') && cs.isDigit(q[i + 1])
    requires m2 == m.(mode := IN_DP, placeholders := m.placeholders + [Named("")], output := m.output + ['$'])
    ensures Fits(m2, q, i + 1) && OnTrack(m2, q, i + 1, cs)
  {
    NumberBegins(m, m2, q, i, cs);
    StaysOnTrack(m, m2, q, i, "$", cs);
  }

  lemma NumberBegins(m: Machine, m2: Machine, q: string, i: nat, cs: Chars)
    requires i + 1 < |q| && m.mode == OUT && Fits(m, q, i) && Fits(m2, q, i + 1)
    requires q[i] == '$' && Prev(q, i) != Some('$') && cs.isDigit(q[i + 1])
    requires m2.mode == IN_DP && m2.placeholders == m.placeholders + [Named("")]
    ensures Ahead(m, q, i, cs) == Prepend("$", Ahead(m2, q, i + 1, cs))
  {
    var j := EndRun(q, i + 2, cs.isDigit);
    RestOfIndex(q, i, m.placeholders, cs, q[i + 1..j], j);
    assert Complete(m2) == m.placeholders;
    assert Partial(m2) + q[i + 1..j] == q[i + 1..j];
  }

  /** Inside the quoted constructs. */
  method StepQuoted(m: Machine, q: string, i: nat, cs: Chars) returns (m2: Machine)
    requires i < |q| && m.mode in {IN_SQ, IN_QI, IN_ES, IN_CO, IN_DQ} && Fits(m, q, i) && OnTrack(m, q, i, cs)
    ensures Fits(m2, q, i + 1) && OnTrack(m2, q, i + 1, cs)
  {
    var c, prev := q[i], Prev(q, i);
    m2 := m.(output := m.output + [c]);
    match m.mode {
      case IN_SQ =>
        if c == '\'' {
          if m.inQuoteEscape {
            m2 := m2.(inQuoteEscape := false);
          } else if i + 1 < |q| && q[i + 1] == '\'' {
            m2 := m2.(inQuoteEscape := true);
          } else {
            m2 := m2.(mode := OUT);
          }
        }
      case IN_QI =>
        if c == '"' { m2 := m2.(mode := OUT); }
      case IN_ES =>
        if c == '\'' && prev != Some('\\') { m2 := m2.(mode := OUT); }
      case IN_CO =>
        if c == '\n' { m2 := m2.(mode := OUT); }
      case _ =>
        if c == '$' && prev == Some('$') { m2 := m2.(mode := OUT); }
    }
    QuotedStep(m, m2, q, i, cs);
  }

  /** Where the construct at hand ends. */
  function EndOf(m: Machine, q: string, i: nat): (j: nat)
    requires i <= |q| && Fits(m, q, i)
    ensures i <= j <= |q|
  {
    match m.mode
    case IN_SQ => EndQuoted(q, if m.inQuoteEscape then i + 1 else i)
    case IN_QI => EndAt(q, i, '"')
    case IN_CO => EndAt(q, i, '\n')
    case IN_ES => EndEscaped(q, i)
    case IN_DQ => EndDollar(q, i)
    case _ => i
  }

  lemma QuotedStep(m: Machine, m2: Machine, q: string, i: nat, cs: Chars)
    requires i < |q| && m.mode in {IN_SQ, IN_QI, IN_ES, IN_CO, IN_DQ} && Fits(m, q, i) && OnTrack(m, q, i, cs)
    requires m2.output == m.output + [q[i]] && m2.placeholders == m.placeholders
    requires m2.mode == m.mode || m2.mode == OUT
    requires Fits(m2, q, i + 1)
    requires EndOf(m2, q, i + 1) == EndOf(m, q, i)
    ensures OnTrack(m2, q, i + 1, cs)
  {
    var j := EndOf(m, q, i);
    SplitFirst(q, i, j, RestFrom(q, j, m.placeholders, cs));
    if m2.mode == OUT {
      PrependNothing(RestFrom(q, j, m.placeholders, cs));
    }
    StaysOnTrack(m, m2, q, i, [q[i]], cs);
  }

  /** The end of a name: a known name takes the number it has, a new one the next. */
  method FinishName(m: Machine, q: string, i: nat, ps: seq<Placeholder>, last: nat) returns (m2: Machine)
    requires i < |q| && m.mode == IN_PN && Fits(m, q, i) && last + 1 == |m.placeholders|
    requires ps == m.placeholders[last := Named(m.placeholders[last].name + [q[i]])]
    ensures var n := Partial(m) + [q[i]];
            m2 == Machine(OUT, m.inQuoteEscape, WithName(Complete(m), n), m.output + Dollar(Position(Complete(m), Named(n))))
  {
    var pidx := Position(ps[..last], ps[last]);
    assert ps[..last] == Complete(m) && ps == Complete(m) + [ps[last]];
    if pidx < last {
      m2 := Machine(OUT, m.inQuoteEscape, ps[..last], m.output + Dollar(pidx));
    } else {
      m2 := Machine(OUT, m.inQuoteEscape, ps, m.output + ("$" + IntText(|ps|)));
    }
  }

  /** Inside a parameter name. */
  method StepName(m: Machine, q: string, i: nat, cs: Chars) returns (m2: Machine)
    requires i < |q| && m.mode == IN_PN && Fits(m, q, i) && OnTrack(m, q, i, cs)
    ensures Fits(m2, q, i + 1) && OnTrack(m2, q, i + 1, cs)
  {
    var last := |m.placeholders| - 1;
    var name := Named(m.placeholders[last].name + [q[i]]);
    var ps := m.placeholders[last := name];
    if i + 1 == |q| || !NameChar(cs, q[i + 1]) {
      m2 := FinishName(m, q, i, ps, last);
      NameEnds(m, m2, q, i, cs);
    } else {
      m2 := m.(placeholders := ps);
      NameGrows(m, m2, q, i, cs);
    }
  }

  lemma NameGrows(m: Machine, m2: Machine, q: string, i: nat, cs: Chars)
    requires i + 1 < |q| && m.mode == IN_PN && Fits(m, q, i) && OnTrack(m, q, i, cs) && NameChar(cs, q[i + 1])
    requires m2 == m.(placeholders := m.placeholders[|m.placeholders| - 1 := Named(Partial(m) + [q[i]])])
    ensures Fits(m2, q, i + 1) && OnTrack(m2, q, i + 1, cs)
  {
    RunGoesOn(q, i, (x: char) => NameChar(cs, x), Partial(m));
    assert Complete(m2) == Complete(m);
    PrependNothing(Ahead(m2, q, i + 1, cs));
    assert m2.output == m.output + "";
    StaysOnTrack(m, m2, q, i, "", cs);
  }

  lemma RunEnds(q: string, i: nat, p: char -> bool)
    requires i < |q| && (i + 1 == |q| || !p(q[i + 1]))
    ensures EndRun(q, i + 1, p) == i + 1 && q[i..EndRun(q, i + 1, p)] == [q[i]]
  {
  }

  lemma RunGoesOn(q: string, i: nat, p: char -> bool, partial: string)
    requires i + 1 < |q| && p(q[i + 1])
    ensures var j := EndRun(q, i + 1, p);
            j == EndRun(q, i + 2, p) && i + 1 < j && partial + [q[i]] + q[i + 1..j] == partial + q[i..j]
  {
    SliceStep(q, i, EndRun(q, i + 1, p));
  }

  lemma NameEnds(m: Machine, m2: Machine, q: string, i: nat, cs: Chars)
    requires i < |q| && m.mode == IN_PN && Fits(m, q, i) && OnTrack(m, q, i, cs)
    requires i + 1 == |q| || !NameChar(cs, q[i + 1])
    requires var n := Partial(m) + [q[i]];
             m2 == Machine(OUT, m.inQuoteEscape, WithName(Complete(m), n), m.output + Dollar(Position(Complete(m), Named(n))))
    ensures Fits(m2, q, i + 1) && OnTrack(m2, q, i + 1, cs)
  {
    var n := Partial(m) + [q[i]];
    RunEnds(q, i, (x: char) => NameChar(cs, x));
    StaysOnTrack(m, m2, q, i, Dollar(Position(Complete(m), Named(n))), cs);
  }

  /** Inside the digits of a `$n`; None stands for the error of int. */
  method StepNumber(m: Machine, q: string, i: nat, cs: Chars) returns (r: Option<Machine>)
    requires i < |q| && m.mode == IN_DP && Fits(m, q, i) && OnTrack(m, q, i, cs)
    ensures StepOk(m, q, i, cs, r)
  {
    var last := |m.placeholders| - 1;
    var digits := m.placeholders[last].name + [q[i]];
    var m2 := m.(placeholders := m.placeholders[last := Named(digits)], output := m.output + [q[i]]);
    if i + 1 == |q| || !cs.isDigit(q[i + 1]) {
      assert q[i..i + 1] == [q[i]];
      var k := cs.toInt(digits);
      if k.None? {
        return None;
      }
      m2 := m2.(mode := OUT, placeholders := m.placeholders[last := Numbered(k.value - 1)]);
      NumberEnds(m, m2, q, i, cs);
    } else {
      NumberGrows(m, m2, q, i, cs);
    }
    r := Some(m2);
  }

  lemma NumberEnds(m: Machine, m2: Machine, q: string, i: nat, cs: Chars)
    requires i < |q| && m.mode == IN_DP && Fits(m, q, i) && OnTrack(m, q, i, cs)
    requires i + 1 == |q| || !cs.isDigit(q[i + 1])
    requires var k := cs.toInt(Partial(m) + [q[i]]);
             k.Some? && m2 == Machine(OUT, m.inQuoteEscape, m.placeholders[|m.placeholders| - 1 := Numbered(k.value - 1)], m.output + [q[i]])
    ensures Fits(m2, q, i + 1) && OnTrack(m2, q, i + 1, cs)
  {
    RunEnds(q, i, cs.isDigit);
    var k := cs.toInt(Partial(m) + [q[i]]).value;
    assert m2.placeholders == Complete(m) + [Numbered(k - 1)];
    StaysOnTrack(m, m2, q, i, [q[i]], cs);
  }

  lemma NumberGrows(m: Machine, m2: Machine, q: string, i: nat, cs: Chars)
    requires i + 1 < |q| && m.mode == IN_DP && Fits(m, q, i) && OnTrack(m, q, i, cs) && cs.isDigit(q[i + 1])
    requires m2 == m.(placeholders := m.placeholders[|m.placeholders| - 1 := Named(Partial(m) + [q[i]])], output := m.output + [q[i]])
    ensures Fits(m2, q, i + 1) && OnTrack(m2, q, i + 1, cs)
  {
    NumberAhead(m, m2, q, i, cs);
    StaysOnTrack(m, m2, q, i, [q[i]], cs);
  }

  lemma NumberAhead(m: Machine, m2: Machine, q: string, i: nat, cs: Chars)
    requires i + 1 < |q| && m.mode == IN_DP == m2.mode && Fits(m, q, i) && Fits(m2, q, i + 1) && cs.isDigit(q[i + 1])
    requires Complete(m2) == Complete(m) && Partial(m2) == Partial(m) + [q[i]]
    ensures Ahead(m, q, i, cs) == Prepend([q[i]], Ahead(m2, q, i + 1, cs))
  {
    var j := EndRun(q, i + 1, cs.isDigit);
    RunGoesOn(q, i, cs.isDigit, Partial(m));
    NumberRestSplit(q, i, j, Complete(m), cs.toInt(Partial(m) + q[i..j]), cs);
  }

  /** One turn of the loop: a character in any state. */
  method StepAny(m: Machine, q: string, i: nat, cs: Chars) returns (r: Option<Machine>)
    requires i < |q| && Fits(m, q, i) && OnTrack(m, q, i, cs)
    ensures StepOk(m, q, i, cs, r)
  {
    if m.mode == OUT {
      r := StepOut(m, q, i, cs);
    } else if m.mode == IN_PN {
      var m2 := StepName(m, q, i, cs);
      r := Some(m2);
    } else if m.mode == IN_DP {
      r := StepNumber(m, q, i, cs);
    } else {
      var m2 := StepQuoted(m, q, i, cs);
      r := Some(m2);
    }
  }

  /** to_statement: the character machine computes the statement construct by construct. */
  method ToStatement(query: string, cs: Chars) returns (st: Statement)
    ensures st == StatementOf(query, cs)
  {
    var m := Machine(OUT, false, [], "");
    PrependNothing(Ahead(m, query, 0, cs));
    for i := 0 to |query|
      invariant Fits(m, query, i) && OnTrack(m, query, i, cs)
    {
      var r := StepAny(m, query, i, cs);
      if r == None {
        return Fail;
      }
      m := r.value;
    }
    AtEnd(m, query, cs);
    st := CheckReserved(Stmt(m.output, m.placeholders));
  }

  lemma AtEnd(m: Machine, q: string, cs: Chars)
    requires Fits(m, q, |q|) && OnTrack(m, q, |q|, cs)
    ensures RestFrom(q, 0, [], cs) == Stmt(m.output, m.placeholders)
  {
    assert RestFrom(q, |q|, m.placeholders, cs) == Stmt("", m.placeholders);
    assert q[|q|..] == "";
    assert m.output + "" == m.output;
  }

  // ---- What the statement means ----

  /** The query with every name replaced by its dollar number in ps and everything else as it was. */
  function Substituted(ts: seq<Token>, ps: seq<Placeholder>): string {
    if ts == [] then ""
    else (match ts[0] case Raw(s) => s case Index(d) => d case Name(n) => Dollar(Position(ps, Named(n)))) + Substituted(ts[1..], ps)
  }

  /** Placeholders of the tokens after those in ps, in order of first occurrence. */
  predicate NamesIn(ts: seq<Token>, ps: seq<Placeholder>) {
    forall i :: 0 <= i < |ts| && ts[i].Name? ==> Named(ts[i].name) in ps
  }

  predicate NoNumbers(ts: seq<Token>) {
    forall i :: 0 <= i < |ts| ==> !ts[i].Index?
  }

  lemma PositionStays(ps: seq<Placeholder>, more: seq<Placeholder>, p: Placeholder)
    requires p in ps
    ensures Position(ps + more, p) == Position(ps, p)
  {
    var k, l := Position(ps, p), Position(ps + more, p);
    assert (ps + more)[k] == p;
    assert l <= k;
    assert l < |ps|;
    assert ps[l] == p;
  }

  /** Rendering is one substitution with the final placeholder list, to which placeholders are only ever added. */
  lemma {:induction false} RenderSubstitutes(ts: seq<Token>, ps: seq<Placeholder>, cs: Chars)
    requires Render(ts, ps, cs).Stmt?
    ensures ps <= Render(ts, ps, cs).placeholders
    ensures NamesIn(ts, Render(ts, ps, cs).placeholders)
    ensures Render(ts, ps, cs).text == Substituted(ts, Render(ts, ps, cs).placeholders)
    decreases |ts|
  {
    if ts != [] {
      var all := Render(ts, ps, cs).placeholders;
      match ts[0] {
        case Raw(s) =>
          RenderSubstitutes(ts[1..], ps, cs);
        case Name(n) =>
          RenderSubstitutes(ts[1..], WithName(ps, n), cs);
          NameKeepsPosition(ps, n, all);
        case Index(d) =>
          RenderSubstitutes(ts[1..], ps + [Numbered(cs.toInt(d).value - 1)], cs);
      }
      NamesInCons(ts, all);
    }
  }

  lemma NameKeepsPosition(ps: seq<Placeholder>, n: string, all: seq<Placeholder>)
    requires WithName(ps, n) <= all
    ensures ps <= all && Named(n) in all && Position(all, Named(n)) == Position(ps, Named(n))
  {
    var qs := WithName(ps, n);
    assert Named(n) in qs && Position(qs, Named(n)) == Position(ps, Named(n));
    PositionStays(qs, all[|qs|..], Named(n));
    assert qs + all[|qs|..] == all;
  }

  lemma NamesInCons(ts: seq<Token>, all: seq<Placeholder>)
    requires ts != [] && NamesIn(ts[1..], all) && (ts[0].Name? ==> Named(ts[0].name) in all)
    ensures NamesIn(ts, all)
  {
    assert ts == [ts[0]] + ts[1..];
  }

  /** The names of a query in order of first occurrence, after those of ps. */
  function FirstNames(ts: seq<Token>, ps: seq<Placeholder>): seq<Placeholder> {
    if ts == [] then ps
    else if ts[0].Name? then FirstNames(ts[1..], WithName(ps, ts[0].name))
    else FirstNames(ts[1..], ps)
  }

  predicate NoRepeat(ps: seq<Placeholder>) {
    forall i, j :: 0 <= i < j < |ps| ==> ps[i] != ps[j]
  }

  lemma {:induction false} FirstNamesAre(ts: seq<Token>, ps: seq<Placeholder>, cs: Chars)
    requires NoNumbers(ts) && NoRepeat(ps)
    ensures Render(ts, ps, cs).Stmt? && Render(ts, ps, cs).placeholders == FirstNames(ts, ps)
    ensures NoRepeat(FirstNames(ts, ps))
    ensures forall p :: p in FirstNames(ts, ps) <==> p in ps || exists i :: 0 <= i < |ts| && ts[i].Name? && p == Named(ts[i].name)
    decreases |ts|
  {
    if ts != [] {
      var qs := if ts[0].Name? then WithName(ps, ts[0].name) else ps;
      assert !ts[0].Index?;
      FirstNamesAre(ts[1..], qs, cs);
      assert ts == [ts[0]] + ts[1..];
      forall p
        ensures p in FirstNames(ts, ps) <==> p in ps || exists i :: 0 <= i < |ts| && ts[i].Name? && p == Named(ts[i].name)
      {
        if i :| 0 <= i < |ts| && ts[i].Name? && p == Named(ts[i].name) {
          assert i > 0 ==> ts[1..][i - 1] == ts[i];
        }
        if i :| 0 <= i < |ts[1..]| && ts[1..][i].Name? && p == Named(ts[1..][i].name) {
          assert ts[i + 1] == ts[1..][i];
        }
      }
    }
  }

  // ---- make_vals ----

  /** The value of a key; None when it is missing. */
  function Lookup<V>(args: seq<(string, V)>, key: string): Option<V> {
    if args == [] then None else if args[0].0 == key then Some(args[0].1) else Lookup(args[1..], key)
  }

  /** arg_list[p] with Python's negative indices. */
  function ArgAt<V>(args: seq<(string, V)>, p: int): Option<V> {
    if 0 <= p < |args| then Some(args[p].1)
    else if p < 0 <= p + |args| then Some(args[p + |args|].1) else None
  }

  function ValueOf<V>(args: seq<(string, V)>, p: Placeholder): Option<V> {
    match p case Named(n) => Lookup(args, n) case Numbered(k) => ArgAt(args, k)
  }

  /** The values passed for a list of placeholders: each its own. */
  ghost predicate Passes<V>(args: seq<(string, V)>, ps: seq<Placeholder>, vals: seq<V>) {
    |vals| == |ps| && forall i :: 0 <= i < |ps| ==> ValueOf(args, ps[i]) == Some(vals[i])
  }

  /** make_vals; None stands for a missing argument. */
  method MakeVals<V>(placeholders: seq<Placeholder>, args: seq<(string, V)>) returns (r: Option<seq<V>>)
    ensures r.None? <==> exists i :: 0 <= i < |placeholders| && ValueOf(args, placeholders[i]).None?
    ensures r.Some? ==> Passes(args, placeholders, r.value)
  {
    var vals: seq<V> := [];
    for i := 0 to |placeholders|
      invariant |vals| == i && forall k :: 0 <= k < i ==> ValueOf(args, placeholders[k]) == Some(vals[k])
    {
      var v := ValueOf(args, placeholders[i]);
      if v.None? {
        return None;
      }
      vals := vals + [v.value];
    }
    r := Some(vals);
  }

  /** What an accepted query without `$n` becomes. The tokens are the query itself; in the statement every name stands as
      the dollar number of its place in the placeholder list and the rest is unchanged; the list holds each
      name once, in order of first occurrence; and the value passed for a dollar number is the argument of that name. */
  lemma StatementMeaning<V>(q: string, cs: Chars, args: seq<(string, V)>, vals: seq<V>)
    requires Lex(q, 0, cs).Some? && NoNumbers(Lex(q, 0, cs).value) && StatementOf(q, cs).Stmt?
    requires Passes(args, StatementOf(q, cs).placeholders, vals)
    ensures var ts, st := Lex(q, 0, cs).value, StatementOf(q, cs);
            && Source(ts) == q
            && st.text == Substituted(ts, st.placeholders)
            && NoRepeat(st.placeholders) && st.placeholders == FirstNames(ts, [])
            && (forall i :: 0 <= i < |ts| && ts[i].Name? ==>
                  var k := Position(st.placeholders, Named(ts[i].name));
                  k < |vals| && Lookup(args, ts[i].name) == Some(vals[k]))
  {
    var ts := Lex(q, 0, cs).value;
    LexIsLossless(q, 0, cs);
    assert q[0..] == q;
    RenderSubstitutes(ts, [], cs);
    FirstNamesAre(ts, [], cs);
  }

  // ---- Which queries are accepted ----

  /** Outside all quotes a construct starts at k, when the rest of the query is read from i on. */
  predicate Starts(q: string, i: nat, k: nat, cs: Chars)
    requires i <= |q|
    decreases |q| - i
  {
    i < |q| && (i == k || (LexOne(q, i, cs).Some? && Starts(q, LexOne(q, i, cs).value.end, k, cs)))
  }

  /** The last character of the query stands outside all quotes and is a colon, or a dollar that does not
      follow a dollar. */
  predicate EndsOpen(q: string, i: nat, cs: Chars)
    requires i <= |q|
  {
    |q| > 0 && Starts(q, i, |q| - 1, cs) && (q[|q| - 1] == ':' || (q[|q| - 1] == '$' && Prev(q, |q| - 1) != Some('$')))
  }

  /** A query cannot be taken apart exactly when it ends in such a colon or dollar. */
  lemma {:induction false} OnlyOpenEndsFail(q: string, i: nat, cs: Chars)
    requires i <= |q|
    ensures Lex(q, i, cs).None? <==> EndsOpen(q, i, cs)
    decreases |q| - i
  {
    if i < |q| {
      match LexOne(q, i, cs)
      case None => assert i == |q| - 1;
      case Some(construct) => OnlyOpenEndsFail(q, construct.end, cs);
    }
  }

  predicate UsesName(ts: seq<Token>, n: string) {
    Name(n) in ts
  }

  /** Every dollar number is one that int reads. */
  predicate NumbersRead(ts: seq<Token>, cs: Chars) {
    forall t :: t in ts && t.Index? ==> cs.toInt(t.digits).Some?
  }

  lemma {:induction false} RenderAccepts(ts: seq<Token>, ps: seq<Placeholder>, cs: Chars)
    ensures Render(ts, ps, cs).Stmt? <==> NumbersRead(ts, cs)
    decreases |ts|
  {
    if ts != [] {
      var read := NumbersReadCons(ts, cs);
      var qs := AfterToken(ts, ps, cs);
      RenderAccepts(ts[1..], qs, cs);
    }
  }

  /** The placeholder list after the first token. */
  lemma AfterToken(ts: seq<Token>, ps: seq<Placeholder>, cs: Chars) returns (qs: seq<Placeholder>)
    requires ts != []
    ensures Render(ts, ps, cs).Stmt? <==> (ts[0].Index? ==> cs.toInt(ts[0].digits).Some?) && Render(ts[1..], qs, cs).Stmt?
  {
    match ts[0]
    case Raw(s) => qs := ps;
    case Name(m) => qs := WithName(ps, m);
    case Index(d) => qs := if cs.toInt(d).Some? then ps + [Numbered(cs.toInt(d).value - 1)] else ps;
  }

  /** The names in the placeholder list are those of the query. */
  lemma {:induction false} NamesListed(ts: seq<Token>, ps: seq<Placeholder>, cs: Chars, n: string)
    requires Render(ts, ps, cs).Stmt?
    ensures Named(n) in Render(ts, ps, cs).placeholders <==> Named(n) in ps || UsesName(ts, n)
    decreases |ts|
  {
    if ts != [] {
      UsesNameCons(ts, n);
      match ts[0]
      case Raw(s) => NamesListed(ts[1..], ps, cs, n);
      case Name(m) => NamesListed(ts[1..], WithName(ps, m), cs, n);
      case Index(d) => NamesListed(ts[1..], ps + [Numbered(cs.toInt(d).value - 1)], cs, n);
    }
  }

  lemma UsesNameCons(ts: seq<Token>, n: string)
    requires ts != []
    ensures UsesName(ts, n) <==> ts[0] == Name(n) || UsesName(ts[1..], n)
  {
    assert ts == [ts[0]] + ts[1..];
  }

  lemma NumbersReadCons(ts: seq<Token>, cs: Chars) returns (read: bool)
    requires ts != []
    ensures read == NumbersRead(ts, cs)
    ensures read <==> (ts[0].Index? ==> cs.toInt(ts[0].digits).Some?) && NumbersRead(ts[1..], cs)
  {
    assert ts == [ts[0]] + ts[1..];
    read := NumbersRead(ts, cs);
  }

  /** The queries refused are those that end in an unquoted colon or dollar, those with a dollar number that
      int does not read, and those that use a reserved name. */
  lemma AcceptedIff(q: string, cs: Chars)
    ensures Lex(q, 0, cs).None? <==> EndsOpen(q, 0, cs)
    ensures StatementOf(q, cs).Stmt? <==>
              && !EndsOpen(q, 0, cs)
              && var ts := Lex(q, 0, cs).value; NumbersRead(ts, cs) && !UsesName(ts, "types") && !UsesName(ts, "stream")
  {
    OnlyOpenEndsFail(q, 0, cs);
    if Lex(q, 0, cs).Some? {
      RenderAccepts(Lex(q, 0, cs).value, [], cs);
      if NumbersRead(Lex(q, 0, cs).value, cs) {
        NamesListed(Lex(q, 0, cs).value, [], cs, "types");
        NamesListed(Lex(q, 0, cs).value, [], cs, "stream");
      }
    }
  }

  // ---- Queries with `$n` only ----

  predicate NoNames(ts: seq<Token>) {
    forall i :: 0 <= i < |ts| ==> !ts[i].Name?
  }

  /** The placeholders of the `$n` in order of occurrence; repeated numbers are listed again. */
  function Numbers(ts: seq<Token>, cs: Chars): seq<Placeholder> {
    if ts == [] then []
    else (if ts[0].Index? && cs.toInt(ts[0].digits).Some? then [Numbered(cs.toInt(ts[0].digits).value - 1)] else [])
         + Numbers(ts[1..], cs)
  }

  lemma {:induction false} NumbersListed(ts: seq<Token>, ps: seq<Placeholder>, cs: Chars)
    requires NoNames(ts) && Render(ts, ps, cs).Stmt?
    ensures Render(ts, ps, cs).placeholders == ps + Numbers(ts, cs)
    decreases |ts|
  {
    if ts == [] {
      assert ps + [] == ps;
    } else {
      assert !ts[0].Name?;
      if ts[0].Index? {
        var k := Numbered(cs.toInt(ts[0].digits).value - 1);
        NumbersListed(ts[1..], ps + [k], cs);
        assert ps + [k] + Numbers(ts[1..], cs) == ps + ([k] + Numbers(ts[1..], cs));
      } else {
        NumbersListed(ts[1..], ps, cs);
        assert [] + Numbers(ts[1..], cs) == Numbers(ts[1..], cs);
      }
    }
  }

  /** The query writes the dollar number n. */
  predicate Writes(ts: seq<Token>, n: int, cs: Chars) {
    exists i :: 0 <= i < |ts| && ts[i].Index? && cs.toInt(ts[i].digits) == Some(n)
  }

  /** Whenever the arguments suffice, the value that the server substitutes for $n is argument n. */
  ghost predicate Receives(ps: seq<Placeholder>, n: int) {
    forall args: seq<(string, int)>, vals: seq<int> {:trigger Passes(args, ps, vals)} ::
      Passes(args, ps, vals) ==> 1 <= n <= |vals| && n <= |args| && vals[n - 1] == args[n - 1].1
  }

  /** The n-th dollar number of the query exists and is n. */
  predicate StandsAtItsPlace(ts: seq<Token>, n: int, cs: Chars) {
    1 <= n <= |Numbers(ts, cs)| && Numbers(ts, cs)[n - 1] == Numbered(n - 1)
  }

  /** A number beyond every index in the list. */
  function Reach(ps: seq<Placeholder>): (m: nat)
    ensures forall i :: 0 <= i < |ps| && ps[i].Numbered? ==> 0 <= ps[i].index + m && ps[i].index < m
  {
    if ps == [] then 0
    else
      assert ps == [ps[0]] + ps[1..];
      (if ps[0].Numbered? then Size(ps[0].index) + 1 else 0) + Reach(ps[1..])
  }

  function Size(x: int): nat {
    if x < 0 then -x else x
  }

  /** Enough distinct arguments for every number in the list, and the values they give. */
  lemma Enough(ps: seq<Placeholder>, more: nat) returns (args: seq<(string, int)>, vals: seq<int>)
    requires forall i :: 0 <= i < |ps| ==> ps[i].Numbered?
    ensures |args| == Reach(ps) + more && Passes(args, ps, vals)
    ensures forall i :: 0 <= i < |args| ==> args[i].1 == i
    ensures forall i :: 0 <= i < |ps| ==> vals[i] == if ps[i].index < 0 then ps[i].index + |args| else ps[i].index
  {
    var total := Reach(ps) + more;
    args := seq(total, i => ("", i));
    vals := seq(|ps|, i requires 0 <= i < |ps| => if ps[i].index < 0 then ps[i].index + total else ps[i].index);
    forall i | 0 <= i < |ps|
      ensures ValueOf(args, ps[i]) == Some(vals[i])
    {
      assert -total <= ps[i].index < total;
    }
  }

  /** $n receives its argument exactly when it stands at its place. */
  lemma ReceivesIff(ts: seq<Token>, n: int, cs: Chars)
    ensures Receives(Numbers(ts, cs), n) <==> StandsAtItsPlace(ts, n, cs)
  {
    var ps := Numbers(ts, cs);
    forall k | 0 <= k < |ps|
      ensures ps[k].Numbered?
    {
      NumbersAreNumbered(ts, cs, k);
    }
    if Receives(ps, n) {
      var args, vals := Enough(ps, Size(n) + 1);
    }
    if StandsAtItsPlace(ts, n, cs) {
      ItsPlaceReceives(ps, n);
    }
  }

  lemma ItsPlaceReceives(ps: seq<Placeholder>, n: int)
    requires 1 <= n <= |ps| && ps[n - 1] == Numbered(n - 1)
    ensures Receives(ps, n)
  {
    forall args: seq<(string, int)>, vals: seq<int> | Passes(args, ps, vals)
      ensures n <= |args| && vals[n - 1] == args[n - 1].1
    {
      assert ValueOf(args, ps[n - 1]) == Some(vals[n - 1]);
    }
  }

  /** In an accepted query with dollar numbers only, which is passed on as it stands, every `$n` receives
      argument n exactly when, for every n written in the query, the n-th dollar number exists and is n. */
  lemma DollarGetsItsArgument(q: string, cs: Chars)
    requires Lex(q, 0, cs).Some? && NoNames(Lex(q, 0, cs).value) && StatementOf(q, cs).Stmt?
    ensures StatementOf(q, cs).text == q
    ensures var ts, st := Lex(q, 0, cs).value, StatementOf(q, cs);
            (forall n :: Writes(ts, n, cs) ==> Receives(st.placeholders, n)) <==>
            (forall n :: Writes(ts, n, cs) ==> StandsAtItsPlace(ts, n, cs))
  {
    var ts := Lex(q, 0, cs).value;
    NumbersListed(ts, [], cs);
    assert [] + Numbers(ts, cs) == Numbers(ts, cs);
    LexIsLossless(q, 0, cs);
    assert q[0..] == q;
    RenderSubstitutes(ts, [], cs);
    NothingSubstituted(ts, Numbers(ts, cs));
    forall n
      ensures Receives(Numbers(ts, cs), n) <==> StandsAtItsPlace(ts, n, cs)
    {
      ReceivesIff(ts, n, cs);
    }
  }

  lemma {:induction false} NothingSubstituted(ts: seq<Token>, ps: seq<Placeholder>)
    requires NoNames(ts)
    ensures Substituted(ts, ps) == Source(ts)
  {
    if ts != [] {
      assert !ts[0].Name?;
      NothingSubstituted(ts[1..], ps);
    }
  }

  lemma {:induction false} NumbersAreNumbered(ts: seq<Token>, cs: Chars, k: nat)
    requires k < |Numbers(ts, cs)|
    ensures Numbers(ts, cs)[k].Numbered?
    decreases |ts|
  {
    if ts[0].Index? && cs.toInt(ts[0].digits).Some? {
      if k > 0 { NumbersAreNumbered(ts[1..], cs, k - 1); }
    } else {
      NumbersAreNumbered(ts[1..], cs, k);
    }
  }

  /** How the query "$2, $1" is read. */
  lemma SwappedQuery(cs: Chars)
    requires cs.isDigit('1') && cs.isDigit('2') && !cs.isDigit(',')
    ensures Lex("$2, $1", 0, cs) == Some([Raw("$"), Index("2"), Raw(","), Raw(" "), Raw("$"), Index("1")])
  {
    var q := "$2, $1";
    LexDollar(q, 0, cs, "2");
    LexPlain(q, 2, cs, ",");
    LexPlain(q, 3, cs, " ");
    LexDollar(q, 4, cs, "1");
    assert Lex(q, 6, cs) == Some([]);
    LexOn(q, 4, cs, [Raw("$"), Index("1")], 6, [], [Raw("$"), Index("1")]);
    LexOn(q, 3, cs, [Raw(" ")], 4, [Raw("$"), Index("1")], [Raw(" "), Raw("$"), Index("1")]);
    LexOn(q, 2, cs, [Raw(",")], 3, [Raw(" "), Raw("$"), Index("1")], [Raw(","), Raw(" "), Raw("$"), Index("1")]);
    LexOn(q, 0, cs, [Raw("$"), Index("2")], 2, [Raw(","), Raw(" "), Raw("$"), Index("1")],
          [Raw("$"), Index("2"), Raw(","), Raw(" "), Raw("$"), Index("1")]);
  }

  lemma LexOn(q: string, i: nat, cs: Chars, ts: seq<Token>, j: nat, rest: seq<Token>, all: seq<Token>)
    requires all == ts + rest
    requires i < j <= |q| && LexOne(q, i, cs) == Some(Construct(ts, j)) && Lex(q, j, cs) == Some(rest)
    ensures Lex(q, i, cs) == Some(all)
  {
  }

  /** A dollar number of one digit. */
  lemma LexDollar(q: string, i: nat, cs: Chars, d: string)
    requires i + 1 < |q| && q[i] == '$' && Prev(q, i) != Some('$') && cs.isDigit(q[i + 1]) && d == [q[i + 1]]
    requires i + 2 == |q| || !cs.isDigit(q[i + 2])
    ensures LexOne(q, i, cs) == Some(Construct([Raw("$"), Index(d)], i + 2))
  {
    assert q[i + 1..i + 2] == d;
  }

  /** A character that starts nothing. */
  lemma LexPlain(q: string, i: nat, cs: Chars, c: string)
    requires i < |q| && (q[i] == ',' || q[i] == ' ') && c == [q[i]]
    ensures LexOne(q, i, cs) == Some(Construct([Raw(c)], i + 1))
  {
  }

  lemma SwappedStatement(cs: Chars)
    requires cs.toInt("1") == Some(1) && cs.toInt("2") == Some(2)
    ensures Render([Raw("$"), Index("2"), Raw(","), Raw(" "), Raw("$"), Index("1")], [], cs)
            == Stmt("$2, $1", [Numbered(1), Numbered(0)])
  {
    var t := [Index("1")];
    assert t[1..] == [];
    assert Render(t, [Numbered(1)], cs) == Stmt("1", [Numbered(1), Numbered(0)]);
    var t5 := [Raw("$"), Index("1")];
    assert t5[1..] == t;
    var t4 := [Raw(" "), Raw("$"), Index("1")];
    assert t4[1..] == t5;
    var t3 := [Raw(","), Raw(" "), Raw("$"), Index("1")];
    assert t3[1..] == t4;
    var t2 := [Index("2"), Raw(","), Raw(" "), Raw("$"), Index("1")];
    assert t2[1..] == t3;
    var t1 := [Raw("$"), Index("2"), Raw(","), Raw(" "), Raw("$"), Index("1")];
    assert t1[1..] == t2;
  }

  /** The query "$2, $1" with two arguments: it is passed on as it stands, and the values go with it the wrong
      way round. */
  method SwappedNumbers<V>(cs: Chars, a: (string, V), b: (string, V)) returns (st: Statement, vals: Option<seq<V>>)
    requires cs.isDigit('1') && cs.isDigit('2') && !cs.isDigit(',')
    requires cs.toInt("1") == Some(1) && cs.toInt("2") == Some(2)
    ensures st == Stmt("$2, $1", [Numbered(1), Numbered(0)])
    ensures vals == Some([b.1, a.1])
  {
    SwappedQuery(cs);
    SwappedStatement(cs);
    st := ToStatement("$2, $1", cs);
    vals := MakeVals(st.placeholders, [a, b]);
    SwappedValues(a, b, vals);
  }

  lemma SwappedValues<V>(a: (string, V), b: (string, V), vals: Option<seq<V>>)
    requires vals.None? <==> exists i :: 0 <= i < 2 && ValueOf([a, b], [Numbered(1), Numbered(0)][i]).None?
    requires vals.Some? ==> Passes([a, b], [Numbered(1), Numbered(0)], vals.value)
    ensures vals == Some([b.1, a.1])
  {
    assert ValueOf([a, b], Numbered(1)) == Some(b.1) && ValueOf([a, b], Numbered(0)) == Some(a.1);
    if vals.Some? {
      assert vals.value == [vals.value[0], vals.value[1]];
    }
  }
}
