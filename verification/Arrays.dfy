/** PostgreSQL array text: array_out and _parse_array of pg8000/converters.py
    (section 8.15.6 of the PostgreSQL documentation). */
module Arrays {
  import opened Sequences
  import opened Text

  /** A nested list with leaves of one type; Null is Python's None. */
  datatype Tree<+T> = Null | Leaf(value: T) | List(items: seq<Tree<T>>)

  // ---- Printing ----

  /** The characters of v, each backslash and quote preceded by a backslash. */
  function Escaped(v: string): string {
    if v == "" then ""
    else (if v[0] == '\\' || v[0] == '"' then ['\\'] else "") + [v[0]] + Escaped(v[1..])
  }

  /** array_string_escape. isSpace is str.isspace, of which nothing is assumed. */
  method ArrayStringEscape(v: string, isSpace: char -> bool) returns (val: string)
    ensures val == StringOut(v, isSpace)
    ensures val == if NeedsQuotes(v, isSpace) then "\"" + Escaped(v) + "\"" else v
  {
    QuotedIff(v, isSpace);
    val := EscapeAll(v);
    if |val| == 0 || val == "NULL" || (exists i :: 0 <= i < |val| && isSpace(val[i]))
       || '{' in val || '}' in val || ',' in val || '\\' in val {
      val := "\"" + val + "\"";
    }
  }

  lemma {:induction false} EscapedSnoc(s: string, c: char)
    ensures Escaped(s + [c]) == Escaped(s) + (if c == '\\' || c == '"' then ['\\', c] else [c])
  {
    if s == "" {
      assert [c][1..] == "";
      assert "" + [c] == [c];
    } else {
      EscapedSnoc(s[1..], c);
      assert (s + [c])[1..] == s[1..] + [c];
    }
  }

  /** The loop of array_string_escape. */
  method EscapeAll(v: string) returns (cs: string)
    ensures cs == Escaped(v)
  {
    cs := "";
    for i := 0 to |v|
      invariant cs == Escaped(v[..i])
    {
      var c := v[i];
      EscapedSnoc(v[..i], c);
      assert v[..i + 1] == v[..i] + [c];
      if c == '\\' {
        cs := cs + ['\\'];
      } else if c == '"' {
        cs := cs + ['\\'];
      }
      cs := cs + [c];
    }
    assert v[..|v|] == v;
  }

  /** The texts that section 8.15.6 wants in quotes. */
  ghost predicate NeedsQuotes(v: string, isSpace: char -> bool) {
    v == "" || v == "NULL" || exists c :: c in v && (isSpace(c) || c in "{},\"\\")
  }

  predicate MustQuote(val: string, isSpace: char -> bool) {
    || |val| == 0 || val == "NULL" || (exists i :: 0 <= i < |val| && isSpace(val[i]))
    || '{' in val || '}' in val || ',' in val || '\\' in val
  }

  function Quoted(text: string): string {
    "\"" + Escaped(text) + "\""
  }

  function StringOut(v: string, isSpace: char -> bool): string {
    if MustQuote(Escaped(v), isSpace) then Quoted(v) else Escaped(v)
  }

  lemma {:induction false} EscapedKeeps(s: string)
    ensures forall c :: c in s ==> c in Escaped(s)
    ensures forall c :: c in Escaped(s) ==> c in s || (c == '\\' && '"' in s)
    decreases |s|
  {
    if s != "" {
      EscapedKeeps(s[1..]);
      assert s == [s[0]] + s[1..];
    }
  }

  /** Quotes are put around exactly these texts; any other is printed as it is. */
  lemma QuotedIff(v: string, isSpace: char -> bool)
    ensures StringOut(v, isSpace) == if NeedsQuotes(v, isSpace) then "\"" + Escaped(v) + "\"" else v
  {
    EscapedKeeps(v);
    EscapedShows(v);
    if '\\' !in v && '"' !in v {
      EscapedPlain(v);
      PlainNeedsQuotes(v, isSpace);
    } else {
      var c := if '"' in v then '"' else '\\';
      assert c in v && c in "{},\"\\";
    }
  }

  lemma PlainNeedsQuotes(v: string, isSpace: char -> bool)
    requires '\\' !in v && '"' !in v
    ensures MustQuote(v, isSpace) <==> NeedsQuotes(v, isSpace)
  {
    if i :| 0 <= i < |v| && isSpace(v[i]) {
      assert v[i] in v;
    }
    assert '{' in "{},\"\\" && '}' in "{},\"\\" && ',' in "{},\"\\";
    if c :| c in v && (isSpace(c) || c in "{},\"\\") {
      var i :| 0 <= i < |v| && v[i] == c;
    }
  }

  /** array_out on bytes: the bytea text with its one backslash doubled, in quotes. */
  function BytesOut(v: seq<Byte>): string {
    "\"\\" + BytesText(v) + "\""
  }

  /** bytes_out. */
  function BytesText(v: seq<Byte>): string {
    "\\x" + Hex(v)
  }

  /** bytes_in. */
  function BytesIn(data: string): Option<seq<Byte>> {
    FromHex(if |data| >= 2 then data[2..] else "")
  }

  /** array_out with the printer of the leaf type. */
  function ArrayOut<T>(v: Tree<T>, leafOut: T -> string): string
    decreases v, 0
  {
    match v
    case Null => "NULL"
    case Leaf(x) => leafOut(x)
    case List(items) => "{" + ItemsOut(items, leafOut) + "}"
  }

  /** ",".join of the printed items. */
  function ItemsOut<T>(items: seq<Tree<T>>, leafOut: T -> string): string
    decreases items
  {
    if items == [] then ""
    else if |items| == 1 then ArrayOut(items[0], leafOut)
    else ArrayOut(items[0], leafOut) + "," + ItemsOut(items[1..], leafOut)
  }

  function Texts<T>(items: seq<Tree<T>>, leafOut: T -> string): (r: seq<string>)
    ensures |r| == |items| && forall i :: 0 <= i < |items| ==> r[i] == ArrayOut(items[i], leafOut)
  {
    seq(|items|, i requires 0 <= i < |items| => ArrayOut(items[i], leafOut))
  }

  /** A list is its items' texts, joined by commas in braces. */
  lemma {:induction false} ListText<T>(items: seq<Tree<T>>, leafOut: T -> string)
    ensures ArrayOut(List(items), leafOut) == "{" + Join(',', Texts(items, leafOut)) + "}"
    decreases |items|
  {
    if |items| > 1 {
      ListText(items[1..], leafOut);
      assert Texts(items, leafOut)[1..] == Texts(items[1..], leafOut);
      InBraces(ItemsOut(items[1..], leafOut), Join(',', Texts(items[1..], leafOut)));
    }
  }

  lemma InBraces(a: string, b: string)
    requires "{" + a + "}" == "{" + b + "}"
    ensures a == b
  {
    assert ("{" + a + "}")[1..|a| + 1] == a && ("{" + b + "}")[1..|b| + 1] == b;
  }

  // ---- Parsing ----

  datatype Mode = InString | InEscape | InValue | Out

  /** The parser's variables. stack holds the contents of the open lists, outermost first; a list joins its
      parent when it is closed, where the source lets parent and stack share one list object. */
  datatype State<+T> = State(mode: Mode, stack: seq<seq<Tree<T>>>, val: string)

  /** stack[-1].append(v). */
  function Append<T>(stack: seq<seq<Tree<T>>>, v: Tree<T>): Option<seq<seq<Tree<T>>>> {
    if stack == [] then None
    else Some(stack[..|stack| - 1] + [stack[|stack| - 1] + [v]])
  }

  /** stack.pop(). */
  function Close<T>(stack: seq<seq<Tree<T>>>): Option<seq<seq<Tree<T>>>> {
    if stack == [] then None
    else if |stack| == 1 then Some([])
    else Append(stack[..|stack| - 1], List(stack[|stack| - 1]))
  }

  function AppendTree<T>(st: State<T>, value: Option<Tree<T>>): Option<State<T>> {
    match value
    case None => None
    case Some(v) =>
      match Append(st.stack, v)
      case None => None
      case Some(s) => Some(State(Out, s, st.val))
  }

  /** What a reader of array text makes of a text in quotes and of a bare word, and which characters it skips
      outside of both. None is an error. */
  datatype Reader<T> = Reader(quoted: string -> Option<T>, bare: string -> Option<Tree<T>>, skips: char -> bool)

  function LeafOf<T>(x: Option<T>): Option<Tree<T>> {
    match x case None => None case Some(y) => Some(Leaf(y))
  }

  /** _parse_array: NULL is None, everything else goes through the adapter, and nothing is skipped. */
  function Driver<T>(adapter: string -> Option<T>): Reader<T> {
    Reader(adapter, (s: string) => if s == "NULL" then Some(Null) else LeafOf(adapter(s)), (c: char) => false)
  }

  /** The first `if`: a bare value ends at a brace or comma. */
  function EndValue<T>(st: State<T>, c: char, rd: Reader<T>): Option<State<T>> {
    if st.mode != InValue then Some(st)
    else if c == '}' || c == ',' then AppendTree(st, rd.bare(st.val))
    else Some(st.(val := st.val + [c]))
  }

  /** The second `if` with its alternatives. A brace or a value that comes after the outermost list was
      popped is an IndexError. */
  function Dispatch<T>(st: State<T>, c: char, rd: Reader<T>): Option<State<T>> {
    match st.mode
    case Out =>
      if rd.skips(c) then Some(st)
      else if c == '{' then (if st.stack == [] then None else Some(st.(stack := st.stack + [[]])))
      else if c == '}' then
        match Close(st.stack)
        case None => None
        case Some(s) => Some(st.(stack := s))
      else if c == ',' then Some(st)
      else if c == '"' then Some(State(InString, st.stack, ""))
      else Some(State(InValue, st.stack, [c]))
    case InString =>
      if c == '"' then AppendTree(st, LeafOf(rd.quoted(st.val)))
      else if c == '\\' then Some(st.(mode := InEscape))
      else Some(st.(val := st.val + [c]))
    case InEscape => Some(State(InString, st.stack, st.val + [c]))
    case InValue => Some(st)
  }

  function Step<T>(st: State<T>, c: char, rd: Reader<T>): Option<State<T>> {
    match EndValue(st, c, rd)
    case None => None
    case Some(s) => Dispatch(s, c, rd)
  }

  function Run<T>(st: State<T>, data: string, rd: Reader<T>): Option<State<T>>
    decreases |data|
  {
    if data == "" then Some(st)
    else
      match Step(st, data[0], rd)
      case None => None
      case Some(s) => Run(s, data[1..], rd)
  }

  /** The contents of the outermost list once every list still open has joined its parent. */
  function Collapse<T>(stack: seq<seq<Tree<T>>>): (base: seq<Tree<T>>)
    requires stack != []
    decreases |stack|
  {
    if |stack| == 1 then stack[0]
    else Collapse(Append(stack[..|stack| - 1], List(stack[|stack| - 1])).value)
  }

  /** stack[0][0]; None stands for the IndexError. */
  function Result<T>(stack: seq<seq<Tree<T>>>): Option<Tree<T>> {
    if stack == [] || Collapse(stack) == [] then None else Some(Collapse(stack)[0])
  }

  function Read<T>(data: string, rd: Reader<T>): Option<Tree<T>> {
    match Run(State(Out, [[]], ""), data, rd)
    case None => None
    case Some(st) => Result(st.stack)
  }

  function Parse<T>(data: string, adapter: string -> Option<T>): Option<Tree<T>> {
    Read(data, Driver(adapter))
  }

  /** _parse_array; None stands for an error. The loop is the run of the state machine. */
  method ParseArray<T>(data: string, adapter: string -> Option<T>) returns (r: Option<Tree<T>>)
    ensures r == Parse(data, adapter)
  {
    var rd := Driver(adapter);
    var st: State<T> := State(Out, [[]], "");
    for i := 0 to |data|
      invariant Run(State(Out, [[]], ""), data, rd) == Run(st, data[i..], rd)
    {
      assert data[i..][1..] == data[i + 1..];
      match Step(st, data[i], rd)
      case None => return None;
      case Some(s) => st := s;
    }
    r := Result(st.stack);
  }

  // ---- Round trip ----

  lemma {:induction false} RunAppend<T>(st: State<T>, a: string, b: string, rd: Reader<T>)
    ensures Run(st, a + b, rd) ==
            match Run(st, a, rd) case None => None case Some(s) => Run(s, b, rd)
    decreases |a|
  {
    if a == "" {
      assert a + b == b;
    } else {
      assert (a + b)[1..] == a[1..] + b;
      match Step(st, a[0], rd)
      case None =>
      case Some(s) => RunAppend(s, a[1..], b, rd);
    }
  }

  /** Reading escaped text inside quotes recovers the text. */
  lemma {:induction false} RunEscaped<T>(st: State<T>, text: string, rd: Reader<T>)
    requires st.mode == InString
    ensures Run(st, Escaped(text), rd) == Some(State(InString, st.stack, st.val + text))
    decreases |text|
  {
    if text == "" {
      assert st.val + text == st.val;
    } else {
      var c := text[0];
      var rest := Escaped(text[1..]);
      var st1 := State(InString, st.stack, st.val + [c]);
      assert st1.val + text[1..] == st.val + text;
      if c == '\\' || c == '"' {
        assert Escaped(text) == ['\\'] + ([c] + rest);
        assert Escaped(text)[1..] == [c] + rest;
        assert ([c] + rest)[1..] == rest;
      } else {
        assert Escaped(text) == [c] + rest;
        assert Escaped(text)[1..] == rest;
      }
      RunEscaped(st1, text[1..], rd);
    }
  }

  /** A bare word: the reader takes it as one value. */
  ghost predicate Bare<T>(s: string, rd: Reader<T>) {
    && s != "" && !rd.skips(s[0])
    && forall i :: 0 <= i < |s| ==> s[i] != '{' && s[i] != '}' && s[i] != ',' && s[i] != '"' && s[i] != '\\'
  }

  /** The reader knows the punctuation and the word NULL. */
  ghost predicate Regular<T>(rd: Reader<T>) {
    && !rd.skips('{') && !rd.skips('}') && !rd.skips(',') && !rd.skips('"')
    && Bare("NULL", rd) && rd.bare("NULL") == Some(Null)
  }

  lemma {:induction false} RunWord<T>(st: State<T>, word: string, rd: Reader<T>)
    requires st.mode == InValue && forall i :: 0 <= i < |word| ==> word[i] != '}' && word[i] != ','
    ensures Run(st, word, rd) == Some(State(InValue, st.stack, st.val + word))
    decreases |word|
  {
    if word == "" {
      assert st.val + word == st.val;
    } else {
      RunWord(st.(val := st.val + [word[0]]), word[1..], rd);
      assert st.val + [word[0]] + word[1..] == st.val + word;
    }
  }

  /** After a printed value and the separator c, the parser is outside any value and has stored the value. */
  ghost predicate Stores<T>(r: Option<State<T>>, stack: seq<seq<Tree<T>>>, v: Tree<T>, c: char) {
    && r.Some? && r.value.mode == Out && stack != []
    && (c == ',' ==> Append(stack, v) == Some(r.value.stack))
    && (c == '}' ==> Close(Append(stack, v).value) == Some(r.value.stack))
  }

  lemma RunOne<T>(st: State<T>, c: char, rest: string, rd: Reader<T>)
    ensures Run(st, [c] + rest, rd) ==
            match Step(st, c, rd) case None => None case Some(s) => Run(s, rest, rd)
    ensures Run(st, [c], rd) == Step(st, c, rd)
  {
    assert ([c] + rest)[1..] == rest;
    assert [c][1..] == "";
  }

  /** A separator read outside values. */
  lemma StoresThen<T>(st: State<T>, stack: seq<seq<Tree<T>>>, v: Tree<T>, c: char, rd: Reader<T>)
    requires stack != [] && Append(stack, v) == Some(st.stack) && st.mode == Out && (c == ',' || c == '}') && Regular(rd)
    ensures Stores(Step(st, c, rd), stack, v, c)
  {
  }

  lemma StoresQuoted<T>(st: State<T>, text: string, x: T, c: char, rd: Reader<T>)
    requires st.mode == Out && st.stack != [] && (c == ',' || c == '}') && Regular(rd) && rd.quoted(text) == Some(x)
    ensures Stores(Run(st, Quoted(text) + [c], rd), st.stack, Leaf(x), c)
  {
    var st1, st2: State<T> := State(InString, st.stack, ""), State(InString, st.stack, text);
    var st3: State<T> := State(Out, Append(st.stack, Leaf(x)).value, text);
    assert Quoted(text) + [c] == ['"'] + (Escaped(text) + (['"'] + [c]));
    RunOne(st, '"', Escaped(text) + (['"'] + [c]), rd);
    RunAppend(st1, Escaped(text), ['"'] + [c], rd);
    RunEscaped(st1, text, rd);
    assert "" + text == text;
    RunOne(st2, '"', [c], rd);
    RunOne(st3, c, "", rd);
    StoresThen(st3, st.stack, Leaf(x), c, rd);
  }

  lemma EndOfWord<T>(st: State<T>, v: Tree<T>, c: char, rd: Reader<T>)
    requires st.mode == InValue && st.stack != [] && (c == ',' || c == '}') && Regular(rd)
    requires rd.bare(st.val) == Some(v)
    ensures Stores(Step(st, c, rd), st.stack, v, c)
  {
    var st1: State<T> := State(Out, Append(st.stack, v).value, st.val);
    StoresThen(st1, st.stack, v, c, rd);
  }

  lemma RunWholeWord<T>(st: State<T>, word: string, c: char, rd: Reader<T>)
    requires st.mode == Out && st.stack != [] && Bare(word, rd)
    ensures Run(st, word + [c], rd) == Run(State(InValue, st.stack, word), [c], rd)
  {
    var st1: State<T> := State(InValue, st.stack, [word[0]]);
    assert word + [c] == [word[0]] + (word[1..] + [c]);
    RunOne(st, word[0], word[1..] + [c], rd);
    RunWord(st1, word[1..], rd);
    assert [word[0]] + word[1..] == word;
    RunAppend(st1, word[1..], [c], rd);
  }

  lemma StoresWord<T>(st: State<T>, word: string, v: Tree<T>, c: char, rd: Reader<T>)
    requires st.mode == Out && st.stack != [] && (c == ',' || c == '}') && Regular(rd)
    requires Bare(word, rd) && rd.bare(word) == Some(v)
    ensures Stores(Run(st, word + [c], rd), st.stack, v, c)
  {
    var st2: State<T> := State(InValue, st.stack, word);
    RunWholeWord(st, word, c, rd);
    RunOne(st2, c, "", rd);
    EndOfWord(st2, v, c, rd);
  }

  /** The leaf x is printed as quoted text or as a bare word that the reader takes for y. */
  ghost predicate LeafReads<T>(x: T, y: Tree<T>, leafOut: T -> string, rd: Reader<T>) {
    exists text ::
      || (leafOut(x) == Quoted(text) && LeafOf(rd.quoted(text)) == Some(y))
      || (leafOut(x) == text && Bare(text, rd) && rd.bare(text) == Some(y))
  }

  ghost predicate LeavesRead<T>(v: Tree<T>, image: T -> Tree<T>, leafOut: T -> string, rd: Reader<T>) {
    match v
    case Null => true
    case Leaf(x) => LeafReads(x, image(x), leafOut, rd)
    case List(items) => forall i :: 0 <= i < |items| ==> LeavesRead(items[i], image, leafOut, rd)
  }

  /** v with every leaf replaced by its image. */
  function Image<T>(v: Tree<T>, image: T -> Tree<T>): Tree<T>
    decreases v, 0
  {
    match v case Null => Null case Leaf(x) => image(x) case List(items) => List(Images(items, image))
  }

  function Images<T>(items: seq<Tree<T>>, image: T -> Tree<T>): (r: seq<Tree<T>>)
    ensures |r| == |items| && forall i :: 0 <= i < |items| ==> r[i] == Image(items[i], image)
    decreases items
  {
    if items == [] then [] else [Image(items[0], image)] + Images(items[1..], image)
  }

  lemma {:induction false} StoresValue<T>(st: State<T>, v: Tree<T>, c: char, image: T -> Tree<T>, leafOut: T -> string, rd: Reader<T>)
    requires st.mode == Out && st.stack != [] && (c == ',' || c == '}') && Regular(rd)
    requires LeavesRead(v, image, leafOut, rd)
    ensures Stores(Run(st, ArrayOut(v, leafOut) + [c], rd), st.stack, Image(v, image), c)
    decreases v, 1
  {
    match v {
      case Null => StoresWord(st, "NULL", v, c, rd);
      case Leaf(x) => StoresLeaf(st, x, image(x), c, leafOut, rd);
      case List(items) =>
        var body := ItemsOut(items, leafOut) + "}";
        var st1 := st.(stack := st.stack + [[]]);
        assert ArrayOut(v, leafOut) + [c] == ['{'] + (body + [c]);
        RunOne(st, '{', body + [c], rd);
        StoresItems(st1, st.stack, [], items, image, leafOut, rd);
        assert [] + Images(items, image) == Images(items, image);
        RunAppend(st1, body, [c], rd);
        var r := Run(st1, body, rd).value;
        RunOne(r, c, "", rd);
        StoresThen(r, st.stack, Image(v, image), c, rd);
    }
  }

  lemma StoresLeaf<T>(st: State<T>, x: T, y: Tree<T>, c: char, leafOut: T -> string, rd: Reader<T>)
    requires st.mode == Out && st.stack != [] && (c == ',' || c == '}') && Regular(rd) && LeafReads(x, y, leafOut, rd)
    ensures Stores(Run(st, leafOut(x) + [c], rd), st.stack, y, c)
  {
    var text :|
      || (leafOut(x) == Quoted(text) && LeafOf(rd.quoted(text)) == Some(y))
      || (leafOut(x) == text && Bare(text, rd) && rd.bare(text) == Some(y));
    if leafOut(x) == Quoted(text) && LeafOf(rd.quoted(text)) == Some(y) {
      StoresQuoted(st, text, rd.quoted(text).value, c, rd);
    } else {
      StoresWord(st, text, y, c, rd);
    }
  }

  /** Reading the items and the closing brace completes the innermost open list. */
  lemma {:induction false} StoresItems<T>(st: State<T>, outer: seq<seq<Tree<T>>>, done: seq<Tree<T>>, items: seq<Tree<T>>,
                                         image: T -> Tree<T>, leafOut: T -> string, rd: Reader<T>)
    requires st.mode == Out && outer != [] && st.stack == outer + [done] && Regular(rd)
    requires forall i :: 0 <= i < |items| ==> LeavesRead(items[i], image, leafOut, rd)
    ensures var r := Run(st, ItemsOut(items, leafOut) + "}", rd);
            r.Some? && r.value.mode == Out && Some(r.value.stack) == Append(outer, List(done + Images(items, image)))
    decreases items, 0
  {
    ItemsText(items, leafOut);
    if items == [] {
      NoItems(st, outer, done, rd);
      assert done + Images(items, image) == done;
    } else if |items| == 1 {
      StoresValue(st, items[0], '}', image, leafOut, rd);
      LastItem(st, outer, done, items[0], Image(items[0], image), leafOut, rd);
      assert Images(items, image) == [Image(items[0], image)];
    } else {
      var y := Image(items[0], image);
      StoresValue(st, items[0], ',', image, leafOut, rd);
      var r := FirstItem(st, outer, done, items, y, leafOut, rd);
      StoresItems(r, outer, done + [y], items[1..], image, leafOut, rd);
      assert done + [y] + Images(items[1..], image) == done + Images(items, image);
    }
  }

  lemma ItemsText<T>(items: seq<Tree<T>>, leafOut: T -> string)
    ensures |items| == 0 ==> ItemsOut(items, leafOut) + "}" == ['}']
    ensures |items| == 1 ==> ItemsOut(items, leafOut) + "}" == ArrayOut(items[0], leafOut) + ['}']
  {
  }

  lemma NoItems<T>(st: State<T>, outer: seq<seq<Tree<T>>>, done: seq<Tree<T>>, rd: Reader<T>)
    requires st.mode == Out && outer != [] && st.stack == outer + [done] && Regular(rd)
    ensures var r := Run(st, ['}'], rd);
            r.Some? && r.value.mode == Out && Some(r.value.stack) == Append(outer, List(done))
  {
    assert st.stack[..|st.stack| - 1] == outer;
    RunOne(st, '}', "", rd);
  }

  lemma LastItem<T>(st: State<T>, outer: seq<seq<Tree<T>>>, done: seq<Tree<T>>, v: Tree<T>, y: Tree<T>,
                    leafOut: T -> string, rd: Reader<T>)
    requires outer != [] && st.stack == outer + [done]
    requires Stores(Run(st, ArrayOut(v, leafOut) + ['}'], rd), st.stack, y, '}')
    ensures var r := Run(st, ArrayOut(v, leafOut) + ['}'], rd);
            r.Some? && r.value.mode == Out && Some(r.value.stack) == Append(outer, List(done + [y]))
  {
    AppendInner(outer, done, y);
  }

  /** The state after the first item and its comma, from which the rest is read. */
  lemma FirstItem<T>(st: State<T>, outer: seq<seq<Tree<T>>>, done: seq<Tree<T>>, items: seq<Tree<T>>, y: Tree<T>,
                     leafOut: T -> string, rd: Reader<T>) returns (r: State<T>)
    requires st.stack == outer + [done] && |items| > 1
    requires Stores(Run(st, ArrayOut(items[0], leafOut) + [','], rd), st.stack, y, ',')
    ensures Run(st, ItemsOut(items, leafOut) + "}", rd) == Run(r, ItemsOut(items[1..], leafOut) + "}", rd)
    ensures r.mode == Out && r.stack == outer + [done + [y]]
  {
    AppendInner(outer, done, y);
    var first, rest := ArrayOut(items[0], leafOut) + [','], ItemsOut(items[1..], leafOut) + "}";
    assert ItemsOut(items, leafOut) + "}" == first + rest;
    RunAppend(st, first, rest, rd);
    r := Run(st, first, rd).value;
  }

  lemma AppendInner<T>(outer: seq<seq<Tree<T>>>, done: seq<Tree<T>>, v: Tree<T>)
    ensures Append(outer + [done], v) == Some(outer + [done + [v]])
    ensures outer != [] ==> Close(outer + [done + [v]]) == Append(outer, List(done + [v]))
  {
    var s := outer + [done];
    assert s[..|s| - 1] == outer;
    var t := outer + [done + [v]];
    assert t[..|t| - 1] == outer;
  }

  /** Reading what array_out prints gives the list with every leaf as the reader takes it. */
  lemma PrintedReads<T>(v: Tree<T>, image: T -> Tree<T>, leafOut: T -> string, rd: Reader<T>)
    requires v.List? && LeavesRead(v, image, leafOut, rd) && Regular(rd)
    ensures Read(ArrayOut(v, leafOut), rd) == Some(Image(v, image))
  {
    var st: State<T> := State(Out, [[]], "");
    var out := ArrayOut(v, leafOut);
    var st1 := st.(stack := [[], []]);
    assert st.stack + [[]] == [[], []];
    assert out == ['{'] + (ItemsOut(v.items, leafOut) + "}");
    RunOne(st, '{', ItemsOut(v.items, leafOut) + "}", rd);
    StoresItems(st1, [[]], [], v.items, image, leafOut, rd);
    assert [] + Images(v.items, image) == Images(v.items, image);
  }

  // ---- The driver's own reader ----

  /** Printer and reader of one leaf type fit together: the leaf is printed as quoted text or as a bare word
      that the adapter turns back into it. */
  ghost predicate LeafFits<T>(x: T, leafOut: T -> string, adapter: string -> Option<T>) {
    exists text :: adapter(text) == Some(x) &&
      (leafOut(x) == Quoted(text) || (leafOut(x) == text && text != "NULL" && Bare(text, Driver(adapter))))
  }

  ghost predicate LeavesFit<T>(v: Tree<T>, leafOut: T -> string, adapter: string -> Option<T>) {
    match v
    case Null => true
    case Leaf(x) => LeafFits(x, leafOut, adapter)
    case List(items) => forall i :: 0 <= i < |items| ==> LeavesFit(items[i], leafOut, adapter)
  }

  lemma {:induction false} FittingReads<T>(v: Tree<T>, leafOut: T -> string, adapter: string -> Option<T>)
    requires LeavesFit(v, leafOut, adapter)
    ensures LeavesRead(v, (x: T) => Leaf(x), leafOut, Driver(adapter))
    ensures Image(v, (x: T) => Leaf(x)) == v
  {
    match v {
      case Null =>
      case Leaf(x) => FittingLeaf(x, leafOut, adapter);
      case List(items) =>
        forall i | 0 <= i < |items|
          ensures LeavesRead(items[i], (x: T) => Leaf(x), leafOut, Driver(adapter))
          ensures Image(items[i], (x: T) => Leaf(x)) == items[i]
        {
          FittingReads(items[i], leafOut, adapter);
        }
        assert Images(items, (x: T) => Leaf(x)) == items;
    }
  }

  lemma FittingLeaf<T>(x: T, leafOut: T -> string, adapter: string -> Option<T>)
    requires LeafFits(x, leafOut, adapter)
    ensures LeafReads(x, Leaf(x), leafOut, Driver(adapter))
  {
    var text :| adapter(text) == Some(x) &&
      (leafOut(x) == Quoted(text) || (leafOut(x) == text && text != "NULL" && Bare(text, Driver(adapter))));
    var rd := Driver(adapter);
    assert rd.quoted(text) == Some(x);
    assert text != "NULL" ==> rd.bare(text) == Some(Leaf(x));
  }

  /** Parsing what array_out prints gives the list back, whatever its nesting and leaves. */
  lemma RoundTrip<T>(v: Tree<T>, leafOut: T -> string, adapter: string -> Option<T>)
    requires v.List? && LeavesFit(v, leafOut, adapter)
    ensures Parse(ArrayOut(v, leafOut), adapter) == Some(v)
  {
    FittingReads(v, leafOut, adapter);
    PrintedReads(v, (x: T) => Leaf(x), leafOut, Driver(adapter));
  }

  // ---- The three leaf types ----

  lemma {:induction false} EscapedPlain(s: string)
    requires '\\' !in s && '"' !in s
    ensures Escaped(s) == s
    decreases |s|
  {
    if s != "" {
      EscapedPlain(s[1..]);
      assert s == [s[0]] + s[1..];
    }
  }

  lemma {:induction false} EscapedShows(s: string)
    ensures '\\' in s || '"' in s ==> '\\' in Escaped(s)
    decreases |s|
  {
    if s != "" {
      EscapedShows(s[1..]);
      assert s == [s[0]] + s[1..];
    }
  }

  /** Strings: any text at all, the word NULL, the empty string, quotes, backslashes, braces and commas included. */
  lemma StringFits(x: string, isSpace: char -> bool)
    ensures LeafFits(x, (s: string) => StringOut(s, isSpace), (s: string) => Some(s))
  {
    var adapter := (s: string) => Some(s);
    assert adapter(x) == Some(x);
    if !MustQuote(Escaped(x), isSpace) {
      EscapedShows(x);
      EscapedPlain(x);
      assert Bare(x, Driver(adapter)) by {
        assert forall i :: 0 <= i < |x| ==> x[i] in x;
      }
    }
  }

  lemma IntFits(n: int)
    ensures LeafFits(n, (x: int) => IntText(x), (s: string) => ParseInt(s))
  {
    var s := IntText(n);
    ParseIntText(n);
    IntTextChars(n);
    var adapter := (s: string) => ParseInt(s);
    assert Bare(s, Driver(adapter)) by {
      assert IsDigit(s[0]) || s[0] == '-';
      assert "NULL"[0] == 'N';
    }
    assert adapter(s) == Some(n);
  }

  lemma BytesFit(v: seq<Byte>)
    ensures LeafFits(v, (x: seq<Byte>) => BytesOut(x), (s: string) => BytesIn(s))
  {
    var adapter := (s: string) => BytesIn(s);
    BytesBack(v);
    BytesQuoted(v);
    assert adapter(BytesText(v)) == Some(v);
  }

  /** In an array, bytes are a quote, two backslashes, an x, two hexadecimal digits a byte, and a quote. */
  lemma BytesShown(v: seq<Byte>, i: nat)
    requires i < |v|
    ensures BytesOut(v) == "\"\\\\x" + Hex(v) + "\""
    ensures |BytesOut(v)| == 2 * |v| + 5
    ensures BytesOut(v)[4 + 2 * i] == "0123456789abcdef"[v[i] / 16] && BytesOut(v)[5 + 2 * i] == "0123456789abcdef"[v[i] % 16]
  {
    HexDigits(v, i);
    BytesTextIs(Hex(v));
  }

  lemma BytesTextIs(hex: string)
    ensures "\"\\" + ("\\x" + hex) + "\"" == "\"\\\\x" + hex + "\""
  {
  }

  lemma BytesBack(v: seq<Byte>)
    ensures BytesIn(BytesText(v)) == Some(v)
  {
    FromHexOfHex(v);
    assert BytesText(v)[2..] == Hex(v);
  }

  lemma HexIsPlain(v: seq<Byte>)
    ensures '\\' !in Hex(v) && '"' !in Hex(v)
  {
    HexChars(v);
  }

  lemma QuotedHex(hex: string)
    requires '\\' !in hex && '"' !in hex
    ensures "\"\\" + ("\\x" + hex) + "\"" == Quoted("\\x" + hex)
  {
    EscapedPlain("x" + hex);
    EscapedBackslash("x" + hex);
    assert "\\x" + hex == ['\\'] + ("x" + hex);
    assert "\"\\" + ("\\x" + hex) == "\"" + (['\\', '\\'] + ("x" + hex));
  }

  lemma BytesQuoted(v: seq<Byte>)
    ensures BytesOut(v) == Quoted(BytesText(v))
  {
    HexIsPlain(v);
    QuotedHex(Hex(v));
  }

  lemma EscapedBackslash(t: string)
    ensures Escaped(['\\'] + t) == ['\\', '\\'] + Escaped(t)
  {
    assert (['\\'] + t)[1..] == t;
    assert ['\\'] + ['\\'] + Escaped(t) == ['\\', '\\'] + Escaped(t);
  }

  lemma {:induction false} AllStringsFit(v: Tree<string>, isSpace: char -> bool)
    ensures LeavesFit(v, (s: string) => StringOut(s, isSpace), (s: string) => Some(s))
    decreases v
  {
    match v {
      case Null =>
      case Leaf(x) => StringFits(x, isSpace);
      case List(items) =>
        forall i | 0 <= i < |items|
          ensures LeavesFit(items[i], (s: string) => StringOut(s, isSpace), (s: string) => Some(s))
        {
          AllStringsFit(items[i], isSpace);
        }
    }
  }

  lemma {:induction false} AllIntsFit(v: Tree<int>)
    ensures LeavesFit(v, (x: int) => IntText(x), (s: string) => ParseInt(s))
    decreases v
  {
    match v {
      case Null =>
      case Leaf(x) => IntFits(x);
      case List(items) =>
        forall i | 0 <= i < |items|
          ensures LeavesFit(items[i], (x: int) => IntText(x), (s: string) => ParseInt(s))
        {
          AllIntsFit(items[i]);
        }
    }
  }

  lemma {:induction false} AllBytesFit(v: Tree<seq<Byte>>)
    ensures LeavesFit(v, (x: seq<Byte>) => BytesOut(x), (s: string) => BytesIn(s))
    decreases v
  {
    match v {
      case Null =>
      case Leaf(x) => BytesFit(x);
      case List(items) =>
        forall i | 0 <= i < |items|
          ensures LeavesFit(items[i], (x: seq<Byte>) => BytesOut(x), (s: string) => BytesIn(s))
        {
          AllBytesFit(items[i]);
        }
    }
  }

  lemma StringRoundTrip(v: Tree<string>, isSpace: char -> bool)
    requires v.List?
    ensures Parse(ArrayOut(v, (s: string) => StringOut(s, isSpace)), (s: string) => Some(s)) == Some(v)
  {
    AllStringsFit(v, isSpace);
    RoundTrip(v, (s: string) => StringOut(s, isSpace), (s: string) => Some(s));
  }

  lemma IntRoundTrip(v: Tree<int>)
    requires v.List?
    ensures Parse(ArrayOut(v, (x: int) => IntText(x)), (s: string) => ParseInt(s)) == Some(v)
  {
    AllIntsFit(v);
    RoundTrip(v, (x: int) => IntText(x), (s: string) => ParseInt(s));
  }

  lemma BytesRoundTrip(v: Tree<seq<Byte>>)
    requires v.List?
    ensures Parse(ArrayOut(v, (x: seq<Byte>) => BytesOut(x)), (s: string) => BytesIn(s)) == Some(v)
  {
    AllBytesFit(v);
    RoundTrip(v, (x: seq<Byte>) => BytesOut(x), (s: string) => BytesIn(s));
  }
}
