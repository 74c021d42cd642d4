/** What a PostgreSQL server makes of the array text that array_out prints for strings: the reader of sections 8.15.2
    and 8.15.6 of its documentation, which skips white space around unquoted elements and takes the word NULL in any
    case for a null. */
module ServerArrays {
  import opened Sequences
  import opened Arrays

  /** NULL in any upper or lower case. */
  predicate IsNull(s: string) {
    |s| == 4 && s[0] in "Nn" && s[1] in "Uu" && s[2] in "Ll" && s[3] in "Ll"
  }

  function TrimEnd(s: string, isSpace: char -> bool): string {
    if s != "" && isSpace(s[|s| - 1]) then TrimEnd(s[..|s| - 1], isSpace) else s
  }

  function Word(s: string): Tree<string> {
    if IsNull(s) then Null else Leaf(s)
  }

  /** Unquoted elements with a backslash, which the server unescapes, are not printed and not read here. */
  function Server(isSpace: char -> bool): Reader<string> {
    Reader((s: string) => Some(s), (s: string) => Some(Word(TrimEnd(s, isSpace))), isSpace)
  }

  /** No punctuation mark and no letter of NULL is white space. */
  predicate Sensible(isSpace: char -> bool) {
    forall c :: c in "{},\"NULnul" ==> !isSpace(c)
  }

  /** How the server sees the string x. */
  function Seen(x: string): Tree<string> {
    if IsNull(x) && x != "NULL" then Null else Leaf(x)
  }

  function Out(isSpace: char -> bool): string -> string {
    (s: string) => StringOut(s, isSpace)
  }

  lemma ServerIsRegular(isSpace: char -> bool)
    requires Sensible(isSpace)
    ensures Regular(Server(isSpace))
  {
    var marks := "{},\"NULnul";
    assert marks[0] == '{' && marks[1] == '}' && marks[2] == ',' && marks[3] == '"' && marks[4] == 'N' && marks[6] == 'L';
    assert TrimEnd("NULL", isSpace) == "NULL";
  }

  lemma NullLetters(x: string, isSpace: char -> bool)
    requires Sensible(isSpace) && IsNull(x) && x != "NULL"
    ensures !NeedsQuotes(x, isSpace)
  {
    var marks := "{},\"NULnul";
    assert marks[4] == 'N' && marks[5] == 'U' && marks[6] == 'L' && marks[7] == 'n' && marks[8] == 'u' && marks[9] == 'l';
    forall c | c in x
      ensures !isSpace(c) && c !in "{},\"\\"
    {
    }
  }

  lemma StringSeen(x: string, isSpace: char -> bool)
    requires Sensible(isSpace)
    ensures LeafReads(x, Seen(x), Out(isSpace), Server(isSpace))
  {
    var rd, leafOut := Server(isSpace), Out(isSpace);
    QuotedIff(x, isSpace);
    if NeedsQuotes(x, isSpace) {
      if IsNull(x) && x != "NULL" {
        NullLetters(x, isSpace);
      }
      assert leafOut(x) == Quoted(x) && LeafOf(rd.quoted(x)) == Some(Leaf(x));
    } else {
      BareSeen(x, isSpace);
      assert leafOut(x) == x && Bare(x, rd) && rd.bare(x) == Some(Seen(x));
    }
  }

  lemma BareSeen(x: string, isSpace: char -> bool)
    requires !NeedsQuotes(x, isSpace)
    ensures Bare(x, Server(isSpace)) && Server(isSpace).bare(x) == Some(Seen(x))
  {
    var marks := "{},\"\\";
    assert marks[0] == '{' && marks[1] == '}' && marks[2] == ',' && marks[3] == '"' && marks[4] == '\\';
    assert forall i :: 0 <= i < |x| ==> x[i] in x;
    assert TrimEnd(x, isSpace) == x;
  }

  lemma {:induction false} AllSeen(v: Tree<string>, isSpace: char -> bool)
    requires Sensible(isSpace)
    ensures LeavesRead(v, Seen, Out(isSpace), Server(isSpace))
    decreases v
  {
    match v {
      case Null =>
      case Leaf(x) => StringSeen(x, isSpace);
      case List(items) =>
        forall i | 0 <= i < |items|
          ensures LeavesRead(items[i], Seen, Out(isSpace), Server(isSpace))
        {
          AllSeen(items[i], isSpace);
        }
    }
  }

  /** The server reads the list with the strings null, Null and so on, which are printed bare, as nulls. */
  lemma ServerReads(v: Tree<string>, isSpace: char -> bool)
    requires v.List? && Sensible(isSpace)
    ensures Read(ArrayOut(v, Out(isSpace)), Server(isSpace)) == Some(Image(v, Seen))
  {
    ServerIsRegular(isSpace);
    AllSeen(v, isSpace);
    PrintedReads(v, Seen, Out(isSpace), Server(isSpace));
  }

  /** No leaf is the word NULL in another case. */
  predicate NoFalseNull(v: Tree<string>) {
    match v
    case Null => true
    case Leaf(x) => !(IsNull(x) && x != "NULL")
    case List(items) => forall i :: 0 <= i < |items| ==> NoFalseNull(items[i])
  }

  lemma {:induction false} SeenAsIs(v: Tree<string>)
    ensures Image(v, Seen) == v <==> NoFalseNull(v)
  {
    match v {
      case Null =>
      case Leaf(x) =>
      case List(items) =>
        forall i | 0 <= i < |items|
          ensures Image(items[i], Seen) == items[i] <==> NoFalseNull(items[i])
        {
          SeenAsIs(items[i]);
        }
        assert Images(items, Seen) == items <==> forall i :: 0 <= i < |items| ==> Images(items, Seen)[i] == items[i];
    }
  }

  /** The server reads what was meant exactly when no string is the word NULL in another case. */
  lemma ServerRoundTripIff(v: Tree<string>, isSpace: char -> bool)
    requires v.List? && Sensible(isSpace)
    ensures Read(ArrayOut(v, Out(isSpace)), Server(isSpace)) == Some(v) <==> NoFalseNull(v)
  {
    ServerReads(v, isSpace);
    SeenAsIs(v);
  }

  /** The list of one such string, like null, is printed as the list of one null. */
  lemma FalseNull(x: string, isSpace: char -> bool)
    requires Sensible(isSpace) && IsNull(x) && x != "NULL"
    ensures ArrayOut(List([Leaf(x)]), Out(isSpace)) == "{" + x + "}"
    ensures Read("{" + x + "}", Server(isSpace)) == Some(List([Null]))
  {
    NullLetters(x, isSpace);
    QuotedIff(x, isSpace);
    var v := OneItem(x, Out(isSpace));
    ServerReads(v, isSpace);
  }

  lemma OneItem(x: string, leafOut: string -> string) returns (v: Tree<string>)
    ensures v == List([Leaf(x)]) && ArrayOut(v, leafOut) == "{" + leafOut(x) + "}" && Image(v, Seen) == List([Seen(x)])
  {
    v := List([Leaf(x)]);
    var items: seq<Tree<string>> := [Leaf(x)];
    assert ItemsOut(items, leafOut) == leafOut(x);
    assert Images([Leaf(x)], Seen) == [Seen(x)];
  }
}
