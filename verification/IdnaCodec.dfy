/** The incremental IDNA encoder and decoder of idna/codec.py. How one label is translated is a parameter:
    alabel for the encoder, ulabel for the decoder. */
module IdnaCodec {
  import opened Sequences
  import opened Text

  /** Translates one label; None is an IDNAError. */
  type Label = string -> Option<string>

  /** The label separators of section 3.1 of RFC 3490. */
  predicate IsDot(c: char) {
    c == '.' || c == '\U{3002}' || c == '\U{FF0E}' || c == '\U{FF61}'
  }

  function FirstDot(s: string): (i: nat)
    ensures i <= |s| && (i < |s| ==> IsDot(s[i])) && forall k :: 0 <= k < i ==> !IsDot(s[k])
  {
    if s == [] || IsDot(s[0]) then 0 else 1 + FirstDot(s[1..])
  }

  /** _unicode_dots_re.split(s). */
  function SplitDots(s: string): (r: seq<string>)
    ensures r != []
    decreases |s|
  {
    if FirstDot(s) == |s| then [s] else [s[..FirstDot(s)]] + SplitDots(s[FirstDot(s) + 1..])
  }

  predicate IsAscii(s: string) {
    forall i :: 0 <= i < |s| ==> s[i] as int < 128
  }

  // ---- What the translation of a text is ----

  function Plus(a: Option<string>, b: Option<string>): Option<string> {
    if a.None? || b.None? then None else Some(a.value + b.value)
  }

  /** Every label that a dot ends is translated and followed by a full stop; what follows the last dot is
      translated only if the text is final. None where a label is refused. */
  function Translate(conv: Label, s: string, final: bool): Option<string>
    decreases |s|
  {
    var i := FirstDot(s);
    if i == |s| then (if final && s != "" then conv(s) else Some(""))
    else Plus(Plus(conv(s[..i]), Some(".")), Translate(conv, s[i + 1..], final))
  }

  /** What follows the last dot. */
  function Rest(s: string): (r: string)
    ensures |r| <= |s|
    decreases |s|
  {
    if FirstDot(s) == |s| then s else Rest(s[FirstDot(s) + 1..])
  }

  lemma {:induction false} RestIsSuffix(s: string)
    ensures s == s[..|s| - |Rest(s)|] + Rest(s)
    decreases |s|
  {
    var i := FirstDot(s);
    if i < |s| {
      var t := s[i + 1..];
      RestIsSuffix(t);
      assert t[..|t| - |Rest(t)|] + Rest(t) == s[i + 1..];
      assert s[|s| - |Rest(t)|..] == t[|t| - |Rest(t)|..] == Rest(t);
    }
  }

  lemma {:induction false} FirstDotOfAppend(a: string, b: string)
    ensures FirstDot(a + b) == if FirstDot(a) < |a| then FirstDot(a) else |a| + FirstDot(b)
  {
    if a == [] {
      assert a + b == b;
    } else {
      FirstDotOfAppend(a[1..], b);
      assert (a + b)[1..] == a[1..] + b;
    }
  }

  lemma TranslateCut(conv: Label, a: string, b: string, final: bool)
    requires FirstDot(a) < |a|
    ensures var i := FirstDot(a);
            Translate(conv, a + b, final) == Plus(Plus(conv(a[..i]), Some(".")), Translate(conv, a[i + 1..] + b, final))
  {
    var i := FirstDot(a);
    FirstDotOfAppend(a, b);
    CutInFront(a, b, i);
    TranslateFront(conv, a + b, a[..i], a[i + 1..] + b, final);
  }

  lemma TranslateFront(conv: Label, s: string, head: string, tail: string, final: bool)
    requires FirstDot(s) < |s| && s[..FirstDot(s)] == head && s[FirstDot(s) + 1..] == tail
    ensures Translate(conv, s, final) == Plus(Plus(conv(head), Some(".")), Translate(conv, tail, final))
  {
  }

  lemma CutInFront(a: string, b: string, i: nat)
    requires i < |a|
    ensures (a + b)[..i] == a[..i] && (a + b)[i + 1..] == a[i + 1..] + b
  {
  }

  lemma PlusLaws(a: Option<string>, b: Option<string>, c: Option<string>)
    ensures Plus(Plus(a, b), c) == Plus(a, Plus(b, c))
    ensures Plus(Some(""), a) == a
  {
    if a.Some? {
      assert "" + a.value == a.value;
      if b.Some? && c.Some? {
        assert a.value + b.value + c.value == a.value + (b.value + c.value);
      }
    }
  }

  lemma RestCut(a: string, b: string)
    requires FirstDot(a) < |a|
    ensures Rest(a + b) == Rest(a[FirstDot(a) + 1..] + b)
  {
    FirstDotOfAppend(a, b);
    assert (a + b)[FirstDot(a) + 1..] == a[FirstDot(a) + 1..] + b;
  }

  lemma {:induction false} RestInTwo(a: string, b: string)
    ensures Rest(a + b) == Rest(Rest(a) + b)
    decreases |a|
  {
    if FirstDot(a) < |a| {
      var tail := a[FirstDot(a) + 1..];
      calc {
        Rest(a + b);
        { RestCut(a, b); }
        Rest(tail + b);
        { RestInTwo(tail, b); }
        Rest(Rest(tail) + b);
        Rest(Rest(a) + b);
      }
    }
  }

  /** Translating a text is translating its completed labels and then, with what was left over, the rest. */
  lemma {:induction false} TranslateInTwo(conv: Label, a: string, b: string, final: bool)
    ensures Translate(conv, a + b, final) == Plus(Translate(conv, a, false), Translate(conv, Rest(a) + b, final))
    decreases |a|
  {
    var i := FirstDot(a);
    if i == |a| {
      PlusLaws(Translate(conv, a + b, final), None, None);
    } else {
      var head, tail := Plus(conv(a[..i]), Some(".")), a[i + 1..];
      calc {
        Translate(conv, a + b, final);
        { TranslateCut(conv, a, b, final); }
        Plus(head, Translate(conv, tail + b, final));
        { TranslateInTwo(conv, tail, b, final); }
        Plus(head, Plus(Translate(conv, tail, false), Translate(conv, Rest(tail) + b, final)));
        { PlusLaws(head, Translate(conv, tail, false), Translate(conv, Rest(tail) + b, final)); }
        Plus(Plus(head, Translate(conv, tail, false)), Translate(conv, Rest(tail) + b, final));
        Plus(Translate(conv, a, false), Translate(conv, Rest(a) + b, final));
      }
    }
  }

  // ---- The labels of one call ----

  /** The labels that one call translates. */
  function Kept(s: string, final: bool): seq<string> {
    KeptOf(SplitDots(s), final)
  }

  function KeptOf(labels: seq<string>, final: bool): seq<string>
    requires labels != []
  {
    if labels[|labels| - 1] == "" || !final then labels[..|labels| - 1] else labels
  }

  function Trailing(s: string, final: bool): string {
    TrailingOf(SplitDots(s), final)
  }

  function TrailingOf(labels: seq<string>, final: bool): string
    requires labels != []
  {
    if labels[|labels| - 1] == "" || (!final && |labels| > 1) then "." else ""
  }

  function TranslateAll(conv: Label, labels: seq<string>): (r: Option<seq<string>>)
    ensures r.Some? ==> |r.value| == |labels|
  {
    if labels == [] then Some([])
    else
      var last := |labels| - 1;
      if TranslateAll(conv, labels[..last]).None? || conv(labels[last]).None? then None
      else Some(TranslateAll(conv, labels[..last]).value + [conv(labels[last]).value])
  }

  lemma {:induction false} TranslateAllFront(conv: Label, head: string, labels: seq<string>)
    ensures TranslateAll(conv, [head] + labels) ==
            if conv(head).None? || TranslateAll(conv, labels).None? then None
            else Some([conv(head).value] + TranslateAll(conv, labels).value)
  {
    var all := [head] + labels;
    if labels == [] {
      assert all == [head] && all[..0] == [];
      assert TranslateAll(conv, all[..0]) == Some([]);
      if conv(head).Some? {
        assert [conv(head).value] + [] == [] + [conv(head).value];
      }
    } else {
      var last := |labels| - 1;
      TranslateAllFront(conv, head, labels[..last]);
      assert all[..|all| - 1] == [head] + labels[..last];
      if conv(head).Some? && TranslateAll(conv, labels).Some? {
        var front := TranslateAll(conv, labels[..last]).value;
        assert [conv(head).value] + front + [conv(labels[last]).value] == [conv(head).value] + (front + [conv(labels[last]).value]);
      }
    }
  }

  function Joined(r: Option<seq<string>>, trailing: string): Option<string> {
    if r.None? then None else Some(Join('.', r.value) + trailing)
  }

  lemma TrimmedFront<T>(head: T, tail: seq<T>)
    requires tail != []
    ensures ([head] + tail)[..|tail|] == [head] + tail[..|tail| - 1]
    ensures ([head] + tail)[|tail|] == tail[|tail| - 1]
  {
  }

  lemma KeptStep(s: string, final: bool)
    requires FirstDot(s) < |s|
    ensures var rest := s[FirstDot(s) + 1..];
            && Kept(s, final) == [s[..FirstDot(s)]] + Kept(rest, final)
            && Trailing(s, final) == if Kept(rest, final) == [] then "." else Trailing(rest, final)
  {
    var all, head, tail := SplitOn(s);
    KeptCons(head, tail, all, final);
  }

  lemma SplitOn(s: string) returns (all: seq<string>, head: string, tail: seq<string>)
    requires FirstDot(s) < |s|
    ensures all == SplitDots(s) && head == s[..FirstDot(s)] && tail == SplitDots(s[FirstDot(s) + 1..])
    ensures all == [head] + tail
  {
    all, head, tail := SplitDots(s), s[..FirstDot(s)], SplitDots(s[FirstDot(s) + 1..]);
  }

  lemma KeptCons(head: string, tail: seq<string>, all: seq<string>, final: bool)
    requires tail != [] && all == [head] + tail
    ensures KeptOf(all, final) == [head] + KeptOf(tail, final)
    ensures TrailingOf(all, final) == if KeptOf(tail, final) == [] then "." else TrailingOf(tail, final)
  {
    TrimmedFront(head, tail);
  }

  lemma OneLabel(conv: Label, s: string, final: bool)
    requires s != "" && FirstDot(s) == |s|
    ensures Joined(TranslateAll(conv, Kept(s, final)), Trailing(s, final)) == Translate(conv, s, final)
  {
    if final {
      TranslateAllFront(conv, s, []);
      assert Kept(s, final) == [s] + [];
      if conv(s).Some? {
        assert [conv(s).value] + [] == [conv(s).value];
        assert conv(s).value + "" == conv(s).value;
      }
    } else {
      assert Kept(s, final) == [];
    }
  }

  /** Joining the translated labels gives the translation of the text. */
  lemma {:induction false} JoinTranslates(conv: Label, s: string, final: bool)
    requires s != ""
    ensures Joined(TranslateAll(conv, Kept(s, final)), Trailing(s, final)) == Translate(conv, s, final)
    decreases |s|
  {
    if FirstDot(s) == |s| {
      OneLabel(conv, s, final);
    } else {
      var head, rest := s[..FirstDot(s)], s[FirstDot(s) + 1..];
      KeptStep(s, final);
      TranslateAllFront(conv, head, Kept(rest, final));
      if rest == "" {
        LastDot(conv, head);
      } else {
        JoinTranslates(conv, rest, final);
        JoinStep(conv, head, Kept(rest, final), Trailing(rest, final));
      }
    }
  }

  lemma LastDot(conv: Label, head: string)
    ensures Joined(TranslateAll(conv, [head]), ".") == Plus(Plus(conv(head), Some(".")), Some(""))
  {
    TranslateAllFront(conv, head, []);
    assert [head] + [] == [head];
    if conv(head).Some? {
      assert [conv(head).value] + [] == [conv(head).value];
      assert conv(head).value + "." + "" == conv(head).value + ".";
    }
  }

  lemma JoinStep(conv: Label, head: string, kept: seq<string>, trailing: string)
    requires kept == [] ==> trailing == ""
    ensures Joined(TranslateAll(conv, [head] + kept), if kept == [] then "." else trailing) ==
            Plus(Plus(conv(head), Some(".")), Joined(TranslateAll(conv, kept), trailing))
  {
    TranslateAllFront(conv, head, kept);
    if conv(head).Some? && TranslateAll(conv, kept).Some? {
      var js := TranslateAll(conv, kept).value;
      assert ([conv(head).value] + js)[1..] == js;
      var h := conv(head).value;
      if js == [] {
        assert Join('.', js) + trailing == "";
        assert Join('.', [h] + js) + "." == h + "." + "";
      } else {
        assert Join('.', [h] + js) + trailing == h + "." + (Join('.', js) + trailing);
      }
    }
  }

  // ---- How much one call consumes ----

  function Same(s: string): Option<string> {
    Some(s)
  }

  lemma {:induction false} TranslateSame(s: string, final: bool)
    ensures Translate(Same, s, final).Some?
    ensures |Translate(Same, s, final).value| == |s| - (if final then 0 else |Rest(s)|)
    decreases |s|
  {
    if FirstDot(s) < |s| {
      TranslateSame(s[FirstDot(s) + 1..], final);
    }
  }

  lemma {:induction false} AllSame(labels: seq<string>)
    ensures TranslateAll(Same, labels) == Some(labels)
  {
    if labels != [] {
      AllSame(labels[..|labels| - 1]);
      assert labels == labels[..|labels| - 1] + [labels[|labels| - 1]];
    }
  }

  /** The labels that one call translates, their separators and the trailing dot make up all of a final text,
      or the text up to its last dot. */
  lemma ConsumedLength(s: string, final: bool)
    requires s != ""
    ensures |Join('.', Kept(s, final))| + |Trailing(s, final)| == |s| - (if final then 0 else |Rest(s)|)
  {
    JoinTranslates(Same, s, final);
    AllSame(Kept(s, final));
    TranslateSame(s, final);
  }

  lemma {:induction false} JoinSnoc(ls: seq<string>, x: string)
    requires ls != []
    ensures Join('.', ls + [x]) == Join('.', ls) + ['.'] + x
  {
    if |ls| > 1 {
      JoinSnoc(ls[1..], x);
      assert (ls + [x])[1..] == ls[1..] + [x];
    } else {
      assert (ls + [x])[1..] == [x];
    }
  }

  lemma {:induction false} TranslateAllPrefix(conv: Label, labels: seq<string>, k: nat)
    requires k <= |labels| && TranslateAll(conv, labels[..k]).None?
    ensures TranslateAll(conv, labels).None?
    decreases |labels| - k
  {
    if k == |labels| {
      assert labels[..k] == labels;
    } else {
      assert labels[..k + 1][..k] == labels[..k];
      TranslateAllPrefix(conv, labels, k + 1);
    }
  }

  /** What a codec does with one text: None where it raises. */
  function Convert(conv: Label, ascii: bool, s: string, final: bool): Option<string> {
    if ascii && !IsAscii(s) then None else Translate(conv, s, final)
  }

  /** codecs.BufferedIncrementalEncoder and -Decoder as the idna classes specialise them. */
  class IncrementalCodec {
    const conv: Label
    /** The decoder reads bytes, which have to be ASCII. */
    const ascii: bool
    var buffer: string

    constructor (conv: Label, ascii: bool)
      ensures this.conv == conv && this.ascii == ascii && buffer == ""
    {
      this.conv := conv;
      this.ascii := ascii;
      buffer := "";
    }

    /** The labels that this call converts, and the dot after the last of them. */
    method TakeLabels(data: string, final: bool) returns (labels: seq<string>, trailingDot: string)
      ensures labels == Kept(data, final) && trailingDot == Trailing(data, final)
    {
      labels := SplitDots(data);
      trailingDot := "";
      if labels[|labels| - 1] == "" {
        trailingDot := ".";
        labels := labels[..|labels| - 1];
      } else if !final {
        labels := labels[..|labels| - 1];
        if labels != [] {
          trailingDot := ".";
        }
      }
    }

    /** The converted labels, and the length of the labels with their separators. */
    method ConvertLabels(labels: seq<string>) returns (r: Option<(seq<string>, nat)>)
      requires conv("") == None
      ensures r.None? ==> TranslateAll(conv, labels).None?
      ensures r.Some? ==> TranslateAll(conv, labels) == Some(r.value.0) && r.value.1 == |Join('.', labels)|
    {
      var result: seq<string> := [];
      var size := 0;
      for k := 0 to |labels|
        invariant TranslateAll(conv, labels[..k]) == Some(result)
        invariant size == |Join('.', labels[..k])| && (k > 0 ==> size > 0)
      {
        assert labels[..k + 1] == labels[..k] + [labels[k]];
        assert labels[..k + 1][..k] == labels[..k];
        var converted := conv(labels[k]);
        if converted.None? {
          TranslateAllPrefix(conv, labels, k + 1);
          return None;
        }
        result := result + [converted.value];
        if size > 0 {
          size := size + 1;
          JoinSnoc(labels[..k], labels[k]);
        }
        size := size + |labels[k]|;
      }
      assert labels[..|labels|] == labels;
      r := Some((result, size));
    }

    /** _buffer_encode, _buffer_decode: the converted text and the number of characters consumed. */
    method BufferConvert(data: string, final: bool) returns (r: Option<(string, nat)>)
      requires conv("") == None
      ensures r.Some? <==> Convert(conv, ascii, data, final).Some?
      ensures r.Some? ==> Some(r.value.0) == Convert(conv, ascii, data, final)
      ensures r.Some? ==> r.value.1 == |data| - (if final then 0 else |Rest(data)|)
    {
      if data == "" {
        return Some(("", 0));
      }
      if ascii && !IsAscii(data) {
        return None;
      }
      var labels, trailingDot := TakeLabels(data, final);
      JoinTranslates(conv, data, final);
      ConsumedLength(data, final);
      var converted := ConvertLabels(labels);
      if converted.None? {
        return None;
      }
      r := Some((Join('.', converted.value.0) + trailingDot, converted.value.1 + |trailingDot|));
    }

    /** encode, decode: the buffer keeps what was not consumed; a failing call leaves it alone. */
    method Feed(input: string, final: bool) returns (r: Option<string>)
      requires conv("") == None
      modifies this`buffer
      ensures r == Convert(conv, ascii, old(buffer) + input, final)
      ensures buffer == if r.None? then old(buffer) else if final then "" else Rest(old(buffer) + input)
    {
      var data := buffer + input;
      var reply := BufferConvert(data, final);
      if reply.None? {
        return None;
      }
      RestIsSuffix(data);
      buffer := data[reply.value.1..];
      r := Some(reply.value.0);
    }

    /** Feeding a text in any chunks, the last call final, converts it as a single final call does:
        same output, and failure in the same cases. */
    method FeedAll(chunks: seq<string>) returns (r: Option<string>)
      requires conv("") == None && chunks != [] && buffer == ""
      modifies this`buffer
      ensures r == Convert(conv, ascii, Concat(chunks), true)
      ensures r.Some? ==> buffer == ""
    {
      var out := "";
      for k := 0 to |chunks|
        invariant k < |chunks| ==> Convert(conv, ascii, Concat(chunks[..k]), false) == Some(out) && buffer == Rest(Concat(chunks[..k]))
        invariant k == |chunks| ==> Convert(conv, ascii, Concat(chunks), true) == Some(out) && buffer == ""
      {
        var final := k + 1 == |chunks|;
        ghost var before := Concat(chunks[..k]);
        assert chunks[..k + 1][..k] == chunks[..k];
        assert Concat(chunks[..k + 1]) == before + chunks[k];
        ConvertInTwo(conv, ascii, before, chunks[k], final);
        RestInTwo(before, chunks[k]);
        var piece := Feed(chunks[k], final);
        if piece.None? {
          ConvertPrefixFails(conv, ascii, chunks, k);
          return None;
        }
        out := out + piece.value;
        assert final ==> chunks[..k + 1] == chunks;
      }
      r := Some(out);
    }
  }

  function Concat(chunks: seq<string>): string {
    if chunks == [] then "" else Concat(chunks[..|chunks| - 1]) + chunks[|chunks| - 1]
  }

  lemma AsciiInTwo(a: string, b: string)
    ensures IsAscii(a + b) <==> IsAscii(a) && IsAscii(Rest(a) + b)
    ensures IsAscii(a + b) ==> IsAscii(b)
  {
    RestIsSuffix(a);
    var front := a[..|a| - |Rest(a)|];
    AsciiParts(front, Rest(a));
    AsciiParts(Rest(a), b);
    AsciiParts(a, b);
  }

  lemma AsciiParts(a: string, b: string)
    ensures IsAscii(a + b) <==> IsAscii(a) && IsAscii(b)
  {
    if IsAscii(a + b) {
      forall i | 0 <= i < |a|
        ensures a[i] as int < 128
      {
        assert (a + b)[i] == a[i];
      }
      forall i | 0 <= i < |b|
        ensures b[i] as int < 128
      {
        assert (a + b)[|a| + i] == b[i];
      }
    }
  }

  lemma ConvertInTwo(conv: Label, ascii: bool, a: string, b: string, final: bool)
    ensures Convert(conv, ascii, a + b, final) == Plus(Convert(conv, ascii, a, false), Convert(conv, ascii, Rest(a) + b, final))
  {
    AsciiInTwo(a, b);
    TranslateInTwo(conv, a, b, final);
  }

  /** A failure cannot be repaired by what comes later. */
  lemma {:induction false} ConvertPrefixFails(conv: Label, ascii: bool, chunks: seq<string>, k: nat)
    requires k < |chunks| && Convert(conv, ascii, Concat(chunks[..k + 1]), k + 1 == |chunks|).None?
    ensures Convert(conv, ascii, Concat(chunks), true).None?
    decreases |chunks| - k
  {
    if k + 1 == |chunks| {
      assert chunks[..k + 1] == chunks;
    } else {
      assert chunks[..k + 2][..k + 1] == chunks[..k + 1];
      ConvertInTwo(conv, ascii, Concat(chunks[..k + 1]), chunks[k + 1], k + 2 == |chunks|);
      ConvertPrefixFails(conv, ascii, chunks, k + 1);
    }
  }

  // ---- Where labels end ----

  /** The four code points that end a label: full stop, ideographic full stop, and their full and half width forms. */
  predicate EndsLabel(c: char) {
    var code := c as int;
    code == 0x2E || code == 0x3002 || code == 0xFF0E || code == 0xFF61
  }

  /** A text is split at exactly these characters, and each piece is translated on its own. */
  lemma SplitAt(conv: Label, a: string, c: char, b: string, final: bool)
    requires (forall k :: 0 <= k < |a| ==> !EndsLabel(a[k])) && EndsLabel(c)
    ensures SplitDots(a) == [a] && SplitDots(a + [c] + b) == [a] + SplitDots(b)
    ensures Translate(conv, a, false) == Some("") && Translate(conv, a, true) == if a == "" then Some("") else conv(a)
    ensures Translate(conv, a + [c] + b, final) == Plus(Plus(conv(a), Some(".")), Translate(conv, b, final))
  {
    var s := a + [c] + b;
    FirstAt(s, |a|);
    FirstAt(a, |a|);
    assert s[..|a|] == a && s[|a| + 1..] == b;
  }

  lemma FirstAt(s: string, i: nat)
    requires i <= |s| && (i < |s| ==> EndsLabel(s[i])) && forall k :: 0 <= k < i ==> !EndsLabel(s[k])
    ensures FirstDot(s) == i
  {
    var j := FirstDot(s);
    var atJ := if j < |s| then EndsLabel(s[j]) else false;
    var atI := if i < |s| then IsDot(s[i]) else false;
    assert forall c: char :: IsDot(c) <==> EndsLabel(c);
  }

  // ---- The whole-domain functions of idna/core.py ----

  /** The longest result that encode accepts. */
  function MaxLength(s: string): nat {
    if Rest(s) == "" then 254 else 253
  }

  /** A domain may be 253 characters long, and 254 with the dot at its end. */
  lemma {:induction false} LengthLimit(s: string)
    requires s != ""
    ensures MaxLength(s) == if EndsLabel(s[|s| - 1]) then 254 else 253
    decreases |s|
  {
    var i := FirstDot(s);
    assert IsDot(s[|s| - 1]) <==> EndsLabel(s[|s| - 1]);
    if i + 1 < |s| {
      var t := s[i + 1..];
      var last := |t| - 1;
      assert s[i + 1..][last] == s[i + 1 + last];
      LengthLimit(t);
    }
  }

  lemma {:induction false} LastLabelIsRest(s: string)
    ensures SplitDots(s)[|SplitDots(s)| - 1] == Rest(s)
    decreases |s|
  {
    if FirstDot(s) < |s| {
      LastLabelIsRest(s[FirstDot(s) + 1..]);
    }
  }

  lemma TrailingEmptyLabel(conv: Label, domain: string, result: seq<string>)
    requires domain != "" && TranslateAll(conv, Kept(domain, true)) == Some(result)
    ensures Translate(conv, domain, true) == Some(Join('.', if Rest(domain) == "" then result + [""] else result))
  {
    JoinTranslates(conv, domain, true);
    LastLabelIsRest(domain);
    if Rest(domain) == "" {
      assert |SplitDots(domain)| > 1;
      JoinSnoc(result, "");
      assert Join('.', result) + ['.'] + "" == Join('.', result) + ".";
    } else {
      assert Join('.', result) + "" == Join('.', result);
    }
  }

  method ConvertAll(conv: Label, labels: seq<string>) returns (result: Option<seq<string>>)
    requires forall x :: conv(x) != Some("")
    ensures result == TranslateAll(conv, labels)
  {
    var converted: seq<string> := [];
    for k := 0 to |labels|
      invariant TranslateAll(conv, labels[..k]) == Some(converted)
    {
      assert labels[..k + 1][..k] == labels[..k];
      var s := conv(labels[k]);
      if s.None? || s.value == "" {
        TranslateAllPrefix(conv, labels, k + 1);
        return None;
      }
      converted := converted + [s.value];
    }
    assert labels[..|labels|] == labels;
    result := Some(converted);
  }

  /** n times the same label, with full stops between. */
  function Repeated(name: string, n: nat): (s: string)
    requires n >= 1
    ensures |s| == n * |name| + n - 1
    decreases n, name
  {
    if n == 1 then name
    else
      LabelsAdd(n, |name|);
      name + "." + Repeated(name, n - 1)
  }

  lemma LabelsAdd(n: nat, k: nat)
    requires n >= 1
    ensures n * k + n - 1 == k + 1 + ((n - 1) * k + (n - 1) - 1)
  {
  }

  lemma {:induction false} RepeatedTranslates(conv: Label, name: string, n: nat)
    requires n >= 1 && name != "" && FirstDot(name) == |name| && conv(name) == Some(name)
    ensures Translate(conv, Repeated(name, n), true) == Some(Repeated(name, n))
    decreases n, name
  {
    if n > 1 {
      RepeatedTranslates(conv, name, n - 1);
      var s := DotAfter(name, Repeated(name, n - 1));
      TranslateFront(conv, s, name, Repeated(name, n - 1), true);
    }
  }

  lemma DotAfter(name: string, rest: string) returns (s: string)
    requires FirstDot(name) == |name|
    ensures s == name + "." + rest && FirstDot(s) == |name| < |s| && s[..|name|] == name && s[|name| + 1..] == rest
  {
    s := name + "." + rest;
    FirstDotOfAppend(name, "." + rest);
    assert s == name + ("." + rest);
  }

  /** Four labels of 63 characters, the most that a label may have, make a domain that the incremental encoder
      converts and that is longer than encode allows. */
  lemma FourLongLabels(conv: Label, name: string)
    requires |name| == 63 && FirstDot(name) == |name| && conv(name) == Some(name)
    ensures var domain := Repeated(name, 4);
            Translate(conv, domain, true) == Some(domain) && |domain| > MaxLength(domain)
  {
    RepeatedTranslates(conv, name, 4);
  }

  /** core.encode without UTS 46: it agrees with the incremental encoder except that it refuses the empty
      domain and results that are too long, which the incremental encoder lets through. */
  method Encode(conv: Label, domain: string) returns (r: Option<string>)
    requires conv("") == None && forall x :: conv(x) != Some("")
    ensures r.None? <==> domain == "" || Translate(conv, domain, true).None? || |Translate(conv, domain, true).value| > MaxLength(domain)
    ensures r.Some? ==> r == Translate(conv, domain, true)
  {
    var labels := SplitDots(domain);
    LastLabelIsRest(domain);
    if labels == [""] {
      assert domain == "";
      return None;
    }
    var trailingDot := labels[|labels| - 1] == "";
    if trailingDot {
      labels := labels[..|labels| - 1];
    }
    var result := ConvertAll(conv, labels);
    JoinTranslates(conv, domain, true);
    if result.None? {
      return None;
    }
    TrailingEmptyLabel(conv, domain, result.value);
    var s := Join('.', if trailingDot then result.value + [""] else result.value);
    if |s| > (if trailingDot then 254 else 253) {
      return None;
    }
    r := Some(s);
  }

  /** core.decode without UTS 46, of text or of bytes, which have to be ASCII: it agrees with the incremental
      decoder except that it refuses the empty domain; there is no limit to the length. */
  method Decode(conv: Label, bytes: bool, domain: string) returns (r: Option<string>)
    requires conv("") == None && forall x :: conv(x) != Some("")
    ensures r.None? <==> domain == "" || Convert(conv, bytes, domain, true).None?
    ensures r.Some? ==> r == Convert(conv, bytes, domain, true)
  {
    if bytes && !IsAscii(domain) {
      return None;
    }
    var labels := SplitDots(domain);
    LastLabelIsRest(domain);
    if labels == [""] {
      assert domain == "";
      return None;
    }
    var trailingDot := labels[|labels| - 1] == "";
    if trailingDot {
      labels := labels[..|labels| - 1];
    }
    var result := ConvertAll(conv, labels);
    JoinTranslates(conv, domain, true);
    if result.None? {
      return None;
    }
    TrailingEmptyLabel(conv, domain, result.value);
    r := Some(Join('.', if trailingDot then result.value + [""] else result.value));
  }
}
