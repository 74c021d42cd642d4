/** Message framing of pg8000/core.py, after section 55.7 of the PostgreSQL 16 documentation: length-prefixed
    messages, reads that may come up short, and the parameter and row payloads. */
module Framing {
  import opened Sequences
  import opened Text

  // ---- struct.pack and unpack_from, big-endian ----

  const TWO31: int := 0x8000_0000

  predicate IsInt32(n: int) { -TWO31 <= n < TWO31 }

  /** The last `width` base-256 digits of u, the most significant first. */
  function BigEndian(u: nat, width: nat): (b: seq<Byte>)
    ensures |b| == width
    decreases width, u
  {
    if width == 0 then [] else BigEndian(u / 0x100, width - 1) + [u % 0x100]
  }

  function Unsigned(d: seq<Byte>): int {
    if d == [] then 0 else Unsigned(d[..|d| - 1]) * 0x100 + d[|d| - 1]
  }

  /** u has at most `width` digits. */
  predicate HasWidth(u: nat, width: nat)
    decreases width, u
  {
    if width == 0 then u == 0 else HasWidth(u / 0x100, width - 1)
  }

  lemma {:induction false} UnsignedOfDigits(u: nat, width: nat)
    requires HasWidth(u, width)
    ensures Unsigned(BigEndian(u, width)) == u
    decreases width
  {
    if width > 0 {
      UnsignedOfDigits(u / 0x100, width - 1);
      var b := BigEndian(u, width);
      assert b[..|b| - 1] == BigEndian(u / 0x100, width - 1);
    }
  }

  /** The two's complement. */
  function Wrapped(n: int): (u: nat)
    requires IsInt32(n)
  {
    if n < 0 then n + 0x1_0000_0000 else n
  }

  /** i_pack. */
  function IPack(n: int): (b: seq<Byte>)
    requires IsInt32(n)
    ensures |b| == 4
  {
    BigEndian(Wrapped(n), 4)
  }

  /** i_unpack at an index. */
  function IUnpack(d: seq<Byte>, i: nat): int
    requires i + 4 <= |d|
  {
    var u := Unsigned(d[i..i + 4]);
    if u >= TWO31 then u - 0x1_0000_0000 else u
  }

  lemma FourBytes(u: nat)
    requires u < 0x1_0000_0000
    ensures HasWidth(u, 4)
  {
    assert u / 0x100 / 0x100 / 0x100 / 0x100 == 0;
    assert HasWidth(u / 0x100 / 0x100 / 0x100, 1);
    assert HasWidth(u / 0x100 / 0x100, 2);
    assert HasWidth(u / 0x100, 3);
  }

  lemma IUnpackPack(n: int, a: seq<Byte>, b: seq<Byte>)
    requires IsInt32(n)
    ensures IUnpack(a + IPack(n) + b, |a|) == n
  {
    FourBytes(Wrapped(n));
    UnsignedOfDigits(Wrapped(n), 4);
    SliceOfMiddle(a, IPack(n), b);
  }

  lemma SliceOfMiddle(a: seq<Byte>, m: seq<Byte>, b: seq<Byte>)
    ensures (a + m + b)[|a|..|a| + |m|] == m
  {
  }

  lemma SameBytes(d: seq<Byte>, i: nat, e: seq<Byte>, j: nat)
    requires i + 4 <= |d| && j + 4 <= |e| && d[i..i + 4] == e[j..j + 4]
    ensures IUnpack(d, i) == IUnpack(e, j)
  {
  }

  /** H_pack. */
  function HPack(n: int): (b: seq<Byte>)
    requires 0 <= n < 0x1_0000
    ensures |b| == 2
  {
    BigEndian(n, 2)
  }

  function Weighed(a: int, b: int, c: int, d: int): int {
    a * 0x100_0000 + b * 0x1_0000 + c * 0x100 + d
  }

  /** The four bytes weigh 2^24, 2^16, 2^8 and 1; a negative number is 2^32 more. */
  lemma FourDigits(n: int)
    requires IsInt32(n)
    ensures var b := IPack(n);
            Weighed(b[0], b[1], b[2], b[3]) == if n < 0 then n + 0x1_0000_0000 else n
  {
    var u := Wrapped(n);
    FourBytes(u);
    var b := BigEndian(u, 4);
    assert b == BigEndian(u / 0x100, 3) + [u % 0x100];
    assert BigEndian(u / 0x100, 3) == BigEndian(u / 0x100 / 0x100, 2) + [u / 0x100 % 0x100];
    assert BigEndian(u / 0x100 / 0x100, 2) == BigEndian(u / 0x100 / 0x100 / 0x100, 1) + [u / 0x100 / 0x100 % 0x100];
    assert BigEndian(u / 0x100 / 0x100 / 0x100, 1) == [] + [u / 0x100 / 0x100 / 0x100 % 0x100];
  }

  lemma TwoDigits(n: int)
    requires 0 <= n < 0x1_0000
    ensures HPack(n) == [n / 0x100, n % 0x100]
  {
    assert BigEndian(n, 2) == BigEndian(n / 0x100, 1) + [n % 0x100];
    assert BigEndian(n / 0x100, 1) == [] + [n / 0x100 % 0x100];
  }

  // ---- Messages ----

  datatype Message = Message(code: Byte, data: seq<Byte>)

  predicate Fits(m: Message) { |m.data| + 4 < TWO31 }

  /** _create_message. */
  function CreateMessage(m: Message): (b: seq<Byte>)
    requires Fits(m)
    ensures |b| == |m.data| + 5
  {
    [m.code] + IPack(|m.data| + 4) + m.data
  }

  /** A message is its code, a length that counts itself and the payload, most significant byte first, and the payload. */
  lemma MessageBytes(m: Message)
    requires Fits(m)
    ensures var b := CreateMessage(m);
            && b[0] == m.code && b[5..] == m.data
            && Weighed(b[1], b[2], b[3], b[4]) == |m.data| + 4
  {
    FourDigits(|m.data| + 4);
    var p := IPack(|m.data| + 4);
    assert CreateMessage(m)[1..5] == p;
    assert CreateMessage(m)[1] == p[0] && CreateMessage(m)[2] == p[1] && CreateMessage(m)[3] == p[2] && CreateMessage(m)[4] == p[3];
  }

  const READY_FOR_QUERY: Byte := 'Z' as int
  const BIND: Byte := 'B' as int
  const FLUSH: Byte := 'H' as int

  /** The codes that have a handler. */
  const MESSAGE_TYPES: string := "NRSKZTEIDC123sntAcdGH"

  predicate Known(code: Byte) {
    exists i :: 0 <= i < |MESSAGE_TYPES| && MESSAGE_TYPES[i] as int == code
  }

  function Wire(ms: seq<Message>): seq<Byte>
    requires forall i :: 0 <= i < |ms| ==> Fits(ms[i])
  {
    if ms == [] then [] else CreateMessage(ms[0]) + Wire(ms[1..])
  }

  /** How handle_messages ends: normally, on a closed stream, on a code without handler, or on a negative length. */
  datatype Outcome = Ready | NetworkError | UnknownCode | BadLength

  datatype Decoded = Decoded(log: seq<Message>, rest: seq<Byte>, outcome: Outcome)

  /** One message off a stream that arrives whole: the message, or why there is none. */
  datatype Step = Got(m: Message, rest: seq<Byte>) | Failed(outcome: Outcome, rest: seq<Byte>)

  function Next(s: seq<Byte>): (r: Step)
    ensures r.Got? ==> |r.rest| < |s|
  {
    if |s| < 5 then Failed(NetworkError, [])
    else
      var size, body := IUnpack(s, 1) - 4, s[5..];
      if !Known(s[0]) then Failed(UnknownCode, body)
      else if size < -1 then Failed(BadLength, body)
      else
        var n := if size == -1 then |body| else size;
        if n > |body| then Failed(NetworkError, []) else Got(Message(s[0], body[..n]), body[n..])
  }

  /** What is dispatched from a stream that arrives whole, and what is left of it. */
  function Decode(s: seq<Byte>): Decoded
    decreases |s|
  {
    match Next(s)
    case Failed(outcome, rest) => Decoded([], rest, outcome)
    case Got(m, rest) =>
      if m.code == READY_FOR_QUERY then Decoded([m], rest, Ready)
      else Decoded([m] + Decode(rest).log, Decode(rest).rest, Decode(rest).outcome)
  }

  lemma HeaderOf(m: Message, s: seq<Byte>)
    requires Fits(m)
    ensures var t := CreateMessage(m) + s;
            t[0] == m.code && IUnpack(t, 1) == |m.data| + 4 && t[5..] == m.data + s
  {
    var t, pack := CreateMessage(m) + s, IPack(|m.data| + 4);
    IUnpackPack(|m.data| + 4, [m.code], m.data + s);
    assert t == [m.code] + pack + (m.data + s);
    assert |[m.code] + pack| == 5;
  }

  lemma NextOfMessage(m: Message, s: seq<Byte>)
    requires Fits(m) && Known(m.code)
    ensures Next(CreateMessage(m) + s) == Got(m, s)
  {
    var t := CreateMessage(m) + s;
    HeaderOf(m, s);
    assert IUnpack(t, 1) - 4 == |m.data|;
    assert (m.data + s)[..|m.data|] == m.data && (m.data + s)[|m.data|..] == s;
  }

  /** Messages up to the first ReadyForQuery are dispatched as they were made, in order, and nothing after them
      is consumed. */
  lemma {:induction false} DecodeWire(ms: seq<Message>, tail: seq<Byte>)
    requires ms != [] && forall i :: 0 <= i < |ms| ==> Fits(ms[i]) && Known(ms[i].code)
    requires forall i :: 0 <= i < |ms| ==> (ms[i].code == READY_FOR_QUERY <==> i == |ms| - 1)
    ensures Decode(Wire(ms) + tail) == Decoded(ms, tail, Ready)
  {
    var s, rest := FirstOnWire(ms, tail);
    DecodeGot(s, ms[0], rest);
    if |ms| == 1 {
      OnlyOne(ms, tail);
    } else {
      var others := Others(ms);
      DecodeWire(others, tail);
    }
  }

  lemma OnlyOne(ms: seq<Message>, tail: seq<Byte>)
    requires |ms| == 1
    ensures ms == [ms[0]] && Wire(ms[1..]) + tail == tail
  {
    assert ms[1..] == [];
  }

  lemma Others(ms: seq<Message>) returns (others: seq<Message>)
    requires |ms| > 1 && forall i :: 0 <= i < |ms| ==> Fits(ms[i]) && Known(ms[i].code)
    requires forall i :: 0 <= i < |ms| ==> (ms[i].code == READY_FOR_QUERY <==> i == |ms| - 1)
    ensures others == ms[1..] && others != [] && ms == [ms[0]] + others && |others| < |ms|
    ensures forall i :: 0 <= i < |others| ==> Fits(others[i]) && Known(others[i].code)
    ensures forall i :: 0 <= i < |others| ==> (others[i].code == READY_FOR_QUERY <==> i == |others| - 1)
  {
    others := ms[1..];
    forall i | 0 <= i < |others|
      ensures Fits(others[i]) && Known(others[i].code) && (others[i].code == READY_FOR_QUERY <==> i == |others| - 1)
    {
      assert others[i] == ms[i + 1];
    }
  }

  lemma FirstOnWire(ms: seq<Message>, tail: seq<Byte>) returns (s: seq<Byte>, rest: seq<Byte>)
    requires ms != [] && Fits(ms[0]) && Known(ms[0].code) && forall i :: 0 <= i < |ms| ==> Fits(ms[i])
    ensures s == Wire(ms) + tail && rest == Wire(ms[1..]) + tail && Next(s) == Got(ms[0], rest)
  {
    s, rest := Wire(ms) + tail, Wire(ms[1..]) + tail;
    assert Wire(ms) == CreateMessage(ms[0]) + Wire(ms[1..]);
    Associate(CreateMessage(ms[0]), Wire(ms[1..]), tail);
    NextOfMessage(ms[0], rest);
  }

  lemma Associate(a: seq<Byte>, b: seq<Byte>, c: seq<Byte>)
    ensures a + b + c == a + (b + c)
  {
  }

  lemma DecodeGot(s: seq<Byte>, m: Message, rest: seq<Byte>)
    requires Next(s) == Got(m, rest)
    ensures Decode(s) == if m.code == READY_FOR_QUERY then Decoded([m], rest, Ready)
                         else Decoded([m] + Decode(rest).log, Decode(rest).rest, Decode(rest).outcome)
  {
  }

  // ---- Reading ----

  function Flat(chunks: seq<seq<Byte>>): seq<Byte> {
    if chunks == [] then [] else chunks[0] + Flat(chunks[1..])
  }

  /** The read side of the socket file. A read returns at most what has arrived in one piece; the empty
      result stands for a closed stream. */
  class Socket {
    var chunks: seq<seq<Byte>>

    ghost predicate Valid()
      reads this
    {
      forall i :: 0 <= i < |chunks| ==> chunks[i] != []
    }

    function Data(): seq<Byte>
      reads this
    {
      Flat(chunks)
    }

    /** sock.read(size). */
    method Read(size: nat) returns (b: seq<Byte>)
      requires Valid()
      modifies this
      ensures Valid() && |b| <= size && old(Data()) == b + Data()
      ensures size > 0 && old(Data()) != [] ==> b != []
    {
      if chunks == [] {
        return [];
      }
      var n := if size < |chunks[0]| then size else |chunks[0]|;
      b := chunks[0][..n];
      assert chunks[0] == b + chunks[0][n..];
      if n == |chunks[0]| {
        chunks := chunks[1..];
      } else {
        ghost var front := chunks[0];
        assert front[n..] + Flat(chunks[1..]) == Flat([front[n..]] + chunks[1..]);
        chunks := [chunks[0][n..]] + chunks[1..];
      }
    }

    /** sock.read(-1). */
    method ReadAll() returns (b: seq<Byte>)
      requires Valid()
      modifies this
      ensures Valid() && b == old(Data()) && Data() == []
    {
      b := Flat(chunks);
      chunks := [];
    }
  }

  /** _read: however short the reads are, the result is the next `size` bytes, or a network error when the
      stream is closed before. */
  method ReadExactly(sock: Socket, size: nat) returns (r: Option<seq<Byte>>)
    requires sock.Valid()
    modifies sock
    ensures sock.Valid()
    ensures size <= |old(sock.Data())| ==> r == Some(old(sock.Data())[..size]) && sock.Data() == old(sock.Data())[size..]
    ensures size > |old(sock.Data())| ==> r == None && sock.Data() == []
  {
    var buff := sock.Read(size);
    while |buff| < size
      invariant sock.Valid() && |buff| <= size && old(sock.Data()) == buff + sock.Data()
      decreases size - |buff|
    {
      var block := sock.Read(size - |buff|);
      if block == [] {
        return None;
      }
      buff := buff + block;
    }
    r := Some(buff);
  }

  datatype Header = Header(code: Byte, length: int)

  /** ci_unpack of the next five bytes. */
  method ReadHeader(sock: Socket) returns (r: Option<Header>)
    requires sock.Valid()
    modifies sock
    ensures sock.Valid()
    ensures var s := old(sock.Data());
            if |s| < 5 then r == None && sock.Data() == []
            else r == Some(Header(s[0], IUnpack(s, 1))) && sock.Data() == s[5..]
  {
    ghost var s := sock.Data();
    var header := ReadExactly(sock, 5);
    if header.None? {
      return None;
    }
    SameBytes(s, 1, header.value, 1);
    r := Some(Header(header.value[0], IUnpack(header.value, 1)));
  }

  /** A read of a length that was computed from a message: -1 reads to the end, less is a ValueError. */
  method ReadPayload(sock: Socket, size: int) returns (r: Option<seq<Byte>>)
    requires sock.Valid() && size >= -1
    modifies sock
    ensures sock.Valid()
    ensures var n := if size == -1 then |old(sock.Data())| else size;
            if n <= |old(sock.Data())| then r == Some(old(sock.Data())[..n]) && sock.Data() == old(sock.Data())[n..]
            else r == None && sock.Data() == []
  {
    if size == -1 {
      var b := sock.ReadAll();
      assert b[..|b|] == b && b[|b|..] == [];
      r := Some(b);
    } else {
      r := ReadExactly(sock, size);
    }
  }

  // ---- The connection ----

  /** The whole stream decodes to what is done and then what is still to come. */
  ghost predicate Ahead(whole: Decoded, done: seq<Message>, d: Decoded) {
    whole.log == done + d.log && whole.rest == d.rest && whole.outcome == d.outcome
  }

  class Connection {
    const sock: Socket
    /** The (code, payload) pairs handed to handlers, in order. */
    var log: seq<Message>
    /** The bytes written. */
    var written: seq<Byte>

    constructor (sock: Socket)
      ensures this.sock == sock && log == [] && written == []
    {
      this.sock := sock;
      log, written := [], [];
    }

    /** The body of the loop of handle_messages: header, handler lookup, payload, handler. */
    method HandleMessage() returns (code: Byte, failure: Option<Outcome>)
      requires sock.Valid()
      modifies this`log, sock
      ensures sock.Valid()
      ensures sock.Data() == Next(old(sock.Data())).rest
      ensures match Next(old(sock.Data()))
              case Got(m, _) => failure == None && code == m.code && log == old(log) + [m]
              case Failed(outcome, _) => failure == Some(outcome) && log == old(log)
    {
      var header := ReadHeader(sock);
      if header.None? {
        return 0, Some(NetworkError);
      }
      code := header.value.code;
      var size := header.value.length - 4;
      if !Known(code) {
        return code, Some(UnknownCode);
      }
      if size < -1 {
        return code, Some(BadLength);
      }
      var payload := ReadPayload(sock, size);
      if payload.None? {
        return code, Some(NetworkError);
      }
      log := log + [Message(code, payload.value)];
      failure := None;
    }

    /** handle_messages: for every pattern of short reads it dispatches what Decode says and consumes
        what Decode consumes. */
    method HandleMessages() returns (outcome: Outcome)
      requires sock.Valid()
      modifies this`log, sock
      ensures sock.Valid()
      ensures Decode(old(sock.Data())).rest == sock.Data() && Decode(old(sock.Data())).outcome == outcome
      ensures log == old(log) + Decode(old(sock.Data())).log
    {
      ghost var whole := Decode(sock.Data());
      ghost var done: seq<Message> := [];
      var code: Byte := 0;
      assert done + whole.log == whole.log;
      while code != READY_FOR_QUERY
        invariant sock.Valid() && log == old(log) + done
        invariant code != READY_FOR_QUERY ==> Ahead(whole, done, Decode(sock.Data()))
        invariant code == READY_FOR_QUERY ==> whole == Decoded(done, sock.Data(), Ready)
        decreases code != READY_FOR_QUERY, |sock.Data()|
      {
        ghost var s := sock.Data();
        var failure;
        code, failure := HandleMessage();
        if failure.Some? {
          assert done + [] == done;
          return failure.value;
        }
        ghost var m := Next(s).m;
        if code != READY_FOR_QUERY {
          assert done + ([m] + Decode(sock.Data()).log) == done + [m] + Decode(sock.Data()).log;
        }
        done := done + [m];
      }
      outcome := Ready;
    }

    /** _send_message; false stands for the struct.error of a payload too long for its length field. */
    method SendMessage(code: Byte, data: seq<Byte>) returns (ok: bool)
      modifies this`written
      ensures ok == Fits(Message(code, data))
      ensures written == if ok then old(written) + CreateMessage(Message(code, data)) else old(written)
    {
      if |data| + 4 >= TWO31 {
        return false;
      }
      var buff := [code];
      buff := buff + IPack(|data| + 4);
      buff := buff + data;
      written := written + buff;
      ok := true;
    }

    /** send_BIND for a statement name that ends with its NUL byte; false stands for a struct.error. */
    method SendBind(name: seq<Byte>, params: seq<Option<seq<Byte>>>) returns (ok: bool)
      modifies this`written
      ensures ok == (|params| < 0x1_0000 && (forall i :: 0 <= i < |params| ==> ParamFits(params[i]))
                     && Fits(Message(BIND, BindPayload(name, params))))
      ensures written == if ok then old(written) + CreateMessage(Message(BIND, BindPayload(name, params))) + FLUSH_MSG
                         else old(written)
    {
      if |params| >= 0x1_0000 {
        return false;
      }
      var retval := [0] + name + HPack(0) + HPack(|params|);
      var values := PackValues(params);
      PackedIs(params);
      if values.None? {
        return false;
      }
      retval := retval + values.value + HPack(0);
      BindAssembled(name, params);
      ok := SendMessage(BIND, retval);
      if ok {
        written := written + FLUSH_MSG;
      }
    }
  }

  lemma ValueBytesIs(p: Option<seq<Byte>>)
    requires ParamFits(p)
    ensures ValueBytes(p) == if p.None? then IPack(-1) else IPack(|p.value|) + p.value
  {
    if p.None? {
      assert IPack(-1) + [] == IPack(-1);
    }
  }

  /** Length field and bytes of one parameter; None is the struct.error of a value that is too long. */
  method PackValue(p: Option<seq<Byte>>) returns (r: Option<seq<Byte>>)
    ensures r == if ParamFits(p) then Some(ValueBytes(p)) else None
  {
    if p.None? {
      ValueBytesIs(p);
      r := Some(IPack(-1));
    } else if |p.value| >= TWO31 {
      r := None;
    } else {
      ValueBytesIs(p);
      r := Some(IPack(|p.value|) + p.value);
    }
  }

  function Packed(ps: seq<Option<seq<Byte>>>): Option<seq<Byte>> {
    if ps == [] then Some([])
    else
      var last := |ps| - 1;
      if Packed(ps[..last]).None? || !ParamFits(ps[last]) then None
      else Some(Packed(ps[..last]).value + ValueBytes(ps[last]))
  }

  lemma {:induction false} PackedIs(ps: seq<Option<seq<Byte>>>)
    ensures Packed(ps).Some? <==> forall i :: 0 <= i < |ps| ==> ParamFits(ps[i])
    ensures Packed(ps).Some? ==> Packed(ps).value == Values(ps)
  {
    if ps != [] {
      var last := |ps| - 1;
      PackedIs(ps[..last]);
      assert ps == ps[..last] + [ps[last]];
    }
  }

  lemma {:induction false} PackedFails(ps: seq<Option<seq<Byte>>>, k: nat)
    requires k <= |ps| && Packed(ps[..k]).None?
    ensures Packed(ps).None?
    decreases |ps| - k
  {
    if k == |ps| {
      assert ps[..k] == ps;
    } else {
      assert ps[..k + 1][..k] == ps[..k];
      PackedFails(ps, k + 1);
    }
  }

  /** The loop of send_BIND over the parameters. */
  method PackValues(params: seq<Option<seq<Byte>>>) returns (r: Option<seq<Byte>>)
    ensures r == Packed(params)
  {
    var bytes: seq<Byte> := [];
    for k := 0 to |params|
      invariant Packed(params[..k]) == Some(bytes)
    {
      assert params[..k + 1][..k] == params[..k];
      var value := PackValue(params[k]);
      if value.None? {
        PackedFails(params, k + 1);
        return None;
      }
      bytes := bytes + value.value;
    }
    assert params[..|params|] == params;
    r := Some(bytes);
  }

  // ---- Parameters and rows ----

  const FLUSH_MSG: seq<Byte> := CreateMessage(Message(FLUSH, []))

  predicate ParamFits(p: Option<seq<Byte>>) {
    p.Some? ==> |p.value| < TWO31
  }

  /** One length-prefixed value; NULL is the length -1. */
  function ValueBytes(p: Option<seq<Byte>>): (b: seq<Byte>)
    ensures ParamFits(p) ==> |b| == 4 + |Payload(p)|
  {
    if ParamFits(p) then IPack(LengthField(p)) + Payload(p) else []
  }

  function LengthField(p: Option<seq<Byte>>): int {
    if p.None? then -1 else |p.value|
  }

  function Payload(p: Option<seq<Byte>>): seq<Byte> {
    if p.None? then [] else p.value
  }

  function Values(ps: seq<Option<seq<Byte>>>): seq<Byte> {
    if ps == [] then [] else Values(ps[..|ps| - 1]) + ValueBytes(ps[|ps| - 1])
  }

  /** The part of a Bind payload that has the layout of a DataRow payload. */
  function CountAndValues(ps: seq<Option<seq<Byte>>>): seq<Byte>
    requires |ps| < 0x1_0000
  {
    HPack(|ps|) + Values(ps)
  }

  function BindPayload(name: seq<Byte>, ps: seq<Option<seq<Byte>>>): seq<Byte>
    requires |ps| < 0x1_0000
  {
    [0] + name + HPack(0) + CountAndValues(ps) + HPack(0)
  }

  lemma BindAssembled(name: seq<Byte>, ps: seq<Option<seq<Byte>>>)
    requires |ps| < 0x1_0000
    ensures BindPayload(name, ps) == [0] + name + HPack(0) + HPack(|ps|) + Values(ps) + HPack(0)
  {
    Regroup([0] + name + HPack(0), HPack(|ps|), Values(ps), HPack(0));
  }

  /** Bind: an unnamed portal, the statement name, no parameter formats, the values with their count, no result formats. */
  lemma BindBytes(name: seq<Byte>, ps: seq<Option<seq<Byte>>>)
    requires |ps| < 0x1_0000
    ensures BindPayload(name, ps) == [0] + name + [0, 0] + [|ps| / 0x100, |ps| % 0x100] + Values(ps) + [0, 0]
  {
    BindAssembled(name, ps);
    TwoDigits(0);
    TwoDigits(|ps|);
  }

  /** A value is its length in four bytes and its bytes; NULL is four bytes 255 and nothing else. */
  lemma OneValue(v: seq<Byte>)
    requires |v| < TWO31
    ensures Values([None]) == [255, 255, 255, 255]
    ensures var b := Values([Some(v)]);
            |b| == 4 + |v| && b[4..] == v && Weighed(b[0], b[1], b[2], b[3]) == |v|
  {
    FourDigits(|v|);
    FourDigits(-1);
    ValueBytesIs(None);
    ValueBytesIs(Some(v));
    OneOnly(None);
    OneOnly(Some(v));
    AllOnes(IPack(-1));
  }

  lemma OneOnly(p: Option<seq<Byte>>)
    ensures Values([p]) == ValueBytes(p)
  {
    assert [p][..0] == [];
    assert [] + ValueBytes(p) == ValueBytes(p);
  }

  lemma AllOnes(b: seq<Byte>)
    requires |b| == 4 && Weighed(b[0], b[1], b[2], b[3]) == 0xFFFF_FFFF
    ensures b == [255, 255, 255, 255]
  {
  }

  /** The Flush message, and the code of Bind, which is B. */
  lemma FlushBytes()
    ensures FLUSH_MSG == [72, 0, 0, 0, 4] && BIND == 66
  {
    SmallPack(4);
  }

  lemma SmallPack(n: int)
    requires 0 <= n < 0x100
    ensures IPack(n) == [0, 0, 0, n]
  {
    FourDigits(n);
    LeadingZeros(IPack(n), n);
  }

  lemma LeadingZeros(b: seq<Byte>, n: int)
    requires |b| == 4 && Weighed(b[0], b[1], b[2], b[3]) == n && 0 <= n < 0x100
    ensures b == [0, 0, 0, n]
  {
  }

  /** The values read so far from a DataRow payload, and the index after them. */
  datatype RowState = RowState(row: seq<Option<seq<Byte>>>, idx: nat)

  /** One more value; None is a struct.error. */
  function ReadValue(data: seq<Byte>, s: RowState): Option<RowState> {
    if s.idx + 4 > |data| || IUnpack(data, s.idx) < -1 then None
    else if IUnpack(data, s.idx) == -1 then Some(RowState(s.row + [None], s.idx + 4))
    else
      var vlen := IUnpack(data, s.idx);
      Some(RowState(s.row + [Some(Slice(data, s.idx + 4, vlen))], s.idx + 4 + vlen))
  }

  function ReadValues(data: seq<Byte>, n: nat): (r: Option<RowState>)
    ensures r.Some? ==> |r.value.row| == n
  {
    if n == 0 then Some(RowState([], 2))
    else if ReadValues(data, n - 1).None? then None
    else ReadValue(data, ReadValues(data, n - 1).value)
  }

  /** data[i : i + n]; a slice past the end is cut short. */
  function Slice(data: seq<Byte>, i: nat, n: nat): seq<Byte> {
    if i > |data| then [] else if i + n > |data| then data[i..] else data[i..i + n]
  }

  /** Each value goes through the input function of its column; NULL stays None. */
  function Converted<V>(funcs: seq<seq<Byte> -> V>, raw: seq<Option<seq<Byte>>>): (row: seq<Option<V>>)
    requires |raw| <= |funcs|
    ensures |row| == |raw|
    ensures forall i :: 0 <= i < |raw| ==> row[i] == if raw[i].None? then None else Some(funcs[i](raw[i].value))
  {
    seq(|raw|, i requires 0 <= i < |raw| => if raw[i].None? then None else Some(funcs[i](raw[i].value)))
  }

  lemma ConvertedSnoc<V>(funcs: seq<seq<Byte> -> V>, raw: seq<Option<seq<Byte>>>, p: Option<seq<Byte>>)
    requires |raw| < |funcs|
    ensures Converted(funcs, raw + [p]) == Converted(funcs, raw) + [if p.None? then None else Some(funcs[|raw|](p.value))]
  {
  }

  /** One column: its length field and its bytes. */
  method ReadColumn(data: seq<Byte>, idx: nat, ghost raw: seq<Option<seq<Byte>>>)
    returns (ok: bool, value: Option<seq<Byte>>, next: nat)
    ensures ok == ReadValue(data, RowState(raw, idx)).Some?
    ensures ok ==> ReadValue(data, RowState(raw, idx)) == Some(RowState(raw + [value], next))
  {
    if idx + 4 > |data| || IUnpack(data, idx) < -1 {
      return false, None, idx;
    }
    var vlen := IUnpack(data, idx);
    next := idx + 4;
    if vlen == -1 {
      value := None;
    } else {
      value := Some(Slice(data, next, vlen));
      next := next + vlen;
    }
    ok := true;
  }

  class Context<V> {
    const inputFuncs: seq<seq<Byte> -> V>
    var rows: seq<seq<Option<V>>>

    constructor (inputFuncs: seq<seq<Byte> -> V>)
      ensures this.inputFuncs == inputFuncs && rows == []
    {
      this.inputFuncs := inputFuncs;
      rows := [];
    }

    /** The loop of handle_DATA_ROW over the columns. */
    method ReadRow(data: seq<Byte>) returns (r: Option<seq<Option<V>>>)
      ensures r.None? <==> ReadValues(data, |inputFuncs|).None?
      ensures r.Some? ==> r.value == Converted(inputFuncs, ReadValues(data, |inputFuncs|).value.row)
    {
      var idx: nat := 2;
      var row: seq<Option<V>> := [];
      ghost var raw: seq<Option<seq<Byte>>> := [];
      for k := 0 to |inputFuncs|
        invariant ReadValues(data, k) == Some(RowState(raw, idx)) && row == Converted(inputFuncs, raw)
      {
        var ok, value, next := ReadColumn(data, idx, raw);
        if !ok {
          ReadFails(data, k + 1, |inputFuncs|);
          return None;
        }
        ConvertedSnoc(inputFuncs, raw, value);
        row := row + [if value.None? then None else Some(inputFuncs[k](value.value))];
        raw, idx := raw + [value], next;
      }
      r := Some(row);
    }

    /** handle_DATA_ROW; false stands for an error, after which no row is added. */
    method HandleDataRow(data: seq<Byte>) returns (ok: bool)
      modifies this
      ensures ok == ReadValues(data, |inputFuncs|).Some?
      ensures rows == if ok then old(rows) + [Converted(inputFuncs, ReadValues(data, |inputFuncs|).value.row)] else old(rows)
    {
      var row := ReadRow(data);
      ok := row.Some?;
      if ok {
        rows := rows + [row.value];
      }
    }
  }

  lemma {:induction false} ReadFails(data: seq<Byte>, k: nat, n: nat)
    requires k <= n && ReadValues(data, k).None?
    ensures ReadValues(data, n).None?
    decreases n - k
  {
    if k < n {
      ReadFails(data, k + 1, n);
    }
  }

  /** The value p stands at index i of d. */
  predicate StandsAt(p: Option<seq<Byte>>, d: seq<Byte>, i: nat) {
    i + 4 <= |d|
    && IUnpack(d, i) == (if p.None? then -1 else |p.value|)
    && (p.Some? ==> Slice(d, i + 4, |p.value|) == p.value)
  }

  lemma ValueStands(d: seq<Byte>, p: Option<seq<Byte>>, front: seq<Byte>, tail: seq<Byte>)
    requires ParamFits(p) && d == front + ValueBytes(p) + tail
    ensures StandsAt(p, d, |front|)
  {
    var n, value := LengthField(p), Payload(p);
    IUnpackPack(n, front, value + tail);
    Regroup(front, IPack(n), value, tail);
    assert d[|front| + 4..|front| + 4 + |value|] == value;
  }

  lemma ReadsOne(d: seq<Byte>, row: seq<Option<seq<Byte>>>, p: Option<seq<Byte>>, i: nat)
    requires ReadValues(d, |row|) == Some(RowState(row, i)) && StandsAt(p, d, i)
    ensures ReadValues(d, |row| + 1) == Some(RowState(row + [p], i + 4 + if p.None? then 0 else |p.value|))
  {
    ReadsValueAt(d, row, p, i);
  }

  lemma ReadsValueAt(d: seq<Byte>, row: seq<Option<seq<Byte>>>, p: Option<seq<Byte>>, i: nat)
    requires StandsAt(p, d, i)
    ensures ReadValue(d, RowState(row, i)) == Some(RowState(row + [p], i + 4 + if p.None? then 0 else |p.value|))
  {
    if p.Some? {
      assert ReadValue(d, RowState(row, i)) == Some(RowState(row + [Some(p.value)], i + 4 + |p.value|));
    } else {
      assert ReadValue(d, RowState(row, i)) == Some(RowState(row + [None], i + 4));
    }
  }

  lemma Regroup(a: seq<Byte>, b: seq<Byte>, c: seq<Byte>, d: seq<Byte>)
    ensures a + (b + c) + d == a + b + (c + d) == a + b + c + d
  {
  }

  lemma Append3(a: seq<Byte>, b: seq<Byte>, c: seq<Byte>, d: seq<Byte>)
    ensures a + b + c + d == a + b + (c + d)
    ensures a + b + [] == a + b
  {
  }

  /** The bytes of value k stand between those before and those after it. */
  lemma {:induction false} ValuesSplit(ps: seq<Option<seq<Byte>>>, k: nat) returns (rest: seq<Byte>)
    requires k < |ps|
    ensures Values(ps) == Values(ps[..k]) + ValueBytes(ps[k]) + rest
  {
    var last := |ps| - 1;
    if k == last {
      rest := [];
      Append3(Values(ps[..k]), ValueBytes(ps[k]), [], []);
    } else {
      var front := ValuesSplit(ps[..last], k);
      SameFront(ps, last, k);
      rest := front + ValueBytes(ps[last]);
      Append3(Values(ps[..k]), ValueBytes(ps[k]), front, ValueBytes(ps[last]));
    }
  }

  lemma SameFront<T>(s: seq<T>, n: nat, k: nat)
    requires k < n <= |s|
    ensures s[..n][..k] == s[..k] && s[..n][k] == s[k]
  {
  }

  lemma SplitAt(d: seq<Byte>, head: seq<Byte>, ps: seq<Option<seq<Byte>>>, tail: seq<Byte>, k: nat)
    returns (front: seq<Byte>, rest: seq<Byte>)
    requires k < |ps| && d == head + Values(ps) + tail
    ensures d == front + ValueBytes(ps[k]) + rest && |front| == |head| + |Values(ps[..k])|
  {
    var after := ValuesSplit(ps, k);
    Regroup5(head, Values(ps[..k]), ValueBytes(ps[k]), after, tail);
    front, rest := head + Values(ps[..k]), after + tail;
  }

  lemma ValueLaid(d: seq<Byte>, head: seq<Byte>, ps: seq<Option<seq<Byte>>>, tail: seq<Byte>, k: nat, i: nat)
    requires k < |ps| && ParamFits(ps[k]) && d == head + Values(ps) + tail && i == |head| + |Values(ps[..k])|
    ensures StandsAt(ps[k], d, i)
  {
    var front, rest := SplitAt(d, head, ps, tail, k);
    ValueStands(d, ps[k], front, rest);
  }

  lemma Regroup5(a: seq<Byte>, b: seq<Byte>, c: seq<Byte>, d: seq<Byte>, e: seq<Byte>)
    ensures a + (b + c + d) + e == a + b + c + (d + e)
  {
  }

  /** Value k stands at offset k, and the offsets follow each other without gaps. */
  predicate Laid(d: seq<Byte>, ps: seq<Option<seq<Byte>>>, offsets: seq<nat>) {
    |offsets| == |ps| + 1 && offsets[0] == 2
    && forall k :: 0 <= k < |ps| ==> StandsAt(ps[k], d, offsets[k]) && offsets[k + 1] == offsets[k] + 4 + |Payload(ps[k])|
  }

  function Offsets(ps: seq<Option<seq<Byte>>>): (r: seq<nat>)
    ensures |r| == |ps| + 1 && forall k :: 0 <= k <= |ps| ==> r[k] == 2 + |Values(ps[..k])|
  {
    seq(|ps| + 1, k requires 0 <= k <= |ps| => 2 + |Values(ps[..k])|)
  }

  lemma {:induction false} ReadsLaid(d: seq<Byte>, ps: seq<Option<seq<Byte>>>, offsets: seq<nat>, n: nat)
    requires Laid(d, ps, offsets) && n <= |ps|
    ensures ReadValues(d, n) == Some(RowState(ps[..n], offsets[n]))
  {
    if n > 0 {
      ReadsLaid(d, ps, offsets, n - 1);
      ReadsOne(d, ps[..n - 1], ps[n - 1], offsets[n - 1]);
      assert ps[..n] == ps[..n - 1] + [ps[n - 1]];
    }
  }

  lemma ValuesSnoc(ps: seq<Option<seq<Byte>>>, k: nat)
    requires k < |ps|
    ensures Values(ps[..k + 1]) == Values(ps[..k]) + ValueBytes(ps[k])
  {
    assert ps[..k + 1][..k] == ps[..k];
  }

  /** A row that carries the parameters of a Bind message as they were sent is read back as those parameters,
      each passed to its input function, NULLs included; what follows the values is ignored. */
  lemma BindThenDataRow<V>(ps: seq<Option<seq<Byte>>>, tail: seq<Byte>, funcs: seq<seq<Byte> -> V>)
    requires |ps| < 0x1_0000 && |funcs| == |ps| && forall i :: 0 <= i < |ps| ==> ParamFits(ps[i])
    ensures ReadValues(CountAndValues(ps) + tail, |funcs|).Some?
    ensures Converted(funcs, ReadValues(CountAndValues(ps) + tail, |funcs|).value.row) == Converted(funcs, ps)
  {
    var d := CountAndValues(ps) + tail;
    var offsets := Offsets(ps);
    forall k | 0 <= k < |ps|
      ensures StandsAt(ps[k], d, offsets[k]) && offsets[k + 1] == offsets[k] + 4 + |Payload(ps[k])|
    {
      ValueLaid(d, HPack(|ps|), ps, tail, k, offsets[k]);
      ValuesSnoc(ps, k);
    }
    ReadsLaid(d, ps, offsets, |ps|);
    assert ps[..|ps|] == ps;
  }
}
