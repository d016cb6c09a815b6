/** Framing of the client's first messages on a proxied Postgres connection. */
module Startup {
  import opened Wrappers

  type byte = b: int | 0 <= b < 256

  const SSL_REQUEST := 80877103
  const GSS_REQUEST := 80877104
  const HEADER := 8
  const DECLINE: byte := 78

  /** Four bytes, most significant first. */
  function Uint32(bs: seq<byte>): (n: nat)
    requires |bs| == 4
    ensures n < 0x1_0000_0000
  {
    0x100_0000 * (bs[0] as int) + 0x1_0000 * (bs[1] as int) + 0x100 * (bs[2] as int) + bs[3] as int
  }

  function BigEndian(n: nat): (bs: seq<byte>)
    requires n < 0x1_0000_0000
    ensures |bs| == 4
  {
    [n / 0x100_0000, n / 0x1_0000 % 0x100, n / 0x100 % 0x100, n % 0x100]
  }

  lemma BigEndianInverts(n: nat)
    requires n < 0x1_0000_0000
    ensures Uint32(BigEndian(n)) == n
  {
    assert n / 0x1_0000 == n / 0x100_0000 * 0x100 + n / 0x1_0000 % 0x100;
    assert n / 0x100 == n / 0x1_0000 * 0x100 + n / 0x100 % 0x100;
  }

  function LengthOf(header: seq<byte>): nat
    requires |header| >= HEADER
  {
    Uint32(header[..4])
  }

  /** An eight-byte request to encrypt the connection. */
  predicate IsRequest(header: seq<byte>)
    requires |header| >= HEADER
  {
    LengthOf(header) == 8 && (Uint32(header[4..8]) == SSL_REQUEST || Uint32(header[4..8]) == GSS_REQUEST)
  }

  /** What reading yields: a message or an error, the bytes taken from the stream, the declines sent. */
  datatype Outcome = Outcome(message: Option<seq<byte>>, consumed: nat, declines: nat)

  /** The reader over a stream that ends after `input`, on a connection that accepts `writable` replies. */
  function Frame(input: seq<byte>, writable: nat): (o: Outcome)
    ensures o.consumed <= |input| && o.declines <= writable
  {
    if |input| < HEADER then Outcome(None, |input|, 0)
    else if IsRequest(input) then
      if writable == 0 then Outcome(None, HEADER, 0)
      else
        var rest := Frame(input[HEADER..], writable - 1);
        Outcome(rest.message, HEADER + rest.consumed, 1 + rest.declines)
    else if LengthOf(input) < HEADER then Outcome(Some(input[..HEADER]), HEADER, 0)
    else if |input| < LengthOf(input) then Outcome(None, |input|, 0)
    else Outcome(Some(input[..LengthOf(input)]), LengthOf(input), 0)
  }

  /** A client connection: the bytes still to arrive, the bytes sent back, the replies it still accepts. */
  class Conn {
    var input: seq<byte>
    var output: seq<byte>
    var writable: nat

    constructor (input: seq<byte>, writable: nat)
      ensures this.input == input && output == [] && this.writable == writable
    {
      this.input, this.output, this.writable := input, [], writable;
    }

    /** Fills a buffer of `n` bytes, or takes what is left and fails. */
    method ReadFull(n: nat) returns (buffer: Option<seq<byte>>)
      modifies this`input
      ensures |old(input)| >= n ==> buffer == Some(old(input)[..n]) && input == old(input)[n..]
      ensures |old(input)| < n ==> buffer == None && input == []
    {
      if |input| < n {
        input := [];
        return None;
      }
      buffer, input := Some(input[..n]), input[n..];
    }

    method Write(b: byte) returns (ok: bool)
      modifies this`output, this`writable
      ensures ok == (old(writable) > 0)
      ensures ok ==> output == old(output) + [b] && writable == old(writable) - 1
      ensures !ok ==> output == old(output) && writable == old(writable)
    {
      ok := writable > 0;
      if ok {
        output, writable := output + [b], writable - 1;
      }
    }
  }

  function Declines(n: nat): seq<byte> {
    seq(n, _ => DECLINE)
  }

  lemma DeclinesGrow(n: nat)
    ensures Declines(n) == if n == 0 then [] else Declines(n - 1) + [DECLINE]
  {
  }

  /** What the reader does with the bytes at hand. */
  lemma FrameCases(input: seq<byte>, writable: nat)
    ensures |input| < HEADER ==> Frame(input, writable) == Outcome(None, |input|, 0)
    ensures |input| >= HEADER && IsRequest(input) && writable == 0 ==>
      Frame(input, writable) == Outcome(None, HEADER, 0)
    ensures |input| >= HEADER && IsRequest(input) && writable > 0 ==>
      var rest := Frame(input[HEADER..], writable - 1);
      Frame(input, writable) == Outcome(rest.message, HEADER + rest.consumed, 1 + rest.declines)
    ensures |input| >= HEADER && !IsRequest(input) && LengthOf(input) < HEADER ==>
      Frame(input, writable) == Outcome(Some(input[..HEADER]), HEADER, 0)
    ensures |input| >= HEADER && !IsRequest(input) && HEADER <= LengthOf(input) ==>
      Frame(input, writable) ==
        if |input| < LengthOf(input) then Outcome(None, |input|, 0)
        else Outcome(Some(input[..LengthOf(input)]), LengthOf(input), 0)
  {
    hide Uint32;
  }

  method ReadStartup(conn: Conn) returns (message: Option<seq<byte>>)
    modifies conn
    ensures var o := Frame(old(conn.input), old(conn.writable));
      && message == o.message
      && conn.input == old(conn.input)[o.consumed..]
      && conn.output == old(conn.output) + Declines(o.declines)
  {
    hide Uint32, Declines, Frame;
    DeclinesGrow(0);
    ghost var taken: nat := 0;
    ghost var sent: nat := 0;
    ghost var all, budget := conn.input, conn.writable;
    while true
      invariant taken <= |all| && conn.input == all[taken..] && sent <= budget && conn.writable == budget - sent
      invariant conn.output == old(conn.output) + Declines(sent)
      invariant var o := Frame(conn.input, conn.writable);
        Frame(all, budget) == Outcome(o.message, taken + o.consumed, sent + o.declines)
      decreases |conn.input|
    {
      ghost var at := conn.input;
      FrameCases(at, conn.writable);
      var read := conn.ReadFull(HEADER);
      if read == None {
        return None;
      }
      var header := read.value;
      var length := Uint32(header[..4]);
      var code := Uint32(header[4..8]);
      assert header[..4] == at[..4] && header[4..8] == at[4..8];
      if length == 8 && (code == SSL_REQUEST || code == GSS_REQUEST) {
        var ok := conn.Write(DECLINE);
        if !ok {
          return None;
        }
        taken, sent := taken + HEADER, sent + 1;
        DeclinesGrow(sent);
      } else if length < 8 {
        return Some(header);
      } else {
        var remaining := conn.ReadFull(length - 8);
        if remaining == None {
          return None;
        }
        assert header + remaining.value == at[..length];
        return Some(header + remaining.value);
      }
    }
  }

  // ---- The bytes on the wire ----

  lemma Uint32Bytes(a: seq<byte>, b: seq<byte>)
    requires |a| == 4 && |b| == 4
    ensures Uint32(a) == Uint32(b) <==> a == b
  {
    if Uint32(a) == Uint32(b) {
      assert a[0] == b[0];
      assert a[1] == b[1];
      assert a[2] == b[2];
    }
  }

  /** The two requests that are declined, byte for byte: an SSLRequest and a GSSENCRequest. */
  lemma RequestExactly(header: seq<byte>)
    requires |header| >= 8
    ensures IsRequest(header) <==>
      header[..8] == [0, 0, 0, 8, 4, 210, 22, 47] || header[..8] == [0, 0, 0, 8, 4, 210, 22, 48]
  {
    assert Uint32([0, 0, 0, 8]) == 8 && Uint32([4, 210, 22, 47]) == 80877103 && Uint32([4, 210, 22, 48]) == 80877104;
    hide Uint32;
    var size, code := header[..4], header[4..8];
    assert header[..8] == size + code;
    Uint32Bytes(size, [0, 0, 0, 8]);
    Uint32Bytes(code, [4, 210, 22, 47]);
    Uint32Bytes(code, [4, 210, 22, 48]);
    SameParts(size, code, [0, 0, 0, 8], [4, 210, 22, 47]);
    SameParts(size, code, [0, 0, 0, 8], [4, 210, 22, 48]);
    assert [0, 0, 0, 8] + [4, 210, 22, 47] == [0, 0, 0, 8, 4, 210, 22, 47];
    assert [0, 0, 0, 8] + [4, 210, 22, 48] == [0, 0, 0, 8, 4, 210, 22, 48];
  }

  lemma SameParts(a: seq<byte>, b: seq<byte>, c: seq<byte>, d: seq<byte>)
    requires |a| == |c|
    ensures a + b == c + d <==> a == c && b == d
  {
    if a + b == c + d {
      assert a == (a + b)[..|a|] && c == (c + d)[..|a|];
      assert b == (a + b)[|a|..] && d == (c + d)[|a|..];
    }
  }

  /** A request to encrypt is answered with the letter N, and what follows it is read as if nothing had come before. */
  lemma RequestDeclined(request: seq<byte>, rest: seq<byte>, writable: nat)
    requires request == [0, 0, 0, 8, 4, 210, 22, 47] || request == [0, 0, 0, 8, 4, 210, 22, 48]
    ensures var o := Frame(request + rest, writable);
      if writable == 0 then o == Outcome(None, 8, 0)
      else
        var next := Frame(rest, writable - 1);
        && o == Outcome(next.message, 8 + next.consumed, 1 + next.declines)
        && Declines(o.declines) == ['N' as int as byte] + Declines(next.declines)
  {
    hide Uint32, Frame, IsRequest;
    var input := request + rest;
    assert input[..8] == request && input[8..] == rest;
    RequestExactly(input);
    FrameCases(input, writable);
    assert DECLINE == 'N' as int;
  }

  // ---- The grammar of the first bytes ----

  /** A message: not an encryption request, and as long as its length field says, eight bytes at least. */
  predicate IsMessage(m: seq<byte>) {
    && |m| >= HEADER && !IsRequest(m)
    && |m| == if LengthOf(m) < HEADER then HEADER else LengthOf(m)
  }

  predicate AreRequests(rs: seq<seq<byte>>) {
    forall i | 0 <= i < |rs| :: |rs[i]| == HEADER && IsRequest(rs[i])
  }

  function Concat(rs: seq<seq<byte>>): seq<byte> {
    if rs == [] then [] else rs[0] + Concat(rs[1..])
  }

  /** The stream is requests, then one message, then bytes the reader leaves alone. */
  ghost predicate Parses(input: seq<byte>, rs: seq<seq<byte>>, m: seq<byte>, rest: seq<byte>) {
    AreRequests(rs) && IsMessage(m) && input == Concat(rs) + m + rest
  }

  lemma SameHeader(a: seq<byte>, b: seq<byte>)
    requires |a| >= HEADER && |b| >= HEADER && a[..HEADER] == b[..HEADER]
    ensures LengthOf(a) == LengthOf(b) && IsRequest(a) == IsRequest(b)
  {
    assert a[..4] == a[..HEADER][..4] && b[..4] == b[..HEADER][..4];
    assert a[4..8] == a[..HEADER][4..8] && b[4..8] == b[..HEADER][4..8];
  }

  lemma {:induction false} ConcatLength(rs: seq<seq<byte>>)
    requires forall i | 0 <= i < |rs| :: |rs[i]| == HEADER
    ensures |Concat(rs)| == HEADER * |rs|
  {
    if rs != [] {
      ConcatLength(rs[1..]);
    }
  }

  /** A stream of that form is read to exactly that message. */
  lemma {:induction false} ParsedIsFramed(input: seq<byte>, rs: seq<seq<byte>>, m: seq<byte>, rest: seq<byte>,
                                          writable: nat)
    requires Parses(input, rs, m, rest) && |rs| <= writable
    ensures Frame(input, writable) == Outcome(Some(m), HEADER * |rs| + |m|, |rs|)
  {
    if rs == [] {
      assert input == m + rest && input[..HEADER] == m[..HEADER];
      SameHeader(input, m);
      assert input[..|m|] == m;
    } else {
      var tail := Concat(rs[1..]) + m + rest;
      assert input == rs[0] + tail;
      assert input[..HEADER] == rs[0][..HEADER] && input[HEADER..] == tail;
      SameHeader(input, rs[0]);
      ParsedIsFramed(tail, rs[1..], m, rest, writable - 1);
    }
  }

  lemma OneMore(input: seq<byte>, first: seq<byte>, inner: seq<seq<byte>>, m: seq<byte>, rest: seq<byte>)
    requires |first| == HEADER && HEADER <= |input| && first == input[..HEADER] && IsRequest(first)
    requires Parses(input[HEADER..], inner, m, rest)
    ensures Parses(input, [first] + inner, m, rest)
  {
    hide IsRequest, IsMessage;
    var rs := [first] + inner;
    assert rs[1..] == inner;
    assert input == first + input[HEADER..];
    assert Concat(rs) + m + rest == first + (Concat(inner) + m + rest);
  }

  /** A successful read took exactly some requests and one message off the stream, and declined each request once. */
  lemma {:induction false} FramedIsParsed(input: seq<byte>, writable: nat) returns (rs: seq<seq<byte>>)
    requires Frame(input, writable).message.Some?
    ensures var o := Frame(input, writable);
      && Parses(input, rs, o.message.value, input[o.consumed..])
      && |rs| == o.declines && o.consumed == HEADER * |rs| + |o.message.value|
  {
    hide Uint32;
    var o := Frame(input, writable);
    if IsRequest(input) {
      var inner := FramedIsParsed(input[HEADER..], writable - 1);
      var first := input[..HEADER];
      SameHeader(first, input);
      rs := [first] + inner;
      assert rs[1..] == inner;
      var p := Frame(input[HEADER..], writable - 1);
      assert input[HEADER..][p.consumed..] == input[o.consumed..];
      OneMore(input, first, inner, o.message.value, input[o.consumed..]);
    } else {
      rs := [];
      var m := o.message.value;
      assert m[..HEADER] == input[..HEADER];
      SameHeader(m, input);
      assert input == m + input[o.consumed..];
    }
  }

  /** Reading succeeds exactly on streams that begin with requests and a message, with enough replies accepted. */
  lemma SucceedsExactly(input: seq<byte>, writable: nat)
    ensures Frame(input, writable).message.Some? <==>
      exists rs, m, rest :: Parses(input, rs, m, rest) && |rs| <= writable
  {
    if Frame(input, writable).message.Some? {
      var rs := FramedIsParsed(input, writable);
      assert Parses(input, rs, Frame(input, writable).message.value, input[Frame(input, writable).consumed..]);
    }
    if rs, m, rest :| Parses(input, rs, m, rest) && |rs| <= writable {
      ParsedIsFramed(input, rs, m, rest, writable);
    }
  }

  const PROTOCOL_3 := 196608

  /** A StartupMessage: its own length, protocol version 3.0, and the parameter bytes. */
  function StartupMessage(parameters: seq<byte>): seq<byte>
    requires |parameters| + 8 < 0x1_0000_0000
  {
    BigEndian(|parameters| + 8) + BigEndian(PROTOCOL_3) + parameters
  }

  /** After any number of declined requests, a StartupMessage is handed on byte for byte, with nothing after it read. */
  lemma StartupVerbatim(rs: seq<seq<byte>>, parameters: seq<byte>, rest: seq<byte>, writable: nat)
    requires AreRequests(rs) && |rs| <= writable && |parameters| + 8 < 0x1_0000_0000
    ensures var m := StartupMessage(parameters);
      Frame(Concat(rs) + m + rest, writable) == Outcome(Some(m), HEADER * |rs| + |m|, |rs|)
  {
    var m := StartupMessage(parameters);
    BigEndianInverts(|parameters| + 8);
    BigEndianInverts(PROTOCOL_3);
    assert m[..4] == BigEndian(|parameters| + 8) && m[4..8] == BigEndian(PROTOCOL_3);
    ParsedIsFramed(Concat(rs) + m + rest, rs, m, rest, writable);
  }
}
