/** How the HTTP relay frames the messages of a connection
    (apps/http-proxy/src/http_session.cc): it reads a header, then a body whose length
    is given or that comes in chunks (sections 3.3.3 and 4.1 of RFC 7230), and passes on
    pieces, the last one of a message marked as such.

    What it reads at a time depends on how the socket splits the bytes.  An operation
    that reads up to a delimiter may read more; what is left stays in the buffer.  The
    fields of a header go into a map that lives as long as the session, so what a header
    does not say is what an earlier one said. */
module Http {
  import opened Lists

  const BUFFER := 1024 * 512
  const CRLF := "\r\n"
  const BLANK := "\r\n\r\n"

  datatype Piece = Piece(bytes: string, last: bool)

  datatype Coding = ByChunks | Otherwise

  /** The fields of a header that say where the body ends: Content-Length and
      Transfer-Encoding. */
  datatype Fields = Fields(length: Option<nat>, coding: Option<Coding>)

  type Parse = string -> Fields

  /** The operation that is under way. */
  datatype Phase = AwaitHeader | AwaitChunk | AwaitBody(toRead: nat)

  /** The session's header map lives as long as the session: `known` are the fields
      that the headers so far have left in it. */
  datatype State = State(
    buf: string, known: Fields, chunked: bool, contentLength: nat, lastChunk: bool, phase: Phase, out: seq<Piece>)

  const NOTHING := Fields(None, None)
  const INIT := State("", NOTHING, false, 0, false, AwaitHeader, [])

  /** A field that a header does not have keeps its earlier value. */
  function Overlay(known: Fields, f: Fields): Fields {
    Fields(if f.length.Some? then f.length else known.length, if f.coding.Some? then f.coding else known.coding)
  }

  /** The session's belief that chunks follow. */
  function Flag(known: Fields, chunked: bool): bool {
    known.length.None? && (known.coding == Some(ByChunks) || chunked)
  }

  function Size(known: Fields): nat {
    if known.length.Some? then known.length.value else 0
  }

  // ----------------------------------------------------------------------- delimiters

  predicate At(s: string, d: string, n: nat) {
    |d| <= n <= |s| && s[n - |d|..n] == d
  }

  /** The first occurrence of the delimiter ends at `n`. */
  ghost predicate Ends(s: string, d: string, n: nat) {
    At(s, d, n) && forall m: nat | m < n :: !At(s, d, m)
  }

  lemma AtPrefix(s: string, x: string, d: string, n: nat)
    requires n <= |s|
    ensures At(s, d, n) <==> At(s + x, d, n)
  {
    if |d| <= n {
      assert (s + x)[n - |d|..n] == s[n - |d|..n];
    }
  }

  lemma EndsPrefix(s: string, x: string, d: string, n: nat)
    requires n <= |s|
    ensures Ends(s, d, n) <==> Ends(s + x, d, n)
  {
    forall m: nat | m <= n
      ensures At(s, d, m) <==> At(s + x, d, m)
    {
      AtPrefix(s, x, d, m);
    }
  }

  /** However much was read, the delimiter found is that of the first unit. */
  lemma EndsOnce(s: string, x: string, head: string, y: string, d: string, n: nat)
    requires s + x == head + y && Ends(s, d, n) && Ends(head, d, |head|)
    ensures n == |head| <= |s|
  {
    EndsPrefix(s, x, d, n);
    EndsPrefix(head, y, d, |head|);
  }

  // --------------------------------------------------------------------- chunk sizes

  predicate IsHex(c: char) {
    '0' <= c <= '9' || 'a' <= c <= 'f' || 'A' <= c <= 'F'
  }

  function Digit(c: char): nat
    requires IsHex(c)
  {
    if '0' <= c <= '9' then (c - '0') as nat
    else if 'a' <= c <= 'f' then 10 + (c - 'a') as nat
    else 10 + (c - 'A') as nat
  }

  /** The number that the text starts with. */
  function Hex(s: string, acc: nat := 0): nat {
    if s == "" || !IsHex(s[0]) then acc else Hex(s[1..], 16 * acc + Digit(s[0]))
  }

  lemma {:induction false} HexStops(line: string, x: string, acc: nat)
    requires x != "" && !IsHex(x[0])
    ensures Hex(line + x, acc) == Hex(line, acc)
  {
    if line == "" {
      assert line + x == x;
    } else {
      assert (line + x)[1..] == line[1..] + x;
      if IsHex(line[0]) {
        HexStops(line[1..], x, 16 * acc + Digit(line[0]));
      }
    }
  }

  const LOWER := "0123456789abcdef"
  const UPPER := "0123456789ABCDEF"

  /** A number as a chunk size is written. */
  function Written(n: nat, digits: string): string
    requires |digits| == 16
  {
    if n < 16 then [digits[n]] else Written(n / 16, digits) + [digits[n % 16]]
  }

  lemma {:induction false} HexMore(s: string, c: char, acc: nat)
    requires IsHex(c) && forall x | x in s :: IsHex(x)
    ensures Hex(s + [c], acc) == 16 * Hex(s, acc) + Digit(c)
  {
    if s == "" {
      assert (s + [c])[1..] == "";
    } else {
      assert (s + [c])[1..] == s[1..] + [c];
      assert s[0] in s;
      HexMore(s[1..], c, 16 * acc + Digit(s[0]));
    }
  }

  lemma DigitOf(k: nat)
    requires k < 16
    ensures |LOWER| == 16 && IsHex(LOWER[k]) && Digit(LOWER[k]) == k
    ensures |UPPER| == 16 && IsHex(UPPER[k]) && Digit(UPPER[k]) == k
  {
  }

  /** Every chunk size is read as it is written. */
  lemma {:induction false} HexReads(n: nat, digits: string)
    requires digits == LOWER || digits == UPPER
    ensures Hex(Written(n, digits)) == n && forall x | x in Written(n, digits) :: IsHex(x)
  {
    hide IsHex, Digit, Hex;
    DigitOf(n % 16);
    var c := digits[n % 16];
    var front := if n < 16 then "" else Written(n / 16, digits);
    if n < 16 {
      HexNone();
    } else {
      HexReads(n / 16, digits);
    }
    HexMore(front, c, 0);
    assert Written(n, digits) == front + [c];
  }

  lemma HexNone()
    ensures Hex("") == 0
  {
  }

  // ----------------------------------------------------------------------- callbacks

  function Min(a: nat, b: nat): nat {
    if a <= b then a else b
  }

  function Emit(s: State, n: nat, last: bool): State
    requires n <= |s.buf|
  {
    s.(out := s.out + [Piece(s.buf[..n], last)], buf := s.buf[n..])
  }

  /** After a unit: the next chunk, or the next message. */
  function NextUnit(s: State): State {
    s.(phase := if !s.chunked || s.lastChunk then AwaitHeader else AwaitChunk)
  }

  /** `doReadBody`: a body or chunk of which part, or all, may be in the buffer. */
  function ReadBody(s: State, size: nat): State
    requires |s.buf| < BUFFER
  {
    var missing := if size > |s.buf| then size - |s.buf| else 0;
    var toRead := if missing >= BUFFER then BUFFER - |s.buf| else missing;
    var s := s.(lastChunk := s.chunked && size == 5);
    if toRead > 0 then s.(contentLength := missing, phase := AwaitBody(toRead))
    else if size > 0 then NextUnit(Emit(s, size, if s.chunked then s.lastChunk else true))
    else NextUnit(s)
  }

  /** `handleRead`: some bytes of a body or chunk. */
  function OnBody(s: State, more: string): State
    requires |more| <= s.contentLength
  {
    var s := s.(buf := s.buf + more, contentLength := s.contentLength - |more|);
    var done := s.contentLength == 0;
    var s := Emit(s, |s.buf|, if s.chunked then s.lastChunk && done else done);
    if done then NextUnit(s) else s.(phase := AwaitBody(Min(s.contentLength, BUFFER)))
  }

  /** The completion of `doReadChunkedHeader`, whose line ends at `n`. */
  function OnChunk(s: State, more: string, n: nat): State
    requires |s.buf + more| < BUFFER
  {
    var s := s.(buf := s.buf + more);
    ReadBody(s, Hex(s.buf) + 2 + n)
  }

  /** The completion of `doReadHeader`, whose header ends at `n`. */
  function OnHeader(parse: Parse, s: State, more: string, n: nat): State
    requires n <= |s.buf + more| && |s.buf + more| - n < BUFFER
  {
    var s := s.(buf := s.buf + more);
    var known := Overlay(s.known, parse(s.buf[..n]));
    var s := s.(known := known, chunked := Flag(known, s.chunked));
    var s := Emit(s, n, Size(known) == 0 && !s.chunked);
    if s.chunked then s.(phase := AwaitChunk) else ReadBody(s, Size(known))
  }

  // ------------------------------------------------------------------------- streams

  /** What the messages of a connection are made of. */
  datatype Unit = Head(head: string) | Body(body: string) | Chunk(line: string, data: string)

  function Bytes(u: Unit): string {
    match u
    case Head(head) => head
    case Body(body) => body
    case Chunk(line, data) => line + CRLF + data + CRLF
  }

  datatype Due = Message | FixedBody(n: nat) | Chunks

  /** What a header says of its own message (section 3.3.3 of RFC 7230): a chunked body
      goes before a length; without either there is no body. */
  function Own(f: Fields): Due {
    if f.coding == Some(ByChunks) then Chunks
    else if f.length.Some? && f.length.value > 0 then FixedBody(f.length.value)
    else Message
  }

  /** Whether a unit ends its message. */
  predicate Final(parse: Parse, u: Unit) {
    match u
    case Head(head) => Own(parse(head)).Message?
    case Body(_) => true
    case Chunk(_, data) => data == ""
  }

  /** The units are complete messages; chunked ones have no trailer. */
  ghost predicate Complete(parse: Parse, us: seq<Unit>, due: Due)
    decreases |us|
  {
    match due
    case Message =>
      us == [] || (us[0].Head? && Ends(us[0].head, BLANK, |us[0].head|) && Complete(parse, us[1..], Own(parse(us[0].head))))
    case FixedBody(n) =>
      us != [] && us[0].Body? && |us[0].body| == n && Complete(parse, us[1..], Message)
    case Chunks =>
      us != [] && GoodChunk(us[0]) && Complete(parse, us[1..], if us[0].data == "" then Message else Chunks)
  }

  ghost predicate GoodChunk(u: Unit) {
    && u.Chunk? && u.line != "" && IsHex(u.line[0]) && Ends(u.line + CRLF, CRLF, |u.line| + 2)
    && Hex(u.line) == |u.data|
  }

  /** The bytes up to the next header, and the units from it on. */
  function BodyOf(us: seq<Unit>): string {
    if us == [] || us[0].Head? then "" else Bytes(us[0]) + BodyOf(us[1..])
  }

  function AfterBody(us: seq<Unit>): seq<Unit> {
    if us == [] || us[0].Head? then us else AfterBody(us[1..])
  }

  /** The session, which goes by the fields of all headers so far, takes the units after
      a header for the message's body: a remembered length has to be that of the body,
      and a belief in chunks has to be right. */
  predicate Suits(us: seq<Unit>, known: Fields, chunked: bool) {
    if known.length.Some? then |BodyOf(us)| == known.length.value
    else chunked ==> us != [] && us[0].Chunk?
  }

  /** The exact condition for the session to follow a stream: every header suits its
      message, and a last chunk that is read as a chunk has a size of one digit. */
  predicate Clear(parse: Parse, us: seq<Unit>, known: Fields, chunked: bool)
    decreases |us|
  {
    if us == [] then true
    else
      match us[0]
      case Head(head) =>
        var k := Overlay(known, parse(head));
        Suits(us[1..], k, Flag(k, chunked)) && Clear(parse, us[1..], k, Flag(k, chunked))
      case Body(_) => Clear(parse, us[1..], known, chunked)
      case Chunk(line, data) =>
        (chunked && data == "" ==> |line| == 1) && Clear(parse, us[1..], known, chunked)
  }

  function Wire(us: seq<Unit>): string {
    if us == [] then "" else Bytes(us[0]) + Wire(us[1..])
  }

  /** The messages, each as its bytes on the wire; `part` is the start of the first. */
  function Messages(parse: Parse, part: string, us: seq<Unit>): seq<string>
    decreases |us|
  {
    if us == [] then []
    else if Final(parse, us[0]) then [part + Bytes(us[0])] + Messages(parse, "", us[1..])
    else Messages(parse, part + Bytes(us[0]), us[1..])
  }

  /** The messages that have been passed on: pieces up to one marked as the last. */
  function Passed(out: seq<Piece>): seq<string> {
    if out == [] then []
    else
      var p := out[|out| - 1];
      if p.last then Passed(out[..|out| - 1]) + [Partial(out[..|out| - 1]) + p.bytes] else Passed(out[..|out| - 1])
  }

  /** The message that is being passed on. */
  function Partial(out: seq<Piece>): string {
    if out == [] || out[|out| - 1].last then ""
    else Partial(out[..|out| - 1]) + out[|out| - 1].bytes
  }

  // ----------------------------------------------------------------------- invariant

  /** What has not been passed on: the end of a unit, whether that ends its message,
      and the units after it. */
  datatype Left = Left(now: string, final: bool, units: seq<Unit>)

  function LeftWire(left: Left): string {
    left.now + Wire(left.units)
  }

  function LeftMessages(parse: Parse, part: string, left: Left): seq<string> {
    if left.now == "" then Messages(parse, part, left.units)
    else if left.final then [part + left.now] + Messages(parse, "", left.units)
    else Messages(parse, part + left.now, left.units)
  }

  /** The state fits what is left. */
  ghost predicate Fits(parse: Parse, s: State, left: Left) {
    match s.phase
    case AwaitHeader => left.now == "" && Complete(parse, left.units, Message)
    case AwaitChunk => left.now == "" && s.chunked && Complete(parse, left.units, Chunks)
    case AwaitBody(k) =>
      && 0 < k <= s.contentLength && |left.now| == |s.buf| + s.contentLength
      && left.final == (!s.chunked || s.lastChunk)
      && Complete(parse, left.units, if left.final then Message else Chunks)
  }

  /** `rest` is what the socket has not delivered, `all` are the messages sent, and
      `clear` tells whether the session will always know how to read on. */
  ghost predicate Inv(parse: Parse, s: State, rest: string, left: Left, all: seq<string>, clear: bool) {
    && Fits(parse, s, left) && Clear(parse, left.units, s.known, s.chunked) == clear
    && |s.buf| < BUFFER && (s.phase.AwaitHeader? ==> Partial(s.out) == "")
    && s.buf + rest == LeftWire(left)
    && Passed(s.out) + LeftMessages(parse, Partial(s.out), left) == all
  }

  /** A step: bytes from the socket complete the operation under way; `n` is where the
      delimiter ends that it was looking for. */
  datatype Step = Step(more: string, n: nat)

  ghost predicate Enabled(s: State, rest: string, step: Step) {
    && step.more <= rest
    && match s.phase
      case AwaitHeader => Ends(s.buf + step.more, BLANK, step.n) && |s.buf + step.more| - step.n < BUFFER
      case AwaitChunk => Ends(s.buf + step.more, CRLF, step.n) && |s.buf + step.more| < BUFFER && IsHex((s.buf + step.more)[0])
      case AwaitBody(k) => |step.more| == k && k <= s.contentLength
  }

  function Next(parse: Parse, s: State, rest: string, step: Step): State
    requires Enabled(s, rest, step)
  {
    match s.phase
    case AwaitHeader => OnHeader(parse, s, step.more, step.n)
    case AwaitChunk => OnChunk(s, step.more, step.n)
    case AwaitBody(_) => OnBody(s, step.more)
  }

  // --------------------------------------------------------------------- preservation

  lemma Passing(out: seq<Piece>, p: Piece)
    ensures Passed(out + [p]) == if p.last then Passed(out) + [Partial(out) + p.bytes] else Passed(out)
    ensures Partial(out + [p]) == if p.last then "" else Partial(out) + p.bytes
  {
    assert (out + [p])[..|out|] == out;
  }

  /** Passing on the start of a unit. */
  lemma PartPassed(parse: Parse, out: seq<Piece>, left: Left, x: string, y: string)
    requires left.now == x + y && y != ""
    ensures var out' := out + [Piece(x, false)];
      Passed(out') + LeftMessages(parse, Partial(out'), left.(now := y)) == Passed(out) + LeftMessages(parse, Partial(out), left)
  {
    hide Passed, Partial, Messages;
    Passing(out, Piece(x, false));
    assert Partial(out) + x + y == Partial(out) + (x + y);
  }

  /** Passing on all of it. */
  lemma RestPassed(parse: Parse, out: seq<Piece>, left: Left)
    requires left.now != ""
    ensures var out' := out + [Piece(left.now, left.final)];
      && Passed(out') + LeftMessages(parse, Partial(out'), left.(now := "")) == Passed(out) + LeftMessages(parse, Partial(out), left)
      && (left.final ==> Partial(out') == "")
  {
    hide Passed, Partial, Messages;
    Passing(out, Piece(left.now, left.final));
  }

  lemma Cut(x: string, r: string, a: string, b: string)
    requires x + r == a + b && |x| <= |a|
    ensures a == x + a[|x|..] && r == a[|x|..] + b
  {
    assert (x + r)[..|x|] == x && (a + b)[..|x|] == a[..|x|];
    assert (x + r)[|x|..] == r && (a + b)[|x|..] == a[|x|..] + b;
  }

  lemma Join(buf: string, more: string, rest: string)
    requires more <= rest
    ensures (buf + more) + rest[|more|..] == buf + rest
  {
    assert rest == more + rest[|more|..];
  }

  /** What `OnBody` passes on. */
  lemma OnBodyEmits(s: State, more: string)
    requires |more| <= s.contentLength
    ensures var s' := OnBody(s, more); var done := |more| == s.contentLength;
      && s'.out == s.out + [Piece(s.buf + more, done && (s.chunked ==> s.lastChunk))] && s'.buf == ""
      && s'.chunked == s.chunked && s'.known == s.known && s'.lastChunk == s.lastChunk && s'.contentLength == s.contentLength - |more|
      && s'.phase == (if !done then AwaitBody(Min(s'.contentLength, BUFFER)) else if !s.chunked || s.lastChunk then AwaitHeader else AwaitChunk)
  {
    assert (s.buf + more)[..|s.buf + more|] == s.buf + more;
  }

  lemma OnBodyKeeps(parse: Parse, s: State, rest: string, left: Left, all: seq<string>, clear: bool, step: Step)
    requires Inv(parse, s, rest, left, all, clear) && s.phase.AwaitBody? && Enabled(s, rest, step)
    ensures var left' := left.(now := left.now[|s.buf| + |step.more|..]);
      Inv(parse, Next(parse, s, rest, step), rest[|step.more|..], left', all, clear)
  {
    hide OnBody, Messages, LeftMessages, Passed, Partial, Complete, Clear, Wire;
    var x, r := s.buf + step.more, rest[|step.more|..];
    Join(s.buf, step.more, rest);
    Cut(x, r, left.now, Wire(left.units));
    var y := left.now[|x|..];
    OnBodyEmits(s, step.more);
    if y == "" {
      assert left.now == x;
      RestPassed(parse, s.out, left);
    } else {
      PartPassed(parse, s.out, left, x, y);
    }
  }

  /** A unit is left whose bytes are `u`; part of it, or all, may be in the buffer. */
  lemma ReadBodyKeeps(parse: Parse, s: State, rest: string, u: string, final: bool, us: seq<Unit>, all: seq<string>, clear: bool)
    requires |s.buf| < BUFFER && u != "" && s.buf + rest == u + Wire(us)
    requires Passed(s.out) + LeftMessages(parse, Partial(s.out), Left(u, final, us)) == all
    requires final == (!s.chunked || |u| == 5)
    requires Complete(parse, us, if final then Message else Chunks) && Clear(parse, us, s.known, s.chunked) == clear
    ensures var left := Left(if |u| > |s.buf| then u else "", final, us);
      Inv(parse, ReadBody(s, |u|), rest, left, all, clear)
  {
    hide Messages, LeftMessages, Passed, Partial, Complete, Clear, Wire;
    if |u| <= |s.buf| {
      Cut(u, Wire(us), s.buf, rest);
      RestPassed(parse, s.out, Left(u, final, us));
    }
  }

  /** The line of a chunk, and the size it announces, are found whatever follows. */
  lemma ChunkFound(buf: string, rest: string, u: Unit, y: string, n: nat)
    requires GoodChunk(u) && buf + rest == Bytes(u) + y && Ends(buf, CRLF, n)
    ensures n == |u.line| + 2 && Hex(buf) == |u.data| && Bytes(u) != ""
    ensures Hex(buf) + 2 + n == |Bytes(u)| && (|Bytes(u)| == 5 <==> u.data == "" && |u.line| == 1)
  {
    hide Ends, Hex;
    ChunkBytes(u, y);
    var head, z := u.line + CRLF, u.data + CRLF + y;
    EndsOnce(buf, rest, head, z, CRLF, n);
    LineStarts(buf, rest, u.line, z, n);
    HexStops(u.line, buf[|u.line|..], 0);
  }

  lemma ChunkBytes(u: Unit, y: string)
    requires u.Chunk?
    ensures Bytes(u) + y == (u.line + CRLF) + (u.data + CRLF + y)
    ensures |Bytes(u)| == |u.line| + |u.data| + 4
  {
  }

  lemma LineStarts(buf: string, rest: string, line: string, z: string, n: nat)
    requires buf + rest == (line + CRLF) + z && n == |line| + 2 <= |buf|
    ensures buf == line + buf[|line|..] && |buf[|line|..]| >= 2 && buf[|line|] == '\r'
  {
    Cut(line + CRLF, z, buf, rest);
    assert buf[..|line|] == line;
  }

  lemma WireFirst(us: seq<Unit>)
    requires us != []
    ensures Wire(us) == Bytes(us[0]) + Wire(us[1..])
  {
  }

  lemma FirstUnit(parse: Parse, part: string, us: seq<Unit>)
    requires us != [] && Bytes(us[0]) != ""
    ensures LeftMessages(parse, part, Left("", false, us)) == LeftMessages(parse, part, Left(Bytes(us[0]), Final(parse, us[0]), us[1..]))
  {
  }

  /** A header that does not suit its message, or a last chunk that is not recognised. */
  predicate Stale(parse: Parse, s: State, left: Left) {
    left.units != [] &&
    match left.units[0]
    case Head(head) =>
      var k := Overlay(s.known, parse(head));
      s.phase.AwaitHeader? && !Suits(left.units[1..], k, Flag(k, s.chunked))
    case Body(_) => false
    case Chunk(line, data) => s.phase.AwaitChunk? && data == "" && |line| != 1
  }

  lemma OnChunkKeeps(parse: Parse, s: State, rest: string, left: Left, all: seq<string>, clear: bool, step: Step) returns (left': Left)
    requires Inv(parse, s, rest, left, all, clear) && s.phase.AwaitChunk? && Enabled(s, rest, step) && !Stale(parse, s, left)
    ensures Inv(parse, Next(parse, s, rest, step), rest[|step.more|..], left', all, clear)
  {
    hide Messages, Passed, Partial, Wire, GoodChunk, Bytes, ReadBody, Hex;
    var us := left.units;
    var u := us[0];
    Join(s.buf, step.more, rest);
    WireFirst(us);
    ChunkFound(s.buf + step.more, rest[|step.more|..], u, Wire(us[1..]), step.n);
    FirstUnit(parse, Partial(s.out), us);
    assert LeftMessages(parse, Partial(s.out), left) == LeftMessages(parse, Partial(s.out), Left("", false, us));
    ChunkIs(u);
    var s1 := s.(buf := s.buf + step.more);
    ReadBodyKeeps(parse, s1, rest[|step.more|..], Bytes(u), Final(parse, u), us[1..], all, clear);
    left' := Left(if |Bytes(u)| > |s1.buf| then Bytes(u) else "", Final(parse, u), us[1..]);
  }

  lemma ChunkIs(u: Unit)
    requires GoodChunk(u)
    ensures u.Chunk?
  {
  }

  /** The state after a header has been passed on. */
  function AfterHeader(parse: Parse, s: State, head: string, w: string): State {
    var k := Overlay(s.known, parse(head));
    var c := Flag(k, s.chunked);
    s.(buf := w, known := k, chunked := c, out := s.out + [Piece(head, Size(k) == 0 && !c)])
  }

  lemma OnHeaderIs(parse: Parse, s: State, more: string, head: string, w: string)
    requires s.buf + more == head + w && |w| < BUFFER
    ensures var s' := AfterHeader(parse, s, head, w);
      OnHeader(parse, s, more, |head|) == if s'.chunked then s'.(phase := AwaitChunk) else ReadBody(s', Size(s'.known))
  {
    assert (head + w)[..|head|] == head && (head + w)[|head|..] == w;
  }

  /** A due body is not empty, and ends where the next message begins. */
  lemma {:induction false} BodyEnds(parse: Parse, us: seq<Unit>, due: Due)
    requires Complete(parse, us, due) && !due.Message? && (due.FixedBody? ==> due.n > 0)
    ensures BodyOf(us) != "" && Complete(parse, AfterBody(us), Message) && Wire(us) == BodyOf(us) + Wire(AfterBody(us))
    decreases |us|
  {
    hide GoodChunk, Ends, Bytes;
    var u, ts := us[0], us[1..];
    DueUnit(parse, us, due);
    if due.Chunks? && u.data != "" {
      BodyEnds(parse, ts, Chunks);
      assert Bytes(u) + BodyOf(ts) + Wire(AfterBody(ts)) == Bytes(u) + (BodyOf(ts) + Wire(AfterBody(ts)));
    } else {
      NoBodyAtHead(parse, ts);
      assert Bytes(u) + "" == Bytes(u);
    }
  }

  lemma DueUnit(parse: Parse, us: seq<Unit>, due: Due)
    requires Complete(parse, us, due) && !due.Message? && (due.FixedBody? ==> due.n > 0)
    ensures us != [] && (due.Chunks? ==> us[0].Chunk?) && (due.FixedBody? ==> us[0].Body?) && Bytes(us[0]) != ""
  {
  }

  /** It makes one message with what comes before it. */
  lemma {:induction false} BodyIsMessage(parse: Parse, us: seq<Unit>, due: Due, part: string)
    requires Complete(parse, us, due) && !due.Message? && (due.FixedBody? ==> due.n > 0)
    ensures Messages(parse, part, us) == [part + BodyOf(us)] + Messages(parse, "", AfterBody(us))
    decreases |us|
  {
    hide GoodChunk, Ends, Wire, Bytes;
    var u, ts := us[0], us[1..];
    DueUnit(parse, us, due);
    if due.Chunks? && u.data != "" {
      BodyIsMessage(parse, ts, Chunks, part + Bytes(u));
      assert part + Bytes(u) + BodyOf(ts) == part + (Bytes(u) + BodyOf(ts));
    } else {
      NoBodyAtHead(parse, ts);
      assert Bytes(u) + "" == Bytes(u);
    }
  }

  /** A session that does not believe in chunks does not look at it. */
  lemma {:induction false} BodyIsClear(parse: Parse, us: seq<Unit>, k: Fields)
    ensures Clear(parse, us, k, false) == Clear(parse, AfterBody(us), k, false)
    decreases |us|
  {
    if us != [] && !us[0].Head? {
      BodyIsClear(parse, us[1..], k);
    }
  }

  lemma NoBodyAtHead(parse: Parse, us: seq<Unit>)
    requires Complete(parse, us, Message)
    ensures BodyOf(us) == "" && AfterBody(us) == us
  {
  }

  /** What the session believes after a header that suits its message is right. */
  lemma HeaderCases(parse: Parse, us: seq<Unit>, known: Fields, chunked: bool)
    requires us != [] && Complete(parse, us, Message)
    requires var k := Overlay(known, parse(us[0].head)); Suits(us[1..], k, Flag(k, chunked))
    ensures var k := Overlay(known, parse(us[0].head)); var own := Own(parse(us[0].head));
      && (Final(parse, us[0]) <==> Size(k) == 0 && !Flag(k, chunked))
      && (Flag(k, chunked) ==> own.Chunks?)
      && (Size(k) > 0 ==> !own.Message? && |BodyOf(us[1..])| == Size(k))
      && (own.FixedBody? ==> own.n > 0)
  {
    hide GoodChunk, Ends;
    var own, ts := Own(parse(us[0].head)), us[1..];
    if own.Message? {
      NoBodyAtHead(parse, ts);
    } else {
      BodyEnds(parse, ts, own);
    }
  }

  lemma HeaderPassed(parse: Parse, s: State, us: seq<Unit>, w: string)
    requires us != [] && us[0].Head? && us[0].head != ""
    requires var k := Overlay(s.known, parse(us[0].head)); Final(parse, us[0]) <==> Size(k) == 0 && !Flag(k, s.chunked)
    ensures var s' := AfterHeader(parse, s, us[0].head, w);
      && Passed(s'.out) + Messages(parse, Partial(s'.out), us[1..]) == Passed(s.out) + Messages(parse, Partial(s.out), us)
      && (Final(parse, us[0]) ==> Partial(s'.out) == "")
  {
    hide Passed, Partial;
    var u := us[0];
    var left := Left(u.head, Final(parse, u), us[1..]);
    FirstUnit(parse, Partial(s.out), us);
    RestPassed(parse, s.out, left);
  }

  lemma OnHeaderKeeps(parse: Parse, s: State, rest: string, left: Left, all: seq<string>, clear: bool, step: Step) returns (left': Left)
    requires Inv(parse, s, rest, left, all, clear) && s.phase.AwaitHeader? && Enabled(s, rest, step) && !Stale(parse, s, left)
    ensures Inv(parse, Next(parse, s, rest, step), rest[|step.more|..], left', all, clear)
  {
    hide Messages, Passed, Partial, Ends, Wire, ReadBody, OnHeader, Suits;
    var us := left.units;
    var r := rest[|step.more|..];
    Join(s.buf, step.more, rest);
    HeaderThere(s.buf + step.more, r, us, step.n);
    HeaderFound(parse, s.buf + step.more, r, us, step.n);
    var head, ts := us[0].head, us[1..];
    var w := (s.buf + step.more)[|head|..];
    HeaderCases(parse, us, s.known, s.chunked);
    OnHeaderIs(parse, s, step.more, head, w);
    HeaderPassed(parse, s, us, w);
    var s' := AfterHeader(parse, s, head, w);
    left' := Left("", true, ts);
    if !s'.chunked {
      if Size(s'.known) > 0 {
        BodyDue(parse, s', ts, Own(parse(head)));
        ReadBodyKeeps(parse, s', r, BodyOf(ts), true, AfterBody(ts), all, clear);
        left' := Left(if |BodyOf(ts)| > |w| then BodyOf(ts) else "", true, AfterBody(ts));
      } else {
        NoBody(s');
      }
    }
  }

  lemma BodyDue(parse: Parse, s: State, us: seq<Unit>, due: Due)
    requires Complete(parse, us, due) && !due.Message? && (due.FixedBody? ==> due.n > 0) && !s.chunked
    ensures BodyOf(us) != "" && Complete(parse, AfterBody(us), Message) && Wire(us) == BodyOf(us) + Wire(AfterBody(us))
    ensures LeftMessages(parse, Partial(s.out), Left(BodyOf(us), true, AfterBody(us))) == Messages(parse, Partial(s.out), us)
    ensures Clear(parse, us, s.known, s.chunked) == Clear(parse, AfterBody(us), s.known, s.chunked)
  {
    BodyEnds(parse, us, due);
    BodyIsMessage(parse, us, due, Partial(s.out));
    BodyIsClear(parse, us, s.known);
  }

  /** There is a header, as its end was found. */
  lemma HeaderThere(b: string, r: string, us: seq<Unit>, n: nat)
    requires b + r == Wire(us) && Ends(b, BLANK, n)
    ensures us != []
  {
  }

  lemma HeaderFound(parse: Parse, b: string, r: string, us: seq<Unit>, n: nat)
    requires us != [] && Complete(parse, us, Message) && b + r == Wire(us) && Ends(b, BLANK, n)
    ensures us[0].Head? && us[0].head != "" && n == |us[0].head| && b == us[0].head + b[n..]
    ensures b[n..] + r == Wire(us[1..])
  {
    var head := us[0].head;
    EndsOnce(b, r, head, Wire(us[1..]), BLANK, n);
    Cut(head, Wire(us[1..]), b, r);
  }

  lemma NoBody(s: State)
    requires |s.buf| < BUFFER && !s.chunked
    ensures ReadBody(s, 0) == s.(lastChunk := false, phase := AwaitHeader)
  {
  }

  // ---------------------------------------------------------------------------- runs

  lemma StepKeeps(parse: Parse, s: State, rest: string, left: Left, all: seq<string>, clear: bool, step: Step) returns (left': Left)
    requires Inv(parse, s, rest, left, all, clear) && Enabled(s, rest, step) && !Stale(parse, s, left)
    ensures Inv(parse, Next(parse, s, rest, step), rest[|step.more|..], left', all, clear)
  {
    match s.phase
    case AwaitHeader => left' := OnHeaderKeeps(parse, s, rest, left, all, clear, step);
    case AwaitChunk => left' := OnChunkKeeps(parse, s, rest, left, all, clear, step);
    case AwaitBody(_) =>
      OnBodyKeeps(parse, s, rest, left, all, clear, step);
      left' := left.(now := left.now[|s.buf| + |step.more|..]);
  }

  /** A session that will know how to read on knows it now. */
  lemma InvClear(parse: Parse, s: State, rest: string, left: Left, all: seq<string>)
    requires Inv(parse, s, rest, left, all, true)
    ensures !Stale(parse, s, left)
  {
  }

  ghost predicate Runs(parse: Parse, s: State, rest: string, steps: seq<Step>)
    decreases |steps|
  {
    steps == [] || (Enabled(s, rest, steps[0]) && Runs(parse, Next(parse, s, rest, steps[0]), rest[|steps[0].more|..], steps[1..]))
  }

  /** The state after a run, and what the socket has not delivered. */
  ghost function After(parse: Parse, s: State, rest: string, steps: seq<Step>): (State, string)
    requires Runs(parse, s, rest, steps)
    decreases |steps|
  {
    if steps == [] then (s, rest) else After(parse, Next(parse, s, rest, steps[0]), rest[|steps[0].more|..], steps[1..])
  }

  lemma {:induction false} RunKeeps(parse: Parse, s: State, rest: string, left: Left, all: seq<string>, steps: seq<Step>) returns (left': Left)
    requires Inv(parse, s, rest, left, all, true) && Runs(parse, s, rest, steps)
    ensures var (s', rest') := After(parse, s, rest, steps); Inv(parse, s', rest', left', all, true)
    decreases |steps|
  {
    hide Inv, Next, Ends;
    if steps == [] {
      left' := left;
    } else {
      InvClear(parse, s, rest, left, all);
      var next := StepKeeps(parse, s, rest, left, all, true, steps[0]);
      left' := RunKeeps(parse, Next(parse, s, rest, steps[0]), rest[|steps[0].more|..], next, all, steps[1..]);
    }
  }

  lemma Starts(parse: Parse, us: seq<Unit>)
    requires Complete(parse, us, Message)
    ensures Inv(parse, INIT, Wire(us), Left("", true, us), Messages(parse, "", us), Clear(parse, us, NOTHING, false))
  {
  }

  /** For every split of the bytes, what has been passed on at any time is the first
      messages, byte by byte, each up to a piece marked as the last. */
  lemma FramingIsTransparent(parse: Parse, us: seq<Unit>, steps: seq<Step>)
    requires Complete(parse, us, Message) && Clear(parse, us, NOTHING, false) && Runs(parse, INIT, Wire(us), steps)
    ensures Passed(After(parse, INIT, Wire(us), steps).0.out) <= Messages(parse, "", us)
  {
    hide Complete, Clear, Messages;
    Starts(parse, us);
    var left := RunKeeps(parse, INIT, Wire(us), Left("", true, us), Messages(parse, "", us), steps);
  }

  /** When all bytes have been handled, all messages have been passed on and no piece
      besides. */
  lemma AllPassedOn(parse: Parse, us: seq<Unit>, steps: seq<Step>)
    requires Complete(parse, us, Message) && Clear(parse, us, NOTHING, false) && Runs(parse, INIT, Wire(us), steps)
    requires var (s, rest) := After(parse, INIT, Wire(us), steps); s.buf + rest == ""
    ensures var s := After(parse, INIT, Wire(us), steps).0; Passed(s.out) == Messages(parse, "", us) && Partial(s.out) == ""
  {
    Starts(parse, us);
    var left := RunKeeps(parse, INIT, Wire(us), Left("", true, us), Messages(parse, "", us), steps);
    var (s, rest) := After(parse, INIT, Wire(us), steps);
    NothingLeft(parse, s, rest, left, Messages(parse, "", us));
  }

  lemma NothingLeft(parse: Parse, s: State, rest: string, left: Left, all: seq<string>)
    requires Inv(parse, s, rest, left, all, true) && s.buf + rest == ""
    ensures s.phase.AwaitHeader? && left.units == [] && left.now == ""
  {
    if left.units != [] {
      WireFirst(left.units);
    }
  }

  /** A step is possible while bytes are left.  (The line of a chunk has to fit the
      buffer.) */
  lemma GoesOn(parse: Parse, s: State, rest: string, left: Left, all: seq<string>, clear: bool) returns (step: Step)
    requires Inv(parse, s, rest, left, all, clear) && s.buf + rest != ""
    requires forall u | u in left.units && u.Chunk? :: |u.line| + 2 < BUFFER
    ensures Enabled(s, rest, step)
  {
    hide Messages, LeftMessages, Passed, Partial, Clear, Wire, Ends, Hex;
    match s.phase
    case AwaitBody(k) =>
      assert |s.buf + rest| >= |left.now|;
      step := Step(rest[..k], 0);
    case AwaitHeader =>
      WireNone();
      WireFirst(left.units);
      step := ReadTo(s.buf, rest, left.units[0].head, Wire(left.units[1..]), BLANK);
    case AwaitChunk =>
      WireFirst(left.units);
      var u := left.units[0];
      ChunkBytes(u, Wire(left.units[1..]));
      assert u in left.units;
      step := ReadTo(s.buf, rest, u.line + CRLF, u.data + CRLF + Wire(left.units[1..]), CRLF);
      Join(s.buf, step.more, rest);
      FirstByte(s.buf + step.more, rest[|step.more|..], u.line, u.data + CRLF + Wire(left.units[1..]));
  }

  lemma FirstByte(x: string, r: string, line: string, y: string)
    requires x != "" && line != "" && x + r == (line + CRLF) + y
    ensures x[0] == line[0]
  {
    assert (x + r)[0] == x[0] && ((line + CRLF) + y)[0] == line[0];
  }

  lemma WireNone()
    ensures Wire([]) == ""
  {
  }

  /** Reading just as much as is needed to see the end of `head`. */
  lemma ReadTo(buf: string, rest: string, head: string, y: string, d: string) returns (step: Step)
    requires buf + rest == head + y && Ends(head, d, |head|)
    ensures step.n == |head| && step.more <= rest && Ends(buf + step.more, d, step.n)
    ensures |buf + step.more| == if |head| <= |buf| then |buf| else |head|
  {
    if |head| <= |buf| {
      step := Step("", |head|);
      assert buf + "" == buf;
      Cut(head, y, buf, rest);
      EndsPrefix(head, buf[|head|..], d, |head|);
    } else {
      Cut(buf, rest, head, y);
      step := Step(head[|buf|..], |head|);
    }
  }

  // ------------------------------------------------------------------------ progress

  /** A session that waits for a body waits for some bytes of it. */
  predicate Sane(s: State) {
    s.phase.AwaitBody? ==> 0 < s.phase.toRead <= s.contentLength
  }

  /** Every step handles a byte, or turns from a size line to the chunk behind it. */
  function Measure(s: State, rest: string): nat {
    2 * (|s.buf| + |rest|) + if s.phase.AwaitBody? then 0 else 1
  }

  lemma ReadBodySane(s: State, size: nat)
    requires |s.buf| < BUFFER
    ensures var s' := ReadBody(s, size);
      && Sane(s') && |s'.buf| <= |s.buf| && (s'.phase.AwaitBody? || size == 0 || |s'.buf| < |s.buf|)
  {
  }

  lemma StepAdvances(parse: Parse, s: State, rest: string, step: Step)
    requires Sane(s) && Enabled(s, rest, step)
    ensures var s' := Next(parse, s, rest, step); Sane(s') && Measure(s', rest[|step.more|..]) < Measure(s, rest)
  {
    hide ReadBody, Hex;
    match s.phase
    case AwaitBody(_) => OnBodyEmits(s, step.more);
    case AwaitChunk =>
      var s1 := s.(buf := s.buf + step.more);
      ReadBodySane(s1, Hex(s1.buf) + 2 + step.n);
    case AwaitHeader =>
      var b := s.buf + step.more;
      var h, w := b[..step.n], b[step.n..];
      assert b == h + w;
      OnHeaderIs(parse, s, step.more, h, w);
      var s1 := AfterHeader(parse, s, h, w);
      ReadBodySane(s1, Size(s1.known));
  }

  /** So no run goes on for ever. */
  lemma {:induction false} RunsEnd(parse: Parse, s: State, rest: string, steps: seq<Step>)
    requires Sane(s) && Runs(parse, s, rest, steps)
    ensures |steps| <= Measure(s, rest)
    decreases |steps|
  {
    hide Next, Measure, Ends;
    if steps != [] {
      StepAdvances(parse, s, rest, steps[0]);
      RunsEnd(parse, Next(parse, s, rest, steps[0]), rest[|steps[0].more|..], steps[1..]);
    }
  }

  // ------------------------------------------------------------- when it goes wrong

  /** The message after the first `k` ends, or will end, with another length than
      `want`. */
  ghost predicate Doomed(s: State, k: nat, want: nat) {
    if |Passed(s.out)| > k then |Passed(s.out)[k]| != want
    else |Passed(s.out)| == k && (|Partial(s.out)| >= want || Astray(s, want))
  }

  /** Too few or too many bytes are taken for the body, or a last chunk for another. */
  ghost predicate Astray(s: State, want: nat) {
    && s.phase.AwaitBody?
    && var total := |Partial(s.out)| + |s.buf| + s.contentLength;
       if s.chunked then !s.lastChunk && total >= want else total != want
  }

  /** A message that is passed on in full or is already too long is not mended. */
  ghost predicate Lost(out: seq<Piece>, k: nat, want: nat) {
    if |Passed(out)| > k then |Passed(out)[k]| != want else |Passed(out)| == k && |Partial(out)| >= want
  }

  lemma StillLost(out: seq<Piece>, p: Piece, k: nat, want: nat)
    requires Lost(out, k, want) && p.bytes != ""
    ensures Lost(out + [p], k, want)
  {
    hide Passed, Partial;
    Passing(out, p);
  }

  lemma ReadBodyLost(s: State, size: nat, k: nat, want: nat)
    requires |s.buf| < BUFFER && Lost(s.out, k, want)
    ensures Lost(ReadBody(s, size).out, k, want)
  {
    hide Lost;
    if 0 < size <= |s.buf| {
      StillLost(s.out, Piece(s.buf[..size], if s.chunked then size == 5 else true), k, want);
    }
  }

  lemma StepLost(parse: Parse, s: State, rest: string, step: Step, k: nat, want: nat)
    requires Sane(s) && Lost(s.out, k, want) && Enabled(s, rest, step)
    ensures Lost(Next(parse, s, rest, step).out, k, want)
  {
    hide Lost, ReadBody, Hex;
    match s.phase
    case AwaitBody(_) =>
      OnBodyEmits(s, step.more);
      StillLost(s.out, OnBody(s, step.more).out[|s.out|], k, want);
    case AwaitChunk =>
      var s1 := s.(buf := s.buf + step.more);
      ReadBodyLost(s1, Hex(s1.buf) + 2 + step.n, k, want);
    case AwaitHeader =>
      var b := s.buf + step.more;
      var h, w := b[..step.n], b[step.n..];
      assert b == h + w;
      OnHeaderIs(parse, s, step.more, h, w);
      var s1 := AfterHeader(parse, s, h, w);
      StillLost(s.out, s1.out[|s.out|], k, want);
      ReadBodyLost(s1, Size(s1.known), k, want);
  }

  lemma StepAstray(s: State, more: string, k: nat, want: nat)
    requires |Passed(s.out)| == k && Astray(s, want) && |more| <= s.contentLength
    ensures Doomed(OnBody(s, more), k, want)
  {
    hide Passed, Partial, OnBody;
    OnBodyEmits(s, more);
    Passing(s.out, OnBody(s, more).out[|s.out|]);
  }

  /** Whatever comes, it is not mended. */
  lemma StepDoomed(parse: Parse, s: State, rest: string, step: Step, k: nat, want: nat)
    requires Sane(s) && Doomed(s, k, want) && Enabled(s, rest, step)
    ensures var s' := Next(parse, s, rest, step); Sane(s') && Doomed(s', k, want)
  {
    hide Passed, Partial, OnBody, OnChunk, OnHeader, Ends;
    StepAdvances(parse, s, rest, step);
    if Lost(s.out, k, want) {
      StepLost(parse, s, rest, step, k, want);
    } else {
      StepAstray(s, step.more, k, want);
    }
  }

  lemma {:induction false} RunDoomed(parse: Parse, s: State, rest: string, steps: seq<Step>, k: nat, want: nat)
    requires Sane(s) && Doomed(s, k, want) && Runs(parse, s, rest, steps)
    ensures Doomed(After(parse, s, rest, steps).0, k, want)
    decreases |steps|
  {
    hide Doomed, Next, Ends;
    if steps != [] {
      StepDoomed(parse, s, rest, steps[0], k, want);
      RunDoomed(parse, Next(parse, s, rest, steps[0]), rest[|steps[0].more|..], steps[1..], k, want);
    }
  }

  lemma FirstMessage(parse: Parse, us: seq<Unit>)
    requires us != [] && Complete(parse, us, Message)
    ensures Messages(parse, "", us) != [] && Messages(parse, "", us)[0] == us[0].head + BodyOf(us[1..])
  {
    hide GoodChunk, Ends;
    var u, ts := us[0], us[1..];
    var own := Own(parse(u.head));
    assert "" + u.head == u.head;
    if own.Message? {
      NoBodyAtHead(parse, ts);
      assert u.head + "" == u.head;
    } else {
      BodyIsMessage(parse, ts, own, u.head);
    }
  }

  /** A header that does not suit its message spoils it. */
  lemma StaleHeaderDooms(parse: Parse, s: State, rest: string, left: Left, all: seq<string>, clear: bool, step: Step)
    requires Inv(parse, s, rest, left, all, clear) && Stale(parse, s, left) && Enabled(s, rest, step) && s.phase.AwaitHeader?
    ensures var s' := Next(parse, s, rest, step); var k := |Passed(s.out)|;
      k < |all| && Doomed(s', k, |all[k]|)
  {
    hide Ends, OnHeader, Clear, Messages, Passed, Partial, Wire, ReadBody, BodyOf;
    var us := left.units;
    var r := rest[|step.more|..];
    Join(s.buf, step.more, rest);
    HeaderFound(parse, s.buf + step.more, r, us, step.n);
    var head, ts, w := us[0].head, us[1..], (s.buf + step.more)[step.n..];
    OnHeaderIs(parse, s, step.more, head, w);
    FirstMessage(parse, us);
    Misread(parse, s, us, w);
  }

  /** What the session makes of such a header. */
  lemma Misread(parse: Parse, s: State, us: seq<Unit>, w: string)
    requires us != [] && Complete(parse, us, Message) && Partial(s.out) == "" && |w| < BUFFER
    requires var k := Overlay(s.known, parse(us[0].head)); !Suits(us[1..], k, Flag(k, s.chunked))
    ensures var s' := AfterHeader(parse, s, us[0].head, w); var want := |us[0].head + BodyOf(us[1..])|;
      Doomed(if s'.chunked then s'.(phase := AwaitChunk) else ReadBody(s', Size(s'.known)), |Passed(s.out)|, want)
  {
    hide Ends, Passed, Partial, ReadBody, GoodChunk;
    var head, ts := us[0].head, us[1..];
    var s' := AfterHeader(parse, s, head, w);
    Passing(s.out, s'.out[|s.out|]);
    if s'.chunked {
      NoChunks(parse, us, s.known, s.chunked);
    } else {
      MisreadBody(s', Size(s'.known), |Passed(s.out)|, |head + BodyOf(ts)|);
    }
  }

  /** A belief in chunks is wrong only where there is no body. */
  lemma NoChunks(parse: Parse, us: seq<Unit>, known: Fields, chunked: bool)
    requires us != [] && Complete(parse, us, Message)
    requires var k := Overlay(known, parse(us[0].head)); Flag(k, chunked) && !Suits(us[1..], k, true)
    ensures BodyOf(us[1..]) == ""
  {
    NoBodyAtHead(parse, us[1..]);
  }

  lemma MisreadBody(s: State, size: nat, k: nat, want: nat)
    requires |s.buf| < BUFFER && !s.chunked
    requires if size == 0 then Lost(s.out, k, want) else |Passed(s.out)| == k && |Partial(s.out)| + size != want
    ensures Doomed(ReadBody(s, size), k, want)
  {
    hide Passed, Partial;
    if 0 < size <= |s.buf| {
      Passing(s.out, Piece(s.buf[..size], true));
    }
  }

  /** So does a last chunk that is not recognised. */
  lemma StaleChunkDooms(parse: Parse, s: State, rest: string, left: Left, all: seq<string>, clear: bool, step: Step)
    requires Inv(parse, s, rest, left, all, clear) && Stale(parse, s, left) && Enabled(s, rest, step) && s.phase.AwaitChunk?
    ensures var s' := Next(parse, s, rest, step); var k := |Passed(s.out)|;
      k < |all| && Doomed(s', k, |all[k]|)
  {
    hide Clear, Passed, Partial, Wire, ReadBody, Hex, GoodChunk, Bytes;
    var us := left.units;
    var u := us[0];
    Join(s.buf, step.more, rest);
    WireFirst(us);
    ChunkFound(s.buf + step.more, rest[|step.more|..], u, Wire(us[1..]), step.n);
    MisreadChunk(s.(buf := s.buf + step.more), |Bytes(u)|);
  }

  lemma MisreadChunk(s: State, size: nat)
    requires |s.buf| < BUFFER && s.chunked && size > 0 && size != 5
    ensures Doomed(ReadBody(s, size), |Passed(s.out)|, |Partial(s.out)| + size)
  {
    hide Passed, Partial;
    if size <= |s.buf| {
      Passing(s.out, Piece(s.buf[..size], false));
    }
  }

  lemma {:induction false} SomeMessage(parse: Parse, part: string, us: seq<Unit>, due: Due)
    requires us != [] && Complete(parse, us, due)
    ensures Messages(parse, part, us) != []
    decreases |us|
  {
    hide Ends;
    if !Final(parse, us[0]) {
      var next := if us[0].Head? then Own(parse(us[0].head)) else Chunks;
      assert Complete(parse, us[1..], next);
      SomeMessage(parse, part + Bytes(us[0]), us[1..], next);
    }
  }

  lemma UnclearNotDone(parse: Parse, s: State, rest: string, left: Left, all: seq<string>)
    requires Inv(parse, s, rest, left, all, false)
    ensures Passed(s.out) != all
  {
    hide Messages, Passed, Partial, GoodChunk, Ends;
    assert left.units != [];
    var due := if s.phase.AwaitChunk? || (s.phase.AwaitBody? && !left.final) then Chunks else Message;
    SomeMessage(parse, if left.now == "" then Partial(s.out) else Partial(s.out) + left.now, left.units, due);
  }

  /** A stream that does not suit the session is never passed on as it was sent, however
      it is split and however the session goes on. */
  lemma {:induction false} UnclearFails(parse: Parse, s: State, rest: string, left: Left, all: seq<string>, steps: seq<Step>)
    requires Inv(parse, s, rest, left, all, false) && Runs(parse, s, rest, steps)
    ensures Passed(After(parse, s, rest, steps).0.out) != all
    decreases |steps|
  {
    hide Inv, Next, Ends, Passed, Partial;
    if steps == [] {
      UnclearNotDone(parse, s, rest, left, all);
    } else {
      var s', rest' := Next(parse, s, rest, steps[0]), rest[|steps[0].more|..];
      if Stale(parse, s, left) {
        var k := StaleDooms(parse, s, rest, left, all, steps[0]);
        RunDoomed(parse, s', rest', steps[1..], k, |all[k]|);
      } else {
        var next := StepKeeps(parse, s, rest, left, all, false, steps[0]);
        UnclearFails(parse, s', rest', next, all, steps[1..]);
      }
    }
  }

  lemma StaleDooms(parse: Parse, s: State, rest: string, left: Left, all: seq<string>, step: Step) returns (k: nat)
    requires Inv(parse, s, rest, left, all, false) && Stale(parse, s, left) && Enabled(s, rest, step)
    ensures k < |all| && Sane(Next(parse, s, rest, step)) && Doomed(Next(parse, s, rest, step), k, |all[k]|)
  {
    hide Doomed, Next, Clear, Complete, Messages;
    k := |Passed(s.out)|;
    if s.phase.AwaitHeader? {
      StaleHeaderDooms(parse, s, rest, left, all, false, step);
    } else {
      StaleChunkDooms(parse, s, rest, left, all, false, step);
    }
    StepAdvances(parse, s, rest, step);
  }

  /** A run that handles all bytes passes on exactly the messages, if and only if what
      the headers so far say suits each message and every last chunk is recognised. */
  lemma TransparentIff(parse: Parse, us: seq<Unit>, steps: seq<Step>)
    requires Complete(parse, us, Message) && Runs(parse, INIT, Wire(us), steps)
    requires var (s, rest) := After(parse, INIT, Wire(us), steps); s.buf + rest == ""
    ensures Passed(After(parse, INIT, Wire(us), steps).0.out) == Messages(parse, "", us) <==> Clear(parse, us, NOTHING, false)
  {
    hide Complete, Clear, Messages, Runs, After, Passed;
    if Clear(parse, us, NOTHING, false) {
      AllPassedOn(parse, us, steps);
    } else {
      NeverPassedOn(parse, us, steps);
    }
  }

  /** Without that, no run at all does. */
  lemma NeverPassedOn(parse: Parse, us: seq<Unit>, steps: seq<Step>)
    requires Complete(parse, us, Message) && !Clear(parse, us, NOTHING, false) && Runs(parse, INIT, Wire(us), steps)
    ensures Passed(After(parse, INIT, Wire(us), steps).0.out) != Messages(parse, "", us)
  {
    hide Complete, Clear, Messages, Runs, After, Passed;
    Starts(parse, us);
    UnclearFails(parse, INIT, Wire(us), Left("", true, us), Messages(parse, "", us), steps);
  }

  // ------------------------------------------------------------ streams that go wrong

  /** A message of five bytes, then one without a body: its header is not marked, and
      five bytes of what follows are taken for its body. */
  lemma LengthIsRemembered(parse: Parse, first: string, body: string, second: string, steps: seq<Step>)
    requires Ends(first, BLANK, |first|) && parse(first) == Fields(Some(5), None) && |body| == 5
    requires Ends(second, BLANK, |second|) && parse(second) == NOTHING
    ensures var us := [Head(first), Body(body), Head(second)];
      && Complete(parse, us, Message)
      && (Runs(parse, INIT, Wire(us), steps) ==> Passed(After(parse, INIT, Wire(us), steps).0.out) != Messages(parse, "", us))
  {
    hide Ends, Messages, Passed;
    var us := [Head(first), Body(body), Head(second)];
    assert us[1..] == [Body(body), Head(second)] && us[1..][1..] == [Head(second)] && [Head(second)][1..] == [];
    assert Complete(parse, [Head(second)], Message);
    assert Complete(parse, us[1..], FixedBody(5));
    assert BodyOf([]) == "";
    assert !Clear(parse, [Head(second)], Fields(Some(5), None), false);
    assert !Clear(parse, us[1..], Fields(Some(5), None), false);
    if Runs(parse, INIT, Wire(us), steps) {
      NeverPassedOn(parse, us, steps);
    }
  }

  /** A message of five bytes, then a chunked one of eleven: only five are taken for its
      body. */
  lemma LengthHidesChunks(parse: Parse, first: string, body: string, second: string, steps: seq<Step>)
    requires Ends(first, BLANK, |first|) && parse(first) == Fields(Some(5), None) && |body| == 5
    requires Ends(second, BLANK, |second|) && parse(second) == Fields(None, Some(ByChunks))
    ensures var us := [Head(first), Body(body), Head(second), Chunk("1", "x"), Chunk("0", "")];
      && Complete(parse, us, Message)
      && (Runs(parse, INIT, Wire(us), steps) ==> Passed(After(parse, INIT, Wire(us), steps).0.out) != Messages(parse, "", us))
  {
    hide Messages, Passed, Ends, GoodChunk, BodyOf;
    var us := [Head(first), Body(body), Head(second), Chunk("1", "x"), Chunk("0", "")];
    var ts := [Head(second), Chunk("1", "x"), Chunk("0", "")];
    assert us[1..] == [Body(body)] + ts && us[1..][1..] == ts;
    assert ts[1..] == [Chunk("1", "x"), Chunk("0", "")] && ts[1..][1..] == [Chunk("0", "")] && ts[1..][1..][1..] == [];
    TwoChunks();
    assert Complete(parse, [Chunk("0", "")], Chunks);
    assert Complete(parse, ts[1..], Chunks);
    assert Complete(parse, ts, Message);
    assert Complete(parse, us[1..], FixedBody(5));
    assert !Clear(parse, ts, Fields(Some(5), None), false);
    assert !Clear(parse, us[1..], Fields(Some(5), None), false);
    if Runs(parse, INIT, Wire(us), steps) {
      NeverPassedOn(parse, us, steps);
    }
  }

  lemma OneDigit(c: char)
    requires IsHex(c)
    ensures Ends([c] + CRLF, CRLF, 3)
  {
    var s := [c] + CRLF;
    assert s[1..3] == CRLF;
    forall m: nat | m < 3
      ensures !At(s, CRLF, m)
    {
      if m == 2 {
        assert s[0..2][0] == c;
      }
    }
  }

  lemma TwoChunks()
    ensures GoodChunk(Chunk("1", "x")) && GoodChunk(Chunk("0", ""))
    ensures |BodyOf([Chunk("1", "x"), Chunk("0", "")])| == 11
  {
    OneDigit('1');
    OneDigit('0');
    assert ['1'] == "1" && ['0'] == "0";
    assert "1"[1..] == "" && "0"[1..] == "";
    assert Hex("", 1) == 1 && Hex("", 0) == 0;
    var us := [Chunk("1", "x"), Chunk("0", "")];
    assert us[1..] == [Chunk("0", "")] && us[1..][1..] == [];
  }

  /** A chunked message, then one without a body, even if it names another coding: its header
      is not marked. */
  lemma ChunksAreRemembered(parse: Parse, first: string, second: string, steps: seq<Step>)
    requires Ends(first, BLANK, |first|) && parse(first) == Fields(None, Some(ByChunks))
    requires Ends(second, BLANK, |second|) && parse(second).length.None? && parse(second).coding != Some(ByChunks)
    ensures var us := [Head(first), Chunk("0", ""), Head(second)];
      && Complete(parse, us, Message)
      && (Runs(parse, INIT, Wire(us), steps) ==> Passed(After(parse, INIT, Wire(us), steps).0.out) != Messages(parse, "", us))
  {
    hide Messages, Passed, Ends, GoodChunk;
    var us := [Head(first), Chunk("0", ""), Head(second)];
    assert us[1..] == [Chunk("0", ""), Head(second)] && us[1..][1..] == [Head(second)] && [Head(second)][1..] == [];
    TwoChunks();
    assert Complete(parse, [Head(second)], Message);
    assert Complete(parse, us[1..], Chunks);
    assert !Clear(parse, [Head(second)], Fields(None, Some(ByChunks)), true);
    assert !Clear(parse, us[1..], Fields(None, Some(ByChunks)), true);
    if Runs(parse, INIT, Wire(us), steps) {
      NeverPassedOn(parse, us, steps);
    }
  }

  /** What the session goes by after a header. */
  function Seen(known: Fields, chunked: bool): Due {
    if Size(known) > 0 then FixedBody(Size(known)) else if chunked then Chunks else Message
  }

  /** A header suits its message exactly if what all headers so far say is what it says
      itself, or a remembered length happens to be that of its chunks. */
  lemma SuitsIff(parse: Parse, us: seq<Unit>, known: Fields, chunked: bool)
    requires us != [] && Complete(parse, us, Message)
    ensures var f := parse(us[0].head); var k := Overlay(known, f); var c := Flag(k, chunked);
      Suits(us[1..], k, c) <==>
        Seen(k, c) == Own(f) || (Own(f).Chunks? && k.length == Some(|BodyOf(us[1..])|))
  {
    hide GoodChunk, Ends;
    var own, ts := Own(parse(us[0].head)), us[1..];
    if own.Message? {
      NoBodyAtHead(parse, ts);
    } else {
      BodyEnds(parse, ts, own);
      DueUnit(parse, ts, own);
      if own.FixedBody? {
        NoBodyAtHead(parse, ts[1..]);
        assert Bytes(ts[0]) + "" == Bytes(ts[0]);
      }
    }
  }

  /** A chunk of size zero is taken for the last one exactly if its size is written with
      a single digit. */
  lemma ZeroChunkIff(s: State, more: string, line: string, w: string)
    requires s.chunked && line != "" && Hex(line) == 0 && s.buf + more == line + CRLF + w && |s.buf + more| < BUFFER
    ensures OnChunk(s, more, |line| + 2).lastChunk <==> |line| == 1
  {
    hide Hex, ReadBody;
    assert s.buf + more == line + (CRLF + w);
    HexStops(line, CRLF + w, 0);
    LastOfFive(s.(buf := s.buf + more), |line| + 4);
  }

  lemma LastOfFive(s: State, size: nat)
    requires |s.buf| < BUFFER && s.chunked
    ensures ReadBody(s, size).lastChunk <==> size == 5
  {
  }

  // ------------------------------------------------------------------------ the code

  class HttpSession {
    var inputBuffer: string
    /** The header map, which no message clears. */
    var headers: Fields
    var chunked: bool
    var contentLength: nat
    var isLastChunk: bool
    /** The read that has been started. */
    var pending: Phase
    /** What the receive callback was given. */
    var received: seq<Piece>

    ghost function Abs(): State
      reads this
    {
      State(inputBuffer, headers, chunked, contentLength, isLastChunk, pending, received)
    }

    constructor ()
      ensures Abs() == INIT
    {
      inputBuffer, chunked, contentLength, isLastChunk := "", false, 0, false;
      headers, pending, received := NOTHING, AwaitHeader, [];
    }

    method Receive(size: nat, isLast: bool)
      requires size <= |inputBuffer|
      modifies this
      ensures Abs() == Emit(old(Abs()), size, isLast)
    {
      received := received + [Piece(inputBuffer[..size], isLast)];
      inputBuffer := inputBuffer[size..];
    }

    method HandleRead(bytes: string)
      requires |bytes| <= contentLength
      modifies this
      ensures Abs() == OnBody(old(Abs()), bytes)
    {
      inputBuffer := inputBuffer + bytes;
      contentLength := contentLength - |bytes|;
      var isLast := if chunked then (if isLastChunk then contentLength == 0 else false) else contentLength == 0;
      Receive(|inputBuffer|, isLast);
      if contentLength == 0 {
        if !chunked || isLastChunk {
          pending := AwaitHeader;
        } else {
          pending := AwaitChunk;
        }
      } else {
        pending := AwaitBody(if contentLength >= BUFFER then BUFFER else contentLength);
      }
    }

    method DoReadBody(bodySize: nat, additionalBytes: nat)
      requires additionalBytes == |inputBuffer| < BUFFER
      modifies this
      ensures Abs() == ReadBody(old(Abs()), bodySize)
    {
      var bytesToRead := if bodySize > additionalBytes then bodySize - additionalBytes else 0;
      var toRead := if bytesToRead >= BUFFER then BUFFER - |inputBuffer| else bytesToRead;
      isLastChunk := chunked && bodySize == 5;
      if toRead > 0 {
        contentLength := bytesToRead;
        pending := AwaitBody(toRead);
      } else {
        if bodySize > 0 {
          Receive(bodySize, if chunked then isLastChunk else toRead == 0);
        }
        pending := if !chunked || isLastChunk then AwaitHeader else AwaitChunk;
      }
    }

    method ChunkedHeaderRead(bytes: string, length: nat)
      requires |inputBuffer + bytes| < BUFFER
      modifies this
      ensures Abs() == OnChunk(old(Abs()), bytes, length)
    {
      inputBuffer := inputBuffer + bytes;
      var chunkSize := Hex(inputBuffer) + 2 + length;
      DoReadBody(chunkSize, |inputBuffer|);
    }

    method HeaderRead(parse: Parse, bytes: string, length: nat)
      requires length <= |inputBuffer + bytes| && |inputBuffer + bytes| - length < BUFFER
      modifies this
      ensures Abs() == OnHeader(parse, old(Abs()), bytes, length)
    {
      inputBuffer := inputBuffer + bytes;
      var fields := parse(inputBuffer[..length]);
      if fields.length.Some? {
        headers := headers.(length := fields.length);
      }
      if fields.coding.Some? {
        headers := headers.(coding := fields.coding);
      }
      var size := 0;
      if headers.length.Some? {
        size := headers.length.value;
        chunked := false;
      } else if headers.coding == Some(ByChunks) {
        chunked := true;
      }
      var additionalBytes := |inputBuffer| - length;
      Receive(length, size == 0 && !chunked);
      if !chunked {
        DoReadBody(size, additionalBytes);
      } else {
        pending := AwaitChunk;
      }
    }
  }
}
