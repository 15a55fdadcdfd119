/**
 The letter of the source where it departs from what it is for, and exactly when the two agree: the
 byte order of request ids, and the value that `istreambuf::underflow` returns. Module AsWrittenFeed
 treats the parser.
 */
module AsWritten {
  import opened Bytes
  import opened InStreams

  // ----- The byte order of request ids -----

  /** The two octets of a 16-bit field, as the host reads them. */
  function Load(h: Host, hi: byte, lo: byte): (r: nat)
    ensures r < 0x1_0000
  {
    if h == BigEndianHost then hi as nat * 0x100 + lo as nat else lo as nat * 0x100 + hi as nat
  }

  function Store(h: Host, x: nat): (r: (byte, byte))
    requires x < 0x1_0000
  {
    if h == BigEndianHost then ((x / 0x100) as byte, (x % 0x100) as byte)
    else ((x % 0x100) as byte, (x / 0x100) as byte)
  }

  function Htons(h: Host, x: nat): (r: nat)
    requires x < 0x1_0000
    ensures r < 0x1_0000
  {
    if h == BigEndianHost then x else x % 0x100 * 0x100 + x / 0x100
  }

  /** `htons` applied `n` times. */
  function Converted(h: Host, x: nat, n: nat): (r: nat)
    requires x < 0x1_0000
    ensures r < 0x1_0000
  {
    if n == 0 then x else Htons(h, Converted(h, x, n - 1))
  }

  /** The id octets that a stream sends for a request whose records came with the octets `hi`, `lo`, when
      the stream has been closed `closes` times. The id is not converted when it is read and is when a
      buffer is made; each close makes the next buffer from the converted id of the last one. The
      END_REQUEST record bears the octets of `closes == 0`. */
  function EchoedId(h: Host, hi: byte, lo: byte, closes: nat): (byte, byte) {
    Store(h, Converted(h, Load(h, hi, lo), closes + 1))
  }

  lemma HtonsTwice(h: Host, x: nat)
    requires x < 0x1_0000
    ensures Htons(h, Htons(h, x)) == x
  {}

  lemma {:induction false} ConvertedParity(h: Host, x: nat, n: nat)
    requires x < 0x1_0000
    ensures Converted(h, x, n) == if n % 2 == 0 then x else Htons(h, x)
    decreases n
  {
    hide Htons;
    if n > 0 {
      ConvertedParity(h, x, n - 1);
      HtonsTwice(h, x);
    }
  }

  lemma Swapped(h: Host, hi: byte, lo: byte)
    ensures Store(h, Load(h, hi, lo)) == (hi, lo)
    ensures Store(h, Htons(h, Load(h, hi, lo))) == if h == BigEndianHost then (hi, lo) else (lo, hi)
  {
    var a, b := hi as nat, lo as nat;
    assert (a * 0x100 + b) / 0x100 == a && (a * 0x100 + b) % 0x100 == b;
    assert (b * 0x100 + a) / 0x100 == b && (b * 0x100 + a) % 0x100 == a;
  }

  /** The records of a stream bear the id of their request exactly on a big-endian host, for an id that
      reads the same both ways, or after an odd number of closes. */
  lemma IdsExact(h: Host, hi: byte, lo: byte, closes: nat)
    ensures EchoedId(h, hi, lo, closes) == (hi, lo) <==> h == BigEndianHost || hi == lo || closes % 2 == 1
  {
    hide Store, Load, Htons;
    ConvertedParity(h, Load(h, hi, lo), closes + 1);
    Swapped(h, hi, lo);
  }

  // ----- The value of `underflow` -----

  const EOF := -1

  /** `begin_of_data[0]` is a `char`, signed on most hosts, and is returned as an `int`. */
  function UnderflowReturns(signedChar: bool, first: byte): int {
    if signedChar && first >= 0x80 then first as int - 0x100 else first as int
  }

  /** `sbumpc` by the letter: `uflow` takes the value of `underflow` for the end of the stream when it is
      EOF, with the get area set and not advanced; otherwise it reads the octet from the get area. */
  function BumpAsWritten(signedChar: bool, b: Buf): Called {
    var filled := Fill(b);
    if b.area == [] && filled.result.Octet? && UnderflowReturns(signedChar, filled.result.octet) == EOF
    then filled.(result := Eof) else Bump(b)
  }

  /** What happens to a stream: the connection thread feeds a record, or the reader asks for an octet. */
  datatype InOp = FeedOp(content: bytes) | BumpOp

  function Fed(b: Buf, content: bytes): Buf {
    b.(queue := b.queue + [content])
  }

  /** What the reader gets over a schedule, as it is meant. */
  function Meant(b: Buf, ops: seq<InOp>): seq<ReadResult>
    decreases |ops|
  {
    if ops == [] then []
    else if ops[0].FeedOp? then Meant(Fed(b, ops[0].content), ops[1..])
    else [Bump(b).result] + Meant(Bump(b).buf, ops[1..])
  }

  /** The same, by the letter. */
  function Written(signedChar: bool, b: Buf, ops: seq<InOp>): seq<ReadResult>
    decreases |ops|
  {
    if ops == [] then []
    else if ops[0].FeedOp? then Written(signedChar, Fed(b, ops[0].content), ops[1..])
    else var c := BumpAsWritten(signedChar, b); [c.result] + Written(signedChar, c.buf, ops[1..])
  }

  /** The first octets of the records that the reader reaches over a schedule. */
  function FirstOctets(b: Buf, ops: seq<InOp>): bytes
    decreases |ops|
  {
    if ops == [] then []
    else if ops[0].FeedOp? then FirstOctets(Fed(b, ops[0].content), ops[1..])
    else
      var here := if b.area == [] && Fill(b).result.Octet? then [Fill(b).result.octet] else [];
      here + FirstOctets(Bump(b).buf, ops[1..])
  }

  /** Over any schedule of records fed and octets read, the reader gets what it should exactly when no
      record it reaches begins with 255, or `char` is unsigned. */
  lemma {:induction false} UnderflowExact(signedChar: bool, b: Buf, ops: seq<InOp>)
    ensures Written(signedChar, b, ops) == Meant(b, ops) <==> !signedChar || 0xFF !in FirstOctets(b, ops)
    decreases |ops|
  {
    hide Bump, Fill;
    if ops != [] {
      if ops[0].FeedOp? {
        UnderflowExact(signedChar, Fed(b, ops[0].content), ops[1..]);
      } else {
        UnderflowExact(signedChar, Bump(b).buf, ops[1..]);
        BumpOnce(signedChar, b);
        var x, y := BumpAsWritten(signedChar, b), Bump(b);
        var xs, ys := Written(signedChar, x.buf, ops[1..]), Meant(y.buf, ops[1..]);
        assert ([x.result] + xs)[0] == x.result && ([y.result] + ys)[0] == y.result;
        assert ([x.result] + xs)[1..] == xs && ([y.result] + ys)[1..] == ys;
      }
    }
  }

  lemma BumpOnce(signedChar: bool, b: Buf)
    ensures var misread := signedChar && b.area == [] && Fill(b).result == Octet(0xFF);
      if misread then BumpAsWritten(signedChar, b).result == Eof && Bump(b).result == Octet(0xFF)
      else BumpAsWritten(signedChar, b) == Bump(b)
  {}

  /** The end that is reported then is not the end: the next read gives the 255. */
  lemma FalseEndPasses(b: Buf)
    requires b.area == [] && Fill(b).result == Octet(0xFF)
    ensures var c := BumpAsWritten(true, b);
      c.result == Eof && BumpAsWritten(true, c.buf) == Called(Bump(b).buf, Octet(0xFF))
  {}

  /** `sgetc`: the octet as an `int`, EOF at the end, or the wait of `underflow`. */
  datatype Peeked = Value(value: int) | Waits

  function Peek(result: ReadResult): Peeked {
    match result
    case Octet(octet) => Value(octet as int)
    case Eof => Value(EOF)
    case Blocks => Waits
  }

  function PeekAsWritten(signedChar: bool, b: Buf): Peeked {
    if b.area == [] && Fill(b).result.Octet? then Value(UnderflowReturns(signedChar, Fill(b).result.octet))
    else Peek(Bump(b).result)
  }

  /** A look at the next octet without taking it is right exactly when the get area is not used up, no
      record is reached, the octet is below 128, or `char` is unsigned. */
  lemma PeekExact(signedChar: bool, b: Buf)
    ensures PeekAsWritten(signedChar, b) == Peek(Bump(b).result)
       <==> b.area != [] || !Fill(b).result.Octet? || Fill(b).result.octet < 0x80 || !signedChar
  {}
}
