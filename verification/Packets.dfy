/**
 Record framing (section 3.3 of the FastCGI Specification 1.0): `ipacket` of src/ipacket.cpp and the
 reading loop of `Connection::thread_func` in src/connection.cpp.
 */
module Packets {
  import opened Bytes
  import opened Streams
  import opened Sockets

  const HEADER_SIZE := 8

  datatype Header = Header(recType: RecType, requestId: nat, contentLength: nat, paddingLength: nat)

  function TypeCode(t: RecType): byte {
    match t
    case BeginRequest => 1
    case AbortRequest => 2
    case EndRequest => 3
    case Params => 4
    case Stdin => 5
    case Stdout => 6
    case Stderr => 7
    case Data => 8
    case GetValues => 9
    case GetValuesResult => 10
    case UnknownType => 11
    case Other(code) => code
  }

  function TypeOf(code: byte): RecType {
    match code as nat
    case 1 => BeginRequest
    case 2 => AbortRequest
    case 3 => EndRequest
    case 4 => Params
    case 5 => Stdin
    case 6 => Stdout
    case 7 => Stderr
    case 8 => Data
    case 9 => GetValues
    case 10 => GetValuesResult
    case 11 => UnknownType
    case _ => Other(code)
  }

  function ParseHeader(s: bytes): Header
    requires |s| >= HEADER_SIZE
  {
    Header(TypeOf(s[1]), s[2] as nat * 0x100 + s[3] as nat, s[4] as nat * 0x100 + s[5] as nat, s[6] as nat)
  }

  /** What the packet's life reads after the header. Padding is skipped by `consume` when the last
      octet of content goes, so it stays on the socket when there is no content. */
  function Extent(h: Header): nat {
    h.contentLength + (if h.contentLength > 0 then h.paddingLength else 0)
  }

  /** A record as a peer puts it on the wire. */
  datatype Frame = Frame(record: Record, padding: bytes)

  predicate WellFormed(f: Frame) {
    && f.record.id < 0x1_0000 && |f.record.content| < 0x1_0000 && |f.padding| < 0x100
    && TypeOf(TypeCode(f.record.recType)) == f.record.recType
  }

  function HeaderOf(f: Frame): Header {
    Header(f.record.recType, f.record.id, |f.record.content|, |f.padding|)
  }

  function Encode(f: Frame): bytes
    requires WellFormed(f)
  {
    var r, n := f.record, |f.record.content|;
    [1, TypeCode(r.recType), (r.id / 0x100) as byte, (r.id % 0x100) as byte,
     (n / 0x100) as byte, (n % 0x100) as byte, |f.padding| as byte, 0] + (r.content + f.padding)
  }

  function EncodeAll(fs: seq<Frame>): bytes
    requires forall i | 0 <= i < |fs| :: WellFormed(fs[i])
    decreases |fs|
  {
    if fs == [] then [] else Encode(fs[0]) + EncodeAll(fs[1..])
  }

  /** The packets that the reading loop meets on a stream of octets: every header with the content
      that follows it, up to the point where the stream is cut. */
  datatype Packet = Packet(header: Header, content: bytes)

  function Walk(s: bytes): seq<Packet>
    decreases |s|
  {
    if |s| < HEADER_SIZE then []
    else
      var h, body := ParseHeader(s), s[HEADER_SIZE..];
      if |body| < Extent(h) then [Packet(h, body[..Min(h.contentLength, |body|)])]
      else [Packet(h, body[..h.contentLength])] + Walk(body[Extent(h)..])
  }

  /** A record after which the socket stands at the next header. */
  predicate InSync(f: Frame) {
    f.record.content != [] || f.padding == []
  }

  lemma HeaderRead(f: Frame, t: bytes)
    requires WellFormed(f)
    ensures |Encode(f)| == HEADER_SIZE + |f.record.content| + |f.padding|
    ensures ParseHeader(Encode(f) + t) == HeaderOf(f)
    ensures (Encode(f) + t)[HEADER_SIZE..] == f.record.content + f.padding + t
  {
    var head := Encode(f)[..HEADER_SIZE];
    assert Encode(f) == head + (f.record.content + f.padding);
    AppendAssociates(head, f.record.content + f.padding, t);
  }

  /** The octets of a record on the wire, one by one. */
  lemma WireLayout(f: Frame)
    requires WellFormed(f)
    ensures var e, n := Encode(f), |f.record.content|;
      && |e| == 8 + n + |f.padding| && e[0] == 1
      && e[2] as nat * 256 + e[3] as nat == f.record.id && e[4] as nat * 256 + e[5] as nat == n
      && e[6] as nat == |f.padding| && e[7] == 0
      && e[8..8 + n] == f.record.content && e[8 + n..] == f.padding
    ensures match f.record.recType
      case BeginRequest => Encode(f)[1] == 1
      case AbortRequest => Encode(f)[1] == 2
      case EndRequest => Encode(f)[1] == 3
      case Params => Encode(f)[1] == 4
      case Stdin => Encode(f)[1] == 5
      case Stdout => Encode(f)[1] == 6
      case Stderr => Encode(f)[1] == 7
      case Data => Encode(f)[1] == 8
      case GetValues => Encode(f)[1] == 9
      case GetValuesResult => Encode(f)[1] == 10
      case UnknownType => Encode(f)[1] == 11
      case Other(code) => Encode(f)[1] == code
  {
    var head := Encode(f)[..8];
    assert Encode(f) == head + (f.record.content + f.padding);
  }

  /** The type octet of a header is not lost, whatever it is. */
  lemma TypeOctetKept(octet: byte)
    ensures TypeCode(TypeOf(octet)) == octet
    ensures TypeOf(octet).Other? <==> !(1 <= octet <= 11)
  {}

  /** All eleven types of the protocol can be sent, with any id, content and padding that a header holds. */
  lemma TypesAreWellFormed(t: RecType, id: nat, content: bytes, padding: bytes)
    requires id < 0x1_0000 && |content| < 0x1_0000 && |padding| < 0x100
    ensures WellFormed(Frame(Record(t, id, content), padding)) <==> !t.Other? || t.code == 0 || t.code > 11
  {}

  /** After a record the socket stands at the true boundary exactly when the record has content or
      no padding; otherwise the padding is what the next header is read from. */
  lemma BoundaryExact(f: Frame, t: bytes)
    requires WellFormed(f)
    ensures var body := (Encode(f) + t)[HEADER_SIZE..];
            |body| >= Extent(HeaderOf(f)) && (body[Extent(HeaderOf(f))..] == t <==> InSync(f))
            && (!InSync(f) ==> body[Extent(HeaderOf(f))..] == f.padding + t)
  {
    HeaderRead(f, t);
    var body := (Encode(f) + t)[HEADER_SIZE..];
    if InSync(f) {
      assert body == (f.record.content + f.padding) + t;
    } else {
      assert f.record.content == [] && body == f.padding + t;
      assert |body| != |t|;
    }
  }

  function PacketOf(f: Frame): Packet {
    Packet(HeaderOf(f), f.record.content)
  }

  function PacketsOf(fs: seq<Frame>): (ps: seq<Packet>)
    ensures |ps| == |fs|
  {
    seq(|fs|, i requires 0 <= i < |fs| => PacketOf(fs[i]))
  }

  /** On a stream of whole records that keep in step, the loop meets exactly those records. */
  lemma {:induction false} WalkRecords(fs: seq<Frame>, t: bytes)
    requires forall i | 0 <= i < |fs| :: WellFormed(fs[i]) && InSync(fs[i])
    ensures Walk(EncodeAll(fs) + t) == PacketsOf(fs) + Walk(t)
    decreases |fs|
  {
    hide Encode, ParseHeader;
    if fs == [] {
      assert EncodeAll(fs) + t == t;
    } else {
      var f, rest := fs[0], fs[1..];
      var tail := EncodeAll(rest) + t;
      AppendAssociates(Encode(f), EncodeAll(rest), t);
      HeaderRead(f, tail);
      BoundaryExact(f, tail);
      var body := f.record.content + f.padding + tail;
      assert body[..|f.record.content|] == f.record.content;
      WalkRecords(rest, t);
      assert PacketsOf(fs) == [PacketOf(f)] + PacketsOf(rest);
      assert Walk(Encode(f) + tail) == [PacketOf(f)] + Walk(tail);
    }
  }

  /** Packets met on the beginning of a stream of records: the records in order, the last perhaps cut. */
  predicate Beginning(met: seq<Packet>, fs: seq<Frame>) {
    && |met| <= |fs|
    && (forall i | 0 <= i < |met| :: met[i].header == HeaderOf(fs[i]) && met[i].content <= fs[i].record.content)
    && (forall i | 0 <= i < |met| - 1 :: met[i] == PacketOf(fs[i]))
  }

  /** A stream that is cut anywhere. */
  lemma {:induction false} WalkBeginning(fs: seq<Frame>, s: bytes)
    requires forall i | 0 <= i < |fs| :: WellFormed(fs[i]) && InSync(fs[i])
    requires s <= EncodeAll(fs)
    ensures Beginning(Walk(s), fs)
    decreases |fs|
  {
    hide Encode, ParseHeader, Walk;
    if fs == [] || |s| < HEADER_SIZE {
      WalkShort(s);
    } else {
      var f, tail := fs[0], EncodeAll(fs[1..]);
      HeaderRead(f, tail);
      HeaderOfBeginning(s, Encode(f) + tail);
      var body := s[HEADER_SIZE..];
      BodyOfBeginning(f.record.content, f.padding, tail, body);
      WalkOnce(s, f);
      if |body| >= Extent(HeaderOf(f)) {
        var rest := body[Extent(HeaderOf(f))..];
        WalkBeginning(fs[1..], rest);
        BeginningGrows(fs, Walk(rest));
      }
    }
  }

  lemma WalkShort(s: bytes)
    requires |s| < HEADER_SIZE
    ensures Walk(s) == []
  {}

  lemma WalkOnce(s: bytes, f: Frame)
    requires |s| >= HEADER_SIZE && ParseHeader(s) == HeaderOf(f)
    ensures var body := s[HEADER_SIZE..]; var extent := Extent(HeaderOf(f));
      Walk(s) == if |body| < extent then [Packet(HeaderOf(f), body[..Min(|f.record.content|, |body|)])]
                 else [Packet(HeaderOf(f), body[..|f.record.content|])] + Walk(body[extent..])
  {
    hide ParseHeader;
  }

  lemma BodyOfBeginning(content: bytes, padding: bytes, tail: bytes, body: bytes)
    requires body <= content + padding + tail
    ensures body[..Min(|content|, |body|)] <= content
    ensures |body| >= |content| + |padding| ==> body[..|content|] == content && body[|content| + |padding|..] <= tail
  {
    if |body| >= |content| + |padding| {
      assert (content + padding + tail)[|content| + |padding|..] == tail;
    }
  }

  lemma BeginningGrows(fs: seq<Frame>, met: seq<Packet>)
    requires fs != [] && Beginning(met, fs[1..])
    ensures Beginning([PacketOf(fs[0])] + met, fs)
  {
    var all := [PacketOf(fs[0])] + met;
    assert forall i | 0 < i < |all| :: all[i] == met[i - 1] && fs[i] == fs[1..][i - 1];
  }

  lemma HeaderOfBeginning(s: bytes, all: bytes)
    requires HEADER_SIZE <= |s| && s <= all
    ensures ParseHeader(s) == ParseHeader(all)
  {}

  /** The memory of a header before it is read. */
  predicate Blank(memory: bytes) {
    |memory| == HEADER_SIZE && memory[4] == memory[5] == 0
  }

  /** A header of the next octets of a stream, as many as came, over such memory. */
  ghost predicate HeaderFrom(h: Header, incoming: bytes) {
    exists came: bytes, memory: bytes ::
      came <= incoming && |came| <= HEADER_SIZE && Blank(memory) && h == ParseHeader(came + memory[|came|..])
  }

  /** Such memory, which may hold anything else. */
  method SomeMemory() returns (memory: bytes)
    ensures Blank(memory)
  {
    assert Blank([0, 0, 0, 0, 0, 0, 0, 0]);
    memory :| Blank(memory);
  }

  class IPacket {
    const socket: Socket
    const recType: RecType
    const requestId: nat
    var contentLength: nat   // what remains of the content
    var paddingLength: nat

    function GetHeader(): Header
      reads this
    {
      Header(recType, requestId, contentLength, paddingLength)
    }

    /** Read the header over memory that holds anything, but for a content length of zero. When the connection
        breaks the octets that came are kept, before those of the memory. */
    constructor (socket: Socket)
      modifies socket`incoming, socket`readScript, socket`socketInsane
      ensures this.socket == socket && (socket.socketInsane ==> old(socket.socketInsane))
      ensures socket.socketInsane ==>
        |old(socket.incoming)| >= HEADER_SIZE && GetHeader() == ParseHeader(old(socket.incoming))
        && socket.incoming == old(socket.incoming)[HEADER_SIZE..]
      ensures HeaderFrom(GetHeader(), old(socket.incoming))
      ensures |socket.incoming| <= |old(socket.incoming)|
      ensures |old(socket.incoming)| >= HEADER_SIZE && Ample(old(socket.readScript), HEADER_SIZE) ==>
        socket.socketInsane == old(socket.socketInsane)
            && Ample(socket.readScript, |old(socket.readScript)| - HEADER_SIZE)
    {
      var octets := socket.RecvAll(HEADER_SIZE);
      var memory := SomeMemory();
      var header := ParseHeader(octets + memory[|octets|..]);
      this.socket := socket;
      recType, requestId := header.recType, header.requestId;
      contentLength, paddingLength := header.contentLength, header.paddingLength;
    }

    /** A read of `n` octets of the stream kept the socket sound, or broke it. */
    twostate predicate Took(n: nat)
      reads socket
    {
      && (socket.socketInsane ==>
           old(socket.socketInsane) && n <= |old(socket.incoming)| && socket.incoming == old(socket.incoming)[n..])
      && (n <= |old(socket.incoming)| && Ample(old(socket.readScript), n) ==>
           socket.socketInsane == old(socket.socketInsane) && Ample(socket.readScript, |old(socket.readScript)| - n))
      && |socket.incoming| <= |old(socket.incoming)|
    }

    /** `consume`; false stands for the `std::logic_error`. The padding goes with the last octet. */
    method Consume(consumed: nat) returns (ok: bool)
      modifies this`contentLength, socket`incoming, socket`readScript, socket`socketInsane
      ensures ok <==> 0 < consumed <= old(contentLength)
      ensures contentLength == if ok then old(contentLength) - consumed else old(contentLength)
      ensures Took(if ok && contentLength == 0 then paddingLength else 0)
    {
      if consumed > contentLength || consumed == 0 {
        return false;
      }
      contentLength := contentLength - consumed;
      if contentLength == 0 && paddingLength > 0 {
        var trash := socket.RecvAll(paddingLength);
      }
      return true;
    }

    /** `ipacket::recv_all`; false stands for the `std::logic_error` of a read beyond the content. */
    method RecvAll(size: nat) returns (ok: bool, data: bytes)
      modifies this`contentLength, socket`incoming, socket`readScript, socket`socketInsane
      ensures ok <==> size <= old(contentLength)
      ensures contentLength == if ok then old(contentLength) - size else old(contentLength)
      ensures ok ==> Took(old(Extent(GetHeader())) - Extent(GetHeader()))
      ensures ok ==> data <= old(socket.incoming) && |data| <= size && (socket.socketInsane ==> |data| == size)
      ensures !ok ==> unchanged(socket)
    {
      if size > contentLength {
        return false, [];
      }
      if size == 0 {
        return true, [];
      }
      data := socket.RecvAll(size);
      ok := Consume(size);
    }

    /** `sink_to_vector`: a vector of all that remains, zero where the connection broke. */
    method SinkToVector() returns (data: bytes)
      modifies this`contentLength, socket`incoming, socket`readScript, socket`socketInsane
      ensures contentLength == 0 && Took(old(Extent(GetHeader())))
      ensures |data| == old(contentLength)
      ensures exists came: nat ::
        && came <= |data| && data[..came] <= old(socket.incoming)
        && (forall i | came <= i < |data| :: data[i] == 0) && (socket.socketInsane ==> came == |data|)
    {
      var size := contentLength;
      var ok, octets := RecvAll(size);
      data := octets + seq(size - |octets|, _ => 0);
      assert data[..|octets|] == octets;
    }

    /** A handler that takes up to `hunger` octets of the content, and the end of the packet. */
    method Serve(hunger: nat) returns (data: bytes)
      requires socket.socketInsane
      modifies this`contentLength, socket`incoming, socket`readScript, socket`socketInsane
      ensures Took(old(Extent(GetHeader())))
      ensures data <= old(socket.incoming) && |data| <= Min(hunger, old(contentLength))
      ensures socket.socketInsane ==> |data| == Min(hunger, old(contentLength))
    {
      ghost var s, extent := socket.incoming, Extent(GetHeader());
      var ok;
      ok, data := RecvAll(Min(hunger, contentLength));
      ghost var taken := extent - Extent(GetHeader());
      Destroy();
      assert extent <= |s| ==> s[taken..][extent - taken..] == s[extent..];
    }

    /** `~ipacket` on a connection that has broken. */
    method DestroyBroken()
      requires !socket.socketInsane
      modifies this`contentLength, socket`incoming, socket`readScript, socket`socketInsane
      ensures !socket.socketInsane
    {
      Destroy();
    }

    /** `~ipacket`: whatever has been read of the content before, the rest of it goes too. */
    method Destroy()
      modifies this`contentLength, socket`incoming, socket`readScript, socket`socketInsane
      ensures Took(old(Extent(GetHeader())))
    {
      if contentLength > 0 {
        var ok, beef := RecvAll(contentLength);
      }
    }
  }

  /** The first packet of a stream, and where the next one is looked for. */
  lemma WalkStep(s: bytes)
    requires |s| >= HEADER_SIZE
    ensures var h, body, walk := ParseHeader(s), s[HEADER_SIZE..], Walk(s);
      && walk != [] && walk[0].header == h && walk[0].content == body[..Min(h.contentLength, |body|)]
      && (if |body| < Extent(h) then |walk| == 1 else walk[1..] == Walk(body[Extent(h)..]))
  {
    hide ParseHeader;
  }

  /** One turn of the loop of `thread_func`, with a handler that takes up to `hunger` octets of the
      content. `met` is false when the connection broke in the header. */
  method ReadPacket(socket: Socket, hunger: nat) returns (met: bool, packet: Packet)
    requires socket.socketInsane
    modifies socket`incoming, socket`readScript, socket`socketInsane
    ensures socket.socketInsane ==> met && |socket.incoming| < |old(socket.incoming)|
    ensures var walk := Walk(old(socket.incoming));
      && (met ==> walk != [] && packet.header == walk[0].header && packet.content <= walk[0].content)
      && (socket.socketInsane ==> walk[1..] == Walk(socket.incoming))
      && (socket.socketInsane ==> |packet.content| == Min(hunger, packet.header.contentLength))
      && (Ample(old(socket.readScript), |old(socket.incoming)|) && socket.socketInsane ==>
          Ample(socket.readScript, |socket.incoming|))
      && (Ample(old(socket.readScript), |old(socket.incoming)|) && !socket.socketInsane ==>
          |walk| == if met then 1 else 0)
  {
    hide ParseHeader, HeaderFrom, Walk;
    ghost var s := socket.incoming;
    if |s| < HEADER_SIZE {
      WalkShort(s);
    } else {
      WalkStep(s);
    }
    var p := new IPacket(socket);
    if !socket.socketInsane {
      packet := Packet(p.GetHeader(), []);
      p.DestroyBroken();
      return false, packet;
    }
    var header := p.GetHeader();
    ghost var body := s[HEADER_SIZE..];
    var data := p.Serve(hunger);
    assert socket.socketInsane ==> socket.incoming == body[Extent(header)..];
    return true, Packet(header, data);
  }

  /** The loop of `thread_func`, with handlers that take as much of each packet as `appetite` says.
      Whatever they take, the packets met are those of `Walk`; all of them when the connection does
      not fail. */
  method ReadLoop(socket: Socket, appetite: seq<nat>) returns (seen: seq<Packet>)
    modifies socket`incoming, socket`readScript, socket`socketInsane
    ensures |seen| <= |Walk(old(socket.incoming))| && !socket.socketInsane
    ensures forall i | 0 <= i < |seen| ::
      seen[i].header == Walk(old(socket.incoming))[i].header && seen[i].content <= Walk(old(socket.incoming))[i].content
    ensures forall i | 0 <= i < |seen| - 1 ::
      |seen[i].content| == Min(Hunger(appetite, i), seen[i].header.contentLength)
    ensures old(socket.socketInsane) && Ample(old(socket.readScript), |old(socket.incoming)|) ==>
      |seen| == |Walk(old(socket.incoming))|
  {
    hide Walk, Ample;
    seen := [];
    ghost var walk := Walk(socket.incoming);
    while socket.socketInsane
      invariant |seen| <= |walk| && (socket.socketInsane ==> walk[|seen|..] == Walk(socket.incoming))
      invariant forall i | 0 <= i < |seen| :: seen[i].header == walk[i].header && seen[i].content <= walk[i].content
      invariant forall i | 0 <= i < (if socket.socketInsane then |seen| else |seen| - 1) ::
        |seen[i].content| == Min(Hunger(appetite, i), seen[i].header.contentLength)
      invariant old(socket.socketInsane) && Ample(old(socket.readScript), |old(socket.incoming)|) ==>
        if socket.socketInsane then Ample(socket.readScript, |socket.incoming|) else |seen| == |walk|
      decreases socket.socketInsane, |socket.incoming|
    {
      var met, packet := ReadPacket(socket, Hunger(appetite, |seen|));
      if met {
        assert walk[|seen|..][1..] == walk[|seen| + 1..];
        seen := seen + [packet];
      }
    }
  }

  function Hunger(appetite: seq<nat>, i: nat): nat {
    if i < |appetite| then appetite[i] else 0
  }
}
