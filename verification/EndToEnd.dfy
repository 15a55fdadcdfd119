/** The layers together: from the pairs a writer serializes to the pairs a parser at the other end delivers. */
module EndToEnd {
  import opened Bytes
  import opened NameValuePairs
  import opened Streams
  import opened OutStreams
  import opened Packets
  import SendLock

  /** The frames, without padding, that carry the contents sent by one stream. */
  function Frames(t: RecType, id: nat, contents: seq<bytes>): (fs: seq<Frame>)
    ensures |fs| == |contents|
  {
    seq(|contents|, i requires 0 <= i < |contents| => Frame(Record(t, id, contents[i]), []))
  }

  /** What frames of any types and ids hold for one stream, in order. */
  function Carried(fs: seq<Frame>, t: RecType, id: nat): seq<bytes> {
    if fs == [] then []
    else
      var here := if fs[0].record.recType == t && fs[0].record.id == id then [fs[0].record.content] else [];
      here + Carried(fs[1..], t, id)
  }

  /** What the packets met hold for one stream, by their headers. */
  function ContentsFor(met: seq<Packet>, t: RecType, id: nat): seq<bytes> {
    if met == [] then []
    else
      var here := if met[0].header.recType == t && met[0].header.requestId == id then [met[0].content] else [];
      here + ContentsFor(met[1..], t, id)
  }

  /** A writer serializes pairs to a stream in any pieces, flushing anywhere, and closes it. The stream
      cuts them into records, which share the connection with the records of any other streams;
      `send_packet` cuts the records into any parts, under the mutex. The peer meets the records
      again, and the parser fed with those of the stream delivers the pairs, and the end. */
  lemma PairsArrive(ps: seq<Pair>, ops: seq<Op>, limit: nat, t: RecType, id: nat, fs: seq<Frame>,
                    trace: seq<SendLock.Line>, moves: seq<SendLock.Move>, i: nat)
    requires AllReversible(ps) && AllWithin(ps, limit) && DoClose !in ops && Written(ops) == SerializeAll(ps)
    requires forall j | 0 <= j < |fs| :: WellFormed(fs[j]) && InSync(fs[j])
    requires Carried(fs, t, id) == ApplyAll(ACCEPTED, ops + [DoClose]).sent
    requires SendLock.Run(trace, moves) && i < |trace| && trace[i].holder == SendLock.Free && !trace[i].down
    requires trace[i].log == SendLock.Encodings(fs)
    ensures var got := ContentsFor(Walk(trace[i].wire), t, id);
      && got != [] && got[|got| - 1] == []
      && ResumeAll(NOTHING, got[..|got| - 1], limit) == Parsed(ps, [], false)
  {
    hide Parse, ApplyAll, ResumeAll, Walk, SerializeAll, Written, Encode, SendLock.Run, Serialize, WellFormed, Carried,
         ContentsFor;
    var sent := ApplyAll(ACCEPTED, ops + [DoClose]).sent;
    SendLock.PeerMeetsRecords(trace, moves, i, fs);
    assert Walk(trace[i].wire) == PacketsOf(fs);
    CarriedIsMet(fs, t, id);
    WriterReader(ps, ops, limit);
    var body: seq<bytes> :| sent == body + [[]] && AllData(body)
      && ResumeAll(NOTHING, body, limit) == Parsed(ps, [], false);
    assert sent[..|sent| - 1] == body;
  }

  lemma {:induction false} CarriedIsMet(fs: seq<Frame>, t: RecType, id: nat)
    ensures ContentsFor(PacketsOf(fs), t, id) == Carried(fs, t, id)
    decreases |fs|
  {
    if fs != [] {
      assert PacketsOf(fs)[1..] == PacketsOf(fs[1..]);
      CarriedIsMet(fs[1..], t, id);
    }
  }

  /** The preconditions on the frames hold of whatever a stream sends: its records are never too long,
      have no padding, and carry the contents of the stream to its own type and id and to no other. */
  lemma FramesWellFormed(o: Out, data: bytes, sent: seq<bytes>, t: RecType, id: nat)
    requires Sealed(o, data, sent) && id < 0x1_0000 && TypeOf(TypeCode(t)) == t
    ensures forall j | 0 <= j < |sent| :: WellFormed(Frames(t, id, sent)[j]) && InSync(Frames(t, id, sent)[j])
    ensures Carried(Frames(t, id, sent), t, id) == sent
    ensures forall u, k :: u != t || k != id ==> Carried(Frames(t, id, sent), u, k) == []
  {
    hide TypeCode, TypeOf, Carried;
    var body: seq<bytes> :| sent == body + (if o.sendEof || body != [] then [[]] else []) && AllData(body)
      && Flatten(body) == o.pending + data;
    forall j | 0 <= j < |sent| ensures |sent[j]| <= BUFFER_SIZE {
    }
    forall u, k ensures Carried(Frames(t, id, sent), u, k) == if u == t && k == id then sent else [] {
      FramesCarry(t, id, sent, u, k);
    }
  }

  lemma {:induction false} FramesCarry(t: RecType, id: nat, contents: seq<bytes>, u: RecType, k: nat)
    ensures Carried(Frames(t, id, contents), u, k) == if u == t && k == id then contents else []
    decreases |contents|
  {
    if contents != [] {
      assert Frames(t, id, contents)[1..] == Frames(t, id, contents[1..]);
      FramesCarry(t, id, contents[1..], u, k);
      assert contents == [contents[0]] + contents[1..];
    }
  }
}
