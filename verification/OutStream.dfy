/**
 The classes `ostreambuf` and `ostream` of src/iostream.cpp, and the serializer that writes to them.
 Each method is proved against the functions of module Streams.
 */
module OutStreams {
  import opened Bytes
  import opened Streams
  import opened NameValuePairs

  /** The records that carry `contents`, all of one type and one request id. */
  function Records(recType: RecType, id: nat, contents: seq<bytes>): seq<Record>
    decreases |contents|
  {
    if contents == [] then [] else [Record(recType, id, contents[0])] + Records(recType, id, contents[1..])
  }

  lemma NoRecords(recType: RecType, id: nat)
    ensures Records(recType, id, []) == []
  {}

  lemma {:induction false} RecordsAppend(recType: RecType, id: nat, a: seq<bytes>, b: seq<bytes>)
    ensures Records(recType, id, a + b) == Records(recType, id, a) + Records(recType, id, b)
    decreases |a|
  {
    if a == [] {
      assert a + b == b;
    } else {
      assert (a + b)[1..] == a[1..] + b;
      RecordsAppend(recType, id, a[1..], b);
    }
  }

  /** The sending side of a connection: the records sent, in order. */
  class Wire {
    var sent: seq<Record>

    constructor ()
      ensures sent == []
    {
      sent := [];
    }

    method SendPacket(r: Record)
      modifies this
      ensures sent == old(sent) + [r]
    {
      sent := sent + [r];
    }
  }

  class OutStream {
    const wire: Wire
    const recType: RecType
    const id: nat
    var data: array<byte>  // `send_buffer.data`
    var used: nat          // `pptr() - pbase()`
    var sendEof: bool
    var attached: bool     // `rdbuf() != NULL`

    ghost predicate Valid()
      reads this, data
    {
      data.Length == BUFFER_SIZE && used <= BUFFER_SIZE && Fits(State())
    }

    ghost function State(): Out
      reads this, data
    {
      Out(if used <= data.Length then data[..used] else [], sendEof, attached)
    }

    /** A call turned the state into that of `s`, and sent what `s` sends. */
    twostate predicate Did(s: Step)
      reads this, data, wire
    {
      Valid() && State() == s.out && wire.sent == old(wire.sent) + Records(recType, id, s.sent)
    }

    constructor (wire: Wire, id: nat, recType: RecType)
      ensures Valid() && State() == Out([], false, true) && fresh(data)
      ensures this.wire == wire && this.id == id && this.recType == recType
    {
      this.wire, this.id, this.recType := wire, id, recType;
      data, used, sendEof, attached := new byte[BUFFER_SIZE], 0, false, true;
    }

    method Sync()
      requires Valid() && attached
      modifies this`used, this`sendEof, wire
      ensures Did(Streams.Sync(old(State())))
    {
      if used > 0 {
        wire.SendPacket(Record(recType, id, data[..used]));
        used, sendEof := 0, true;
      }
    }

    /** `sputc` and `overflow`. */
    method Put(c: byte)
      requires Valid()
      modifies this`used, this`sendEof, data, wire
      ensures Did(Streams.Put(old(State()), c))
    {
      if !attached {
        return;
      }
      if used == BUFFER_SIZE {
        Sync();
      }
      data[used] := c;
      used := used + 1;
    }

    method Write(octets: bytes)
      requires Valid()
      modifies this`used, this`sendEof, data, wire
      ensures Did(Streams.Write(old(State()), octets))
    {
      hide Streams.Put, Records;
      NoRecords(recType, id);
      ghost var goal := Streams.Write(State(), octets);
      ghost var sent: seq<bytes> := [];
      for i := 0 to |octets|
        invariant Valid()
        invariant wire.sent == old(wire.sent) + Records(recType, id, sent)
        invariant goal.out == Streams.Write(State(), octets[i..]).out
        invariant goal.sent == sent + Streams.Write(State(), octets[i..]).sent
      {
        ghost var step := Streams.Put(State(), octets[i]);
        ghost var rest := Streams.Write(step.out, octets[i..][1..]);
        assert octets[i..][1..] == octets[i + 1..];
        Put(octets[i]);
        RecordsAppend(recType, id, sent, step.sent);
        AppendAssociates(sent, step.sent, rest.sent);
        sent := sent + step.sent;
      }
      assert octets[|octets|..] == [];
      assert sent + [] == sent;
    }

    method Flush()
      requires Valid()
      modifies this`used, this`sendEof, wire
      ensures Did(Streams.Flush(old(State())))
    {
      if attached {
        Sync();
      }
    }

    /** `ostream::close`. The old buffer is destroyed by the assignment of the new one. */
    method Close()
      requires Valid()
      modifies this, wire
      ensures Did(Streams.Close(old(State())))
      ensures data == old(data) || fresh(data)
    {
      hide Records, Streams.Sync;
      NoRecords(recType, id);
      if attached {
        ghost var synced := Streams.Sync(State());
        SyncEmpties(State());
        Sync();
        Destroyed(synced.out);
        attached := false;
        if sendEof {
          wire.SendPacket(Record(recType, id, []));
        }
        data, used, sendEof := new byte[BUFFER_SIZE], 0, false;
        RecordsAppend(recType, id, synced.sent, Streams.Destroy(synced.out));
      }
    }

    /** A buffer that has just been flushed sends at most the end record. */
    lemma Destroyed(o: Out)
      ensures o.pending == [] ==>
        Records(recType, id, Streams.Destroy(o)) == if o.sendEof then [Record(recType, id, [])] else []
    {
      if o.sendEof {
        var end: seq<bytes> := [[]];
        assert end[1..] == [];
      }
    }

    lemma SyncEmpties(o: Out)
      ensures Streams.Sync(o).out.pending == []
    {}

    method Reset()
      requires Valid()
      modifies this`attached
      ensures Valid() && State() == old(State()).(attached := true)
    {
      attached := true;
    }

    /** `send_eof = true`, which `handle_packet` does when it accepts a request. */
    method RaiseEof()
      requires Valid() && attached
      modifies this`sendEof
      ensures Valid() && State() == old(State()).(sendEof := true)
    {
      sendEof := true;
    }

    /** `serialize_size`; the `length_error` leaves the stream as it is. */
    method SerializeSize(size: nat) returns (r: Serialized)
      requires Valid()
      modifies this`used, this`sendEof, data, wire
      ensures r == NameValuePairs.SerializeSize(size) && (r == LengthError <==> size > 0x8FFF_FFFF)
      ensures Did(Streams.Write(old(State()), if r.Octets? then r.octets else []))
    {
      if size > MAX_SERIALIZABLE {
        return LengthError;
      } else if size > 127 {
        var length := Htonl(size);
        if length[0] < 0x80 {
          length := length[0 := length[0] + 0x80];
        }
        assert length == NameValuePairs.SerializeSize(size).octets;
        Write(length);
        return Octets(length);
      } else {
        Write([size as byte]);
        return Octets([size as byte]);
      }
    }

    /** `NVP::serialize`. With a name that is too long nothing is written; with a value that is too
        long the name length has already been written when the `length_error` is thrown. */
    method Serialize(pair: Pair) returns (ok: bool)
      requires Valid()
      modifies this`used, this`sendEof, data, wire
      ensures ok <==> Serializable(pair)
      ensures Did(Streams.Write(old(State()), SerializedPart(pair)))
    {
      hide Streams.Write, NameValuePairs.SerializeSize, Records, Wrote, Valid;
      ghost var o, was := State(), wire.sent;
      NoRecords(recType, id);
      var n := SerializeSize(|pair.name|);
      if n == LengthError {
        return false;
      }
      WroteFirst(o, was, n.octets);
      ghost var mid, midWire := State(), wire.sent;
      var v := SerializeSize(|pair.value|);
      WroteMore(o, was, n.octets, mid, midWire, if v.Octets? then v.octets else []);
      if v == LengthError {
        assert n.octets + [] == n.octets;
        WroteAll(o, was, n.octets);
        return false;
      }
      WriteOn(pair.name, o, was, n.octets + v.octets);
      WriteOn(pair.value, o, was, n.octets + v.octets + pair.name);
      assert n.octets + v.octets + pair.name + pair.value == NameValuePairs.Serialize(pair);
      WroteAll(o, was, NameValuePairs.Serialize(pair));
      return true;
    }

    /** The stream, which was `o` when `was` had been sent, has since been written `d`. */
    ghost predicate Wrote(o: Out, was: seq<Record>, d: bytes)
      reads this, data, wire
    {
      Valid() && State() == Streams.Write(o, d).out && wire.sent == was + Records(recType, id, Streams.Write(o, d).sent)
    }

    lemma WroteFirst(o: Out, was: seq<Record>, d: bytes)
      requires Valid() && State() == Streams.Write(o, d).out
      requires wire.sent == was + Records(recType, id, Streams.Write(o, d).sent)
      ensures Wrote(o, was, d)
    {}

    lemma WroteAll(o: Out, was: seq<Record>, d: bytes)
      requires Wrote(o, was, d)
      ensures Valid() && State() == Streams.Write(o, d).out
      ensures wire.sent == was + Records(recType, id, Streams.Write(o, d).sent)
    {}

    /** Two writes one after the other are one. */
    lemma WroteMore(o: Out, was: seq<Record>, d: bytes, mid: Out, midWire: seq<Record>, more: bytes)
      requires mid == Streams.Write(o, d).out && midWire == was + Records(recType, id, Streams.Write(o, d).sent)
      requires Valid() && State() == Streams.Write(mid, more).out
      requires wire.sent == midWire + Records(recType, id, Streams.Write(mid, more).sent)
      ensures Wrote(o, was, d + more)
    {
      hide Streams.Write, Records, Valid;
      WriteAppend(o, d, more);
      RecordsAppend(recType, id, Streams.Write(o, d).sent, Streams.Write(mid, more).sent);
    }

    method WriteOn(octets: bytes, ghost o: Out, ghost was: seq<Record>, ghost d: bytes)
      requires Wrote(o, was, d)
      modifies this`used, this`sendEof, data, wire
      ensures Wrote(o, was, d + octets)
    {
      hide Streams.Write, Records, Fits;
      ghost var mid, midWire := State(), wire.sent;
      Write(octets);
      WroteMore(o, was, d, mid, midWire, octets);
    }
  }

  /** What `serialize` has written when it returns or throws. */
  function SerializedPart(pair: Pair): bytes {
    if Serializable(pair) then NameValuePairs.Serialize(pair)
    else if |pair.name| > MAX_SERIALIZABLE then []
    else NameValuePairs.SerializeSize(|pair.name|).octets
  }

  // ----- Writer and reader -----

  /** Pairs serialized to a stream, flushed anywhere and closed, and read record by record by a
      deserializer, arrive as the same pairs; the end record is the only empty one. */
  lemma WriterReader(ps: seq<Pair>, ops: seq<Op>, limit: nat)
    requires AllReversible(ps) && AllWithin(ps, limit)
    requires DoClose !in ops && Written(ops) == SerializeAll(ps)
    ensures exists body: seq<bytes> ::
      && ApplyAll(ACCEPTED, ops + [DoClose]).sent == body + [[]]
      && AllData(body) && ResumeAll(NOTHING, body, limit) == Parsed(ps, [], false)
  {
    hide Parse, ApplyAll, ResumeAll;
    ClosedRun(ACCEPTED, ops, []);
    assert ops + [DoClose] + [] == ops + [DoClose];
    WrittenUpToClose(ops, []);
    var body :| ApplyAll(ACCEPTED, ops + [DoClose]).sent == body + [[]] && AllData(body)
        && Flatten(body) == [] + SerializeAll(ps);
    assert Flatten(body) == SerializeAll(ps);
    RecordsReadBack(ps, body, limit);
  }

  /** However the octets of serialized pairs are cut into records, the deserializer returns the pairs. */
  lemma RecordsReadBack(ps: seq<Pair>, records: seq<bytes>, limit: nat)
    requires AllReversible(ps) && AllWithin(ps, limit) && Flatten(records) == SerializeAll(ps)
    ensures ResumeAll(NOTHING, records, limit) == Parsed(ps, [], false)
  {
    hide Parse, ResumeAll;
    ParseEmpty(limit);
    ChunkInvariance([], records, limit);
    assert [] + Flatten(records) == SerializeAll(ps) + [];
    RoundTrip(ps, [], limit);
    assert ps + [] == ps;
  }

  /** At any earlier moment the records already sent give a prefix of the pairs. */
  lemma WriterReaderPrefix(ps: seq<Pair>, ops: seq<Op>, limit: nat)
    requires AllReversible(ps) && AllWithin(ps, limit)
    requires DoClose !in ops && Written(ops) <= SerializeAll(ps)
    ensures var got := ResumeAll(NOTHING, ApplyAll(ACCEPTED, ops).sent, limit); got.pairs <= ps && !got.oversized
  {
    hide Parse, ApplyAll, ResumeAll, Written, SerializeAll;
    OpenRun(ACCEPTED, ops);
    var s := ApplyAll(ACCEPTED, ops);
    var read := Flatten(s.sent);
    assert read + s.out.pending == Written(ops);
    PrefixParses(ps, read, limit);
    ParseEmpty(limit);
    ChunkInvariance([], s.sent, limit);
    assert [] + read == read;
  }

  lemma PrefixParses(ps: seq<Pair>, read: bytes, limit: nat)
    requires AllReversible(ps) && AllWithin(ps, limit) && read <= SerializeAll(ps)
    ensures Parse(read, limit).pairs <= ps && !Parse(read, limit).oversized
  {
    hide Parse, SerializeAll, ReadFront;
    var rest := SerializeAll(ps)[|read|..];
    assert read + rest == SerializeAll(ps) + [];
    ParseEmpty(limit);
    RoundTrip(ps, [], limit);
    ParseAppend(read, rest, limit);
    assert Parse(read + rest, limit) == Parsed(ps + [], [], false);
    assert ps + [] == ps;
  }
}
