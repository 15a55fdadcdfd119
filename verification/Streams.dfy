/**
 Output streams: `ostreambuf` and `ostream` of src/iostream.cpp. The datatype `Out` and its
 functions say what one stream does; the class `OutStream` does it on a fixed buffer.
 */
module Streams {
  import opened Bytes

  datatype RecType = BeginRequest | AbortRequest | EndRequest | Params | Stdin | Stdout | Stderr
                   | Data | GetValues | GetValuesResult | UnknownType | Other(code: byte)

  datatype Record = Record(recType: RecType, id: nat, content: bytes)

  /** The size of `send_buffer.data`. */
  const BUFFER_SIZE := 4096

  /** One stream: the put area, the flag `send_eof`, and whether `rdbuf` is set. */
  datatype Out = Out(pending: bytes, sendEof: bool, attached: bool)

  /** The stream after a step, and the contents of the records the step sent, in order. */
  datatype Step = Step(out: Out, sent: seq<bytes>)

  /** A fresh `ostreambuf` behind a detached stream. */
  const CLOSED := Out([], false, false)

  /** The stream of a request that has just been accepted. */
  const ACCEPTED := Out([], true, true)

  /** `ostreambuf::sync`. */
  function Sync(o: Out): Step {
    if o.pending == [] then Step(o, []) else Step(o.(pending := [], sendEof := true), [o.pending])
  }

  /** `sputc`, with `ostreambuf::overflow` when the put area is full. */
  function Put(o: Out, c: byte): Step {
    if !o.attached then Step(o, [])
    else if |o.pending| < BUFFER_SIZE then Step(o.(pending := o.pending + [c]), [])
    else var s := Sync(o); Step(s.out.(pending := s.out.pending + [c]), s.sent)
  }

  function Write(o: Out, data: bytes): Step
    decreases |data|
  {
    if data == [] then Step(o, [])
    else var s := Put(o, data[0]); var t := Write(s.out, data[1..]); Step(t.out, s.sent + t.sent)
  }

  function Flush(o: Out): Step {
    if o.attached then Sync(o) else Step(o, [])
  }

  /** `~ostreambuf`: what the destruction of the buffer sends. */
  function Destroy(o: Out): seq<bytes> {
    var s := Sync(o);
    s.sent + (if s.out.sendEof then [[]] else [])
  }

  /** `ostream::close`: flush, detach, and replace the buffer by a fresh one. */
  function Close(o: Out): Step {
    if o.attached then var s := Sync(o); Step(CLOSED, s.sent + Destroy(s.out)) else Step(o, [])
  }

  /** `ostream::reset` and the raising of `send_eof` when a request is accepted. */
  function Accept(o: Out): Out {
    o.(attached := true, sendEof := true)
  }

  /** What an application may do with a stream. */
  datatype Op = DoWrite(data: bytes) | DoFlush | DoClose

  function Apply(o: Out, op: Op): Step {
    match op
    case DoWrite(data) => Write(o, data)
    case DoFlush => Flush(o)
    case DoClose => Close(o)
  }

  function ApplyAll(o: Out, ops: seq<Op>): Step
    decreases |ops|
  {
    if ops == [] then Step(o, [])
    else var s := Apply(o, ops[0]); var t := ApplyAll(s.out, ops[1..]); Step(t.out, s.sent + t.sent)
  }

  /** The octets written before the first close, in order. */
  function Written(ops: seq<Op>): bytes
    decreases |ops|
  {
    if ops == [] || ops[0] == DoClose then []
    else (match ops[0] case DoWrite(data) => data case _ => []) + Written(ops[1..])
  }

  // ----- What one step sends -----

  /** The content of a record with data. */
  predicate IsData(content: bytes) {
    1 <= |content| <= 4096
  }

  predicate AllData(sent: seq<bytes>) {
    forall i | 0 <= i < |sent| :: IsData(sent[i])
  }

  /** A stream that fits its buffer. A detached one holds nothing: its buffer is fresh. */
  predicate Fits(o: Out) {
    |o.pending| <= BUFFER_SIZE && (o.attached || o == CLOSED)
  }

  /** Data goes through an open stream unchanged, in records of 1 to 4096 octets, and raises `send_eof`. */
  ghost predicate Carries(o: Out, data: bytes, s: Step) {
    && Fits(s.out) && s.out.attached && AllData(s.sent)
    && Flatten(s.sent) + s.out.pending == o.pending + data
    && s.out.sendEof == (o.sendEof || s.sent != [])
  }

  lemma FlattenOne(x: bytes)
    ensures Flatten([x]) == x
  {
    assert [x][1..] == [];
  }

  lemma SyncCarries(o: Out)
    requires Fits(o) && o.attached
    ensures Carries(o, [], Sync(o)) && Sync(o).out.pending == []
  {
    FlattenOne(o.pending);
  }

  lemma PutCarries(o: Out, c: byte)
    requires Fits(o) && o.attached
    ensures Carries(o, [c], Put(o, c))
  {
    FlattenOne(o.pending);
  }

  lemma CarriesThen(o: Out, a: bytes, s: Step, b: bytes, t: Step)
    requires Carries(o, a, s) && Carries(s.out, b, t)
    ensures Carries(o, a + b, Step(t.out, s.sent + t.sent))
  {
    FlattenAppend(s.sent, t.sent);
    AppendAssociates(Flatten(s.sent), Flatten(t.sent), t.out.pending);
    AppendAssociates(Flatten(s.sent), s.out.pending, b);
    AppendAssociates(o.pending, a, b);
  }

  lemma {:induction false} WriteCarries(o: Out, data: bytes)
    requires Fits(o) && o.attached
    ensures Carries(o, data, Write(o, data))
    decreases |data|
  {
    hide Put;
    if data == [] {
    } else {
      var s := Put(o, data[0]);
      PutCarries(o, data[0]);
      WriteCarries(s.out, data[1..]);
      CarriesThen(o, [data[0]], s, data[1..], Write(s.out, data[1..]));
      assert [data[0]] + data[1..] == data;
    }
  }

  lemma {:induction false} WriteClosed(data: bytes)
    ensures Write(CLOSED, data) == Step(CLOSED, [])
    decreases |data|
  {
    if data != [] {
      WriteClosed(data[1..]);
    }
  }

  lemma {:induction false} ApplyClosed(ops: seq<Op>)
    ensures ApplyAll(CLOSED, ops) == Step(CLOSED, [])
    decreases |ops|
  {
    if ops != [] {
      if ops[0].DoWrite? {
        WriteClosed(ops[0].data);
      }
      ApplyClosed(ops[1..]);
    }
  }

  /** A write by itself sends no record before 4096 octets have gathered. */
  lemma {:induction false} WriteSendsFull(o: Out, data: bytes)
    requires |o.pending| <= 4096
    ensures forall i | 0 <= i < |Write(o, data).sent| :: |Write(o, data).sent[i]| == 4096
    decreases |data|
  {
    if data != [] {
      WriteSendsFull(Put(o, data[0]).out, data[1..]);
    }
  }

  /** What the destruction of a buffer sends is what stands in it. */
  lemma DestroySendsPending(o: Out)
    ensures Flatten(Destroy(o)) == o.pending
  {
    FlattenOne(o.pending);
    var synced := Sync(o);
    var end: seq<bytes> := if synced.out.sendEof then [[]] else [];
    FlattenAppend(synced.sent, end);
    if end != [] {
      FlattenOne([]);
    }
  }

  /** What closing sends is what is pending. */
  lemma CloseSendsPending(o: Out)
    requires Fits(o) && o.attached
    ensures Flatten(Close(o).sent) == o.pending && Close(o).out == CLOSED
  {
    hide Destroy, Fits;
    var synced := Sync(o);
    FlattenOne(o.pending);
    DestroySendsPending(synced.out);
    FlattenAppend(synced.sent, Destroy(synced.out));
    assert o.pending + [] == o.pending == [] + o.pending;
  }

  // ----- Whole runs -----

  /** The whole of what a closed stream sent: records with data, then the end record if one is due. */
  ghost predicate Sealed(o: Out, data: bytes, sent: seq<bytes>) {
    exists body: seq<bytes> ::
      && sent == body + (if o.sendEof || body != [] then [[]] else [])
      && AllData(body) && Flatten(body) == o.pending + data
  }

  /** While the application has not closed the stream, every octet written is in a record sent or in
      the put area, in order; no end record has been sent. */
  lemma {:induction false} OpenRun(o: Out, ops: seq<Op>)
    requires Fits(o) && o.attached && DoClose !in ops
    ensures Carries(o, Written(ops), ApplyAll(o, ops))
    decreases |ops|
  {
    hide Write, Sync;
    if ops == [] {
    } else {
      var s := Apply(o, ops[0]);
      match ops[0] {
        case DoWrite(data) => WriteCarries(o, data);
        case DoFlush => SyncCarries(o);
      }
      OpenRun(s.out, ops[1..]);
      CarriesThen(o, match ops[0] case DoWrite(data) => data case _ => [], s, Written(ops[1..]),
                  ApplyAll(s.out, ops[1..]));
    }
  }

  lemma {:induction false} ApplyAppend(o: Out, a: seq<Op>, b: seq<Op>)
    ensures var s := ApplyAll(o, a); var t := ApplyAll(s.out, b); ApplyAll(o, a + b) == Step(t.out, s.sent + t.sent)
    decreases |a|
  {
    hide Apply;
    if a == [] {
      assert a + b == b;
    } else {
      assert (a + b)[1..] == a[1..] + b;
      var first := Apply(o, a[0]);
      ApplyAppend(first.out, a[1..], b);
      AppendAssociates(first.sent, ApplyAll(first.out, a[1..]).sent, ApplyAll(ApplyAll(o, a).out, b).sent);
    }
  }

  lemma {:induction false} WrittenUpToClose(a: seq<Op>, b: seq<Op>)
    requires DoClose !in a
    ensures Written(a + [DoClose] + b) == Written(a)
    decreases |a|
  {
    if a != [] {
      assert (a + [DoClose] + b)[1..] == a[1..] + [DoClose] + b;
      WrittenUpToClose(a[1..], b);
    }
  }

  lemma CloseSeals(o: Out, data: bytes, s: Step)
    requires Carries(o, data, s)
    ensures Close(s.out).out == CLOSED && Sealed(o, data, s.sent + Close(s.out).sent)
  {
    var synced := Sync(s.out);
    SyncCarries(s.out);
    CarriesThen(o, data, s, [], synced);
    var body := s.sent + synced.sent;
    var due := o.sendEof || body != [];
    assert Destroy(synced.out) == if due then [[]] else [];
    AppendAssociates(s.sent, synced.sent, Destroy(synced.out));
    assert data + [] == data;
    assert Flatten(body) + [] == Flatten(body);
  }

  /** Whatever the application does with an open stream, once it has been closed the stream has sent
      exactly the octets written before the first close, in records of 1 to 4096 octets, then one
      end record if the request was accepted or data was sent. Nothing that comes later is sent. */
  lemma ClosedRun(o: Out, before: seq<Op>, after: seq<Op>)
    requires Fits(o) && o.attached && DoClose !in before
    ensures var ops := before + [DoClose] + after;
            ApplyAll(o, ops).out == CLOSED && Sealed(o, Written(ops), ApplyAll(o, ops).sent)
  {
    hide Close, Sync, Sealed, Carries;
    var s := ApplyAll(o, before);
    OpenRun(o, before);
    CloseSeals(o, Written(before), s);
    ApplyAppend(o, before + [DoClose], after);
    ApplyAppend(o, before, [DoClose]);
    ApplyOne(s.out, DoClose);
    ApplyClosed(after);
    WrittenUpToClose(before, after);
    var all := s.sent + Close(s.out).sent;
    assert all + [] == all;
  }

  lemma ApplyOne(o: Out, op: Op)
    ensures ApplyAll(o, [op]) == Apply(o, op)
  {
    hide Apply;
    assert [op][1..] == [];
    assert Apply(o, op).sent + [] == Apply(o, op).sent;
  }

  /** Writing in two goes is writing at once. */
  lemma {:induction false} WriteAppend(o: Out, a: bytes, b: bytes)
    ensures var s := Write(o, a); var t := Write(s.out, b); Write(o, a + b) == Step(t.out, s.sent + t.sent)
    decreases |a|
  {
    hide Put;
    if a == [] {
      assert a + b == b;
    } else {
      assert (a + b)[1..] == a[1..] + b;
      var first := Put(o, a[0]);
      WriteAppend(first.out, a[1..], b);
      AppendAssociates(first.sent, Write(first.out, a[1..]).sent, Write(Write(o, a).out, b).sent);
    }
  }
}
