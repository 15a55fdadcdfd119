/** What the replies carry, in every state of every run of the server. */
module ReplyGuarantees {
  import opened Bytes
  import opened Streams
  import opened NameValuePairs
  import opened Packets
  import opened Requests
  import opened Workers
  import opened Lifecycle
  import OutStreams
  import opened Lifetime
  import opened Replies
  import opened ReplyInvariant
  import opened ReplyContents
  import opened Guarantees

  /** At every moment of every run, on each stream of each request: the contents of the STDOUT or STDERR
      records sent since its acceptance, followed by what stands in the put area, are the octets written to
      it, in order; once it has ended, the records alone are. It is open until it is closed. */
  lemma RepliesCarry(trace: seq<State>, actions: seq<Action>, limit: nat, i: nat, r: Ref, which: Which)
    requires Run(trace, actions, limit) && i < |trace| && r.conn < |trace[i].conns|
    ensures var story := StoryOf(trace, actions, limit, i, r, which);
      var sent := Sent([], trace[i].conns[r.conn].log, r.slot + 1, if which == Cout then Stdout else Stderr);
      if Live(trace[i], r) then
        var o := if which == Cout then SlotAt(trace[i], r).cout else SlotAt(trace[i], r).cerr;
        o.attached == story.open && sent + o.pending == story.written && (!story.open ==> sent == story.written)
      else sent == story.written
  {
    hide Next, Enabled, Told, Sent;
    RunAgrees(trace, actions, limit, i, r, which);
    var sent := Sent([], trace[i].conns[r.conn].log, r.slot + 1, TypeFor(which));
    assert sent + [] == sent;
  }

  /** The application's flush sends all that has been written. */
  lemma FlushedAtOnce(trace: seq<State>, actions: seq<Action>, limit: nat, i: nat, w: nat, which: Which)
    requires Run(trace, actions, limit) && i < |actions| && actions[i] == DoApp(w, which, AppFlush)
    ensures w < |trace[i].pool.workers| && Holds(trace[i].pool.workers[w])
    ensures var r := trace[i].pool.workers[w].ref;
      && r.conn < |trace[i + 1].conns|
      && Sent([], trace[i + 1].conns[r.conn].log, r.slot + 1, if which == Cout then Stdout else Stderr)
         == StoryOf(trace, actions, limit, i + 1, r, which).written
  {
    hide Inv, RepliesOk, Told, Sent, Agrees, StoryOf, DoOp;
    var s, t := trace[i], trace[i + 1];
    assert Enabled(s, actions[i], limit) && t == Next(s, actions[i], limit);
    RunOk(trace, actions, limit, i);
    HeldStreams(s, w, limit);
    var r := s.pool.workers[w].ref;
    OpContents(StreamOf(SlotAt(s, r), which), AppFlush);
    RepliesCarry(trace, actions, limit, i + 1, r, which);
    var sent := Sent([], t.conns[r.conn].log, r.slot + 1, TypeFor(which));
    assert sent + [] == sent;
  }

  /** Writing an octet sends a record only when 4096 octets have gathered, and then all of those. */
  lemma PutsGather(trace: seq<State>, actions: seq<Action>, limit: nat, i: nat, w: nat, which: Which, octet: byte,
                   c: nat)
    requires Run(trace, actions, limit) && i < |actions| && actions[i] == DoApp(w, which, AppPut(octet))
    requires c < |trace[i].conns|
    ensures c < |trace[i + 1].conns|
    ensures var was, now := trace[i].conns[c].log, trace[i + 1].conns[c].log;
      now == was || exists r: Record :: now == was + [Emitted(r)] && |r.content| == 4096
  {
    hide Inv, RepliesOk;
    var s := trace[i];
    assert Enabled(s, actions[i], limit) && trace[i + 1] == Next(s, actions[i], limit);
    RunOk(trace, actions, limit, i);
    HeldStreams(s, w, limit);
    var r := s.pool.workers[w].ref;
    if r.conn == c {
      PutLogs(s.conns[c], r.slot, SlotAt(s, r), which, octet);
    }
  }

  lemma PutLogs(c: Conn, k: nat, s: Slot, which: Which, octet: byte)
    requires k < |c.slots| && |StreamOf(s, which).pending| <= 4096
    ensures var d := OnStream(c, k, s, which, AppPut(octet));
      d.log == c.log || exists r: Record :: d.log == c.log + [Emitted(r)] && |r.content| == 4096
  {
    var sent, t := DoOp(StreamOf(s, which), AppPut(octet)).sent, RecTypeOf(which);
    if sent == [] {
      assert c.log + [] == c.log;
    } else {
      assert sent == [sent[0]] && [sent[0]][1..] == [];
      var r := Record(t, k + 1, sent[0]);
      assert OutStreams.Records(t, k + 1, sent) == [r] && [r][1..] == [];
      assert Emit([r]) == [Emitted(r)];
    }
  }

  /** The END_REQUEST of a request that has run carries the body that its worker made of the status. */
  lemma StatusSent(trace: seq<State>, actions: seq<Action>, limit: nat, i: nat, w: nat, body: bytes, r: Ref)
    requires Run(trace, actions, limit) && i < |actions| && actions[i] == DoFinish(w, body)
    requires w < |trace[i].pool.workers| && trace[i].pool.workers[w] == Closing(r, SendEnd)
    ensures r.conn < |trace[i].conns| && |trace[i + 1].conns| == |trace[i].conns|
    ensures trace[i + 1].conns[r.conn].log
         == trace[i].conns[r.conn].log + [Emitted(Record(EndRequest, r.slot + 1, body))]
    ensures forall c | 0 <= c < |trace[i].conns| && c != r.conn :: trace[i + 1].conns[c].log == trace[i].conns[c].log
  {
    hide Inv, RepliesOk;
    assert Enabled(trace[i], actions[i], limit) && trace[i + 1] == Next(trace[i], actions[i], limit);
    RunOk(trace, actions, limit, i);
    HeldStreams(trace[i], w, limit);
  }

  predicate IsEnd(e: Event) {
    e.Emitted? && e.record.recType == EndRequest
  }

  /** The step is one that sends this END_REQUEST: a worker at the end of its request with that body, or the
      cancellation of the request with its fixed one. */
  predicate EndsBy(s: State, a: Action, limit: nat, c: nat, r: Record) {
    r.id > 0 &&
    match a
    case DoFinish(w, body) =>
      w < |s.pool.workers| && s.pool.workers[w] == Closing(Ref(c, r.id - 1), SendEnd) && body == r.content
    case _ => Oversizes(s, a, Ref(c, r.id - 1), limit) && IsCancelledBody(r.content)
  }

  /** Every END_REQUEST in a log was put there by such a step. */
  lemma {:induction false} EndsExplained(trace: seq<State>, actions: seq<Action>, limit: nat, i: nat, c: nat, n: nat)
    requires Run(trace, actions, limit) && i < |trace| && c < |trace[i].conns|
    requires n < |trace[i].conns[c].log| && IsEnd(trace[i].conns[c].log[n])
    ensures exists j :: 0 <= j < i && c < |trace[j].conns| && |trace[j].conns[c].log| <= n
              && EndsBy(trace[j], actions[j], limit, c, trace[i].conns[c].log[n].record)
    decreases i
  {
    hide Inv, RepliesOk, Next, Enabled, EndsBy, Initial;
    if i == 0 {
      NoConnections(trace[0]);
    } else {
      var s, a := trace[i - 1], actions[i - 1];
      assert Enabled(s, a, limit) && trace[i] == Next(s, a, limit);
      RunOk(trace, actions, limit, i - 1);
      if c >= |s.conns| {
        NewConnection(s, a, limit, c);
      } else {
        StepVoice(s, a, limit, c);
        var e := trace[i].conns[c].log[n];
        if n < |s.conns[c].log| {
          assert e == s.conns[c].log[n];
          EndsExplained(trace, actions, limit, i - 1, c, n);
        } else {
          assert e in trace[i].conns[c].log[|s.conns[c].log|..];
          StepEnds(s, a, limit, c, e);
        }
      }
    }
  }

  lemma NoConnections(s: State)
    requires Initial(s)
    ensures s.conns == []
  {}

  lemma NewConnection(s: State, a: Action, limit: nat, c: nat)
    requires Enabled(s, a, limit) && |s.conns| <= c < |Next(s, a, limit).conns|
    ensures Next(s, a, limit).conns[c].log == []
  {}

  lemma StepEnds(s: State, a: Action, limit: nat, c: nat, e: Event)
    requires Inv(s) && RepliesOk(s, limit) && Enabled(s, a, limit) && c < |s.conns| && IsEnd(e)
    requires c < |Next(s, a, limit).conns| && s.conns[c].log <= Next(s, a, limit).conns[c].log
    requires e in Next(s, a, limit).conns[c].log[|s.conns[c].log|..]
    ensures EndsBy(s, a, limit, c, e.record)
  {
    hide Inv, Receive, Dismantle, OnStream, Finish, Erase, ConnOk, Staged, Settled, Oversizes, Take, Enqueue;
    hide IsCancelledBody;
    match a
    case DoReceive(d, r, message) => ReceiveEnds(s, a, limit, c, e);
    case DoDismantle(d) => DismantleEnds(s.conns[c], e);
    case DoErase(d) => EraseOk(s, c, limit);
    case DoApp(w, which, op) =>
      HeldStreams(s, w, limit);
      var r := s.pool.workers[w].ref;
      StreamEnds(s.conns[c], r.slot, SlotAt(s, r), which, op, e);
    case DoFinish(w, body) =>
      HeldStreams(s, w, limit);
      FinishEnds(s, w, body, limit, c, e);
    case _ =>
  }

  lemma {:induction false} EmitEnds(rs: seq<Record>, e: Event)
    requires NoEnds(rs) && IsEnd(e)
    ensures e !in Emit(rs)
    decreases |rs|
  {
    if rs != [] {
      EmitEnds(rs[1..], e);
    }
  }

  lemma DismantleEnds(c: Conn, e: Event)
    requires c.pc.TearDown? && IsEnd(e) && c.log <= Dismantle(c).log
    ensures e !in Dismantle(c).log[|c.log|..]
  {
    hide Destroy;
    var k := c.pc.next;
    if k < |c.slots| && c.slots[k].Some? {
      var x := c.slots[k].value;
      StreamHasNoEnds(Stderr, k + 1, Destroy(x.cerr));
      StreamHasNoEnds(Stdout, k + 1, Destroy(x.cout));
      EmitEnds(DestroyRecords(x, k + 1), e);
      var more := Emit(DestroyRecords(x, k + 1));
      assert (c.log + more)[|c.log|..] == more;
    }
  }

  lemma StreamEnds(c: Conn, k: nat, s: Slot, which: Which, op: AppOp, e: Event)
    requires k < |c.slots| && IsEnd(e)
    ensures c.log <= OnStream(c, k, s, which, op).log && e !in OnStream(c, k, s, which, op).log[|c.log|..]
  {
    hide DoOp;
    var rs := OutStreams.Records(RecTypeOf(which), k + 1, DoOp(StreamOf(s, which), op).sent);
    StreamHasNoEnds(RecTypeOf(which), k + 1, DoOp(StreamOf(s, which), op).sent);
    EmitEnds(rs, e);
    assert (c.log + Emit(rs))[|c.log|..] == Emit(rs);
  }

  lemma FinishEnds(s: State, w: nat, body: bytes, limit: nat, c: nat, e: Event)
    requires Enabled(s, DoFinish(w, body), limit) && c < |s.conns| && IsEnd(e)
    requires PendingAt(s, s.pool.workers[w].ref)
    requires s.conns[c].log <= Next(s, DoFinish(w, body), limit).conns[c].log
    requires e in Next(s, DoFinish(w, body), limit).conns[c].log[|s.conns[c].log|..]
    ensures EndsBy(s, DoFinish(w, body), limit, c, e.record)
  {
    hide OnStream;
    var Closing(r, stage) := s.pool.workers[w];
    if r.conn == c {
      var x, conn := SlotAt(s, r), s.conns[c];
      match stage
      case FlushOut => StreamEnds(conn, r.slot, x, Cout, AppFlush, e);
      case SealOut => StreamEnds(conn, r.slot, x, Cout, AppSeal, e);
      case FlushErr => StreamEnds(conn, r.slot, x, Cerr, AppFlush, e);
      case SealErr => StreamEnds(conn, r.slot, x, Cerr, AppSeal, e);
      case SendEnd =>
        var end := Emitted(EndRecord(r.slot + 1, body));
        assert (conn.log + [end])[|conn.log|..] == [end];
      case Leave =>
    }
  }

  /** The END_REQUEST among the events of one record. */
  lemma HandledEnds(s: Slot, r: Record, limit: nat, message: Message, e: Event)
    requires IsEnd(e) && e in HandledEvents(HandlePacket(s, r, limit, message), r)
    ensures HandlePacket(s, r, limit, message).outcome == Cancelled
    ensures e.record == Record(EndRequest, r.id, CANCELLED_BODY)
  {
    hide Parse, ToMap, Resume, Write, Close, CANCELLED_BODY;
    var h := HandlePacket(s, r, limit, message);
    if h.outcome == Cancelled {
      var fed := Feed(s, r.content, limit);
      var said := Write(fed.cerr, message);
      var errs, outs := said.sent + Close(said.out).sent, Close(fed.cout).sent;
      var a, b := OutStreams.Records(Stderr, r.id, errs), OutStreams.Records(Stdout, r.id, outs);
      var end := EndRecord(r.id, CANCELLED_BODY);
      StreamHasNoEnds(Stderr, r.id, errs);
      StreamHasNoEnds(Stdout, r.id, outs);
      EmitAppend(a + b, [end]);
      EmitEnds(a + b, e);
      assert [end][1..] == [] && Emit([end]) == [Emitted(end)];
    } else {
      EmitEnds(h.sent, e);
    }
  }

  lemma ManagementEnds(r: Record, e: Event)
    requires IsEnd(e)
    ensures e !in ManagementEvents(r)
  {}

  lemma ReceiveEnds(s: State, a: Action, limit: nat, c: nat, e: Event)
    requires Inv(s) && RepliesOk(s, limit) && Enabled(s, a, limit) && a.DoReceive? && c < |s.conns| && IsEnd(e)
    requires s.conns[c].log <= Next(s, a, limit).conns[c].log
    requires e in Next(s, a, limit).conns[c].log[|s.conns[c].log|..]
    ensures EndsBy(s, a, limit, c, e.record)
  {
    hide Inv, HandlePacket, HandledEvents, SlotOk, Staged, Settled, Parse, ToMap, CANCELLED_BODY;
    var conn, rec := s.conns[c], a.record;
    if a.c == c {
      var x := SlotFor(conn, if rec.id > 0 then rec.id else 1);
      var more := if rec.id == 0 then ManagementEvents(rec)
                  else HandledEvents(HandlePacket(x, rec, limit, a.message), rec);
      assert (conn.log + more)[|conn.log|..] == more;
      ManagementEnds(rec, e);
      if rec.id > 0 {
        HandledEnds(x, rec, limit, a.message, e);
        ShapedAt(s, c);
        assert IdOk(conn, rec.id - 1, limit);
        OutcomeOf(conn, rec.id - 1, rec, limit, a.message);
        CancelledStatus();
      }
    }
  }

  /** The records that nobody handles: of any type but GET_VALUES for id 0, and for a request of any type that
      a server does not receive. */
  predicate Unhandled(r: Record) {
    if r.id == 0 then r.recType != GetValues
    else r.recType !in {BeginRequest, AbortRequest, Streams.Params, Stdin, Data, GetValues}
  }

  /** Exactly those are answered by an UNKNOWN_TYPE record, to their id, with the type octet received. */
  lemma UnknownAnswered(trace: seq<State>, actions: seq<Action>, limit: nat, i: nat, c: nat, r: Record,
                        message: Message)
    requires Run(trace, actions, limit) && i < |actions| && actions[i] == DoReceive(c, r, message)
    ensures c < |trace[i].conns| && c < |trace[i + 1].conns|
    ensures var was, now := trace[i].conns[c].log, trace[i + 1].conns[c].log;
      if Unhandled(r) then
        exists content: bytes :: now == was + [Received(r), Emitted(Record(UnknownType, r.id, content))]
          && |content| == 8 && content[0] == TypeCode(r.recType) && content[1..] == [0, 0, 0, 0, 0, 0, 0]
      else
        was <= now && forall e | e in now[|was|..] :: !(e.Emitted? && e.record.recType == UnknownType)
  {
    hide Parse, ToMap, Resume, Write, Close;
    assert Enabled(trace[i], actions[i], limit) && trace[i + 1] == Next(trace[i], actions[i], limit);
    var conn := trace[i].conns[c];
    var more := if r.id == 0 then ManagementEvents(r)
                else HandledEvents(HandlePacket(SlotFor(conn, r.id), r, limit, message), r);
    if Unhandled(r) {
      UnknownEvents(SlotFor(conn, if r.id == 0 then 1 else r.id), r, limit, message);
    } else {
      assert (conn.log + more)[|conn.log|..] == more;
      forall e | e in more ensures !(e.Emitted? && e.record.recType == UnknownType) {
        KnownEvents(SlotFor(conn, if r.id == 0 then 1 else r.id), r, limit, message, e);
      }
    }
  }

  lemma UnknownEvents(s: Slot, r: Record, limit: nat, message: Message)
    requires Unhandled(r)
    ensures var answer := Record(UnknownType, r.id, [TypeCode(r.recType), 0, 0, 0, 0, 0, 0, 0]);
      (if r.id == 0 then ManagementEvents(r) else HandledEvents(HandlePacket(s, r, limit, message), r))
      == [Received(r), Emitted(answer)]
  {
    EmitOne(UnknownTypeRecord(r.id, r.recType));
  }

  lemma EmitOne(r: Record)
    ensures Emit([r]) == [Emitted(r)]
  {
    assert [r][1..] == [];
  }

  lemma {:induction false} EmitOf(rs: seq<Record>, e: Event)
    ensures e in Emit(rs) ==> e.Emitted? && e.record in rs
    decreases |rs|
  {
    if rs != [] {
      EmitOf(rs[1..], e);
    }
  }

  lemma {:induction false} StreamTypes(t: RecType, id: nat, contents: seq<bytes>)
    ensures forall r | r in OutStreams.Records(t, id, contents) :: r.recType == t
    decreases |contents|
  {
    if contents != [] {
      StreamTypes(t, id, contents[1..]);
    }
  }

  lemma KnownEvents(s: Slot, r: Record, limit: nat, message: Message, e: Event)
    requires !Unhandled(r)
    requires e in if r.id == 0 then ManagementEvents(r) else HandledEvents(HandlePacket(s, r, limit, message), r)
    ensures !(e.Emitted? && e.record.recType == UnknownType)
  {
    hide Parse, ToMap, Resume, Write, Close;
    if r.id > 0 {
      var h := HandlePacket(s, r, limit, message);
      EmitOf(h.sent, e);
      if h.outcome == Cancelled {
        var fed := Feed(s, r.content, limit);
        var said := Write(fed.cerr, message);
        StreamTypes(Stderr, r.id, said.sent + Close(said.out).sent);
        StreamTypes(Stdout, r.id, Close(fed.cout).sent);
      }
    }
  }

  /** The teardown sends, for a request that reads its params, the ends of both streams, STDERR first, and for
      any other slot nothing. */
  lemma TeardownSays(trace: seq<State>, actions: seq<Action>, limit: nat, i: nat, c: nat)
    requires Run(trace, actions, limit) && i < |actions| && actions[i] == DoDismantle(c)
    ensures c < |trace[i].conns| && trace[i].conns[c].pc.TearDown? && c < |trace[i + 1].conns|
    ensures var was, now, k := trace[i].conns[c], trace[i + 1].conns[c], trace[i].conns[c].pc.next;
      now.log == if k < |was.slots| && IsReading(was.slots[k])
                 then was.log + [Emitted(Record(Stderr, k + 1, [])), Emitted(Record(Stdout, k + 1, []))]
                 else was.log
  {
    hide Inv, Parse, Staged, Settled, DestroyRecords;
    assert Enabled(trace[i], actions[i], limit) && trace[i + 1] == Next(trace[i], actions[i], limit);
    RunOk(trace, actions, limit, i);
    var conn := trace[i].conns[c];
    var k := conn.pc.next;
    assert IdOk(conn, k, limit);
    assert conn.log + [] == conn.log;
    if k < |conn.slots| && conn.slots[k].Some? {
      if conn.slots[k].value.state == ReadingParams {
        DestroySays(conn.slots[k].value, k + 1);
        var a, b := Record(Stderr, k + 1, []), Record(Stdout, k + 1, []);
        EmitAppend([a], [b]);
        EmitOne(a);
        EmitOne(b);
        assert [a] + [b] == [a, b];
      } else if conn.slots[k].value.state == Ready {
        DestroyNothing(conn.slots[k].value, k + 1);
      }
    }
  }
}
