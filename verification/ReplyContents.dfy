/**
 What the replies carry: the octets of the STDOUT and STDERR records in a log, and the END_REQUEST
 bodies, against what the application did, what was received, and nothing else.
 */
module ReplyContents {
  import opened Bytes
  import opened Streams
  import opened NameValuePairs
  import opened OutStreams
  import opened Requests
  import opened Workers
  import opened Lifecycle
  import opened Lifetime
  import opened Replies
  import opened ReplyInvariant

  // ----- The octets in a log -----

  function TypeFor(which: Which): RecType {
    if which == Cout then Stdout else Stderr
  }

  /** The contents of the records of a type sent for an id since its last acceptance, after `before`. */
  function Sent(before: bytes, log: seq<Event>, id: nat, t: RecType): bytes
    decreases |log|
  {
    if log == [] then before
    else
      match log[0]
      case Received(_) => Sent(before, log[1..], id, t)
      case Accepted(i) => Sent(if i == id then [] else before, log[1..], id, t)
      case Emitted(r) => Sent(if r.id == id && r.recType == t then before + r.content else before, log[1..], id, t)
  }

  lemma {:induction false} SentAppend(before: bytes, a: seq<Event>, b: seq<Event>, id: nat, t: RecType)
    ensures Sent(before, a + b, id, t) == Sent(Sent(before, a, id, t), b, id, t)
    decreases |a|
  {
    if a == [] {
      assert a + b == b;
    } else {
      assert (a + b)[1..] == a[1..] + b;
      var next := match a[0]
        case Received(_) => before
        case Accepted(i) => if i == id then [] else before
        case Emitted(r) => if r.id == id && r.recType == t then before + r.content else before;
      SentAppend(next, a[1..], b, id, t);
    }
  }

  lemma SentOne(before: bytes, e: Event, id: nat, t: RecType)
    ensures Sent(before, [e], id, t)
         == match e
            case Received(_) => before
            case Accepted(i) => if i == id then [] else before
            case Emitted(r) => if r.id == id && r.recType == t then before + r.content else before
  {
    assert [e][1..] == [];
  }

  /** The records of one stream add their contents to what was sent on it, and to nothing else. */
  lemma {:induction false} SentStream(before: bytes, contents: seq<bytes>, u: RecType, k: nat, id: nat, t: RecType)
    ensures Sent(before, Emit(Records(u, k, contents)), id, t)
         == if u == t && k == id then before + Flatten(contents) else before
    decreases |contents|
  {
    if contents == [] {
      assert before + [] == before;
    } else {
      var rs := Records(u, k, contents);
      assert rs[1..] == Records(u, k, contents[1..]);
      assert Emit(rs)[0] == Emitted(rs[0]) && Emit(rs)[1..] == Emit(rs[1..]);
      SentStream(if u == t && k == id then before + contents[0] else before, contents[1..], u, k, id, t);
      AppendAssociates(before, contents[0], Flatten(contents[1..]));
    }
  }

  lemma {:induction false} SentElsewhere(before: bytes, rs: seq<Record>, k: nat, id: nat, t: RecType)
    requires AllFor(rs, k) && k != id
    ensures Sent(before, Emit(rs), id, t) == before
    decreases |rs|
  {
    if rs != [] {
      SentElsewhere(before, rs[1..], k, id, t);
      assert ([Emitted(rs[0])] + Emit(rs[1..]))[1..] == Emit(rs[1..]);
    }
  }

  // ----- A cancelled request -----

  /** A reply that says why, sends what was written before, ends both streams, and then the request with the
      status 0x9020816E and REQUEST_COMPLETE. */
  ghost predicate CancelledReply(rs: seq<Record>, id: nat, err: bytes, out: bytes) {
    exists errs: seq<bytes>, outs: seq<bytes>, body: bytes ::
      && rs == Records(Stderr, id, errs + [[]]) + Records(Stdout, id, outs + [[]]) + [Record(EndRequest, id, body)]
      && AllData(errs) && Flatten(errs) == err && AllData(outs) && Flatten(outs) == out
      && IsCancelledBody(body)
  }

  predicate IsCancelledBody(body: bytes) {
    |body| == 8 && Ntohl(body[..4]) == 0x9020816E && body[4..] == [0, 0, 0, 0]
  }

  lemma CancelSays(cout: Out, cerr: Out, id: nat, message: Message)
    requires Sound(cout) && cout.attached && Sound(cerr) && cerr.attached
    ensures CancelledReply(CancelRecords(cout, cerr, id, message), id, cerr.pending + message, cout.pending)
  {
    hide Write, Close, Sealed, Records;
    var said := Write(cerr, message);
    var errs, outs := said.sent + Close(said.out).sent, Close(cout).sent;
    WriteCarries(cerr, message);
    CloseSeals(cerr, message, said);
    CloseSeals(cout, [], Step(cout, []));
    assert [] + outs == outs;
    var a := SealedBody(cerr, message, errs);
    var b := SealedBody(cout, [], outs);
    assert cout.pending + [] == cout.pending;
    CancelledStatus();
  }

  lemma SealedBody(o: Out, data: bytes, sent: seq<bytes>) returns (body: seq<bytes>)
    requires o.sendEof && Sealed(o, data, sent)
    ensures sent == body + [[]] && AllData(body) && Flatten(body) == o.pending + data
  {
    body :| sent == body + [[]] && AllData(body) && Flatten(body) == o.pending + data;
  }

  lemma CancelledStatus()
    ensures IsCancelledBody(CANCELLED_BODY)
  {}

  /** What the cancellation adds to the streams. */
  lemma CancelSent(before: bytes, cout: Out, cerr: Out, k: nat, message: Message, id: nat, t: RecType)
    requires Fits(cout) && cout.attached && Fits(cerr) && cerr.attached
    ensures Sent(before, Emit(CancelRecords(cout, cerr, k, message)), id, t)
         == if k == id && t == Stderr then before + (cerr.pending + message)
            else if k == id && t == Stdout then before + cout.pending
            else if k == id && t == EndRequest then before + CANCELLED_BODY
            else before
  {
    hide Write, Close, Records, Sent, Fits;
    var said := Write(cerr, message);
    var errs, outs := said.sent + Close(said.out).sent, Close(cout).sent;
    WriteCarries(cerr, message);
    CarriedThenClosed(cerr, message, said);
    CloseSendsPending(cout);
    var a, b, end := Records(Stderr, k, errs), Records(Stdout, k, outs), EndRecord(k, CANCELLED_BODY);
    EmitAppend(a + b, [end]);
    EmitAppend(a, b);
    SentAppend(before, Emit(a) + Emit(b), Emit([end]), id, t);
    SentAppend(before, Emit(a), Emit(b), id, t);
    SentStream(before, errs, Stderr, k, id, t);
    SentStream(Sent(before, Emit(a), id, t), outs, Stdout, k, id, t);
    assert [end][1..] == [] && Emit([end]) == [Emitted(end)];
    SentOne(Sent(Sent(before, Emit(a), id, t), Emit(b), id, t), Emitted(end), id, t);
  }

  lemma CarriedThenClosed(o: Out, data: bytes, s: Step)
    requires Carries(o, data, s)
    ensures Flatten(s.sent + Close(s.out).sent) == o.pending + data
  {
    CloseSendsPending(s.out);
    FlattenAppend(s.sent, Close(s.out).sent);
  }

  // ----- A request abandoned at the teardown -----

  /** A request that is destroyed while it reads its params sends the ends of both streams, in the order in
      which members are destroyed, and nothing else. */
  lemma DestroySays(s: Slot, id: nat)
    requires s.cout.pending == [] && s.cerr.pending == [] && s.cout.sendEof && s.cerr.sendEof
    ensures DestroyRecords(s, id) == [Record(Stderr, id, []), Record(Stdout, id, [])]
  {
    assert Destroy(s.cerr) == [[]] == Destroy(s.cout);
    var contents: seq<bytes> := [[]];
    assert contents[1..] == [];
    assert Records(Stderr, id, contents) == [Record(Stderr, id, [])];
    assert Records(Stdout, id, contents) == [Record(Stdout, id, [])];
  }

  // ----- What a stream has been given -----

  /** One stream of one request, read off the steps taken: whether it is open, and the octets written to it
      since the request was accepted. */
  datatype Story = Story(open: bool, written: bytes)

  const UNTOLD := Story(true, [])

  /** The step is one of the worker that has the request. */
  predicate By(s: State, w: nat, r: Ref) {
    w < |s.pool.workers| && Holds(s.pool.workers[w]) && s.pool.workers[w].ref == r
  }

  /** The step receives a BEGIN_REQUEST for a request that is in READY or has no slot yet. */
  predicate Accepts(s: State, a: Action, r: Ref) {
    match a
    case DoReceive(c, record, _) =>
      && c == r.conn && record.id == r.slot + 1 && record.recType == BeginRequest
      && (Live(s, r) ==> SlotAt(s, r).state == Ready)
    case _ => false
  }

  /** The step receives the PARAMS record that brings the first pair over the limit. */
  predicate Oversizes(s: State, a: Action, r: Ref, limit: nat) {
    match a
    case DoReceive(c, record, _) =>
      && c == r.conn && record.id == r.slot + 1 && record.recType == RecType.Params && record.content != []
      && Live(s, r) && SlotAt(s, r).state == ReadingParams
      && Parse(Seen(s.conns[c].log, record.id).own + record.content, limit).oversized
    case _ => false
  }

  /** The step is a close of the stream, by the application or at the end of the request. */
  predicate Seals(s: State, a: Action, r: Ref, which: Which) {
    match a
    case DoApp(w, stream, op) => By(s, w, r) && stream == which && op == AppSeal
    case DoFinish(w, _) =>
      By(s, w, r) && s.pool.workers[w] == Closing(r, if which == Cout then SealOut else SealErr)
    case _ => false
  }

  /** The octet that the step writes to the stream, if it is open. */
  function PutsOn(s: State, a: Action, r: Ref, which: Which): bytes {
    match a
    case DoApp(w, stream, op) => if By(s, w, r) && stream == which && op.AppPut? then [op.c] else []
    case _ => []
  }

  /** The story goes on: an acceptance begins it anew; a cancellation writes its message to `cerr` and closes
      both streams. */
  function Told(story: Story, s: State, a: Action, r: Ref, which: Which, limit: nat): Story {
    if Accepts(s, a, r) then UNTOLD
    else if Oversizes(s, a, r, limit) then
      Story(false, story.written + (if which == Cerr && a.DoReceive? then a.message else []))
    else if Seals(s, a, r, which) then story.(open := false)
    else if story.open then story.(written := story.written + PutsOn(s, a, r, which))
    else story
  }

  function StoryOf(trace: seq<State>, actions: seq<Action>, limit: nat, i: nat, r: Ref, which: Which): Story
    requires |trace| == |actions| + 1 && i <= |actions|
    decreases i
  {
    if i == 0 then UNTOLD
    else Told(StoryOf(trace, actions, limit, i - 1, r, which), trace[i - 1], actions[i - 1], r, which, limit)
  }

  // ----- The log agrees with the story -----

  function OutOf(c: Conn, k: nat, which: Which): Out
    requires k < |c.slots| && c.slots[k].Some?
  {
    if which == Cout then c.slots[k].value.cout else c.slots[k].value.cerr
  }

  predicate HasSlot(c: Conn, k: nat) {
    k < |c.slots| && c.slots[k].Some?
  }

  /** What stands in the put area. */
  function Held(c: Conn, k: nat, which: Which): bytes {
    if HasSlot(c, k) then OutOf(c, k, which).pending else []
  }

  /** The records sent since the acceptance, then the put area, are the octets written; and the stream is
      attached exactly while it is open. */
  predicate Agrees(c: Conn, k: nat, which: Which, story: Story) {
    && Sent([], c.log, k + 1, TypeFor(which)) + Held(c, k, which) == story.written
    && (HasSlot(c, k) ==> OutOf(c, k, which).attached == story.open)
    && (HasSlot(c, k) && !story.open ==> Held(c, k, which) == [])
    && (!HasSlot(c, k) && Serving(c) ==> story == UNTOLD)
  }

  /** Slots do not vanish before the teardown. */
  predicate Serving(c: Conn) {
    c.pc == Reading || c.pc.Pushing? || c.pc.Pushed?
  }

  /** Nothing that concerns the stream happens. */
  lemma NothingHappens(c: Conn, d: Conn, k: nat, which: Which, story: Story)
    requires Agrees(c, k, which, story)
    requires Sent([], d.log, k + 1, TypeFor(which)) == Sent([], c.log, k + 1, TypeFor(which))
    requires HasSlot(d, k) == HasSlot(c, k) && (HasSlot(c, k) ==> OutOf(d, k, which) == OutOf(c, k, which))
    requires Serving(d) ==> Serving(c)
    ensures Agrees(d, k, which, story)
  {}

  /** What handling a record does to the streams of its slot. */
  lemma HandledContents(s: Slot, r: Record, limit: nat, message: Message, before: bytes, t: RecType)
    requires t in {Stdout, Stderr}
    requires s.state == Ready ==> Silent(s.cout) && Silent(s.cerr)
    requires s.state == ReadingParams ==> Fits(s.cout) && s.cout.attached && Fits(s.cerr) && s.cerr.attached
    requires s.deserializer.Some? <==> s.state == ReadingParams
    ensures var h := HandlePacket(s, r, limit, message);
      var sent := Sent(before, HandledEvents(h, r), r.id, t);
      if h.outcome == Begun then
        sent == [] && h.slot.cout.pending == h.slot.cerr.pending == [] && h.slot.cout.attached && h.slot.cerr.attached
      else if h.outcome == Cancelled then
        && sent == before + (if t == Stderr then s.cerr.pending + message else s.cout.pending)
        && h.slot.cout == CLOSED && h.slot.cerr == CLOSED
      else
        sent == before && h.slot.cout == s.cout && h.slot.cerr == s.cerr
  {
    hide Parse, ToMap, Resume, CancelRecords, Sent, Write, Close, Fits;
    var h := HandlePacket(s, r, limit, message);
    var more := if h.outcome == Begun then [Accepted(r.id)] else Emit(h.sent);
    SentAppend(before, [Received(r)], more, r.id, t);
    SentOne(before, Received(r), r.id, t);
    match h.outcome
    case Begun => SentOne(before, Accepted(r.id), r.id, t);
    case Cancelled =>
      CancelSent(before, s.cout, s.cerr, r.id, message, r.id, t);
      CancelCloses(s, message);
    case Answered =>
      assert [UnknownTypeRecord(r.id, r.recType)][1..] == [];
      assert Emit(h.sent) == [Emitted(UnknownTypeRecord(r.id, r.recType))];
      SentOne(before, Emitted(UnknownTypeRecord(r.id, r.recType)), r.id, t);
    case _ => SentNothing(before, r.id, t);
  }

  lemma SentNothing(before: bytes, id: nat, t: RecType)
    ensures Sent(before, Emit([]), id, t) == before
  {}

  lemma CancelCloses(s: Slot, message: Message)
    requires Fits(s.cout) && s.cout.attached && Fits(s.cerr) && s.cerr.attached
    ensures Close(s.cout).out == CLOSED && Close(Write(s.cerr, message).out).out == CLOSED
  {
    WriteCarries(s.cerr, message);
  }

  // ----- Every step -----

  ghost predicate AgreesAt(s: State, r: Ref, which: Which, story: Story) {
    if r.conn < |s.conns| then Agrees(s.conns[r.conn], r.slot, which, story) else story == UNTOLD
  }

  lemma ReceiveAgrees(s: State, a: Action, limit: nat, r: Ref, which: Which, story: Story)
    requires Inv(s) && RepliesOk(s, limit) && Enabled(s, a, limit) && a.DoReceive? && a.c == r.conn
    requires Agrees(s.conns[r.conn], r.slot, which, story)
    ensures Agrees(Receive(s.conns[r.conn], a.record, limit, a.message), r.slot, which,
              Told(story, s, a, r, which, limit))
  {
    hide Parse, ToMap, Sent, HandlePacket, HandledEvents, ManagementEvents, SlotOk;
    hide Staged, Settled, Unique, Counted, PushedOnce;
    var c, k, rec := s.conns[r.conn], r.slot, a.record;
    var d := Receive(c, rec, limit, a.message);
    var t := TypeFor(which);
    assert IdOk(c, k, limit) && Shaped(c);
    if rec.id == 0 {
      SentAppend([], c.log, ManagementEvents(rec), k + 1, t);
      ManagementSent(Sent([], c.log, k + 1, t), rec, k + 1, t);
      NothingHappens(c, d, k, which, story);
    } else if rec.id != k + 1 {
      var h := HandlePacket(SlotFor(c, rec.id), rec, limit, a.message);
      SentAppend([], c.log, HandledEvents(h, rec), k + 1, t);
      HandledElsewhere(SlotFor(c, rec.id), rec, limit, a.message, Sent([], c.log, k + 1, t), k + 1, t);
      NothingHappens(c, d, k, which, story);
    } else {
      OwnReceive(s, a, limit, r, which, story);
    }
  }

  lemma ManagementSent(before: bytes, r: Record, id: nat, t: RecType)
    requires r.id == 0 < id
    ensures Sent(before, ManagementEvents(r), id, t) == before
  {
    var more := if r.recType == GetValues then [] else [Emitted(UnknownTypeRecord(0, r.recType))];
    SentAppend(before, [Received(r)], more, id, t);
    SentOne(before, Received(r), id, t);
    SentOne(before, Emitted(UnknownTypeRecord(0, r.recType)), id, t);
  }

  lemma HandledElsewhere(s: Slot, r: Record, limit: nat, message: Message, before: bytes, id: nat, t: RecType)
    requires r.id != id
    ensures Sent(before, HandledEvents(HandlePacket(s, r, limit, message), r), id, t) == before
  {
    hide HandlePacket, Sent;
    var h := HandlePacket(s, r, limit, message);
    var more := if h.outcome == Begun then [Accepted(r.id)] else Emit(h.sent);
    SentAppend(before, [Received(r)], more, id, t);
    SentOne(before, Received(r), id, t);
    SentOne(before, Accepted(r.id), id, t);
    SentForId(s, r, limit, message);
    SentElsewhere(before, h.sent, r.id, id, t);
  }

  /** Which records begin a request, and which cancel it. */
  lemma OutcomeOf(c: Conn, k: nat, rec: Record, limit: nat, message: Message)
    requires IdOk(c, k, limit) && Shaped(c) && c.pc == Reading && rec.id == k + 1
    requires HandlePacket(SlotFor(c, k + 1), rec, limit, message).outcome != LogicError
    ensures var s := SlotFor(c, k + 1); var outcome := HandlePacket(s, rec, limit, message).outcome;
      && (outcome == Begun <==> rec.recType == BeginRequest && s.state == Ready)
      && (outcome == Cancelled <==>
            && rec.recType == RecType.Params && rec.content != [] && s.state == ReadingParams
            && Parse(Seen(c.log, k + 1).own + rec.content, limit).oversized)
  {
    hide Parse, ToMap, CancelRecords, Cancel;
    var s := SlotFor(c, k + 1);
    if s.state == ReadingParams && rec.recType == RecType.Params && rec.content != [] {
      FeedOk(s, rec.content, Seen(c.log, k + 1), limit);
    }
  }

  /** The streams of the slot that a record goes to. */
  lemma SlotStreams(c: Conn, k: nat, limit: nat)
    requires IdOk(c, k, limit) && Shaped(c) && c.pc == Reading
    ensures var s := SlotFor(c, k + 1);
      && (s.state == Ready ==> Silent(s.cout) && Silent(s.cerr))
      && (s.state == ReadingParams ==> Fits(s.cout) && s.cout.attached && Fits(s.cerr) && s.cerr.attached)
      && (s.deserializer.Some? <==> s.state == ReadingParams)
  {
    hide Parse, ToMap;
  }

  /** The slot after a record agrees with the story that goes on. */
  lemma OwnAgrees(c: Conn, d: Conn, k: nat, which: Which, x: Slot, h: Handled, message: Message, story: Story)
    requires Agrees(c, k, which, story) && k < |d.slots| && d.slots[k] == Some(h.slot)
    requires if HasSlot(c, k) then c.slots[k].value == x else x == FRESH
    requires var t := TypeFor(which); var was, now := Sent([], c.log, k + 1, t), Sent([], d.log, k + 1, t);
      if h.outcome == Begun then
        now == [] && h.slot.cout.pending == h.slot.cerr.pending == [] && h.slot.cout.attached && h.slot.cerr.attached
      else if h.outcome == Cancelled then
        && now == was + (if t == Stderr then x.cerr.pending + message else x.cout.pending)
        && h.slot.cout == CLOSED && h.slot.cerr == CLOSED
      else
        now == was && h.slot.cout == x.cout && h.slot.cerr == x.cerr
    requires h.outcome == Cancelled ==> HasSlot(c, k)
    requires Serving(c)
    ensures Agrees(d, k, which,
              if h.outcome == Begun then UNTOLD
              else if h.outcome == Cancelled then Story(false, story.written + (if which == Cerr then message else []))
              else story)
  {
    hide Sent;
    var was, now := Sent([], c.log, k + 1, TypeFor(which)), Sent([], d.log, k + 1, TypeFor(which));
    AppendAssociates(was, x.cerr.pending, message);
    assert now + [] == now;
    assert story.written + [] == story.written;
  }

  lemma OwnReceive(s: State, a: Action, limit: nat, r: Ref, which: Which, story: Story)
    requires Inv(s) && RepliesOk(s, limit) && Enabled(s, a, limit) && a.DoReceive? && a.c == r.conn
    requires a.record.id == r.slot + 1
    requires Agrees(s.conns[r.conn], r.slot, which, story)
    ensures Agrees(Receive(s.conns[r.conn], a.record, limit, a.message), r.slot, which,
              Told(story, s, a, r, which, limit))
  {
    hide Parse, ToMap, Sent, HandlePacket, HandledEvents, Staged, Settled, Unique, Counted, PushedOnce;
    hide SlotOk;
    var c, k, rec := s.conns[r.conn], r.slot, a.record;
    var t, x := TypeFor(which), SlotFor(c, k + 1);
    assert IdOk(c, k, limit) && Shaped(c);
    var h := HandlePacket(x, rec, limit, a.message);
    OutcomeOf(c, k, rec, limit, a.message);
    SlotStreams(c, k, limit);
    SentAppend([], c.log, HandledEvents(h, rec), k + 1, t);
    HandledContents(x, rec, limit, a.message, Sent([], c.log, k + 1, t), t);
    OwnAgrees(c, Receive(c, rec, limit, a.message), k, which, x, h, a.message, story);
  }

  /** Destroying a request sends what stands in its streams. */
  lemma DestroySent(before: bytes, x: Slot, j: nat, id: nat, t: RecType)
    ensures Sent(before, Emit(DestroyRecords(x, j)), id, t)
         == if j == id && t == Stderr then before + x.cerr.pending
            else if j == id && t == Stdout then before + x.cout.pending
            else before
  {
    hide Sent, Destroy, Records;
    var a, b := Records(Stderr, j, Destroy(x.cerr)), Records(Stdout, j, Destroy(x.cout));
    EmitAppend(a, b);
    SentAppend(before, Emit(a), Emit(b), id, t);
    SentStream(before, Destroy(x.cerr), Stderr, j, id, t);
    SentStream(Sent(before, Emit(a), id, t), Destroy(x.cout), Stdout, j, id, t);
    DestroySendsPending(x.cerr);
    DestroySendsPending(x.cout);
  }

  lemma DismantleAgrees(c: Conn, k: nat, which: Which, story: Story)
    requires c.pc.TearDown? && Agrees(c, k, which, story)
    ensures Agrees(Dismantle(c), k, which, story)
  {
    hide Sent, DestroyRecords;
    var j, t := c.pc.next, TypeFor(which);
    if HasSlot(c, j) && c.slots[j].value.state != Pending {
      SentAppend([], c.log, Emit(DestroyRecords(c.slots[j].value, j + 1)), k + 1, t);
      DestroySent(Sent([], c.log, k + 1, t), c.slots[j].value, j + 1, k + 1, t);
    }
    var now := Sent([], Dismantle(c).log, k + 1, t);
    assert now + [] == now;
  }

  lemma EraseAgrees(s: State, limit: nat, c: nat, k: nat, which: Which, story: Story)
    requires Inv(s) && RepliesOk(s, limit) && c < |s.conns| && s.conns[c].pc == Draining && s.conns[c].actives == 0
    requires Agrees(s.conns[c], k, which, story)
    ensures Agrees(Erase(s.conns[c]), k, which, story)
  {
    hide Inv, Parse, Sent;
    EraseOk(s, c, limit);
    if HasSlot(s.conns[c], k) {
      DrainedSettled(s, c, k);
      assert IdOk(s.conns[c], k, limit);
    }
  }

  /** What an operation does with the octets of a stream. */
  lemma OpContents(o: Out, op: AppOp)
    requires Fits(o) && (op == AppSeal ==> o.pending == [])
    ensures var step := DoOp(o, op);
      && Flatten(step.sent) + step.out.pending == o.pending + (if o.attached && op.AppPut? then [op.c] else [])
      && step.out.attached == (o.attached && op != AppSeal)
      && (!step.out.attached ==> step.out.pending == [])
      && (op == AppFlush ==> step.out.pending == [])
  {
    var step := DoOp(o, op);
    assert o.pending + [] == o.pending == [] + o.pending;
    if o.attached {
      match op
      case AppPut(c) => PutCarries(o, c);
      case AppFlush => SyncCarries(o);
      case AppSeal =>
        if o.sendEof {
          FlattenOne([]);
        }
    }
  }

  /** The two steps of a close by a worker, the flush and then the rest, are `ostream::close`. */
  lemma CloseInTwo(o: Out)
    ensures var flushed := DoOp(o, AppFlush); var sealed := DoOp(flushed.out, AppSeal);
            Close(o) == Step(sealed.out, flushed.sent + sealed.sent)
  {
    var flushed := DoOp(o, AppFlush);
    if o.attached {
      assert Sync(flushed.out) == Step(flushed.out, []);
      assert Destroy(flushed.out) == DoOp(flushed.out, AppSeal).sent;
    }
  }

  lemma OnStreamAgrees(c: Conn, j: nat, stream: Which, op: AppOp, k: nat, which: Which, story: Story)
    requires HasSlot(c, j) && Fits(OutOf(c, j, stream)) && (op == AppSeal ==> OutOf(c, j, stream).pending == [])
    requires Agrees(c, k, which, story)
    ensures Agrees(OnStream(c, j, c.slots[j].value, stream, op), k, which,
              if j != k || stream != which then story
              else if op == AppSeal then story.(open := false)
              else if story.open && op.AppPut? then story.(written := story.written + [op.c])
              else story)
  {
    hide DoOp, Sent, Records, Fits;
    var o, t := OutOf(c, j, stream), TypeFor(which);
    var step, was := DoOp(o, op), Sent([], c.log, k + 1, t);
    var more := Emit(Records(RecTypeOf(stream), j + 1, step.sent));
    OpContents(o, op);
    SentAppend([], c.log, more, k + 1, t);
    SentStream(was, step.sent, RecTypeOf(stream), j + 1, k + 1, t);
    AppendAssociates(was, Flatten(step.sent), step.out.pending);
    if op.AppPut? {
      AppendAssociates(was, o.pending, [op.c]);
    }
    assert o.pending + [] == o.pending;
  }

  lemma FinishAgrees(c: Conn, j: nat, stage: Stage, body: bytes, k: nat, which: Which, story: Story)
    requires HasSlot(c, j) && Fits(OutOf(c, j, Cout)) && Fits(OutOf(c, j, Cerr))
    requires stage == SealOut ==> OutOf(c, j, Cout).pending == []
    requires stage == SealErr ==> OutOf(c, j, Cerr).pending == []
    requires Agrees(c, k, which, story)
    ensures Agrees(Finish(c, j, c.slots[j].value, stage, body), k, which,
              if j == k && stage == (if which == Cout then SealOut else SealErr) then story.(open := false) else story)
  {
    hide OnStream, Sent;
    match stage
    case FlushOut => OnStreamAgrees(c, j, Cout, AppFlush, k, which, story);
    case SealOut => OnStreamAgrees(c, j, Cout, AppSeal, k, which, story);
    case FlushErr => OnStreamAgrees(c, j, Cerr, AppFlush, k, which, story);
    case SealErr => OnStreamAgrees(c, j, Cerr, AppSeal, k, which, story);
    case SendEnd =>
      var e, t := Emitted(EndRecord(j + 1, body)), TypeFor(which);
      SentAppend([], c.log, [e], k + 1, t);
      SentOne(Sent([], c.log, k + 1, t), e, k + 1, t);
      NothingHappens(c, Finish(c, j, c.slots[j].value, SendEnd, body), k, which, story);
    case Leave => NothingHappens(c, Finish(c, j, c.slots[j].value, Leave, body), k, which, story);
  }

  /** The streams of a request that a worker has. */
  lemma HeldStreams(s: State, w: nat, limit: nat)
    requires Inv(s) && RepliesOk(s, limit) && w < |s.pool.workers| && Holds(s.pool.workers[w])
    ensures var r := s.pool.workers[w].ref;
      && PendingAt(s, r) && Fits(SlotAt(s, r).cout) && Fits(SlotAt(s, r).cerr)
      && StageOk(s.pool.workers[w], SlotAt(s, r))
  {
    hide Inv, ConnOk, Settled;
    Alone(s, w);
    var r := s.pool.workers[w].ref;
    FitsAt(s.conns[r.conn], r.slot, limit);
  }

  lemma StepAgrees(s: State, a: Action, limit: nat, r: Ref, which: Which, story: Story)
    requires Inv(s) && RepliesOk(s, limit) && Enabled(s, a, limit) && AgreesAt(s, r, which, story)
    ensures AgreesAt(Next(s, a, limit), r, which, Told(story, s, a, r, which, limit))
  {
    hide Inv, ConnOk, Staged, Settled, Receive, Dismantle, Erase, Finish, OnStream, Sent, Take, Enqueue, StageOk;
    if r.conn >= |s.conns| {
      NotYetTold(s, a, limit, r, which);
    } else if a.DoReceive? && a.c == r.conn {
      ReceiveAgrees(s, a, limit, r, which, story);
    } else if a.DoApp? || a.DoFinish? {
      WorkerAgrees(s, a, limit, r, which, story);
    } else {
      var c, t := s.conns[r.conn], Next(s, a, limit);
      match a
      case DoDismantle(d) => if d == r.conn { DismantleAgrees(c, r.slot, which, story); }
      case DoErase(d) => if d == r.conn { EraseAgrees(s, limit, d, r.slot, which, story); }
      case DoRelease(d) => if d == r.conn && Live(s, Ref(d, c.pc.slot)) { ReleaseAgrees(c, r.slot, which, story); }
      case DoEnqueue(d, _) => if d == r.conn { NothingHappens(c, t.conns[d], r.slot, which, story); }
      case DoLose(d) => if d == r.conn { NothingHappens(c, t.conns[d], r.slot, which, story); }
      case _ =>
    }
  }

  lemma ReleaseAgrees(c: Conn, k: nat, which: Which, story: Story)
    requires c.pc.Pushed? && HasSlot(c, c.pc.slot) && Agrees(c, k, which, story)
    ensures Agrees(Release(c), k, which, story)
  {
    hide Sent;
    NothingHappens(c, Release(c), k, which, story);
  }

  lemma NotYetTold(s: State, a: Action, limit: nat, r: Ref, which: Which)
    requires Inv(s) && RepliesOk(s, limit) && Enabled(s, a, limit) && r.conn >= |s.conns|
    ensures AgreesAt(Next(s, a, limit), r, which, UNTOLD) && Told(UNTOLD, s, a, r, which, limit) == UNTOLD
  {
    hide Inv, ConnOk, Staged, Settled, Receive, Dismantle, Erase, Finish, OnStream, Take, Enqueue, StageOk;
    hide HandlePacket;
    if (a.DoApp? || a.DoFinish?) && By(s, a.w, r) {
      HeldStreams(s, a.w, limit);
      assert false;
    }
  }

  lemma WorkerAgrees(s: State, a: Action, limit: nat, r: Ref, which: Which, story: Story)
    requires Inv(s) && RepliesOk(s, limit) && Enabled(s, a, limit) && (a.DoApp? || a.DoFinish?)
    requires r.conn < |s.conns| && Agrees(s.conns[r.conn], r.slot, which, story)
    ensures AgreesAt(Next(s, a, limit), r, which, Told(story, s, a, r, which, limit))
  {
    hide Inv, ConnOk, Staged, Settled, Finish, OnStream, Sent, Agrees;
    HeldStreams(s, a.w, limit);
    var q := s.pool.workers[a.w].ref;
    if q.conn == r.conn {
      var c := s.conns[q.conn];
      if a.DoApp? {
        OnStreamAgrees(c, q.slot, a.which, a.op, r.slot, which, story);
      } else {
        FinishAgrees(c, q.slot, s.pool.workers[a.w].stage, a.body, r.slot, which, story);
      }
    }
    assert story.(written := story.written + []) == story by {
      assert story.written + [] == story.written;
    }
  }

  // ----- Every run -----

  lemma {:induction false} RunAgrees(trace: seq<State>, actions: seq<Action>, limit: nat, i: nat, r: Ref, which: Which)
    requires Run(trace, actions, limit) && i < |trace|
    ensures AgreesAt(trace[i], r, which, StoryOf(trace, actions, limit, i, r, which))
    decreases i
  {
    hide Inv, RepliesOk, Next, Enabled, Told, Agrees;
    if i > 0 {
      RunAgrees(trace, actions, limit, i - 1, r, which);
      RunOk(trace, actions, limit, i - 1);
      StepAgrees(trace[i - 1], actions[i - 1], limit, r, which, StoryOf(trace, actions, limit, i - 1, r, which));
    }
  }
}
