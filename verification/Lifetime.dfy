/**
 Lifetime and conservation: in every reachable state a request that is queued or run belongs to a
 slot and a connection that still exist, each push is run once, in order, and `request_actives`
 counts what it should. The erasure of a connection relies on nothing but that count.
 */
module Lifetime {
  import opened Bytes
  import opened Streams
  import opened NameValuePairs
  import opened Requests
  import opened Workers
  import opened Lifecycle
  import OutStreams

  // ----- Counting -----

  predicate IsReading(s: Option<Slot>) {
    s.Some? && s.value.state == ReadingParams
  }

  function CountReading(slots: seq<Option<Slot>>): nat {
    if slots == [] then 0 else One(IsReading(slots[0])) + CountReading(slots[1..])
  }

  function CountPushing(conns: seq<Conn>): nat {
    if conns == [] then 0 else One(conns[0].pc.Pushing?) + CountPushing(conns[1..])
  }

  lemma {:induction false} CountReadingUpdate(slots: seq<Option<Slot>>, k: nat, x: Option<Slot>)
    requires k < |slots|
    ensures CountReading(slots[k := x]) == CountReading(slots) - One(IsReading(slots[k])) + One(IsReading(x))
    decreases |slots|
  {
    if k == 0 {
      assert slots[k := x][1..] == slots[1..];
    } else {
      assert slots[k := x][1..] == slots[1..][k - 1 := x];
      CountReadingUpdate(slots[1..], k - 1, x);
    }
  }

  lemma {:induction false} CountReadingExtended(slots: seq<Option<Slot>>, more: seq<Option<Slot>>)
    requires slots <= more && forall k | |slots| <= k < |more| :: more[k] == None
    ensures CountReading(more) == CountReading(slots)
    decreases |more|
  {
    if more != [] {
      if slots == [] {
        CountReadingExtended([], more[1..]);
      } else {
        CountReadingExtended(slots[1..], more[1..]);
      }
    }
  }

  lemma {:induction false} NoneReading(slots: seq<Option<Slot>>)
    requires forall k | 0 <= k < |slots| :: !IsReading(slots[k])
    ensures CountReading(slots) == 0
    decreases |slots|
  {
    if slots != [] {
      NoneReading(slots[1..]);
    }
  }

  lemma {:induction false} CountPushingUpdate(conns: seq<Conn>, c: nat, x: Conn)
    requires c < |conns|
    ensures CountPushing(conns[c := x]) == CountPushing(conns) - One(conns[c].pc.Pushing?) + One(x.pc.Pushing?)
    decreases |conns|
  {
    if c == 0 {
      assert conns[c := x][1..] == conns[1..];
    } else {
      assert conns[c := x][1..] == conns[1..][c - 1 := x];
      CountPushingUpdate(conns[1..], c - 1, x);
    }
  }

  lemma {:induction false} CountPushingSnoc(conns: seq<Conn>, x: Conn)
    ensures CountPushing(conns + [x]) == CountPushing(conns) + One(x.pc.Pushing?)
    decreases |conns|
  {
    if conns == [] {
      assert conns + [x] == [x];
      assert [x][1..] == [];
    } else {
      assert (conns + [x])[1..] == conns[1..] + [x];
      CountPushingSnoc(conns[1..], x);
    }
  }

  // ----- Counting events -----

  /** What is counted in a log: accepted requests, or END_REQUEST records. */
  datatype Tally = Acceptances | Ends

  predicate Marks(e: Event, t: Tally) {
    match t
    case Acceptances => e.Accepted?
    case Ends => e.Emitted? && e.record.recType == EndRequest
  }

  function CountEvents(log: seq<Event>, t: Tally): nat {
    if log == [] then 0 else One(Marks(log[0], t)) + CountEvents(log[1..], t)
  }

  lemma {:induction false} CountEventsAppend(a: seq<Event>, b: seq<Event>, t: Tally)
    ensures CountEvents(a + b, t) == CountEvents(a, t) + CountEvents(b, t)
    decreases |a|
  {
    if a == [] {
      assert a + b == b;
    } else {
      assert (a + b)[1..] == a[1..] + b;
      CountEventsAppend(a[1..], b, t);
    }
  }

  lemma CountEvent(e: Event, t: Tally)
    ensures CountEvents([e], t) == One(Marks(e, t))
  {
    assert [e][1..] == [];
  }

  predicate NoEnds(rs: seq<Record>) {
    forall i | 0 <= i < |rs| :: rs[i].recType != EndRequest
  }

  lemma {:induction false} CountEmits(rs: seq<Record>, t: Tally)
    requires NoEnds(rs)
    ensures CountEvents(Emit(rs), t) == 0
    decreases |rs|
  {
    if rs != [] {
      CountEmits(rs[1..], t);
      assert ([Emitted(rs[0])] + Emit(rs[1..]))[1..] == Emit(rs[1..]);
    }
  }

  lemma {:induction false} StreamHasNoEnds(recType: RecType, id: nat, contents: seq<bytes>)
    requires recType != EndRequest
    ensures NoEnds(OutStreams.Records(recType, id, contents))
    decreases |contents|
  {
    if contents != [] {
      StreamHasNoEnds(recType, id, contents[1..]);
    }
  }

  lemma {:induction false} EmitJoin(a: seq<Record>, b: seq<Record>)
    ensures Emit(a + b) == Emit(a) + Emit(b)
    decreases |a|
  {
    if a == [] {
      assert a + b == b;
    } else {
      assert (a + b)[1..] == a[1..] + b;
      EmitJoin(a[1..], b);
    }
  }

  /** A worker that has sent the END_REQUEST of its request and has not left it. */
  predicate AtLeave(w: Worker) {
    w.Closing? && w.stage == Leave
  }

  function CountLeaving(ws: seq<Worker>, c: nat): nat {
    if ws == [] then 0 else One(AtLeave(ws[0]) && ws[0].ref.conn == c) + CountLeaving(ws[1..], c)
  }

  lemma {:induction false} CountLeavingUpdate(ws: seq<Worker>, w: nat, worker: Worker, c: nat)
    requires w < |ws|
    ensures CountLeaving(ws[w := worker], c)
         == CountLeaving(ws, c) - One(AtLeave(ws[w]) && ws[w].ref.conn == c)
            + One(AtLeave(worker) && worker.ref.conn == c)
    decreases |ws|
  {
    if w == 0 {
      assert ws[w := worker][1..] == ws[1..];
    } else {
      assert ws[w := worker][1..] == ws[1..][w - 1 := worker];
      CountLeavingUpdate(ws[1..], w - 1, worker, c);
    }
  }

  lemma {:induction false} LeavingIsHeld(ws: seq<Worker>, c: nat)
    ensures CountLeaving(ws, c) <= InWorkers(ws, OfConn(c))
    decreases |ws|
  {
    if ws != [] {
      LeavingIsHeld(ws[1..], c);
    }
  }

  // ----- The invariant -----

  predicate PendingAt(s: State, r: Ref) {
    Live(s, r) && SlotAt(s, r).state == Pending
  }

  /** The request is between the two steps of its push. */
  predicate Offered(s: State, r: Ref) {
    r.conn < |s.conns| && s.conns[r.conn].pc == Pushing(r.slot)
  }

  /** A request is pushed, queued or run at most once at a time, and only in a slot that is PENDING. */
  ghost predicate Unique(s: State) {
    forall r: Ref :: InPool(s.pool, OfRef(r)) + One(Offered(s, r)) <= One(PendingAt(s, r))
  }

  /** `request_actives` counts the slots in READING_PARAMS and the requests pushed, queued or run; and
      every request in the log has its END_REQUEST there, was abandoned, or is still counted. */
  ghost predicate Counted(s: State) {
    forall c | 0 <= c < |s.conns| :: CountedAt(s, c)
  }

  predicate CountedAt(s: State, c: nat)
    requires c < |s.conns|
  {
    var conn := s.conns[c];
    && conn.actives == CountReading(conn.slots) + One(conn.pc.Pushing?) + InPool(s.pool, OfConn(c))
    && Balance(conn) + CountLeaving(s.pool.workers, c) == 0
  }

  /** The requests accepted, less those that have ended, were abandoned or are counted as active. */
  function Balance(c: Conn): int {
    CountEvents(c.log, Acceptances) - CountEvents(c.log, Ends) - |c.abandoned| - c.actives
  }

  /** The slots that the teardown has passed are empty or PENDING. */
  predicate Passed(slot: Option<Slot>) {
    slot.None? || slot.value.state == Pending
  }

  /** A deserializer exists exactly while the slot reads its params, or is being pushed. */
  predicate Shaped(c: Conn) {
    && (c.pc == Reading || c.pc.Pushing? || c.pc.Pushed? ==> c.abandoned == {})
    && (forall id :: id in c.abandoned ==> 0 < id && (id <= |c.slots| ==> c.slots[id - 1] == None))
    && (forall k | 0 <= k < |c.slots| && c.slots[k].Some? ::
          c.slots[k].value.deserializer.Some?
          <==> c.slots[k].value.state == ReadingParams || c.pc == Pushing(k) || c.pc == Pushed(k))
    && match c.pc
       case Pushing(k) => k < |c.slots| && c.slots[k].Some? && c.slots[k].value.state == Pending
       case Pushed(k) => k < |c.slots| && c.slots[k].Some? && c.slots[k].value.state == Pending
       case TearDown(next) => forall k | 0 <= k < |c.slots| && k < next :: Passed(c.slots[k])
       case Draining => forall k | 0 <= k < |c.slots| :: Passed(c.slots[k])
       case Gone => c.slots == []
       case Reading => true
  }

  ghost predicate AllShaped(s: State) {
    forall c | 0 <= c < |s.conns| :: Shaped(s.conns[c])
  }

  /** First in, first out: what has been pushed is what has been popped, then the queue; and
      `workers_backlog` is the queue with the pushers that have incremented and not yet pushed. */
  predicate Fifo(s: State) {
    && s.pool.pushed == s.pool.popped + s.pool.queue
    && s.pool.backlog == |s.pool.queue| + CountPushing(s.conns)
  }

  /** A request once pushed stays in PENDING until its connection is gone, so it is never pushed again. */
  ghost predicate PushedOnce(s: State) {
    && (forall i, j | 0 <= i < j < |s.pool.pushed| :: s.pool.pushed[i] != s.pool.pushed[j])
    && (forall i | 0 <= i < |s.pool.pushed| :: Spent(s, s.pool.pushed[i]))
  }

  predicate Spent(s: State, r: Ref) {
    r.conn < |s.conns| && (s.conns[r.conn].pc == Gone || (PendingAt(s, r) && !Offered(s, r)))
  }

  ghost predicate Inv(s: State) {
    AllShaped(s) && Unique(s) && Counted(s) && Fifo(s) && PushedOnce(s) && NoLostWakeUp(s.pool)
  }

  // ----- Steps that touch one connection and leave the pool alone -----

  /** The step of a connection thread keeps who is PENDING, and accounts for what it changes. */
  ghost predicate Local(c: Conn, d: Conn) {
    && Shaped(d)
    && (forall k :: PendingSlot(c, k) ==> PendingSlot(d, k))
    && (c.pc.Pushing? ==> d.pc == c.pc)
    && (d.pc.Pushing? && d.pc != c.pc ==> !PendingSlot(c, d.pc.slot))
    && c.pc != Gone && d.pc != Gone
    && d.actives - CountReading(d.slots) - One(d.pc.Pushing?) == c.actives - CountReading(c.slots) - One(c.pc.Pushing?)
    && Balance(d) == Balance(c)
  }

  predicate PendingSlot(c: Conn, k: nat) {
    k < |c.slots| && c.slots[k].Some? && c.slots[k].value.state == Pending
  }

  lemma LocalStep(s: State, c: nat, d: Conn, t: State)
    requires Inv(s) && c < |s.conns| && Local(s.conns[c], d)
    requires t == WithConn(s, c, d).(pool :=
      s.pool.(backlog := s.pool.backlog + One(d.pc.Pushing?) - One(s.conns[c].pc.Pushing?)))
    ensures Inv(t)
  {
    hide InQueue, InWorkers, CountReading, CountPushing, CountNotified, CountLeaving, Balance;
    CountPushingUpdate(s.conns, c, d);
    forall r: Ref
      ensures PendingAt(s, r) ==> PendingAt(t, r)
      ensures InPool(t.pool, OfRef(r)) + One(Offered(t, r)) <= One(PendingAt(t, r))
    {
      assert InPool(s.pool, OfRef(r)) + One(Offered(s, r)) <= One(PendingAt(s, r));
      if r.conn == c {
        assert PendingAt(s, r) == PendingSlot(s.conns[c], r.slot) && PendingAt(t, r) == PendingSlot(d, r.slot);
      }
    }
    forall i | 0 <= i < |t.conns| ensures CountedAt(t, i) && Shaped(t.conns[i]) {
      assert CountedAt(s, i);
    }
    forall i | 0 <= i < |t.pool.pushed| ensures Spent(t, t.pool.pushed[i]) {
      assert Spent(s, s.pool.pushed[i]);
    }
  }

  /** What a record adds to the log: an acceptance when a request is accepted, an END_REQUEST when one is
      cancelled, and else neither. */
  lemma HandledCounts(s: Slot, r: Record, limit: nat, message: Message)
    ensures var h := HandlePacket(s, r, limit, message); var events := HandledEvents(h, r);
      && CountEvents(events, Acceptances) == One(h.outcome == Begun)
      && CountEvents(events, Ends) == One(h.outcome == Cancelled)
  {
    hide Begin, Cancel, CancelRecords, Parse, Resume, ToMap, CountEvents;
    var h := HandlePacket(s, r, limit, message);
    forall t: Tally
      ensures CountEvents(HandledEvents(h, r), t)
           == if t == Acceptances then One(h.outcome == Begun) else One(h.outcome == Cancelled)
    {
      var more := if h.outcome == Begun then [Accepted(r.id)] else Emit(h.sent);
      CountEventsAppend([Received(r)], more, t);
      CountEvent(Received(r), t);
      if h.outcome == Begun {
        CountEvent(Accepted(r.id), t);
      } else if h.outcome == Cancelled {
        var fed := Feed(s, r.content, limit);
        CancelCounts(fed.cout, fed.cerr, r.id, message, t);
      } else {
        CountEmits(h.sent, t);
      }
    }
  }

  lemma CancelCounts(cout: Out, cerr: Out, id: nat, message: Message, t: Tally)
    ensures CountEvents(Emit(CancelRecords(cout, cerr, id, message)), t) == One(t == Ends)
  {
    hide CountEvents, Write, Close;
    var said := Write(cerr, message);
    var errs, outs := said.sent + Close(said.out).sent, Close(cout).sent;
    var a, b := OutStreams.Records(Stderr, id, errs), OutStreams.Records(Stdout, id, outs);
    var end := EndRecord(id, CANCELLED_BODY);
    StreamHasNoEnds(Stderr, id, errs);
    StreamHasNoEnds(Stdout, id, outs);
    EmitJoin(a + b, [end]);
    CountEmits(a + b, t);
    CountEventsAppend(Emit(a + b), Emit([end]), t);
    assert [end][1..] == [];
    assert Emit([end]) == [Emitted(end)];
    CountEvent(Emitted(end), t);
  }

  lemma ManagementCounts(r: Record, t: Tally)
    ensures CountEvents(ManagementEvents(r), t) == 0
  {
    hide CountEvents;
    var more := if r.recType == GetValues then [] else [Emitted(UnknownTypeRecord(0, r.recType))];
    CountEventsAppend([Received(r)], more, t);
    CountEvent(Received(r), t);
    CountEvent(Emitted(UnknownTypeRecord(0, r.recType)), t);
    CountEmits([], t);
  }

  lemma DestroyCounts(s: Slot, id: nat, t: Tally)
    ensures CountEvents(Emit(DestroyRecords(s, id)), t) == 0
  {
    hide CountEvents, Destroy;
    StreamHasNoEnds(Stderr, id, Destroy(s.cerr));
    StreamHasNoEnds(Stdout, id, Destroy(s.cout));
    CountEmits(DestroyRecords(s, id), t);
  }

  lemma {:induction false} EraseCounts(slots: seq<Option<Slot>>, from: nat, t: Tally)
    ensures CountEvents(EraseEvents(slots, from), t) == 0
    decreases |slots| - from
  {
    hide DestroyRecords;
    if from < |slots| {
      var here := if slots[from].Some? then Emit(DestroyRecords(slots[from].value, from + 1)) else [];
      CountEventsAppend(here, EraseEvents(slots, from + 1), t);
      EraseCounts(slots, from + 1, t);
      if slots[from].Some? {
        DestroyCounts(slots[from].value, from + 1, t);
      }
    }
  }

  lemma ReceiveLocal(c: Conn, r: Record, limit: nat, message: Message)
    requires Shaped(c) && c.pc == Reading
    ensures Local(c, Receive(c, r, limit, message))
  {
    hide CountReading, CountEvents, HandlePacket, HandledEvents, ManagementEvents;
    forall t: Tally ensures r.id == 0 ==> CountEvents(Receive(c, r, limit, message).log, t) == CountEvents(c.log, t) {
      CountEventsAppend(c.log, ManagementEvents(r), t);
      ManagementCounts(r, t);
    }
    if r.id > 0 {
      HandledCounts(SlotFor(c, r.id), r, limit, message);
      forall t: Tally {
        CountEventsAppend(c.log, HandledEvents(HandlePacket(SlotFor(c, r.id), r, limit, message), r), t);
      }
      var grown, k := Grow(c.slots, r.id), r.id - 1;
      CountReadingExtended(c.slots, grown);
      HandledStates(SlotFor(c, r.id), r, limit, message);
      CountReadingUpdate(grown, k, Some(HandlePacket(SlotFor(c, r.id), r, limit, message).slot));
    }
  }

  /** What a record does to the state of a slot, and to its deserializer. */
  lemma HandledStates(s: Slot, r: Record, limit: nat, message: Message)
    ensures var h := HandlePacket(s, r, limit, message);
      match h.outcome
      case Begun => s.state == Ready && h.slot.state == ReadingParams && h.slot.deserializer.Some?
      case Fed => s.deserializer.Some? && h.slot.state == s.state && h.slot.deserializer.Some?
      case Completed => s.deserializer.Some? && h.slot.state == Pending && h.slot.deserializer == s.deserializer
      case Cancelled => s.deserializer.Some? && h.slot.state == Ready && h.slot.deserializer == None
      case _ => h.slot == s
  {
    hide Parse, Resume, CancelRecords, ToMap, Write, Close;
  }

  lemma DismantleLocal(c: Conn)
    requires Shaped(c) && c.pc.TearDown?
    ensures Local(c, Dismantle(c)) && !Dismantle(c).pc.Pushing?
  {
    hide CountReading, Emit, DestroyRecords, CountEvents;
    var k := c.pc.next;
    if k < |c.slots| {
      CountReadingUpdate(c.slots, k, None);
      if c.slots[k].Some? {
        var more := Emit(DestroyRecords(c.slots[k].value, k + 1));
        forall t: Tally ensures CountEvents(c.log + more, t) == CountEvents(c.log, t) {
          CountEventsAppend(c.log, more, t);
          DestroyCounts(c.slots[k].value, k + 1, t);
        }
      }
    }
  }

  lemma LoseLocal(c: Conn)
    requires Shaped(c) && c.pc == Reading
    ensures Local(c, c.(pc := TearDown(0)))
  {}

  /** A worker at its request, or the connection thread letting the deserializer go. */
  lemma PendingLocal(c: Conn, k: nat, x: Slot, d: Conn)
    requires Shaped(c) && PendingSlot(c, k) && x.state == Pending
    requires d == WithSlot(c, k, x).(log := d.log, pc := d.pc) && Balance(d) == Balance(c)
    requires (d.pc == c.pc && x.deserializer == c.slots[k].value.deserializer)
          || (c.pc == Pushed(k) && d.pc == Reading && x.deserializer == None)
    ensures Local(c, d)
  {
    hide CountReading, Balance;
    CountReadingUpdate(c.slots, k, Some(x));
  }

  lemma OnStreamLocal(c: Conn, k: nat, which: Which, op: AppOp)
    requires Shaped(c) && PendingSlot(c, k)
    ensures Local(c, OnStream(c, k, c.slots[k].value, which, op))
    ensures OnStream(c, k, c.slots[k].value, which, op).pc == c.pc
  {
    hide DoOp, CountEvents;
    var s := c.slots[k].value;
    var out := DoOp(StreamOf(s, which), op).out;
    var rs := OutStreams.Records(RecTypeOf(which), k + 1, DoOp(StreamOf(s, which), op).sent);
    StreamHasNoEnds(RecTypeOf(which), k + 1, DoOp(StreamOf(s, which), op).sent);
    forall t: Tally ensures CountEvents(c.log + Emit(rs), t) == CountEvents(c.log, t) {
      CountEventsAppend(c.log, Emit(rs), t);
      CountEmits(rs, t);
    }
    PendingLocal(c, k, if which == Cout then s.(cout := out) else s.(cerr := out), OnStream(c, k, s, which, op));
  }

  lemma ShapedAt(s: State, c: nat)
    requires Inv(s) && c < |s.conns|
    ensures Shaped(s.conns[c])
  {}

  // ----- Steps that touch the pool -----

  /** Every request held by the pool is in a PENDING slot of a connection that is not gone. */
  lemma InFlightIsPending(s: State, r: Ref)
    requires Unique(s) && (InPool(s.pool, OfRef(r)) > 0 || Offered(s, r))
    ensures PendingAt(s, r)
  {
    assert InPool(s.pool, OfRef(r)) + One(Offered(s, r)) <= One(PendingAt(s, r));
  }

  lemma HeldIsPending(s: State, w: nat)
    requires Inv(s) && w < |s.pool.workers| && Holds(s.pool.workers[w])
    ensures PendingAt(s, s.pool.workers[w].ref)
  {
    HeldByWorker(s.pool.workers, w);
    InFlightIsPending(s, s.pool.workers[w].ref);
  }

  lemma NothingCounted()
    ensures Balance(CONNECTED) == 0
  {}

  lemma ConnectStep(s: State)
    requires Inv(s)
    ensures Inv(s.(conns := s.conns + [CONNECTED]))
  {
    hide InQueue, InWorkers, CountReading, CountPushing, CountNotified, CountLeaving, Balance;
    var t := s.(conns := s.conns + [CONNECTED]);
    CountPushingSnoc(s.conns, CONNECTED);
    forall r: Ref
      ensures PendingAt(t, r) == PendingAt(s, r) && Offered(t, r) == Offered(s, r)
    {
    }
    NoneReading([]);
    NothingCounted();
    var c := |s.conns|;
    LeavingIsHeld(s.pool.workers, c);
    if InPool(s.pool, OfConn(c)) > 0 {
      var r := SomeOfConn(s.pool, c);
      InFlightIsPending(s, r);
    }
    forall i | 0 <= i < |t.conns| ensures CountedAt(t, i) && Shaped(t.conns[i]) {
      assert i < c ==> CountedAt(s, i);
    }
    forall i | 0 <= i < |t.pool.pushed| ensures Spent(t, t.pool.pushed[i]) {
      assert Spent(s, s.pool.pushed[i]);
    }
  }

  /** A connection that counts in the pool has a request there. */
  lemma SomeOfConn(p: Pool, c: nat) returns (r: Ref)
    requires InPool(p, OfConn(c)) > 0
    ensures r.conn == c && InPool(p, OfRef(r)) > 0
  {
    if InQueue(p.queue, OfConn(c)) > 0 {
      r := SomeInQueue(p.queue, c);
    } else {
      r := SomeInWorkers(p.workers, c);
    }
  }

  lemma {:induction false} SomeInQueue(q: seq<Ref>, c: nat) returns (r: Ref)
    requires InQueue(q, OfConn(c)) > 0
    ensures r.conn == c && InQueue(q, OfRef(r)) > 0
    decreases |q|
  {
    if q[0].conn == c {
      r := q[0];
    } else {
      r := SomeInQueue(q[1..], c);
    }
  }

  lemma {:induction false} SomeInWorkers(ws: seq<Worker>, c: nat) returns (r: Ref)
    requires InWorkers(ws, OfConn(c)) > 0
    ensures r.conn == c && InWorkers(ws, OfRef(r)) > 0
    decreases |ws|
  {
    if Holds(ws[0]) && ws[0].ref.conn == c {
      r := ws[0].ref;
    } else {
      r := SomeInWorkers(ws[1..], c);
    }
  }

  /** The pool may rearrange what it holds, as long as the counts and the histories agree. */
  lemma PoolStep(s: State, p: Pool)
    requires Inv(s) && NoLostWakeUp(p)
    requires forall pick :: InPool(p, pick) == InPool(s.pool, pick)
    requires forall c :: CountLeaving(p.workers, c) == CountLeaving(s.pool.workers, c)
    requires p.pushed == s.pool.pushed == p.popped + p.queue && p.backlog - |p.queue| == s.pool.backlog - |s.pool.queue|
    ensures Inv(s.(pool := p))
  {
    hide InQueue, InWorkers, CountReading, CountPushing, CountNotified, CountLeaving, Balance;
    var t := s.(pool := p);
    forall r: Ref ensures InPool(p, OfRef(r)) + One(Offered(t, r)) <= One(PendingAt(t, r)) {
      assert PendingAt(t, r) == PendingAt(s, r) && Offered(t, r) == Offered(s, r);
    }
    forall i | 0 <= i < |t.conns| ensures CountedAt(t, i) {
      assert CountedAt(s, i);
    }
    forall i | 0 <= i < |t.pool.pushed| ensures Spent(t, t.pool.pushed[i]) {
      assert Spent(s, s.pool.pushed[i]);
    }
  }

  lemma TakeStep(s: State, w: nat)
    requires Inv(s) && w < |s.pool.workers| && s.pool.workers[w] in {Idle, Notified}
    ensures Inv(s.(pool := Take(s.pool, w)))
  {
    hide InQueue, InWorkers, CountReading, CountPushing, CountNotified, CountLeaving, Balance;
    forall pick ensures InPool(Take(s.pool, w), pick) == InPool(s.pool, pick) {
      TakeCounts(s.pool, w, pick);
    }
    forall c ensures CountLeaving(Take(s.pool, w).workers, c) == CountLeaving(s.pool.workers, c) {
      CountLeavingUpdate(s.pool.workers, w, if s.pool.queue == [] then Asleep else Running(s.pool.queue[0]), c);
    }
    TakeWakes(s.pool, w);
    if s.pool.queue != [] {
      assert s.pool.queue == [s.pool.queue[0]] + s.pool.queue[1..];
    }
    PoolStep(s, Take(s.pool, w));
  }

  /** A worker moves on with the request it has, or without one. */
  lemma MoveStep(s: State, w: nat, worker: Worker)
    requires Inv(s) && w < |s.pool.workers| && s.pool.workers[w] != Notified && worker != Asleep
    requires Holds(worker) == Holds(s.pool.workers[w]) && (Holds(worker) ==> worker.ref == s.pool.workers[w].ref)
    requires AtLeave(worker) == AtLeave(s.pool.workers[w])
    ensures Inv(s.(pool := Move(s.pool, w, worker)))
  {
    hide InQueue, InWorkers, CountReading, CountPushing, CountNotified, CountLeaving, Balance;
    forall pick ensures InPool(Move(s.pool, w, worker), pick) == InPool(s.pool, pick) {
      InWorkersUpdate(s.pool.workers, w, worker, pick);
    }
    forall c ensures CountLeaving(Move(s.pool, w, worker).workers, c) == CountLeaving(s.pool.workers, c) {
      CountLeavingUpdate(s.pool.workers, w, worker, c);
    }
    MoveWakes(s.pool, w, worker);
    PoolStep(s, Move(s.pool, w, worker));
  }

  lemma SameBalance(c: Conn, d: Conn)
    requires d.log == c.log && d.abandoned == c.abandoned && d.actives == c.actives
    ensures Balance(d) == Balance(c)
  {}

  lemma EnqueueStep(s: State, c: nat, woken: nat)
    requires Inv(s) && c < |s.conns| && s.conns[c].pc.Pushing? && CanWake(s.pool, woken)
    ensures var k := s.conns[c].pc.slot;
            Inv(WithConn(s, c, s.conns[c].(pc := Pushed(k))).(pool := Enqueue(s.pool, Ref(c, k), woken)))
  {
    hide InQueue, InWorkers, CountReading, CountPushing, CountNotified, CountLeaving, Balance;
    var k := s.conns[c].pc.slot;
    var ref, d := Ref(c, k), s.conns[c].(pc := Pushed(k));
    var t := WithConn(s, c, d).(pool := Enqueue(s.pool, ref, woken));
    CountPushingUpdate(s.conns, c, d);
    EnqueueWakes(s.pool, ref, woken);
    forall r: Ref ensures InPool(t.pool, OfRef(r)) + One(Offered(t, r)) <= One(PendingAt(t, r)) {
      EnqueueCounts(s.pool, ref, woken, OfRef(r));
      assert InPool(s.pool, OfRef(r)) + One(Offered(s, r)) <= One(PendingAt(s, r));
      assert PendingAt(t, r) == PendingAt(s, r);
    }
    forall i | 0 <= i < |t.conns| ensures CountedAt(t, i) && Shaped(t.conns[i]) {
      EnqueueCounts(s.pool, ref, woken, OfConn(i));
      if woken < |s.pool.workers| {
        CountLeavingUpdate(s.pool.workers, woken, Notified, i);
      }
      SameBalance(s.conns[c], d);
      assert CountedAt(s, i);
    }
    forall i | 0 <= i < |t.pool.pushed|
      ensures Spent(t, t.pool.pushed[i]) && (i < |s.pool.pushed| ==> t.pool.pushed[i] != ref)
    {
      if i < |s.pool.pushed| {
        assert Spent(s, s.pool.pushed[i]);
      } else {
        InFlightIsPending(s, ref);
      }
    }
    assert s.pool.popped + s.pool.queue + [ref] == s.pool.popped + (s.pool.queue + [ref]);
  }

  /** The END_REQUEST, and the last touch of a worker, the decrement of `request_actives`: each turns what
      is owed for the request into something else that is counted. */
  lemma PartStep(s: State, w: nat, d: Conn, worker: Worker)
    requires Inv(s) && w < |s.pool.workers| && s.pool.workers[w].Closing?
    requires worker in {Idle, Closing(s.pool.workers[w].ref, Leave)}
    requires PendingAt(s, s.pool.workers[w].ref)
    requires var r := s.pool.workers[w].ref; var c := s.conns[r.conn];
      && Shaped(d) && d.pc == c.pc && (forall k: nat :: PendingSlot(c, k) <==> PendingSlot(d, k))
      && CountReading(d.slots) == CountReading(c.slots) && d.actives == c.actives - One(worker == Idle)
      && Balance(d) == Balance(c) + One(AtLeave(s.pool.workers[w])) - One(AtLeave(worker))
    ensures Inv(WithConn(s, s.pool.workers[w].ref.conn, d).(pool := Move(s.pool, w, worker)))
  {
    hide InQueue, InWorkers, CountReading, CountPushing, CountNotified, CountLeaving, Balance, Shaped;
    var r := s.pool.workers[w].ref;
    var t := WithConn(s, r.conn, d).(pool := Move(s.pool, w, worker));
    MoveWakes(s.pool, w, worker);
    CountPushingUpdate(s.conns, r.conn, d);
    forall q: Ref
      ensures PendingAt(t, q) == PendingAt(s, q)
      ensures InPool(t.pool, OfRef(q)) + One(Offered(t, q)) <= One(PendingAt(t, q))
    {
      InWorkersUpdate(s.pool.workers, w, worker, OfRef(q));
      assert InPool(s.pool, OfRef(q)) + One(Offered(s, q)) <= One(PendingAt(s, q));
      if q.conn == r.conn {
        assert PendingAt(s, q) == PendingSlot(s.conns[r.conn], q.slot) && PendingAt(t, q) == PendingSlot(d, q.slot);
      }
    }
    forall i | 0 <= i < |t.conns| ensures CountedAt(t, i) && Shaped(t.conns[i]) {
      InWorkersUpdate(s.pool.workers, w, worker, OfConn(i));
      CountLeavingUpdate(s.pool.workers, w, worker, i);
      assert CountedAt(s, i);
    }
    forall i | 0 <= i < |t.pool.pushed| ensures Spent(t, t.pool.pushed[i]) {
      assert Spent(s, s.pool.pushed[i]);
    }
  }

  lemma LeaveStep(s: State, w: nat)
    requires Inv(s) && w < |s.pool.workers| && AtLeave(s.pool.workers[w])
    ensures var r := s.pool.workers[w].ref;
      Live(s, r) && Inv(WithConn(s, r.conn, s.conns[r.conn].(actives := s.conns[r.conn].actives - 1))
                          .(pool := Move(s.pool, w, Idle)))
  {
    hide Unique, Counted, Fifo, PushedOnce, NoLostWakeUp, InQueue, InWorkers;
    HeldIsPending(s, w);
    var c := s.conns[s.pool.workers[w].ref.conn];
    PartStep(s, w, c.(actives := c.actives - 1), Idle);
  }

  lemma SendEndStep(s: State, w: nat, body: bytes)
    requires Inv(s) && w < |s.pool.workers| && s.pool.workers[w].Closing? && s.pool.workers[w].stage == SendEnd
    ensures var r := s.pool.workers[w].ref;
      Live(s, r) && Inv(WithConn(s, r.conn, Finish(s.conns[r.conn], r.slot, SlotAt(s, r), SendEnd, body))
                          .(pool := Move(s.pool, w, Closing(r, Leave))))
  {
    hide Unique, Counted, Fifo, PushedOnce, NoLostWakeUp, InQueue, InWorkers, CountReading, CountEvents;
    HeldIsPending(s, w);
    var r := s.pool.workers[w].ref;
    var c, x := s.conns[r.conn], SlotAt(s, r);
    var e := Emitted(EndRecord(r.slot + 1, body));
    CountReadingUpdate(c.slots, r.slot, Some(x.(ended := true)));
    CountEventsAppend(c.log, [e], Acceptances);
    CountEventsAppend(c.log, [e], Ends);
    CountEvent(e, Acceptances);
    CountEvent(e, Ends);
    PartStep(s, w, Finish(c, r.slot, x, SendEnd, body), Closing(r, Leave));
  }

  /** A connection is erased only when the pool has none of its requests. */
  lemma EraseIsSafe(s: State, c: nat, r: Ref)
    requires Inv(s) && c < |s.conns| && s.conns[c].pc == Draining && s.conns[c].actives == 0 && r.conn == c
    ensures InPool(s.pool, OfRef(r)) == 0 && !Offered(s, r)
  {
    hide InQueue, InWorkers, CountReading, CountPushing, CountNotified, CountLeaving, Balance;
    assert CountedAt(s, c);
    RefWithinConn(s.pool, r);
  }

  lemma ErasedBalance(c: Conn)
    ensures Balance(Erase(c)) == Balance(c)
  {
    hide CountEvents;
    forall t: Tally ensures CountEvents(Erase(c).log, t) == CountEvents(c.log, t) {
      CountEventsAppend(c.log, EraseEvents(c.slots, 0), t);
      EraseCounts(c.slots, 0, t);
    }
  }

  lemma EraseStep(s: State, c: nat)
    requires Inv(s) && c < |s.conns| && s.conns[c].pc == Draining && s.conns[c].actives == 0
    ensures Inv(WithConn(s, c, Erase(s.conns[c])))
  {
    hide InQueue, InWorkers, CountReading, CountPushing, CountNotified, CountLeaving, Balance;
    hide EraseEvents;
    var t := WithConn(s, c, Erase(s.conns[c]));
    NoneReading([]);
    CountPushingUpdate(s.conns, c, Erase(s.conns[c]));
    ErasedBalance(s.conns[c]);
    forall r: Ref ensures InPool(t.pool, OfRef(r)) + One(Offered(t, r)) <= One(PendingAt(t, r)) {
      assert InPool(s.pool, OfRef(r)) + One(Offered(s, r)) <= One(PendingAt(s, r));
      if r.conn == c {
        EraseIsSafe(s, c, r);
      } else {
        assert PendingAt(t, r) == PendingAt(s, r) && Offered(t, r) == Offered(s, r);
      }
    }
    forall i | 0 <= i < |t.conns| ensures CountedAt(t, i) && Shaped(t.conns[i]) {
      assert CountedAt(s, i);
    }
    forall i | 0 <= i < |t.pool.pushed| ensures Spent(t, t.pool.pushed[i]) {
      assert Spent(s, s.pool.pushed[i]);
    }
  }

  // ----- Every step, every run -----

  lemma InitialInv(s: State)
    requires Initial(s)
    ensures Inv(s)
  {
    NoWorkerHolds(s.pool.workers);
  }

  lemma {:induction false} NoWorkerHolds(ws: seq<Worker>)
    requires forall w | 0 <= w < |ws| :: ws[w] == Idle
    ensures forall pick :: InWorkers(ws, pick) == 0
    decreases |ws|
  {
    if ws != [] {
      NoWorkerHolds(ws[1..]);
    }
  }

  lemma NextInv(s: State, a: Action, limit: nat)
    requires Inv(s) && Enabled(s, a, limit)
    ensures Inv(Next(s, a, limit))
  {
    hide Local, Unique, Counted, Balance, Fifo, PushedOnce, NoLostWakeUp;
    hide Receive, OnStream, Take, Enqueue, Dismantle, Erase;
    match a
    case Connect => ConnectStep(s);
    case DoReceive(c, r, message) =>
      ReceiveLocal(s.conns[c], r, limit, message);
      LocalStep(s, c, Receive(s.conns[c], r, limit, message), Next(s, a, limit));
    case DoEnqueue(c, woken) => EnqueueStep(s, c, woken);
    case DoRelease(c) =>
      SameBalance(s.conns[c], Release(s.conns[c]));
      PendingLocal(s.conns[c], s.conns[c].pc.slot, s.conns[c].slots[s.conns[c].pc.slot].value.(deserializer := None),
          Release(s.conns[c]));
      LocalStep(s, c, Release(s.conns[c]), Next(s, a, limit));
    case DoLose(c) =>
      LoseLocal(s.conns[c]);
      LocalStep(s, c, s.conns[c].(pc := TearDown(0)), Next(s, a, limit));
    case DoDismantle(c) =>
      DismantleLocal(s.conns[c]);
      LocalStep(s, c, Dismantle(s.conns[c]), Next(s, a, limit));
    case DoErase(c) => EraseStep(s, c);
    case DoTake(w) => TakeStep(s, w);
    case DoWake(w) => MoveStep(s, w, Notified);
    case DoExit(w) => MoveStep(s, w, Exited);
    case DoApp(w, which, op) =>
      HeldIsPending(s, w);
      var r := s.pool.workers[w].ref;
      OnStreamLocal(s.conns[r.conn], r.slot, which, op);
      LocalStep(s, r.conn, OnStream(s.conns[r.conn], r.slot, SlotAt(s, r), which, op), Next(s, a, limit));
    case DoReturn(w) => MoveStep(s, w, Closing(s.pool.workers[w].ref, FlushOut));
    case DoFinish(w, body) => FinishInv(s, w, body, limit);
  }

  lemma FinishInv(s: State, w: nat, body: bytes, limit: nat)
    requires Inv(s) && Enabled(s, DoFinish(w, body), limit)
    ensures Inv(Next(s, DoFinish(w, body), limit))
  {
    hide Local, Unique, Counted, Balance, Fifo, PushedOnce, NoLostWakeUp;
    hide Receive, OnStream, Take, Enqueue, Dismantle, Erase;
    HeldIsPending(s, w);
    var Closing(r, stage) := s.pool.workers[w];
    if stage == Leave {
      LeaveStep(s, w);
    } else if stage == SendEnd {
      SendEndStep(s, w, body);
    } else {
      var t := s.(pool := Move(s.pool, w, NextWorker(r, stage)));
      MoveStep(s, w, NextWorker(r, stage));
      var c, k, x := s.conns[r.conn], r.slot, SlotAt(s, r);
      match stage {
        case FlushOut => OnStreamLocal(c, k, Cout, AppFlush);
        case SealOut => OnStreamLocal(c, k, Cout, AppSeal);
        case FlushErr => OnStreamLocal(c, k, Cerr, AppFlush);
        case SealErr => OnStreamLocal(c, k, Cerr, AppSeal);
      }
      LocalStep(t, r.conn, Finish(c, k, x, stage, body), Next(s, DoFinish(w, body), limit));
    }
  }

  lemma {:induction false} RunInv(trace: seq<State>, actions: seq<Action>, limit: nat, i: nat)
    requires Run(trace, actions, limit) && i < |trace|
    ensures Inv(trace[i])
    decreases i
  {
    hide Inv, Next, Enabled, Initial;
    if i == 0 {
      InitialInv(trace[0]);
    } else {
      RunInv(trace, actions, limit, i - 1);
      NextInv(trace[i - 1], actions[i - 1], limit);
    }
  }
}
