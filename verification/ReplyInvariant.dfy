/** The proof that the automata of module Replies never fail, and that the params are the own ones. */
module ReplyInvariant {
  import opened Bytes
  import opened Streams
  import opened NameValuePairs
  import opened OutStreams
  import opened Requests
  import opened Workers
  import opened Lifecycle
  import opened Lifetime
  import opened Replies

  // ----- The invariant of one connection -----

  /** A stream that has nothing to send when it is destroyed. */
  predicate Silent(o: Out) {
    Fits(o) && o.pending == [] && !o.sendEof
  }

  /** A stream of an accepted request that has not ended. */
  predicate Sound(o: Out) {
    Fits(o) && (o.attached ==> o.sendEof)
  }

  /** The params come from the request's own stream, and from all of it read so far. */
  ghost predicate OwnParams(s: Slot, v: View, limit: nat) {
    !Parse(v.own, limit).oversized && s.params == ToMap(map[], Parse(v.own, limit).pairs)
  }

  /** The view of an id says what its slot is at. */
  ghost predicate SlotOk(s: Slot, v: View, limit: nat) {
    match s.state
    case Ready => v.phase == Quiet && Silent(s.cout) && Silent(s.cerr)
    case ReadingParams =>
      && v.phase == Replying(false, false) && !v.closed && !s.ended
      && Sound(s.cout) && s.cout.attached && Sound(s.cerr) && s.cerr.attached
      && s.cout.pending == [] && s.cerr.pending == []
      && s.deserializer == Some(Parse(v.own, limit)) && OwnParams(s, v, limit)
    case Pending =>
      && v.closed && OwnParams(s, v, limit)
      && if s.ended then v.phase == Quiet && s.cout == CLOSED && s.cerr == CLOSED
         else v.phase == Replying(!s.cout.attached, !s.cerr.attached) && Sound(s.cout) && Sound(s.cerr)
  }

  /** An id without a slot has no request, or one that was abandoned with both streams ended. */
  ghost predicate IdOk(c: Conn, k: nat, limit: nat) {
    var v := Seen(c.log, k + 1);
    if k < |c.slots| && c.slots[k].Some? then SlotOk(c.slots[k].value, v, limit)
    else v.phase == if k + 1 in c.abandoned then Replying(true, true) else Quiet
  }

  ghost predicate ConnOk(c: Conn, limit: nat) {
    forall k: nat :: IdOk(c, k, limit)
  }

  // ----- Receiving -----

  lemma LogGrows(log: seq<Event>, more: seq<Event>, id: nat)
    ensures Seen(log + more, id) == Watch(Seen(log, id), more, id)
  {
    WatchAppend(NOTHING_SEEN, log, more, id);
  }

  /** Handling a record keeps the slot in agreement with the view of its id. */
  lemma HandleOk(s: Slot, r: Record, v: View, limit: nat, message: Message)
    requires SlotOk(s, v, limit) && r.id > 0
    requires s.deserializer.Some? <==> s.state == ReadingParams
    requires HandlePacket(s, r, limit, message).outcome != LogicError
    ensures var h := HandlePacket(s, r, limit, message);
      SlotOk(h.slot, Watch(v, HandledEvents(h, r), r.id), limit)
  {
    hide Parse, ToMap, Sealed;
    var h := HandlePacket(s, r, limit, message);
    var seen := Look(v, Received(r), r.id);
    var more := if h.outcome == Begun then [Accepted(r.id)] else Emit(h.sent);
    WatchAppend(v, [Received(r)], more, r.id);
    WatchOne(v, Received(r), r.id);
    match h.outcome
    case Begun =>
      WatchOne(seen, Accepted(r.id), r.id);
      ParseEmpty(limit);
      NoParams();
    case Fed => FeedOk(s, r.content, v, limit);
    case Completed =>
    case Cancelled =>
      FeedOk(s, r.content, v, limit);
      CancelOk(Feed(s, r.content, limit), r.id, seen, message);
    case Answered =>
      var answer := UnknownTypeRecord(r.id, r.recType);
      assert [answer][1..] == [];
      assert Emit(h.sent) == [Emitted(answer)];
      WatchOne(seen, Emitted(answer), r.id);
    case Ignored =>
  }

  lemma NoParams()
    ensures ToMap(map[], []) == map[]
  {}

  /** One more PARAMS record: the parser stands where the whole stream so far leaves it. */
  lemma FeedOk(s: Slot, content: bytes, v: View, limit: nat)
    requires SlotOk(s, v, limit) && s.state == ReadingParams && content != []
    ensures var fed := Feed(s, content, limit); var p := Parse(v.own + content, limit);
      && fed.deserializer.value.oversized == p.oversized
      && fed.params == ToMap(map[], p.pairs)
      && (!p.oversized ==> fed.deserializer == Some(p))
  {
    hide Parse, ToMap;
    var was := Parse(v.own, limit);
    ParseAppend(v.own, content, limit);
    ToMapAppend(map[], was.pairs, Parse(was.rest + content, limit).pairs);
  }

  /** A cancelled request has its two ends and one END_REQUEST. */
  lemma CancelOk(s: Slot, id: nat, v: View, message: Message)
    requires v.phase == Replying(false, false)
    requires Sound(s.cout) && s.cout.attached && Sound(s.cerr) && s.cerr.attached
    ensures Watch(v, Emit(CancelRecords(s.cout, s.cerr, id, message)), id) == v.(phase := Quiet)
    ensures Cancel(s, message).cout == CLOSED && Cancel(s, message).cerr == CLOSED
  {
    hide Write, Close, Sealed;
    var said := Write(s.cerr, message);
    var errs := said.sent + Close(said.out).sent;
    WriteCarries(s.cerr, message);
    CloseSeals(s.cerr, message, said);
    CloseSeals(s.cout, [], Step(s.cout, []));
    assert [] + Close(s.cout).sent == Close(s.cout).sent;
    SealedSeen(v, Cerr, id, s.cerr, message, errs);
    var w := EndStream(v, Cerr);
    SealedSeen(w, Cout, id, s.cout, [], Close(s.cout).sent);
    var a, b, end := Records(Stderr, id, errs), Records(Stdout, id, Close(s.cout).sent), EndRecord(id, CANCELLED_BODY);
    EmitAppend(a + b, [end]);
    EmitAppend(a, b);
    WatchAppend(v, Emit(a) + Emit(b), Emit([end]), id);
    WatchAppend(v, Emit(a), Emit(b), id);
    assert [end][1..] == [];
    WatchOne(EndStream(w, Cout), Emitted(end), id);
  }

  /** What handling a record sends bears the id of the record. */
  lemma SentForId(s: Slot, r: Record, limit: nat, message: Message)
    ensures AllFor(HandlePacket(s, r, limit, message).sent, r.id)
  {
    hide Parse, Write, Close, ToMap, Resume;
    if s.deserializer.Some? {
      var fed := Feed(s, r.content, limit);
      var said := Write(fed.cerr, message);
      RecordsFor(Stderr, r.id, said.sent + Close(said.out).sent);
      RecordsFor(Stdout, r.id, Close(fed.cout).sent);
    }
  }

  lemma ReceiveOk(c: Conn, r: Record, limit: nat, message: Message)
    requires ConnOk(c, limit) && Shaped(c) && c.pc == Reading
    requires r.id > 0 ==> HandlePacket(SlotFor(c, r.id), r, limit, message).outcome != LogicError
    ensures ConnOk(Receive(c, r, limit, message), limit)
  {
    hide SlotOk, HandlePacket, HandledEvents, ManagementEvents;
    forall k: nat ensures IdOk(Receive(c, r, limit, message), k, limit) {
      assert IdOk(c, k, limit);
      if r.id == 0 {
        LogGrows(c.log, ManagementEvents(r), k + 1);
        ManagementUnseen(Seen(c.log, k + 1), r, k + 1);
      } else if r.id == k + 1 {
        ReceiveOwn(c, r, limit, message);
      } else {
        LogGrows(c.log, HandledEvents(HandlePacket(SlotFor(c, r.id), r, limit, message), r), k + 1);
        HandledUnseen(SlotFor(c, r.id), r, Seen(c.log, k + 1), k + 1, limit, message);
      }
    }
  }

  lemma ManagementUnseen(v: View, r: Record, id: nat)
    requires r.id == 0 < id
    ensures Watch(v, ManagementEvents(r), id) == v
  {
    var more := if r.recType == GetValues then [] else [Emitted(UnknownTypeRecord(0, r.recType))];
    WatchAppend(v, [Received(r)], more, id);
    WatchOne(v, Received(r), id);
    WatchOne(v, Emitted(UnknownTypeRecord(0, r.recType)), id);
  }

  /** Handling a record of one id is not seen by the others. */
  lemma HandledUnseen(s: Slot, r: Record, v: View, id: nat, limit: nat, message: Message)
    requires r.id != id
    ensures Watch(v, HandledEvents(HandlePacket(s, r, limit, message), r), id) == v
  {
    hide HandlePacket;
    var h := HandlePacket(s, r, limit, message);
    var more := if h.outcome == Begun then [Accepted(r.id)] else Emit(h.sent);
    WatchAppend(v, [Received(r)], more, id);
    WatchOne(v, Received(r), id);
    WatchOne(v, Accepted(r.id), id);
    SentForId(s, r, limit, message);
    EmittedElsewhere(v, h.sent, id, r.id);
  }

  lemma ReceiveOwn(c: Conn, r: Record, limit: nat, message: Message)
    requires ConnOk(c, limit) && Shaped(c) && c.pc == Reading && r.id > 0
    requires HandlePacket(SlotFor(c, r.id), r, limit, message).outcome != LogicError
    ensures IdOk(Receive(c, r, limit, message), r.id - 1, limit)
  {
    hide HandlePacket, HandledEvents, Parse;
    var k := r.id - 1;
    assert IdOk(c, k, limit);
    var s, v := SlotFor(c, r.id), Seen(c.log, r.id);
    var h := HandlePacket(s, r, limit, message);
    HandleOk(s, r, v, limit, message);
    LogGrows(c.log, HandledEvents(h, r), r.id);
    assert Receive(c, r, limit, message).slots[k] == Some(h.slot);
  }

  // ----- Tearing down -----

  lemma DestroySilent(o: Out)
    requires Silent(o) || o == CLOSED
    ensures Destroy(o) == []
  {}

  /** Destroying a request in READING_PARAMS ends its streams, with no END_REQUEST. */
  lemma DestroyReading(s: Slot, id: nat, v: View)
    requires v.phase == Replying(false, false)
    requires Sound(s.cout) && s.cout.attached && Sound(s.cerr) && s.cerr.attached
    ensures Watch(v, Emit(DestroyRecords(s, id)), id) == v.(phase := Replying(true, true))
  {
    hide Sealed;
    CloseSeals(s.cerr, [], Step(s.cerr, []));
    CloseSeals(s.cout, [], Step(s.cout, []));
    assert [] + Close(s.cerr).sent == Close(s.cerr).sent == Destroy(s.cerr);
    assert [] + Close(s.cout).sent == Close(s.cout).sent == Destroy(s.cout);
    SealedSeen(v, Cerr, id, s.cerr, [], Destroy(s.cerr));
    SealedSeen(EndStream(v, Cerr), Cout, id, s.cout, [], Destroy(s.cout));
    var a, b := Records(Stderr, id, Destroy(s.cerr)), Records(Stdout, id, Destroy(s.cout));
    EmitAppend(a, b);
    WatchAppend(v, Emit(a), Emit(b), id);
  }

  lemma DestroyForId(s: Slot, id: nat)
    ensures AllFor(DestroyRecords(s, id), id)
  {
    hide Destroy;
    RecordsFor(Stderr, id, Destroy(s.cerr));
    RecordsFor(Stdout, id, Destroy(s.cout));
  }

  lemma DismantleOk(c: Conn, limit: nat)
    requires ConnOk(c, limit) && Shaped(c) && c.pc.TearDown?
    ensures ConnOk(Dismantle(c), limit)
  {
    hide Parse, DestroyRecords;
    var d, j := Dismantle(c), c.pc.next;
    forall k: nat ensures IdOk(d, k, limit) {
      assert IdOk(c, k, limit);
      if j < |c.slots| && c.slots[j].Some? && c.slots[j].value.state != Pending {
        var s, v := c.slots[j].value, Seen(c.log, k + 1);
        LogGrows(c.log, Emit(DestroyRecords(s, j + 1)), k + 1);
        if k != j {
          DestroyForId(s, j + 1);
          EmittedElsewhere(v, DestroyRecords(s, j + 1), k + 1, j + 1);
        } else if s.state == ReadingParams {
          DestroyReading(s, k + 1, v);
        } else {
          DestroyNothing(s, k + 1);
        }
      }
    }
  }

  lemma DestroyNothing(s: Slot, id: nat)
    requires Silent(s.cout) && Silent(s.cerr)
    ensures DestroyRecords(s, id) == []
  {}

  // ----- A worker at its request -----

  /** One operation on a sound stream moves the view as it moves the stream. */
  lemma DoOpSeen(v: View, which: Which, id: nat, o: Out, op: AppOp)
    requires v.phase.Replying? && Sound(o) && (Open(v, which) <==> o.attached)
    requires op == AppSeal ==> o.pending == []
    ensures var step := DoOp(o, op);
      && Sound(step.out)
      && Watch(v, Emit(Records(RecTypeOf(which), id, step.sent)), id)
         == if o.attached && !step.out.attached then EndStream(v, which) else v
  {
    if o.attached {
      match op
      case AppPut(c) =>
        PutCarries(o, c);
        DataSeen(v, which, id, Put(o, c).sent);
      case AppFlush =>
        SyncCarries(o);
        DataSeen(v, which, id, Sync(o).sent);
      case AppSeal => EndSeen(v, which, id);
    }
  }

  /** A worker that is allowed to operate on the stream of a request that has not ended. */
  lemma OnStreamOk(c: Conn, k: nat, which: Which, op: AppOp, limit: nat)
    requires ConnOk(c, limit) && PendingSlot(c, k) && !c.slots[k].value.ended && c.pc != Gone
    requires op == AppSeal ==> StreamOf(c.slots[k].value, which).pending == []
    ensures ConnOk(OnStream(c, k, c.slots[k].value, which, op), limit)
  {
    hide Parse, DoOp, Watch, RecTypeOf, ToMap, Records, Emit;
    var s := c.slots[k].value;
    var step := DoOp(StreamOf(s, which), op);
    var rs := Records(RecTypeOf(which), k + 1, step.sent);
    forall j: nat ensures IdOk(OnStream(c, k, s, which, op), j, limit) {
      assert IdOk(c, j, limit);
      LogGrows(c.log, Emit(rs), j + 1);
      if j == k {
        DoOpSeen(Seen(c.log, k + 1), which, k + 1, StreamOf(s, which), op);
        DetachedStays(StreamOf(s, which), op);
      } else {
        RecordsFor(RecTypeOf(which), k + 1, step.sent);
        EmittedElsewhere(Seen(c.log, j + 1), rs, j + 1, k + 1);
      }
    }
  }

  lemma DetachedStays(o: Out, op: AppOp)
    ensures !o.attached ==> DoOp(o, op).out == o
  {}

  lemma SendEndOk(c: Conn, k: nat, body: bytes, limit: nat)
    requires ConnOk(c, limit) && PendingSlot(c, k) && !c.slots[k].value.ended && c.pc != Gone && |body| == BODY_SIZE
    requires c.slots[k].value.cout == CLOSED && c.slots[k].value.cerr == CLOSED
    ensures ConnOk(Finish(c, k, c.slots[k].value, SendEnd, body), limit)
  {
    hide Parse;
    var s, e := c.slots[k].value, Emitted(EndRecord(k + 1, body));
    forall j: nat ensures IdOk(Finish(c, k, s, SendEnd, body), j, limit) {
      assert IdOk(c, j, limit);
      LogGrows(c.log, [e], j + 1);
      WatchOne(Seen(c.log, j + 1), e, j + 1);
    }
  }

  /** A connection step that writes no event and changes no slot but for its deserializer. */
  lemma QuietOk(c: Conn, d: Conn, limit: nat)
    requires ConnOk(c, limit) && d.log == c.log && d.abandoned == c.abandoned && |d.slots| == |c.slots|
    requires forall k | 0 <= k < |c.slots| :: d.slots[k] == c.slots[k]
               || (PendingSlot(c, k) && d.slots[k] == Some(c.slots[k].value.(deserializer := None)))
    ensures ConnOk(d, limit)
  {
    hide Parse;
    forall k: nat ensures IdOk(d, k, limit) {
      assert IdOk(c, k, limit);
    }
  }

  // ----- The invariant of the whole -----

  /** How far a worker is with its request. */
  predicate StageOk(w: Worker, s: Slot) {
    match w
    case Running(_) => !s.ended
    case Closing(_, FlushOut) => !s.ended
    case Closing(_, SealOut) => !s.ended && s.cout.pending == []
    case Closing(_, FlushErr) => !s.ended && s.cout == CLOSED
    case Closing(_, SealErr) => !s.ended && s.cout == CLOSED && s.cerr.pending == []
    case Closing(_, SendEnd) => !s.ended && s.cout == CLOSED && s.cerr == CLOSED
    case Closing(_, Leave) => s.ended
    case _ => true
  }

  ghost predicate Staged(s: State) {
    && (forall w | 0 <= w < |s.pool.workers| && Holds(s.pool.workers[w]) ::
          Live(s, s.pool.workers[w].ref) ==> StageOk(s.pool.workers[w], SlotAt(s, s.pool.workers[w].ref)))
    && (forall i | 0 <= i < |s.pool.queue| :: Live(s, s.pool.queue[i]) ==> !SlotAt(s, s.pool.queue[i]).ended)
    && (forall r: Ref :: Live(s, r) && Offered(s, r) ==> !SlotAt(s, r).ended)
  }

  /** A PENDING request that is not pushed, queued or run has sent its END_REQUEST. */
  ghost predicate Settled(s: State) {
    forall r: Ref :: PendingAt(s, r) && InPool(s.pool, OfRef(r)) == 0 && !Offered(s, r) ==> SlotAt(s, r).ended
  }

  ghost predicate RepliesOk(s: State, limit: nat) {
    && (forall c | 0 <= c < |s.conns| :: ConnOk(s.conns[c], limit))
    && Staged(s) && Settled(s)
  }

  // ----- Steps that leave the pool alone -----

  /** As far as its reply goes the request is the same. */
  predicate SameReply(x: Slot, y: Slot) {
    x.ended == y.ended && x.cout == y.cout && x.cerr == y.cerr
  }

  /** The requests that are PENDING stay so, with the same streams; a new one is being pushed. */
  ghost predicate Keeps(c: Conn, d: Conn) {
    && (forall k: nat :: PendingSlot(c, k) ==> PendingSlot(d, k) && SameReply(c.slots[k].value, d.slots[k].value))
    && (forall k: nat :: PendingSlot(d, k) && !PendingSlot(c, k) ==> d.pc == Pushing(k) && !d.slots[k].value.ended)
    && (c.pc.Pushing? ==> d.pc == c.pc)
    && (d.pc.Pushing? && c.pc != d.pc ==> PendingSlot(d, d.pc.slot) && !PendingSlot(c, d.pc.slot))
  }

  lemma KeepsStep(s: State, c: nat, d: Conn, backlog: int, limit: nat)
    requires Inv(s) && RepliesOk(s, limit) && c < |s.conns| && Keeps(s.conns[c], d) && ConnOk(d, limit)
    ensures RepliesOk(WithConn(s, c, d).(pool := s.pool.(backlog := backlog)), limit)
  {
    hide ConnOk, InQueue, InWorkers, Counted, Fifo, PushedOnce, NoLostWakeUp, AllShaped;
    var t := WithConn(s, c, d).(pool := s.pool.(backlog := backlog));
    forall w | 0 <= w < |t.pool.workers| && Holds(t.pool.workers[w]) && Live(t, t.pool.workers[w].ref)
      ensures StageOk(t.pool.workers[w], SlotAt(t, t.pool.workers[w].ref))
    {
      HeldIsPending(s, w);
      SamePending(s, c, d, t, t.pool.workers[w].ref);
    }
    forall i | 0 <= i < |t.pool.queue| && Live(t, t.pool.queue[i]) ensures !SlotAt(t, t.pool.queue[i]).ended {
      QueuedIsPending(s, i);
      SamePending(s, c, d, t, t.pool.queue[i]);
    }
    forall r: Ref | Live(t, r) && Offered(t, r) ensures !SlotAt(t, r).ended {
      if Offered(s, r) {
        InFlightIsPending(s, r);
        SamePending(s, c, d, t, r);
      } else {
        assert r.conn == c && d.pc == Pushing(r.slot);
      }
    }
    forall r: Ref | PendingAt(t, r) && InPool(t.pool, OfRef(r)) == 0 && !Offered(t, r) ensures SlotAt(t, r).ended {
      if r.conn == c {
        assert PendingSlot(d, r.slot);
        assert PendingSlot(s.conns[c], r.slot);
      }
      assert PendingAt(s, r);
      SamePending(s, c, d, t, r);
    }
  }

  lemma SamePending(s: State, c: nat, d: Conn, t: State, r: Ref)
    requires c < |s.conns| && Keeps(s.conns[c], d) && t.conns == s.conns[c := d] && PendingAt(s, r)
    ensures PendingAt(t, r) && SameReply(SlotAt(s, r), SlotAt(t, r))
    ensures Offered(s, r) ==> Offered(t, r)
  {
    if r.conn == c {
      assert PendingSlot(s.conns[c], r.slot);
    }
  }

  lemma QueuedIsPending(s: State, i: nat)
    requires Inv(s) && i < |s.pool.queue|
    ensures PendingAt(s, s.pool.queue[i])
  {
    MemberOfQueue(s.pool.queue, s.pool.queue[i]);
    InFlightIsPending(s, s.pool.queue[i]);
  }

  lemma ReceiveKeeps(c: Conn, r: Record, limit: nat, message: Message)
    requires ConnOk(c, limit) && Shaped(c) && c.pc == Reading
    ensures Keeps(c, Receive(c, r, limit, message))
  {
    hide HandledEvents, ManagementEvents, Parse, HandlePacket;
    if r.id > 0 {
      var s := SlotFor(c, r.id);
      assert IdOk(c, r.id - 1, limit);
      HandledStates(s, r, limit, message);
      HandledStreams(s, r, limit, message);
    }
  }

  /** A slot that has its last PARAMS record keeps its streams, and any other PENDING slot is kept. */
  lemma HandledStreams(s: Slot, r: Record, limit: nat, message: Message)
    ensures var h := HandlePacket(s, r, limit, message);
      && (h.outcome == Completed ==> h.slot == s.(state := Pending))
      && (h.slot.state == Pending && s.state != Pending ==> h.outcome == Completed)
      && (s.state == Pending && s.deserializer == None ==> h.slot == s && h.outcome != Completed)
      && (h.outcome == Completed ==> s.deserializer.Some?)
  {
    hide Parse, Write, Close, ToMap, Resume;
  }

  lemma DismantleKeeps(c: Conn)
    requires c.pc.TearDown?
    ensures Keeps(c, Dismantle(c))
  {
    hide DestroyRecords;
  }

  // ----- Steps that touch the pool -----

  lemma ConnectOk(s: State, limit: nat)
    requires RepliesOk(s, limit)
    ensures RepliesOk(s.(conns := s.conns + [CONNECTED]), limit)
  {
    hide Parse;
    var t := s.(conns := s.conns + [CONNECTED]);
    forall k: nat ensures IdOk(CONNECTED, k, limit) {
      assert Seen([], k + 1) == NOTHING_SEEN;
    }
    forall c | 0 <= c < |t.conns| ensures ConnOk(t.conns[c], limit) {
      assert c < |s.conns| ==> ConnOk(s.conns[c], limit);
    }
    forall r: Ref
      ensures Live(t, r) == Live(s, r) && Offered(t, r) == Offered(s, r) && PendingAt(t, r) == PendingAt(s, r)
    {
    }
  }

  lemma TakeOk(s: State, w: nat, limit: nat)
    requires Inv(s) && RepliesOk(s, limit) && w < |s.pool.workers| && s.pool.workers[w] in {Idle, Notified}
    ensures RepliesOk(s.(pool := Take(s.pool, w)), limit)
  {
    hide ConnOk, InQueue, InWorkers, Inv;
    var t := s.(pool := Take(s.pool, w));
    forall r: Ref ensures InPool(t.pool, OfRef(r)) == InPool(s.pool, OfRef(r)) {
      TakeCounts(s.pool, w, OfRef(r));
    }
    forall r: Ref ensures PendingAt(t, r) == PendingAt(s, r) && Offered(t, r) == Offered(s, r) {
    }
  }

  lemma MoveOk(s: State, w: nat, worker: Worker, limit: nat)
    requires RepliesOk(s, limit) && w < |s.pool.workers|
    requires if Holds(worker) then s.pool.workers[w] == Running(worker.ref) && worker == Closing(worker.ref, FlushOut)
             else !Holds(s.pool.workers[w])
    ensures RepliesOk(s.(pool := Move(s.pool, w, worker)), limit)
  {
    hide ConnOk, InQueue, InWorkers;
    var t := s.(pool := Move(s.pool, w, worker));
    forall r: Ref ensures InPool(t.pool, OfRef(r)) == InPool(s.pool, OfRef(r)) {
      InWorkersUpdate(s.pool.workers, w, worker, OfRef(r));
    }
    forall r: Ref ensures PendingAt(t, r) == PendingAt(s, r) && Offered(t, r) == Offered(s, r) {
    }
  }

  lemma EnqueueOk(s: State, c: nat, woken: nat, limit: nat)
    requires Inv(s) && RepliesOk(s, limit) && c < |s.conns| && s.conns[c].pc.Pushing? && CanWake(s.pool, woken)
    ensures var k := s.conns[c].pc.slot;
            RepliesOk(WithConn(s, c, s.conns[c].(pc := Pushed(k))).(pool := Enqueue(s.pool, Ref(c, k), woken)), limit)
  {
    hide ConnOk, InQueue, InWorkers, Counted, Fifo, PushedOnce, NoLostWakeUp, AllShaped;
    var k := s.conns[c].pc.slot;
    var ref, d := Ref(c, k), s.conns[c].(pc := Pushed(k));
    var t := WithConn(s, c, d).(pool := Enqueue(s.pool, ref, woken));
    QuietOk(s.conns[c], d, limit);
    InFlightIsPending(s, ref);
    forall r: Ref
      ensures PendingAt(t, r) == PendingAt(s, r) && Live(t, r) == Live(s, r)
          && (Live(s, r) ==> SlotAt(t, r) == SlotAt(s, r))
      ensures InPool(t.pool, OfRef(r)) == InPool(s.pool, OfRef(r)) + One(r == ref)
      ensures Offered(t, r) ==> Offered(s, r)
      ensures Offered(s, r) ==> Offered(t, r) || r == ref
    {
      EnqueueCounts(s.pool, ref, woken, OfRef(r));
    }
    assert !SlotAt(s, ref).ended;
    forall i | 0 <= i < |t.conns| ensures ConnOk(t.conns[i], limit) {
      assert ConnOk(s.conns[i], limit);
    }
  }

  /** Worker `w` is alone with its request. */
  lemma Alone(s: State, w: nat)
    requires Inv(s) && w < |s.pool.workers| && Holds(s.pool.workers[w])
    ensures var r := s.pool.workers[w].ref;
      && PendingAt(s, r) && !Offered(s, r) && r !in s.pool.queue && InPool(s.pool, OfRef(r)) == 1
      && s.conns[r.conn].pc != Gone
      && forall v | 0 <= v < |s.pool.workers| && v != w && Holds(s.pool.workers[v]) :: s.pool.workers[v].ref != r
  {
    hide InQueue, InWorkers, Counted, Fifo, PushedOnce, NoLostWakeUp;
    var r := s.pool.workers[w].ref;
    HeldByWorker(s.pool.workers, w);
    MemberOfQueue(s.pool.queue, r);
    assert InPool(s.pool, OfRef(r)) + One(Offered(s, r)) <= One(PendingAt(s, r));
    forall v | 0 <= v < |s.pool.workers| && v != w && Holds(s.pool.workers[v]) ensures s.pool.workers[v].ref != r {
      if s.pool.workers[v].ref == r {
        HeldByTwo(s.pool.workers, if v < w then v else w, if v < w then w else v);
      }
    }
  }

  /** A worker changes its own slot, and goes on with it. */
  lemma WorkerOk(s: State, w: nat, x: Slot, d: Conn, worker: Worker, limit: nat)
    requires Inv(s) && RepliesOk(s, limit) && w < |s.pool.workers| && Holds(s.pool.workers[w])
    requires Holds(worker) && worker.ref == s.pool.workers[w].ref && StageOk(worker, x) && x.state == Pending
    requires PendingAt(s, worker.ref) && d == WithSlot(s.conns[worker.ref.conn], worker.ref.slot, x).(log := d.log)
    requires ConnOk(d, limit)
    ensures RepliesOk(WithConn(s, worker.ref.conn, d).(pool := Move(s.pool, w, worker)), limit)
  {
    hide ConnOk, InQueue, InWorkers, Inv;
    var r := worker.ref;
    var t := WithConn(s, r.conn, d).(pool := Move(s.pool, w, worker));
    Alone(s, w);
    forall q: Ref
      ensures PendingAt(t, q) == PendingAt(s, q) && Live(t, q) == Live(s, q) && Offered(t, q) == Offered(s, q)
      ensures Live(s, q) && q != r ==> SlotAt(t, q) == SlotAt(s, q)
      ensures InPool(t.pool, OfRef(q)) == InPool(s.pool, OfRef(q))
    {
      InWorkersUpdate(s.pool.workers, w, worker, OfRef(q));
    }
    forall v | 0 <= v < |t.pool.workers| && Holds(t.pool.workers[v]) && Live(t, t.pool.workers[v].ref)
      ensures StageOk(t.pool.workers[v], SlotAt(t, t.pool.workers[v].ref))
    {
      if v == w {
        assert SlotAt(t, r) == x;
      }
    }
    forall i | 0 <= i < |t.conns| ensures ConnOk(t.conns[i], limit) {
      assert ConnOk(s.conns[i], limit);
    }
  }

  lemma LeaveOk(s: State, w: nat, limit: nat)
    requires Inv(s) && RepliesOk(s, limit) && w < |s.pool.workers| && s.pool.workers[w].Closing?
        && s.pool.workers[w].stage == Leave
    ensures var r := s.pool.workers[w].ref;
      Live(s, r) && RepliesOk(WithConn(s, r.conn, s.conns[r.conn].(actives := s.conns[r.conn].actives - 1))
                                .(pool := Move(s.pool, w, Idle)), limit)
  {
    hide ConnOk, InQueue, InWorkers, Inv;
    var r := s.pool.workers[w].ref;
    Alone(s, w);
    var d := s.conns[r.conn].(actives := s.conns[r.conn].actives - 1);
    var t := WithConn(s, r.conn, d).(pool := Move(s.pool, w, Idle));
    QuietOk(s.conns[r.conn], d, limit);
    forall q: Ref
      ensures PendingAt(t, q) == PendingAt(s, q) && Live(t, q) == Live(s, q) && Offered(t, q) == Offered(s, q)
      ensures Live(s, q) ==> SlotAt(t, q) == SlotAt(s, q)
      ensures InPool(t.pool, OfRef(q)) == InPool(s.pool, OfRef(q)) - One(q == r)
    {
      InWorkersUpdate(s.pool.workers, w, Idle, OfRef(q));
    }
    forall i | 0 <= i < |t.conns| ensures ConnOk(t.conns[i], limit) {
      assert ConnOk(s.conns[i], limit);
    }
  }

  /** The slots left when a connection is erased are of requests that have ended: nothing is sent. */
  lemma {:induction false} EraseSilent(slots: seq<Option<Slot>>, from: nat)
    requires forall k | 0 <= k < |slots| && slots[k].Some? ::
      slots[k].value.cout == CLOSED && slots[k].value.cerr == CLOSED
    ensures EraseEvents(slots, from) == []
    decreases |slots| - from
  {
    if from < |slots| {
      if slots[from].Some? {
        DestroySilent(CLOSED);
        DestroyNothing(slots[from].value, from + 1);
      }
      EraseSilent(slots, from + 1);
    }
  }

  lemma EraseOk(s: State, c: nat, limit: nat)
    requires Inv(s) && RepliesOk(s, limit) && c < |s.conns| && s.conns[c].pc == Draining && s.conns[c].actives == 0
    ensures RepliesOk(WithConn(s, c, Erase(s.conns[c])), limit) && Erase(s.conns[c]).log == s.conns[c].log
  {
    hide InQueue, InWorkers, Inv, Parse;
    var conn, t := s.conns[c], WithConn(s, c, Erase(s.conns[c]));
    forall k | 0 <= k < |conn.slots| && conn.slots[k].Some?
      ensures conn.slots[k].value.cout == CLOSED && conn.slots[k].value.cerr == CLOSED && conn.slots[k].value.ended
    {
      DrainedSettled(s, c, k);
      assert IdOk(conn, k, limit);
    }
    EraseSilent(conn.slots, 0);
    assert conn.log + [] == conn.log;
    ShapedAt(s, c);
    forall k: nat ensures IdOk(Erase(conn), k, limit) {
      assert IdOk(conn, k, limit);
    }
    forall r: Ref
      ensures r.conn != c ==>
        PendingAt(t, r) == PendingAt(s, r) && Live(t, r) == Live(s, r) && Offered(t, r) == Offered(s, r)
      ensures r.conn == c ==> !Live(t, r)
    {
    }
  }

  lemma DrainedSettled(s: State, c: nat, k: nat)
    requires Inv(s) && Settled(s) && c < |s.conns| && s.conns[c].pc == Draining && s.conns[c].actives == 0
    requires k < |s.conns[c].slots| && s.conns[c].slots[k].Some?
    ensures s.conns[c].slots[k].value.ended && s.conns[c].slots[k].value.state == Pending
  {
    EraseIsSafe(s, c, Ref(c, k));
    assert Shaped(s.conns[c]) && Passed(s.conns[c].slots[k]);
    assert PendingAt(s, Ref(c, k));
  }

  // ----- Every step, every run -----

  lemma NextOk(s: State, a: Action, limit: nat)
    requires Inv(s) && RepliesOk(s, limit) && Enabled(s, a, limit)
    ensures RepliesOk(Next(s, a, limit), limit)
  {
    hide ConnOk, Staged, Settled, Unique, Counted, Fifo, PushedOnce, NoLostWakeUp, Receive, OnStream, Take, Enqueue,
        Dismantle, Erase, Keeps;
    match a
    case Connect => ConnectOk(s, limit);
    case DoReceive(c, r, message) =>
      ReceiveKeeps(s.conns[c], r, limit, message);
      ReceiveOk(s.conns[c], r, limit, message);
      KeepsStep(s, c, Receive(s.conns[c], r, limit, message), Next(s, a, limit).pool.backlog, limit);
    case DoEnqueue(c, woken) => EnqueueOk(s, c, woken, limit);
    case DoRelease(c) =>
      ReleaseKeeps(s.conns[c], limit);
      KeepsStep(s, c, Release(s.conns[c]), s.pool.backlog, limit);
    case DoLose(c) =>
      LoseKeeps(s.conns[c], limit);
      KeepsStep(s, c, s.conns[c].(pc := TearDown(0)), s.pool.backlog, limit);
    case DoDismantle(c) =>
      DismantleKeeps(s.conns[c]);
      DismantleOk(s.conns[c], limit);
      KeepsStep(s, c, Dismantle(s.conns[c]), s.pool.backlog, limit);
    case DoErase(c) => EraseOk(s, c, limit);
    case DoTake(w) => TakeOk(s, w, limit);
    case DoWake(w) => MoveOk(s, w, Notified, limit);
    case DoExit(w) => MoveOk(s, w, Exited, limit);
    case DoApp(w, which, op) => AppOk(s, w, which, op, limit);
    case DoReturn(w) => MoveOk(s, w, Closing(s.pool.workers[w].ref, FlushOut), limit);
    case DoFinish(w, body) => FinishOk(s, w, body, limit);
  }

  lemma ReleaseKeeps(c: Conn, limit: nat)
    requires ConnOk(c, limit) && Shaped(c) && c.pc.Pushed?
    ensures Keeps(c, Release(c)) && ConnOk(Release(c), limit)
  {
    QuietOk(c, Release(c), limit);
  }

  lemma LoseKeeps(c: Conn, limit: nat)
    requires ConnOk(c, limit) && c.pc == Reading
    ensures Keeps(c, c.(pc := TearDown(0))) && ConnOk(c.(pc := TearDown(0)), limit)
  {
    QuietOk(c, c.(pc := TearDown(0)), limit);
  }

  lemma AppOk(s: State, w: nat, which: Which, op: AppOp, limit: nat)
    requires Inv(s) && RepliesOk(s, limit) && Enabled(s, DoApp(w, which, op), limit)
    ensures RepliesOk(Next(s, DoApp(w, which, op), limit), limit)
  {
    hide ConnOk, Settled, DoOp, Inv;
    var r := s.pool.workers[w].ref;
    Alone(s, w);
    var c, k, x := s.conns[r.conn], r.slot, SlotAt(s, r);
    OnStreamOk(c, k, which, op, limit);
    var d := OnStream(c, k, x, which, op);
    WorkerOk(s, w, d.slots[k].value, d, Running(r), limit);
    assert s.pool.workers[w := Running(r)] == s.pool.workers;
  }

  lemma FinishOk(s: State, w: nat, body: bytes, limit: nat)
    requires Inv(s) && RepliesOk(s, limit) && Enabled(s, DoFinish(w, body), limit)
    ensures RepliesOk(Next(s, DoFinish(w, body), limit), limit)
  {
    hide ConnOk, Settled, Inv, Put;
    var Closing(r, stage) := s.pool.workers[w];
    Alone(s, w);
    var c, k, x := s.conns[r.conn], r.slot, SlotAt(s, r);
    match stage {
      case Leave => LeaveOk(s, w, limit);
      case SendEnd =>
        SendEndOk(c, k, body, limit);
        WorkerOk(s, w, x.(ended := true), Finish(c, k, x, SendEnd, body), NextWorker(r, stage), limit);
      case FlushOut => StageStep(s, w, Cout, AppFlush, NextWorker(r, stage), limit);
      case SealOut => StageStep(s, w, Cout, AppSeal, NextWorker(r, stage), limit);
      case FlushErr => StageStep(s, w, Cerr, AppFlush, NextWorker(r, stage), limit);
      case SealErr => StageStep(s, w, Cerr, AppSeal, NextWorker(r, stage), limit);
    }
  }

  lemma StageStep(s: State, w: nat, which: Which, op: AppOp, worker: Worker, limit: nat)
    requires Inv(s) && RepliesOk(s, limit) && w < |s.pool.workers| && s.pool.workers[w].Closing?
    requires s.pool.workers[w].stage in {FlushOut, SealOut, FlushErr, SealErr}
    requires worker == NextWorker(s.pool.workers[w].ref, s.pool.workers[w].stage)
    requires which == if s.pool.workers[w].stage in {FlushOut, SealOut} then Cout else Cerr
    requires op == if s.pool.workers[w].stage in {FlushOut, FlushErr} then AppFlush else AppSeal
    ensures PendingAt(s, worker.ref)
    ensures var c, k := s.conns[worker.ref.conn], worker.ref.slot;
            RepliesOk(WithConn(s, worker.ref.conn, OnStream(c, k, c.slots[k].value, which, op))
                        .(pool := Move(s.pool, w, worker)), limit)
  {
    hide ConnOk, Settled, Inv, Put;
    var r := worker.ref;
    Alone(s, w);
    var c, k, x := s.conns[r.conn], r.slot, SlotAt(s, r);
    OnStreamOk(c, k, which, op, limit);
    var d := OnStream(c, k, x, which, op);
    FitsAt(c, k, limit);
    WorkerOk(s, w, d.slots[k].value, d, worker, limit);
  }

  /** A PENDING slot holds nothing behind a detached stream. */
  lemma FitsAt(c: Conn, k: nat, limit: nat)
    requires ConnOk(c, limit) && PendingSlot(c, k) && c.pc != Gone
    ensures Fits(c.slots[k].value.cout) && Fits(c.slots[k].value.cerr)
  {
    hide Parse;
    assert IdOk(c, k, limit);
  }

  lemma {:induction false} RunOk(trace: seq<State>, actions: seq<Action>, limit: nat, i: nat)
    requires Run(trace, actions, limit) && i < |trace|
    ensures Inv(trace[i]) && RepliesOk(trace[i], limit)
    decreases i
  {
    hide Inv, RepliesOk, Next, Enabled;
    RunInv(trace, actions, limit, i);
    if i == 0 {
      InitialOk(trace[0], limit);
    } else {
      RunOk(trace, actions, limit, i - 1);
      NextOk(trace[i - 1], actions[i - 1], limit);
    }
  }

  lemma InitialOk(s: State, limit: nat)
    requires Initial(s)
    ensures RepliesOk(s, limit)
  {}
}
