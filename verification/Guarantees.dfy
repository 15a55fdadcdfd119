/** What holds in every state of every run of the server, read off the invariants. */
module Guarantees {
  import opened Bytes
  import opened Streams
  import opened NameValuePairs
  import opened Requests
  import opened Workers
  import opened Lifecycle
  import OutStreams
  import opened Lifetime
  import opened Replies
  import opened ReplyInvariant
  import opened ReplyContents

  /** Lifetime safety: a queued or running request is in a PENDING slot of a connection that is not
      gone, and no other queue entry or worker has it. */
  lemma NoDanglingRequest(trace: seq<State>, actions: seq<Action>, limit: nat, i: nat)
    requires Run(trace, actions, limit) && i < |trace|
    ensures var s := trace[i];
      && (forall j | 0 <= j < |s.pool.queue| ::
            PendingAt(s, s.pool.queue[j]) && s.conns[s.pool.queue[j].conn].pc != Gone)
      && (forall j, k | 0 <= j < k < |s.pool.queue| :: s.pool.queue[j] != s.pool.queue[k])
      && (forall w | 0 <= w < |s.pool.workers| && Holds(s.pool.workers[w]) ::
            var r := s.pool.workers[w].ref;
            PendingAt(s, r) && s.conns[r.conn].pc != Gone && r !in s.pool.queue
            && forall v | 0 <= v < |s.pool.workers| && v != w && Holds(s.pool.workers[v]) :: s.pool.workers[v].ref != r)
  {
    hide Next, Enabled, InQueue, InWorkers;
    var s := trace[i];
    RunInv(trace, actions, limit, i);
    forall j | 0 <= j < |s.pool.queue|
      ensures PendingAt(s, s.pool.queue[j]) && s.conns[s.pool.queue[j].conn].pc != Gone
    {
      QueuedIsPending(s, j);
      assert Shaped(s.conns[s.pool.queue[j].conn]);
    }
    forall j, k | 0 <= j < k < |s.pool.queue| ensures s.pool.queue[j] != s.pool.queue[k] {
      var p := |s.pool.popped|;
      assert s.pool.pushed[p + j] == s.pool.queue[j] && s.pool.pushed[p + k] == s.pool.queue[k];
    }
    forall w | 0 <= w < |s.pool.workers| && Holds(s.pool.workers[w])
      ensures var r := s.pool.workers[w].ref;
        PendingAt(s, r) && s.conns[r.conn].pc != Gone && r !in s.pool.queue
        && forall v | 0 <= v < |s.pool.workers| && v != w && Holds(s.pool.workers[v]) :: s.pool.workers[v].ref != r
    {
      Alone(s, w);
    }
  }

  /** When a connection is erased no queued or running request is one of its own. */
  lemma ErasureIsSafe(trace: seq<State>, actions: seq<Action>, limit: nat, i: nat, c: nat)
    requires Run(trace, actions, limit) && i < |actions| && actions[i] == DoErase(c)
    ensures var s := trace[i];
      && (forall j | 0 <= j < |s.pool.queue| :: s.pool.queue[j].conn != c)
      && (forall w | 0 <= w < |s.pool.workers| && Holds(s.pool.workers[w]) :: s.pool.workers[w].ref.conn != c)
  {
    hide Next, InQueue, InWorkers, Inv;
    var s := trace[i];
    assert Enabled(s, actions[i], limit);
    RunInv(trace, actions, limit, i);
    forall j | 0 <= j < |s.pool.queue| ensures s.pool.queue[j].conn != c {
      MemberOfQueue(s.pool.queue, s.pool.queue[j]);
      if s.pool.queue[j].conn == c {
        EraseIsSafe(s, c, s.pool.queue[j]);
      }
    }
    forall w | 0 <= w < |s.pool.workers| && Holds(s.pool.workers[w]) ensures s.pool.workers[w].ref.conn != c {
      HeldByWorker(s.pool.workers, w);
      if s.pool.workers[w].ref.conn == c {
        EraseIsSafe(s, c, s.pool.workers[w].ref);
      }
    }
  }

  /** Conservation: `request_actives` is what it counts, hence never negative; and every request accepted
      in the log has its END_REQUEST there, was abandoned at the teardown, or is active, the ones that a
      worker has ended and not yet left being both. */
  lemma ActivesConserved(trace: seq<State>, actions: seq<Action>, limit: nat, i: nat, c: nat)
    requires Run(trace, actions, limit) && i < |trace| && c < |trace[i].conns|
    ensures var s := trace[i]; var conn := s.conns[c];
      && conn.actives == CountReading(conn.slots) + One(conn.pc.Pushing?) + InPool(s.pool, OfConn(c)) >= 0
      && CountEvents(conn.log, Acceptances) + CountLeaving(s.pool.workers, c)
         == CountEvents(conn.log, Ends) + |conn.abandoned| + conn.actives
  {
    RunInv(trace, actions, limit, i);
    assert CountedAt(trace[i], c);
  }

  /** Whose ids `abandoned` holds: of the requests that have ended both streams, have no END_REQUEST, and
      have no slot any more. */
  lemma AbandonedExactly(trace: seq<State>, actions: seq<Action>, limit: nat, i: nat, c: nat, id: nat)
    requires Run(trace, actions, limit) && i < |trace| && c < |trace[i].conns| && id > 0
    ensures var conn := trace[i].conns[c];
      id in conn.abandoned
      <==> !(id <= |conn.slots| && conn.slots[id - 1].Some?) && Seen(conn.log, id).phase == Replying(true, true)
  {
    hide Parse, Next, Enabled;
    RunOk(trace, actions, limit, i);
    assert IdOk(trace[i].conns[c], id - 1, limit) && Shaped(trace[i].conns[c]);
  }

  /** Exactly-once dispatch in order, and a backlog that is never negative. */
  lemma ExactlyOnce(trace: seq<State>, actions: seq<Action>, limit: nat, i: nat)
    requires Run(trace, actions, limit) && i < |trace|
    ensures var p := trace[i].pool;
      && p.pushed == p.popped + p.queue
      && (forall j, k | 0 <= j < k < |p.pushed| :: p.pushed[j] != p.pushed[k])
      && p.backlog == |p.queue| + CountPushing(trace[i].conns) >= 0
  {
    RunInv(trace, actions, limit, i);
  }

  /** No wake-up is lost: while requests are queued and workers sleep, enough woken ones are on their way. */
  lemma NoWakeUpLost(trace: seq<State>, actions: seq<Action>, limit: nat, i: nat)
    requires Run(trace, actions, limit) && i < |trace|
    ensures var p := trace[i].pool;
      (exists w :: 0 <= w < |p.workers| && p.workers[w] == Asleep) ==> CountNotified(p.workers) >= |p.queue|
  {
    RunInv(trace, actions, limit, i);
  }

  /** What every peer sees: for every id the log is one that the automaton accepts, with one END_REQUEST
      and one empty record of each stream for each accepted request, but for the current one. */
  lemma WellFormedReplies(trace: seq<State>, actions: seq<Action>, limit: nat, i: nat, c: nat, id: nat)
    requires Run(trace, actions, limit) && i < |trace| && c < |trace[i].conns| && id > 0
    ensures var log := trace[i].conns[c].log; var now := Seen(log, id).phase;
      && now != Broken
      && CountEmitted(log, id, EndRequest, false) + One(now.Replying?) == CountAccepted(log, id)
      && CountEmitted(log, id, Stdout, true) + One(now.Replying? && !now.outEnded) == CountAccepted(log, id)
      && CountEmitted(log, id, Stderr, true) + One(now.Replying? && !now.errEnded) == CountAccepted(log, id)
  {
    hide Inv, Parse, Next, Enabled;
    RunOk(trace, actions, limit, i);
    assert IdOk(trace[i].conns[c], id - 1, limit);
    OneOfEach(NOTHING_SEEN, trace[i].conns[c].log, id);
  }

  /** The step destroys the slot of `id` while it reads its params. */
  predicate Abandons(s: State, a: Action, c: nat, id: nat) {
    && a == DoDismantle(c) && c < |s.conns| && id > 0 && s.conns[c].pc == TearDown(id - 1)
    && id <= |s.conns[c].slots| && IsReading(s.conns[c].slots[id - 1])
  }

  lemma AbandonedStep(s: State, a: Action, limit: nat, c: nat, id: nat)
    requires Inv(s) && Enabled(s, a, limit) && c < |Next(s, a, limit).conns|
    ensures id in Next(s, a, limit).conns[c].abandoned
       <==> (c < |s.conns| && id in s.conns[c].abandoned) || Abandons(s, a, c, id)
  {
    hide Unique, Counted, Fifo, PushedOnce, NoLostWakeUp, HandlePacket, HandledEvents, ManagementEvents, DoOp, Take;
    hide Enqueue;
  }

  /** The requests abandoned are those that were reading their params when the teardown came to them. */
  lemma {:induction false} AbandonedByTeardown(trace: seq<State>, actions: seq<Action>, limit: nat, i: nat, c: nat,
                                               id: nat)
    requires Run(trace, actions, limit) && i < |trace| && c < |trace[i].conns|
    ensures id in trace[i].conns[c].abandoned <==> exists j :: 0 <= j < i && Abandons(trace[j], actions[j], c, id)
    decreases i
  {
    hide Next, Enabled, Inv, Abandons;
    if i > 0 {
      RunInv(trace, actions, limit, i - 1);
      var s, a := trace[i - 1], actions[i - 1];
      AbandonedStep(s, a, limit, c, id);
      if c < |s.conns| {
        AbandonedByTeardown(trace, actions, limit, i - 1, c, id);
      } else {
        forall j | 0 <= j < i ensures !Abandons(trace[j], actions[j], c, id) {
          NotYet(trace, actions, limit, j, i - 1, c, id);
        }
      }
    }
  }

  /** A connection that does not exist did not exist before. */
  lemma {:induction false} NotYet(trace: seq<State>, actions: seq<Action>, limit: nat, j: nat, i: nat, c: nat, id: nat)
    requires Run(trace, actions, limit) && j <= i < |actions| && |trace[i].conns| <= c
    ensures !Abandons(trace[j], actions[j], c, id)
    decreases i - j
  {
    if j < i {
      MoreConns(trace[i - 1], actions[i - 1], limit);
      NotYet(trace, actions, limit, j, i - 1, c, id);
    }
  }

  lemma MoreConns(s: State, a: Action, limit: nat)
    requires Enabled(s, a, limit)
    ensures |s.conns| <= |Next(s, a, limit).conns|
  {}

  /** On a connection that is gone every request has its END_REQUEST, but for those that were reading their
      params at the teardown, which have the ends of both streams only. */
  lemma GoneMeansEnded(trace: seq<State>, actions: seq<Action>, limit: nat, i: nat, c: nat, id: nat)
    requires Run(trace, actions, limit) && i < |trace| && c < |trace[i].conns| && trace[i].conns[c].pc == Gone && id > 0
    ensures Seen(trace[i].conns[c].log, id).phase
         == if exists j :: 0 <= j < i && Abandons(trace[j], actions[j], c, id) then Replying(true, true) else Quiet
  {
    hide Parse, Next, Enabled, Abandons;
    RunOk(trace, actions, limit, i);
    assert IdOk(trace[i].conns[c], id - 1, limit) && Shaped(trace[i].conns[c]);
    AbandonedByTeardown(trace, actions, limit, i, c, id);
  }

  /** Multiplexing independence: the params of a request that has been handed over are the last-wins
      map of the pairs in its own PARAMS stream; what other ids receive plays no part, and no pair is
      over the limit. */
  lemma OwnParamsOnly(trace: seq<State>, actions: seq<Action>, limit: nat, i: nat, r: Ref)
    requires Run(trace, actions, limit) && i < |trace| && PendingAt(trace[i], r)
    ensures var own := Seen(Restrict(trace[i].conns[r.conn].log, r.slot + 1), r.slot + 1);
      var p := Parse(own.own, limit);
      own.closed && !p.oversized && AllWithin(p.pairs, limit) && SlotAt(trace[i], r).params == ToMap(map[], p.pairs)
  {
    hide Inv, Parse, Next, Enabled;
    RunOk(trace, actions, limit, i);
    var conn := trace[i].conns[r.conn];
    assert IdOk(conn, r.slot, limit) && Shaped(conn) by {
      GoneHasNoSlots(trace, actions, limit, i, r);
    }
    OthersUnseen(NOTHING_SEEN, conn.log, r.slot + 1);
    PairsWithinLimit(Seen(conn.log, r.slot + 1).own, limit);
  }

  lemma GoneHasNoSlots(trace: seq<State>, actions: seq<Action>, limit: nat, i: nat, r: Ref)
    requires Run(trace, actions, limit) && i < |trace| && PendingAt(trace[i], r)
    ensures Shaped(trace[i].conns[r.conn]) && trace[i].conns[r.conn].pc != Gone
  {
    hide Next, Enabled;
    RunInv(trace, actions, limit, i);
    assert Shaped(trace[i].conns[r.conn]);
  }

  // ----- The size limit -----

  lemma OversizedStep(c: Conn, k: nat, content: bytes, limit: nat, message: Message)
    requires ConnOk(c, limit) && Shaped(c) && c.pc == Reading && content != []
    requires k < |c.slots| && c.slots[k].Some? && c.slots[k].value.state == ReadingParams
    requires Parse(Seen(c.log, k + 1).own + content, limit).oversized
    ensures var d := Receive(c, Record(Streams.Params, k + 1, content), limit, message);
      && d.pc == Reading && d.actives == c.actives - 1
      && k < |d.slots| && d.slots[k].Some? && d.slots[k].value.state == Ready
      && d.slots[k].value.params == ToMap(map[], Parse(Seen(c.log, k + 1).own + content, limit).pairs)
      && Seen(d.log, k + 1).phase == Quiet
      && exists rs :: d.log == c.log + [Received(Record(Streams.Params, k + 1, content))] + Emit(rs)
           && CancelledReply(rs, k + 1, message, [])
  {
    hide Parse, ToMap, Write, Close, Watch, CancelledReply, CancelRecords;
    var r, s := Record(Streams.Params, k + 1, content), c.slots[k].value;
    assert IdOk(c, k, limit);
    FeedOk(s, content, Seen(c.log, k + 1), limit);
    ReceiveOk(c, r, limit, message);
    var d := Receive(c, r, limit, message);
    assert IdOk(d, k, limit);
    AppendAssociates(c.log, [Received(r)], Emit(CancelRecords(s.cout, s.cerr, k + 1, message)));
    CancelSays(s.cout, s.cerr, k + 1, message);
    assert [] + message == message;
  }

  /** The record that brings the first oversized pair, at any moment of any run: the pairs before it have
      been delivered, the request is not pushed but cancelled, and STDERR says why, both streams end, and
      one END_REQUEST with the status of a cancellation is sent. */
  lemma OversizedIsCancelled(trace: seq<State>, actions: seq<Action>, limit: nat, i: nat, r: Ref, content: bytes,
                             message: Message)
    requires Run(trace, actions, limit) && i < |actions| && content != []
    requires actions[i] == DoReceive(r.conn, Record(Streams.Params, r.slot + 1, content), message)
    requires Live(trace[i], r) && SlotAt(trace[i], r).state == ReadingParams
    requires Parse(Seen(trace[i].conns[r.conn].log, r.slot + 1).own + content, limit).oversized
    ensures var c, d := trace[i].conns[r.conn], trace[i + 1].conns[r.conn];
      && trace[i + 1].pool == trace[i].pool && d.pc == Reading && d.actives == c.actives - 1
      && Live(trace[i + 1], r) && SlotAt(trace[i + 1], r).state == Ready
      && SlotAt(trace[i + 1], r).params == ToMap(map[], Parse(Seen(c.log, r.slot + 1).own + content, limit).pairs)
      && Seen(d.log, r.slot + 1).phase == Quiet
      && exists rs :: d.log == c.log + [Received(Record(Streams.Params, r.slot + 1, content))] + Emit(rs)
           && CancelledReply(rs, r.slot + 1, message, [])
  {
    hide Parse, ToMap, Inv, Receive, CancelledReply, Watch;
    var s := trace[i];
    assert Enabled(s, actions[i], limit) && trace[i + 1] == Next(s, actions[i], limit);
    RunOk(trace, actions, limit, i);
    ShapedAt(s, r.conn);
    OversizedStep(s.conns[r.conn], r.slot, content, limit, message);
  }

  // ----- Ownership -----

  /** Whose step it is. */
  function WorkerOf(a: Action): Option<nat> {
    match a
    case DoTake(w) => Some(w)
    case DoWake(w) => Some(w)
    case DoExit(w) => Some(w)
    case DoApp(w, _, _) => Some(w)
    case DoReturn(w) => Some(w)
    case DoFinish(w, _) => Some(w)
    case _ => None
  }

  /** The hand-over: while a worker has a request nobody else writes its params, streams or state; the
      connection thread only lets the deserializer go. */
  lemma HandedOver(trace: seq<State>, actions: seq<Action>, limit: nat, i: nat, w: nat)
    requires Run(trace, actions, limit) && i < |actions|
    requires w < |trace[i].pool.workers| && Holds(trace[i].pool.workers[w]) && WorkerOf(actions[i]) != Some(w)
    ensures var r := trace[i].pool.workers[w].ref;
      && PendingAt(trace[i], r) && PendingAt(trace[i + 1], r)
      && trace[i + 1].pool.workers[w] == trace[i].pool.workers[w]
      && SameButDeserializer(SlotAt(trace[i], r), SlotAt(trace[i + 1], r))
  {
    hide Next, Enabled, Inv, InQueue, InWorkers;
    var s, a, r := trace[i], actions[i], trace[i].pool.workers[w].ref;
    assert Enabled(s, a, limit) && trace[i + 1] == Next(s, a, limit);
    RunInv(trace, actions, limit, i);
    Alone(s, w);
    HeldByWorker(s.pool.workers, w);
    StepSpares(s, a, limit, r);
    OwnWorker(s, a, limit, w);
  }

  /** Nor does anybody write to it while it waits in the queue. */
  lemma QueuedUntouched(trace: seq<State>, actions: seq<Action>, limit: nat, i: nat, j: nat)
    requires Run(trace, actions, limit) && i < |actions| && j < |trace[i].pool.queue|
    ensures var r := trace[i].pool.queue[j];
      && PendingAt(trace[i], r) && PendingAt(trace[i + 1], r)
      && SameButDeserializer(SlotAt(trace[i], r), SlotAt(trace[i + 1], r))
  {
    hide Next, Enabled, Inv, InQueue, InWorkers;
    var s, a, r := trace[i], actions[i], trace[i].pool.queue[j];
    assert Enabled(s, a, limit) && trace[i + 1] == Next(s, a, limit);
    RunInv(trace, actions, limit, i);
    MemberOfQueue(s.pool.queue, r);
    InFlight(s, r);
    if WorkerOf(a).Some? {
      ActingWorker(s, a, limit);
      if Holds(s.pool.workers[WorkerOf(a).value]) {
        Alone(s, WorkerOf(a).value);
      }
    }
    StepSpares(s, a, limit, r);
  }

  /** The connection thread has a deserializer for a slot exactly while the slot reads its params, or
      while that very request is being pushed. */
  lemma DeserializerWhileReading(trace: seq<State>, actions: seq<Action>, limit: nat, i: nat, r: Ref)
    requires Run(trace, actions, limit) && i < |trace| && Live(trace[i], r)
    ensures var c := trace[i].conns[r.conn];
      SlotAt(trace[i], r).deserializer.Some?
      <==> SlotAt(trace[i], r).state == ReadingParams || c.pc == Pushing(r.slot) || c.pc == Pushed(r.slot)
  {
    hide Next, Enabled;
    RunInv(trace, actions, limit, i);
    assert Shaped(trace[i].conns[r.conn]);
  }

  predicate SameButDeserializer(x: Slot, y: Slot) {
    x.(deserializer := None) == y.(deserializer := None)
  }

  lemma InFlight(s: State, r: Ref)
    requires Inv(s) && InPool(s.pool, OfRef(r)) > 0
    ensures PendingAt(s, r)
  {
    InFlightIsPending(s, r);
  }

  lemma ActingWorker(s: State, a: Action, limit: nat)
    requires Enabled(s, a, limit) && WorkerOf(a).Some?
    ensures WorkerOf(a).value < |s.pool.workers|
  {}

  /** The program counter of a worker is its own. */
  lemma OwnWorker(s: State, a: Action, limit: nat, w: nat)
    requires Enabled(s, a, limit) && w < |s.pool.workers| && Holds(s.pool.workers[w]) && WorkerOf(a) != Some(w)
    ensures w < |Next(s, a, limit).pool.workers| && Next(s, a, limit).pool.workers[w] == s.pool.workers[w]
  {
    hide OnStream, Finish, Receive, Dismantle, Erase, Release;
  }

  /** A request in the pool is written to by nobody but a worker that has it. */
  lemma StepSpares(s: State, a: Action, limit: nat, r: Ref)
    requires Inv(s) && Enabled(s, a, limit) && InPool(s.pool, OfRef(r)) > 0 && PendingAt(s, r)
    requires WorkerOf(a).Some? && WorkerOf(a).value < |s.pool.workers| && Holds(s.pool.workers[WorkerOf(a).value]) ==>
               s.pool.workers[WorkerOf(a).value].ref != r
    ensures PendingAt(Next(s, a, limit), r) && SameButDeserializer(SlotAt(s, r), SlotAt(Next(s, a, limit), r))
  {
    hide Next, Inv, InQueue, InWorkers;
    if WorkerOf(a).Some? {
      ActingWorker(s, a, limit);
      WorkerStepSpares(s, a, limit, r);
    } else {
      ConnStepSpares(s, a, limit, r);
    }
  }

  lemma WorkerStepSpares(s: State, a: Action, limit: nat, r: Ref)
    requires Enabled(s, a, limit) && WorkerOf(a).Some? && PendingAt(s, r)
    requires Holds(s.pool.workers[WorkerOf(a).value]) ==> s.pool.workers[WorkerOf(a).value].ref != r
    ensures PendingAt(Next(s, a, limit), r) && SlotAt(Next(s, a, limit), r) == SlotAt(s, r)
  {
    hide OnStream, Finish;
    var v := WorkerOf(a).value;
    if Holds(s.pool.workers[v]) && s.pool.workers[v].ref.conn == r.conn && Live(s, s.pool.workers[v].ref) {
      var c, j := s.conns[r.conn], s.pool.workers[v].ref.slot;
      WorkerSpares(c, j, if a.DoApp? then a.which else Cout, if a.DoApp? then a.op else AppFlush,
                   if a.DoFinish? then a.body else [], r.slot);
    }
  }

  lemma ConnStepSpares(s: State, a: Action, limit: nat, r: Ref)
    requires Inv(s) && Enabled(s, a, limit) && WorkerOf(a).None? && PendingAt(s, r) && InPool(s.pool, OfRef(r)) > 0
    ensures PendingAt(Next(s, a, limit), r) && SameButDeserializer(SlotAt(s, r), SlotAt(Next(s, a, limit), r))
  {
    hide Unique, Counted, Fifo, PushedOnce, NoLostWakeUp, Receive, Dismantle, Erase, Release, InQueue, InWorkers;
    assert Shaped(s.conns[r.conn]);
    match a
    case DoReceive(c, record, message) =>
      if c == r.conn {
        ReceiveSpares(s.conns[c], record, limit, message, r.slot);
      }
    case DoRelease(c) =>
      if c == r.conn {
        ReleaseSpares(s.conns[c], r.slot);
      }
    case DoDismantle(c) =>
      if c == r.conn {
        DismantleSpares(s.conns[c], r.slot);
      }
    case DoErase(c) =>
      if c == r.conn {
        EraseIsSafe(s, c, r);
      }
    case _ =>
  }

  /** The id for which a step may send on a connection: that of the record received, or that of the slot,
      which is one more than its index. */
  function VoiceOf(s: State, a: Action, c: nat): Option<nat> {
    match a
    case DoReceive(d, r, _) => if d == c then Some(r.id) else None
    case DoDismantle(d) =>
      if d == c && c < |s.conns| && s.conns[c].pc.TearDown? then Some(s.conns[c].pc.next + 1) else None
    case _ =>
      if WorkerOf(a).None? || WorkerOf(a).value >= |s.pool.workers| then None
      else
        var w := s.pool.workers[WorkerOf(a).value];
        if Holds(w) && w.ref.conn == c then Some(w.ref.slot + 1) else None
  }

  predicate AllOf(events: seq<Event>, voice: Option<nat>) {
    forall e | e in events :: voice == Some(IdOf(e))
  }

  /** No step sends for a request other than the one it is at: whatever it adds to the log of a connection
      bears that id. */
  lemma OwnIdOnly(trace: seq<State>, actions: seq<Action>, limit: nat, i: nat, c: nat)
    requires Run(trace, actions, limit) && i < |actions| && c < |trace[i].conns|
    ensures c < |trace[i + 1].conns|
    ensures var was, now := trace[i].conns[c].log, trace[i + 1].conns[c].log;
      was <= now && AllOf(now[|was|..], VoiceOf(trace[i], actions[i], c))
  {
    hide Inv, Next, Enabled, AllOf, VoiceOf;
    RunOk(trace, actions, limit, i);
    assert Enabled(trace[i], actions[i], limit) && trace[i + 1] == Next(trace[i], actions[i], limit);
    StepVoice(trace[i], actions[i], limit, c);
  }

  lemma StepVoice(s: State, a: Action, limit: nat, c: nat)
    requires Inv(s) && RepliesOk(s, limit) && Enabled(s, a, limit) && c < |s.conns|
    ensures var t := Next(s, a, limit);
      && c < |t.conns| && s.conns[c].log <= t.conns[c].log
      && AllOf(t.conns[c].log[|s.conns[c].log|..], VoiceOf(s, a, c))
  {
    hide Inv, AllOf, Receive, Dismantle, OnStream, Finish, Erase, ConnOk, Staged, Settled;
    SaysNothing(s.conns[c].log, VoiceOf(s, a, c));
    match a
    case DoReceive(d, r, message) =>
      if d == c {
        ReceiveVoice(s.conns[c], r, limit, message);
      }
    case DoDismantle(d) =>
      if d == c {
        DismantleVoice(s.conns[c]);
      }
    case DoErase(d) =>
      if d == c {
        EraseOk(s, c, limit);
      }
    case DoApp(w, which, op) =>
      var r := s.pool.workers[w].ref;
      if r.conn == c && Live(s, r) {
        StreamVoice(s.conns[c], r.slot, SlotAt(s, r), which, op);
      }
    case DoFinish(w, body) =>
      var r := s.pool.workers[w].ref;
      if r.conn == c && Live(s, r) {
        FinishVoice(s.conns[c], r.slot, SlotAt(s, r), s.pool.workers[w].stage, body);
      }
    case _ =>
  }

  lemma {:induction false} EmitVoice(rs: seq<Record>, id: nat)
    requires AllFor(rs, id)
    ensures AllOf(Emit(rs), Some(id))
    decreases |rs|
  {
    if rs != [] {
      EmitVoice(rs[1..], id);
    }
  }

  lemma HandledVoice(s: Slot, r: Record, limit: nat, message: Message)
    ensures AllOf(HandledEvents(HandlePacket(s, r, limit, message), r), Some(r.id))
    ensures r.id == 0 ==> AllOf(ManagementEvents(r), Some(0))
  {
    hide HandlePacket;
    SentForId(s, r, limit, message);
    EmitVoice(HandlePacket(s, r, limit, message).sent, r.id);
  }

  lemma SaysNothing(log: seq<Event>, voice: Option<nat>)
    ensures AllOf(log[|log|..], voice)
  {}

  lemma ReceiveVoice(c: Conn, r: Record, limit: nat, message: Message)
    ensures var d := Receive(c, r, limit, message); c.log <= d.log && AllOf(d.log[|c.log|..], Some(r.id))
  {
    hide HandlePacket, HandledEvents, ManagementEvents, AllOf;
    HandledVoice(SlotFor(c, if r.id > 0 then r.id else 1), r, limit, message);
    var more := if r.id == 0 then ManagementEvents(r)
                else HandledEvents(HandlePacket(SlotFor(c, r.id), r, limit, message), r);
    assert (c.log + more)[|c.log|..] == more;
  }

  lemma DismantleVoice(c: Conn)
    requires c.pc.TearDown?
    ensures c.log <= Dismantle(c).log && AllOf(Dismantle(c).log[|c.log|..], Some(c.pc.next + 1))
  {
    hide DestroyRecords;
    var k := c.pc.next;
    if k < |c.slots| && c.slots[k].Some? {
      DestroyForId(c.slots[k].value, k + 1);
      EmitVoice(DestroyRecords(c.slots[k].value, k + 1), k + 1);
      var more := Emit(DestroyRecords(c.slots[k].value, k + 1));
      assert (c.log + more)[|c.log|..] == more;
    }
  }

  lemma StreamVoice(c: Conn, k: nat, s: Slot, which: Which, op: AppOp)
    requires k < |c.slots|
    ensures var d := OnStream(c, k, s, which, op); c.log <= d.log && AllOf(d.log[|c.log|..], Some(k + 1))
  {
    hide DoOp;
    var sent := DoOp(StreamOf(s, which), op).sent;
    RecordsFor(RecTypeOf(which), k + 1, sent);
    EmitVoice(OutStreams.Records(RecTypeOf(which), k + 1, sent), k + 1);
    var more := Emit(OutStreams.Records(RecTypeOf(which), k + 1, sent));
    assert (c.log + more)[|c.log|..] == more;
  }

  lemma FinishVoice(c: Conn, k: nat, s: Slot, stage: Stage, body: bytes)
    requires k < |c.slots|
    ensures var d := Finish(c, k, s, stage, body); c.log <= d.log && AllOf(d.log[|c.log|..], Some(k + 1))
  {
    hide OnStream;
    match stage
    case FlushOut => StreamVoice(c, k, s, Cout, AppFlush);
    case SealOut => StreamVoice(c, k, s, Cout, AppSeal);
    case FlushErr => StreamVoice(c, k, s, Cerr, AppFlush);
    case SealErr => StreamVoice(c, k, s, Cerr, AppSeal);
    case SendEnd => assert (c.log + [Emitted(EndRecord(k + 1, body))])[|c.log|..] == [Emitted(EndRecord(k + 1, body))];
    case Leave => assert c.log[|c.log|..] == [];
  }

  lemma ReceiveSpares(c: Conn, r: Record, limit: nat, message: Message, k: nat)
    requires Shaped(c) && c.pc == Reading && PendingSlot(c, k)
    ensures var d := Receive(c, r, limit, message); PendingSlot(d, k) && d.slots[k] == c.slots[k]
  {
    hide HandledEvents, ManagementEvents, HandlePacket;
    if r.id == k + 1 {
      HandledStreams(c.slots[k].value, r, limit, message);
    }
  }

  lemma ReleaseSpares(c: Conn, k: nat)
    requires Shaped(c) && c.pc.Pushed? && PendingSlot(c, k)
    ensures PendingSlot(Release(c), k) && SameButDeserializer(c.slots[k].value, Release(c).slots[k].value)
  {}

  lemma DismantleSpares(c: Conn, k: nat)
    requires c.pc.TearDown? && PendingSlot(c, k)
    ensures PendingSlot(Dismantle(c), k) && Dismantle(c).slots[k] == c.slots[k]
  {
    hide DestroyRecords;
  }

  /** A worker writes no slot but its own. */
  lemma WorkerSpares(c: Conn, j: nat, which: Which, op: AppOp, body: bytes, k: nat)
    requires j < |c.slots| && c.slots[j].Some? && k != j
    ensures var d := OnStream(c, j, c.slots[j].value, which, op);
            |d.slots| == |c.slots| && (k < |c.slots| ==> d.slots[k] == c.slots[k])
    ensures forall stage :: var d := Finish(c, j, c.slots[j].value, stage, body);
              |d.slots| == |c.slots| && (k < |c.slots| ==> d.slots[k] == c.slots[k])
  {
    hide DoOp;
  }
}
