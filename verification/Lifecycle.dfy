/**
 The request life cycle over all connection threads and workers, as a step relation: the loop and
 the teardown of `Connection::thread_func` (src/connection.cpp), `push_request`, `pop_request` and
 `worker::thread_func` (src/request-workers.cpp). Every record a worker sends is a step of its own.
 */
module Lifecycle {
  import opened Bytes
  import opened Streams
  import opened NameValuePairs
  import opened Requests
  import OutStreams
  import opened Workers

  /** What can be observed on a connection, in order. */
  datatype Event = Received(record: Record) | Accepted(id: nat) | Emitted(record: Record)

  /** Where a connection thread is: reading; between the increment of `workers_backlog` and the
      push; between the push and the release of the deserializer; destroying slots; polling
      `request_actives`; gone with the whole connection. */
  datatype ConnPc = Reading | Pushing(slot: nat) | Pushed(slot: nat) | TearDown(next: nat) | Draining | Gone

  /** Two history variables: the log, and the ids of the requests that the teardown destroyed while they
      were reading their params. */
  datatype Conn = Conn(
    pc: ConnPc, slots: seq<Option<Slot>>, actives: int, log: seq<Event>, abandoned: set<nat>)

  const CONNECTED := Conn(Reading, [], 0, [], {})

  /** A connection keeps its index when it is gone. */
  datatype State = State(conns: seq<Conn>, pool: Pool)

  // ----- Steps of a connection thread -----

  function Emit(records: seq<Record>): seq<Event> {
    if records == [] then [] else [Emitted(records[0])] + Emit(records[1..])
  }

  /** `requests.resize(size)`; it never shrinks. */
  function Grow(slots: seq<Option<Slot>>, size: nat): (r: seq<Option<Slot>>)
    ensures |r| == if |slots| < size then size else |slots|
    ensures slots <= r && forall k | |slots| <= k < |r| :: r[k] == None
  {
    if |slots| < size then slots + seq(size - |slots|, _ => None) else slots
  }

  /** The slot that a record for `id` goes to, created when there is none. */
  function SlotFor(c: Conn, id: nat): Slot
    requires id > 0
  {
    if id <= |c.slots| && c.slots[id - 1].Some? then c.slots[id - 1].value else FRESH
  }

  /** Handle one record. A record with id 0 concerns no request. */
  function Receive(c: Conn, r: Record, limit: nat, message: Message): Conn {
    if r.id == 0 then
      c.(log := c.log + ManagementEvents(r))
    else
      var h := HandlePacket(SlotFor(c, r.id), r, limit, message);
      var begun, cancelled := One(h.outcome == Begun), One(h.outcome == Cancelled);
      c.(slots := Grow(c.slots, r.id)[r.id - 1 := Some(h.slot)],
         pc := if h.outcome == Completed then Pushing(r.id - 1) else c.pc,
         actives := c.actives + begun - cancelled,
         log := c.log + HandledEvents(h, r))
  }

  function HandledEvents(h: Handled, r: Record): seq<Event> {
    [Received(r)] + (if h.outcome == Begun then [Accepted(r.id)] else Emit(h.sent))
  }

  /** A management record: GET_VALUES has a handler of its own, any other type is unknown. */
  function ManagementEvents(r: Record): seq<Event> {
    [Received(r)] + (if r.recType == GetValues then [] else [Emitted(UnknownTypeRecord(0, r.recType))])
  }

  function WithSlot(c: Conn, k: nat, s: Slot): Conn
    requires k < |c.slots|
  {
    c.(slots := c.slots[k := Some(s)])
  }

  /** `params_deserializer.reset()` after the push. */
  function Release(c: Conn): Conn
    requires c.pc.Pushed? && c.pc.slot < |c.slots| && c.slots[c.pc.slot].Some?
  {
    WithSlot(c, c.pc.slot, c.slots[c.pc.slot].value.(deserializer := None)).(pc := Reading)
  }

  /** One turn of the destroying loop: slots that are READY or READING_PARAMS go, the latter uncounted. */
  function Dismantle(c: Conn): Conn
    requires c.pc.TearDown?
  {
    var k := c.pc.next;
    if k >= |c.slots| then c.(pc := Draining)
    else if c.slots[k].None? || c.slots[k].value.state == Pending then c.(pc := TearDown(k + 1))
    else
      var reading := c.slots[k].value.state == ReadingParams;
      c.(pc := TearDown(k + 1), slots := c.slots[k := None], actives := c.actives - One(reading),
         abandoned := if reading then c.abandoned + {k + 1} else c.abandoned,
         log := c.log + Emit(DestroyRecords(c.slots[k].value, k + 1)))
  }

  /** `~Connection`: the slots that are left are destroyed. */
  function Erase(c: Conn): Conn {
    c.(pc := Gone, slots := [], log := c.log + EraseEvents(c.slots, 0))
  }

  function EraseEvents(slots: seq<Option<Slot>>, from: nat): seq<Event>
    decreases |slots| - from
  {
    if from >= |slots| then []
    else
      var here := if slots[from].Some? then Emit(DestroyRecords(slots[from].value, from + 1)) else [];
      here + EraseEvents(slots, from + 1)
  }

  // ----- Steps of a worker -----

  datatype Which = Cout | Cerr

  /** What an application callback does with a stream; a close is a flush followed by a seal. */
  datatype AppOp = AppPut(c: byte) | AppFlush | AppSeal

  /** `ostream::close` after its flush: the end record, the fresh buffer. */
  function Seal(o: Out): Step {
    if o.attached then Step(CLOSED, if o.sendEof then [[]] else []) else Step(o, [])
  }

  function DoOp(o: Out, op: AppOp): Step {
    match op
    case AppPut(c) => Put(o, c)
    case AppFlush => Flush(o)
    case AppSeal => Seal(o)
  }

  function StreamOf(s: Slot, which: Which): Out {
    if which == Cout then s.cout else s.cerr
  }

  function RecTypeOf(which: Which): RecType {
    if which == Cout then Stdout else Stderr
  }

  function OnStream(c: Conn, k: nat, s: Slot, which: Which, op: AppOp): Conn
    requires k < |c.slots|
  {
    var step := DoOp(StreamOf(s, which), op);
    WithSlot(c, k, if which == Cout then s.(cout := step.out) else s.(cerr := step.out))
      .(log := c.log + Emit(OutStreams.Records(RecTypeOf(which), k + 1, step.sent)))
  }

  /** One stage of the end of a request: `cout.close()`, `cerr.close()`, the END_REQUEST record, and
      last of all the decrement of `request_actives`. The slot's state is not written. */
  function Finish(c: Conn, k: nat, s: Slot, stage: Stage, body: bytes): Conn
    requires k < |c.slots|
  {
    match stage
    case FlushOut => OnStream(c, k, s, Cout, AppFlush)
    case SealOut => OnStream(c, k, s, Cout, AppSeal)
    case FlushErr => OnStream(c, k, s, Cerr, AppFlush)
    case SealErr => OnStream(c, k, s, Cerr, AppSeal)
    case SendEnd => WithSlot(c, k, s.(ended := true)).(log := c.log + [Emitted(EndRecord(k + 1, body))])
    case Leave => c.(actives := c.actives - 1)
  }

  function NextWorker(r: Ref, stage: Stage): Worker {
    match stage
    case FlushOut => Closing(r, SealOut)
    case SealOut => Closing(r, FlushErr)
    case FlushErr => Closing(r, SealErr)
    case SealErr => Closing(r, SendEnd)
    case SendEnd => Closing(r, Leave)
    case Leave => Idle
  }

  // ----- The step relation -----

  datatype Action =
    | Connect
    | DoReceive(c: nat, record: Record, message: Message)
    | DoEnqueue(c: nat, woken: nat)
    | DoRelease(c: nat)
    | DoLose(c: nat)
    | DoDismantle(c: nat)
    | DoErase(c: nat)
    | DoTake(w: nat)
    | DoWake(w: nat)
    | DoExit(w: nat)
    | DoApp(w: nat, which: Which, op: AppOp)
    | DoReturn(w: nat)
    | DoFinish(w: nat, body: bytes)

  /** The slot a reference points to exists, on a connection that is not gone. */
  predicate Live(s: State, r: Ref) {
    r.conn < |s.conns| && r.slot < |s.conns[r.conn].slots| && s.conns[r.conn].slots[r.slot].Some?
  }

  function SlotAt(s: State, r: Ref): Slot
    requires Live(s, r)
  {
    s.conns[r.conn].slots[r.slot].value
  }

  /** Which thread may take which step. No step of a worker asks whether its request is still alive. */
  predicate Enabled(s: State, a: Action, limit: nat) {
    match a
    case Connect => true
    case DoReceive(c, r, message) =>
      && c < |s.conns| && s.conns[c].pc == Reading
      && (r.id > 0 ==> HandlePacket(SlotFor(s.conns[c], r.id), r, limit, message).outcome != LogicError)
    case DoEnqueue(c, woken) => c < |s.conns| && s.conns[c].pc.Pushing? && CanWake(s.pool, woken)
    case DoRelease(c) => c < |s.conns| && s.conns[c].pc.Pushed?
    case DoLose(c) => c < |s.conns| && s.conns[c].pc == Reading
    case DoDismantle(c) => c < |s.conns| && s.conns[c].pc.TearDown?
    case DoErase(c) => c < |s.conns| && s.conns[c].pc == Draining && s.conns[c].actives == 0
    case DoTake(w) => w < |s.pool.workers| && s.pool.workers[w] in {Idle, Notified}
    case DoWake(w) => w < |s.pool.workers| && s.pool.workers[w] == Asleep
    case DoExit(w) => w < |s.pool.workers| && s.pool.workers[w] == Idle
    case DoApp(w, which, op) => w < |s.pool.workers| && s.pool.workers[w].Running?
        && AppMay(s, s.pool.workers[w].ref, which, op)
    case DoReturn(w) => w < |s.pool.workers| && s.pool.workers[w].Running?
    case DoFinish(w, body) => w < |s.pool.workers| && s.pool.workers[w].Closing? && |body| == BODY_SIZE
  }

  /** The seal of a close comes right after its flush. */
  predicate AppMay(s: State, r: Ref, which: Which, op: AppOp) {
    op == AppSeal && Live(s, r) ==> StreamOf(SlotAt(s, r), which).pending == []
  }

  function WithConn(s: State, c: nat, conn: Conn): State
    requires c < |s.conns|
  {
    s.(conns := s.conns[c := conn])
  }

  function Next(s: State, a: Action, limit: nat): State
    requires Enabled(s, a, limit)
  {
    match a
    case Connect => s.(conns := s.conns + [CONNECTED])
    case DoReceive(c, r, message) =>
      var conn := Receive(s.conns[c], r, limit, message);
      WithConn(s, c, conn).(pool := s.pool.(backlog := s.pool.backlog + One(conn.pc.Pushing?)))
    case DoEnqueue(c, woken) =>
      var k := s.conns[c].pc.slot;
      WithConn(s, c, s.conns[c].(pc := Pushed(k))).(pool := Enqueue(s.pool, Ref(c, k), woken))
    case DoRelease(c) =>
      if Live(s, Ref(c, s.conns[c].pc.slot)) then WithConn(s, c, Release(s.conns[c])) else s
    case DoLose(c) => WithConn(s, c, s.conns[c].(pc := TearDown(0)))
    case DoDismantle(c) => WithConn(s, c, Dismantle(s.conns[c]))
    case DoErase(c) => WithConn(s, c, Erase(s.conns[c]))
    case DoTake(w) => s.(pool := Take(s.pool, w))
    case DoWake(w) => s.(pool := Move(s.pool, w, Notified))
    case DoExit(w) => s.(pool := Move(s.pool, w, Exited))
    case DoApp(w, which, op) =>
      var r := s.pool.workers[w].ref;
      if Live(s, r) then WithConn(s, r.conn, OnStream(s.conns[r.conn], r.slot, SlotAt(s, r), which, op)) else s
    case DoReturn(w) => s.(pool := Move(s.pool, w, Closing(s.pool.workers[w].ref, FlushOut)))
    case DoFinish(w, body) =>
      var Closing(r, stage) := s.pool.workers[w];
      var t := s.(pool := Move(s.pool, w, NextWorker(r, stage)));
      if Live(s, r) then WithConn(t, r.conn, Finish(s.conns[r.conn], r.slot, SlotAt(s, r), stage, body)) else t
  }

  /** At the start there is no connection and every worker is before its first `pop_request`. */
  predicate Initial(s: State) {
    && s.conns == [] && s.pool.queue == s.pool.pushed == s.pool.popped == [] && s.pool.backlog == 0
    && forall w | 0 <= w < |s.pool.workers| :: s.pool.workers[w] == Idle
  }

  /** `trace` is a run that takes the steps `actions`. */
  ghost predicate Run(trace: seq<State>, actions: seq<Action>, limit: nat) {
    && |trace| == |actions| + 1 && Initial(trace[0])
    && forall i | 0 <= i < |actions| ::
         Enabled(trace[i], actions[i], limit) && trace[i + 1] == Next(trace[i], actions[i], limit)
  }
}
