/**
 One request slot: the fields of `fcgi::Request` that its life cycle depends on, and what
 `Request::handle_packet` of src/request.cpp does with one record.
 */
module Requests {
  import opened Bytes
  import opened NameValuePairs
  import opened Streams
  import opened OutStreams
  import opened Packets

  /** `Request::State`; APP_RUNNING is never stored by the source. */
  datatype ReqState = Ready | ReadingParams | Pending

  /** `deserializer` is what `params_deserializer` has made of its input, if there is one. `ended` is
      a history variable: the END_REQUEST record of the accepted request has been sent. */
  datatype Slot = Slot(
    state: ReqState, deserializer: Option<Parsed>, params: Params, cout: Out, cerr: Out, ended: bool)

  /** `Request::Request`. */
  const FRESH := Slot(Ready, None, map[], Out([], false, true), Out([], false, true), false)

  /** The message of the `pair_size_error`, with what the handler adds to it. */
  type Message = bytes

  /** What handling a record does: the slot after it, the records sent, and what becomes of the request. */
  datatype Outcome = Ignored | Begun | Fed | Completed | Cancelled | Answered | LogicError
  datatype Handled = Handled(slot: Slot, sent: seq<Record>, outcome: Outcome)

  /** The size of `BeginRequestBody` and of `EndRequestBody`. */
  const BODY_SIZE := 8

  function EndRecord(id: nat, body: bytes): Record {
    Record(EndRequest, id, body)
  }

  /** The body of the END_REQUEST of a cancelled request: 0x9020816E and REQUEST_COMPLETE. */
  const CANCELLED_BODY: bytes := [0x90, 0x20, 0x81, 0x6E, 0, 0, 0, 0]

  function UnknownTypeRecord(id: nat, t: RecType): Record {
    Record(UnknownType, id, [TypeCode(t), 0, 0, 0, 0, 0, 0, 0])
  }

  /** The case BEGIN_REQUEST in state READY: reset the streams, raise `send_eof`, forget the params. */
  function Begin(s: Slot): Slot {
    Slot(ReadingParams, Some(NOTHING), map[], Accept(s.cout), Accept(s.cerr), false)
  }

  /** The records of the two streams and the END_REQUEST of a request that is cancelled: `cerr` takes
      the message and is closed, then `cout`. */
  function CancelRecords(cout: Out, cerr: Out, id: nat, message: Message): seq<Record> {
    var said := Write(cerr, message);
    Records(Stderr, id, said.sent + Close(said.out).sent)
    + Records(Stdout, id, Close(cout).sent)
    + [EndRecord(id, CANCELLED_BODY)]
  }

  /** The handler of the `pair_size_error`. */
  function Cancel(s: Slot, message: Message): Slot {
    s.(state := Ready, deserializer := None, cout := Close(s.cout).out,
       cerr := Close(Write(s.cerr, message).out).out, ended := true)
  }

  /** The parser after one more record, and the map with the pairs this record has completed. */
  function Feed(s: Slot, content: bytes, limit: nat): Slot
    requires s.deserializer.Some?
  {
    var was := s.deserializer.value;
    s.(deserializer := Some(Resume(was, content, limit)),
       params := ToMap(s.params, if was.oversized then [] else Parse(was.rest + content, limit).pairs))
  }

  /** `Request::handle_packet`. On the last PARAMS record the slot is handed over: the push and the
      release of the deserializer are steps of their own (module Lifecycle). */
  function HandlePacket(s: Slot, r: Record, limit: nat, message: Message): Handled {
    match r.recType
    case BeginRequest =>
      if s.state != Ready then Handled(s, [], Ignored)
      else if |r.content| < BODY_SIZE then Handled(s, [], LogicError)
      else Handled(Begin(s), [], Begun)
    case Params =>
      if s.deserializer.None? then Handled(s, [], Ignored)
      else if r.content == [] then Handled(s.(state := Pending), [], Completed)
      else
        var fed := Feed(s, r.content, limit);
        if fed.deserializer.value.oversized
        then Handled(Cancel(fed, message), CancelRecords(fed.cout, fed.cerr, r.id, message), Cancelled)
        else Handled(fed, [], Fed)
    case AbortRequest => Handled(s, [], Ignored)
    case Stdin => Handled(s, [], Ignored)
    case Data => Handled(s, [], Ignored)
    case GetValues => Handled(s, [], Ignored)
    case _ => Handled(s, [UnknownTypeRecord(r.id, r.recType)], Answered)
  }

  /** The case PARAMS with a deserializer, outcome by outcome. */
  lemma ParamsHandled(s: Slot, id: nat, content: bytes, limit: nat, message: Message)
    requires s.deserializer.Some?
    ensures var h, fed := HandlePacket(s, Record(RecType.Params, id, content), limit, message), Feed(s, content, limit);
      && (content == [] ==> h == Handled(s.(state := Pending), [], Completed))
      && (content != [] && fed.deserializer.value.oversized ==>
            h == Handled(Cancel(fed, message), CancelRecords(fed.cout, fed.cerr, id, message), Cancelled))
      && (content != [] && !fed.deserializer.value.oversized ==> h == Handled(fed, [], Fed))
  {
    hide Feed, Cancel, CancelRecords;
  }

  /** The other cases, outcome by outcome. */
  lemma OthersHandled(s: Slot, r: Record, limit: nat, message: Message)
    requires r.recType == RecType.Params ==> s.deserializer.None?
    ensures var h := HandlePacket(s, r, limit, message);
      if r.recType == BeginRequest && s.state == Ready then
        h == if |r.content| < BODY_SIZE then Handled(s, [], LogicError) else Handled(Begin(s), [], Begun)
      else if r.recType in {BeginRequest, RecType.Params, AbortRequest, Stdin, Data, GetValues} then
        h == Handled(s, [], Ignored)
      else
        h == Handled(s, [UnknownTypeRecord(r.id, r.recType)], Answered)
  {
    hide Begin;
  }

  /** `~Request`: the streams are destroyed in the reverse order of their declaration. */
  function DestroyRecords(s: Slot, id: nat): seq<Record> {
    Records(Stderr, id, Destroy(s.cerr)) + Records(Stdout, id, Destroy(s.cout))
  }
}
