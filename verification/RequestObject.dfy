/**
 The class `fcgi::Request` of src/request.cpp. Its method is proved against `Requests.HandlePacket`,
 the function that the step relation of module Lifecycle uses.
 */
module RequestObjects {
  import opened Bytes
  import opened Streams
  import opened NameValuePairs
  import opened OutStreams
  import opened Deserializers
  import opened Requests

  /** What a request uses of its connection. */
  class Connection {
    const wire: Wire
    var requestActives: int

    constructor ()
      ensures requestActives == 0 && wire.sent == [] && fresh(wire)
    {
      wire := new Wire();
      requestActives := 0;
    }
  }

  class Request {
    const connection: Connection
    const requestId: nat
    const limit: nat                            // `fcgi::limits::nvp_max_pair_size`
    var state: ReqState
    var paramsDeserializer: Deserializer?
    var params: Params
    const cout: OutStream
    const cerr: OutStream
    ghost var ended: bool

    /** The streams are sound and write to the connection under the id of the request. */
    ghost predicate StreamsValid()
      reads this, cout, cout.data, cerr, cerr.data
    {
      && cout.Valid() && cerr.Valid() && cout != cerr && cout.data != cerr.data
      && cout.wire == cerr.wire == connection.wire
      && cout.recType == Stdout && cerr.recType == Stderr && cout.id == cerr.id == requestId
    }

    ghost predicate Valid()
      reads this, cout, cout.data, cerr, cerr.data, paramsDeserializer
    {
      && StreamsValid()
      && (paramsDeserializer != null ==>
            && paramsDeserializer.Valid() && paramsDeserializer.EffectiveMaxPairSize() == limit
            && paramsDeserializer.params == params && params == ToMap(map[], paramsDeserializer.delivered))
    }

    /** The slot that the object is. */
    ghost function ToSlot(): Slot
      reads this, cout, cout.data, cerr, cerr.data, paramsDeserializer
    {
      Slot(state, if paramsDeserializer == null then None else Some(paramsDeserializer.Abstract()), params,
           cout.State(), cerr.State(), ended)
    }

    constructor (connection: Connection, requestId: nat, limit: nat)
      ensures Valid() && ToSlot() == FRESH
      ensures this.connection == connection && this.requestId == requestId && this.limit == limit
    {
      this.connection, this.requestId, this.limit := connection, requestId, limit;
      state, paramsDeserializer, params, ended := Ready, null, map[], false;
      cout := new OutStream(connection.wire, requestId, Stdout);
      cerr := new OutStream(connection.wire, requestId, Stderr);
    }

    /** Reset the streams and raise their `send_eof`. */
    method AcceptStreams()
      requires StreamsValid()
      modifies cout`attached, cout`sendEof, cerr`attached, cerr`sendEof
      ensures StreamsValid()
      ensures cout.State() == Accept(old(cout.State())) && cerr.State() == Accept(old(cerr.State()))
    {
      cerr.Reset();
      cout.Reset();
      cout.RaiseEof();
      cerr.RaiseEof();
    }

    /** The case BEGIN_REQUEST for a slot that is READY. */
    method Begin()
      requires Valid()
      modifies this`state, this`paramsDeserializer, this`params, this`ended, connection`requestActives
      modifies cout`attached, cout`sendEof, cerr`attached, cerr`sendEof
      ensures Valid() && ToSlot() == Requests.Begin(old(ToSlot()))
      ensures connection.requestActives == old(connection.requestActives) + 1
    {
      hide Fits, Parse, Deserializer.Valid, OutStream.Valid, OutStream.State;
      AcceptStreams();
      params, ended := map[], false;
      paramsDeserializer := new Deserializer(limit);
      NoPairs();
      state := ReadingParams;
      connection.requestActives := connection.requestActives + 1;
    }

    lemma NoPairs()
      ensures ToMap(map[], []) == map[]
    {}

    /** Say why, and close both streams. */
    method CloseStreams(message: Message)
      requires StreamsValid()
      modifies cout, cout.data, cerr, cerr.data, connection.wire
      ensures StreamsValid()
      ensures cout.State() == Streams.Close(old(cout.State())).out
      ensures cerr.State() == Streams.Close(Streams.Write(old(cerr.State()), message).out).out
      ensures connection.wire.sent + [EndRecord(requestId, CANCELLED_BODY)]
           == old(connection.wire.sent) + CancelRecords(old(cout.State()), old(cerr.State()), requestId, message)
      ensures cout.data == old(cout.data) || fresh(cout.data)
      ensures cerr.data == old(cerr.data) || fresh(cerr.data)
    {
      hide Streams.Write, Streams.Close, Fits, Records, OutStream.Valid, OutStream.State;
      ghost var out, err := cout.State(), cerr.State();
      ghost var said := Streams.Write(err, message);
      cerr.Write(message);
      cerr.Close();
      RecordsAppend(Stderr, requestId, said.sent, Streams.Close(said.out).sent);
      cout.Close();
    }

    /** The handler of the `pair_size_error`. */
    method Cancel(message: Message)
      requires StreamsValid()
      modifies this`state, this`paramsDeserializer, this`ended, connection`requestActives, connection.wire
      modifies cout, cout.data, cerr, cerr.data
      ensures Valid() && params == old(params) && paramsDeserializer == null && state == Ready && ended
      ensures ToSlot() == Requests.Cancel(old(ToSlot()), message)
      ensures connection.wire.sent
           == old(connection.wire.sent) + CancelRecords(old(cout.State()), old(cerr.State()), requestId, message)
      ensures connection.requestActives == old(connection.requestActives) - 1
    {
      hide CancelRecords, Streams.Write, Streams.Close, Fits;
      CloseStreams(message);
      paramsDeserializer := null;
      connection.wire.SendPacket(EndRecord(requestId, CANCELLED_BODY));
      state, ended := Ready, true;
      connection.requestActives := connection.requestActives - 1;
    }

    /** The object did what the function says: to the slot, on the wire, and to `request_actives`. */
    twostate predicate Did(h: Handled)
      reads this, cout, cout.data, cerr, cerr.data, paramsDeserializer, connection, connection.wire
    {
      && Valid() && ToSlot() == h.slot && connection.wire.sent == old(connection.wire.sent) + h.sent
      && connection.requestActives
         == old(connection.requestActives) + (if h.outcome == Begun then 1 else 0)
           - (if h.outcome == Cancelled then 1 else 0)
    }

    /** Let the deserializer have a record. */
    method FeedRecord(content: bytes) returns (r: FeedResult)
      requires Valid() && paramsDeserializer != null && content != []
      modifies this`params, paramsDeserializer
      ensures StreamsValid() && ToSlot() == Requests.Feed(old(ToSlot()), content, limit)
      ensures r == PairSizeError <==> ToSlot().deserializer.value.oversized
      ensures r != PairSizeError ==> Valid()
    {
      hide Parse, Fits, ToMap, Resume;
      FedParams(ToSlot(), paramsDeserializer.delivered, content);
      r := paramsDeserializer.Feed(content);
      params := paramsDeserializer.params;
    }

    /** The case PARAMS with a deserializer. */
    method FeedParams(content: bytes, message: Message) returns (outcome: Outcome)
      requires Valid() && paramsDeserializer != null
      modifies this`state, this`paramsDeserializer, this`params, this`ended, paramsDeserializer
      modifies connection`requestActives, connection.wire, cout, cout.data, cerr, cerr.data
      ensures var h := Requests.HandlePacket(old(ToSlot()), Record(RecType.Params, requestId, content), limit, message);
              outcome == h.outcome && Did(h)
    {
      hide Requests.HandlePacket, Requests.Feed, Requests.Cancel, CancelRecords, Parse, Fits, ToMap;
      hide Deserializer.Valid, OutStream.Valid, OutStream.State;
      ParamsHandled(ToSlot(), requestId, content, limit, message);
      if content == [] {
        state := Pending;
        return Completed;
      }
      var r := FeedRecord(content);
      if r == PairSizeError {
        Cancel(message);
        return Cancelled;
      }
      return Fed;
    }

    /** The map grows by the pairs that the record completes. */
    lemma FedParams(s: Slot, delivered: seq<Pair>, content: bytes)
      requires s.deserializer.Some? && !s.deserializer.value.oversized && s.deserializer.value.pairs == delivered
      requires s.params == ToMap(map[], delivered)
      ensures Requests.Feed(s, content, limit).params
          == ToMap(map[], Resume(s.deserializer.value, content, limit).pairs)
    {
      ToMapAppend(map[], delivered, Parse(s.deserializer.value.rest + content, limit).pairs);
    }

    /** `handle_packet`. A BEGIN_REQUEST that is too short ends in an exception that nobody catches. */
    method HandlePacket(r: Record, message: Message) returns (outcome: Outcome)
      requires Valid() && r.id == requestId
      modifies this`state, this`paramsDeserializer, this`params, this`ended, paramsDeserializer
      modifies connection`requestActives, connection.wire, cout, cout.data, cerr, cerr.data
      ensures var h := Requests.HandlePacket(old(ToSlot()), r, limit, message);
              outcome == h.outcome && Did(h)
    {
      hide Requests.HandlePacket, Requests.Begin, Fits, Parse, ToMap;
      hide Deserializer.Valid, OutStream.Valid, OutStream.State;
      if r.recType == RecType.Params && paramsDeserializer != null {
        outcome := FeedParams(r.content, message);
        return;
      }
      OthersHandled(ToSlot(), r, limit, message);
      match r.recType {
        case BeginRequest =>
          if state != Ready {
            return Ignored;
          } else if |r.content| < BODY_SIZE {
            return LogicError;
          }
          Begin();
          return Begun;
        case Params => return Ignored;
        case AbortRequest => return Ignored;
        case Stdin => return Ignored;
        case Data => return Ignored;
        case GetValues => return Ignored;
        case _ =>
          connection.wire.SendPacket(UnknownTypeRecord(requestId, r.recType));
          return Answered;
      }
    }

    /** `params_deserializer.reset()`, after the push. */
    method ReleaseDeserializer()
      requires Valid()
      modifies this`paramsDeserializer
      ensures Valid() && ToSlot() == old(ToSlot()).(deserializer := None)
    {
      paramsDeserializer := null;
    }
  }
}
