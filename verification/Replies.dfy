/**
 What the peer sees. The log of a connection is read, id by id, by an automaton that accepts
 exactly the well-formed replies of section 5 of the FastCGI Specification 1.0, and that gathers the PARAMS
 stream of the current request. In every reachable state no automaton has failed, and the params of
 a request are those of its own stream.
 */
module Replies {
  import opened Bytes
  import opened Streams
  import opened NameValuePairs
  import opened OutStreams
  import opened Requests
  import opened Workers
  import opened Lifecycle
  import opened Lifetime

  /** No request; a request whose STDOUT and STDERR streams have been ended or not; an ill-formed reply. */
  datatype Phase = Quiet | Replying(outEnded: bool, errEnded: bool) | Broken

  /** `own` is the content of the PARAMS records since the last accepted BEGIN_REQUEST, up to the
      empty record that makes it `closed`. */
  datatype View = View(phase: Phase, own: bytes, closed: bool)

  const NOTHING_SEEN := View(Quiet, [], true)

  /** A reply is any number of non-empty STDOUT and STDERR records, one empty record of each type
      after which there is no other, then one END_REQUEST; and only for an accepted request. */
  function NextPhase(p: Phase, r: Record): Phase {
    match r.recType
    case Stdout =>
      if !p.Replying? || p.outEnded then Broken
      else if r.content == [] then p.(outEnded := true)
      else if IsData(r.content) then p else Broken
    case Stderr =>
      if !p.Replying? || p.errEnded then Broken
      else if r.content == [] then p.(errEnded := true)
      else if IsData(r.content) then p else Broken
    case EndRequest => if p == Replying(true, true) && |r.content| == BODY_SIZE then Quiet else Broken
    case _ => p
  }

  function Look(v: View, e: Event, id: nat): View {
    match e
    case Accepted(i) =>
      if i != id then v else View(if v.phase == Quiet then Replying(false, false) else Broken, [], false)
    case Received(r) =>
      if r.id != id || r.recType != Streams.Params || v.closed then v
      else if r.content == [] then v.(closed := true) else v.(own := v.own + r.content)
    case Emitted(r) => if r.id != id then v else v.(phase := NextPhase(v.phase, r))
  }

  function Watch(v: View, log: seq<Event>, id: nat): View
    decreases |log|
  {
    if log == [] then v else Watch(Look(v, log[0], id), log[1..], id)
  }

  function Seen(log: seq<Event>, id: nat): View {
    Watch(NOTHING_SEEN, log, id)
  }

  lemma {:induction false} WatchAppend(v: View, a: seq<Event>, b: seq<Event>, id: nat)
    ensures Watch(v, a + b, id) == Watch(Watch(v, a, id), b, id)
    decreases |a|
  {
    hide Look;
    if a == [] {
      assert a + b == b;
    } else {
      assert (a + b)[1..] == a[1..] + b;
      WatchAppend(Look(v, a[0], id), a[1..], b, id);
    }
  }

  lemma WatchOne(v: View, e: Event, id: nat)
    ensures Watch(v, [e], id) == Look(v, e, id)
  {
    assert [e][1..] == [];
  }

  // ----- What the automaton means -----

  predicate Mine(e: Event, id: nat, t: RecType, empty: bool) {
    e.Emitted? && e.record.id == id && e.record.recType == t && (empty ==> e.record.content == [])
  }

  function CountEmitted(log: seq<Event>, id: nat, t: RecType, empty: bool): nat {
    if log == [] then 0 else One(Mine(log[0], id, t, empty)) + CountEmitted(log[1..], id, t, empty)
  }

  function CountAccepted(log: seq<Event>, id: nat): nat {
    if log == [] then 0 else One(log[0] == Accepted(id)) + CountAccepted(log[1..], id)
  }

  lemma {:induction false} BrokenForGood(v: View, log: seq<Event>, id: nat)
    requires v.phase == Broken
    ensures Watch(v, log, id).phase == Broken
    decreases |log|
  {
    if log != [] {
      BrokenForGood(Look(v, log[0], id), log[1..], id);
    }
  }

  /** What the counts owe between two views. */
  predicate Balanced(was: Phase, now: Phase, accepted: nat, ends: nat, outs: nat, errs: nat) {
    && ends + One(now.Replying?) == accepted + One(was.Replying?)
    && outs + One(now.Replying? && !now.outEnded) == accepted + One(was.Replying? && !was.outEnded)
    && errs + One(now.Replying? && !now.errEnded) == accepted + One(was.Replying? && !was.errEnded)
  }

  lemma OneEventBalanced(v: View, e: Event, id: nat)
    requires v.phase != Broken && Look(v, e, id).phase != Broken
    ensures Balanced(v.phase, Look(v, e, id).phase, One(e == Accepted(id)), One(Mine(e, id, EndRequest, false)),
                     One(Mine(e, id, Stdout, true)), One(Mine(e, id, Stderr, true)))
  {}

  /** A log that is not broken has one END_REQUEST, one empty STDOUT and one empty STDERR record for
      each accepted request, but for what the current request has still to send. */
  lemma {:induction false} OneOfEach(v: View, log: seq<Event>, id: nat)
    requires Watch(v, log, id).phase != Broken
    ensures Balanced(v.phase, Watch(v, log, id).phase, CountAccepted(log, id), CountEmitted(log, id, EndRequest, false),
                     CountEmitted(log, id, Stdout, true), CountEmitted(log, id, Stderr, true))
    decreases |log|
  {
    hide Look, Mine;
    if v.phase == Broken {
      BrokenForGood(v, log, id);
      assert false;
    }
    if log != [] {
      if Look(v, log[0], id).phase == Broken {
        BrokenForGood(Look(v, log[0], id), log[1..], id);
        assert false;
      }
      OneEventBalanced(v, log[0], id);
      OneOfEach(Look(v, log[0], id), log[1..], id);
    }
  }

  /** The records and requests of other ids are not looked at. */
  function Restrict(log: seq<Event>, id: nat): seq<Event> {
    if log == [] then []
    else (if IdOf(log[0]) == id then [log[0]] else []) + Restrict(log[1..], id)
  }

  function IdOf(e: Event): nat {
    match e
    case Received(r) => r.id
    case Accepted(id) => id
    case Emitted(r) => r.id
  }

  lemma {:induction false} OthersUnseen(v: View, log: seq<Event>, id: nat)
    ensures Watch(v, log, id) == Watch(v, Restrict(log, id), id)
    decreases |log|
  {
    hide NextPhase;
    if log != [] {
      OthersUnseen(Look(v, log[0], id), log[1..], id);
      var rest := Restrict(log[1..], id);
      if IdOf(log[0]) == id {
        assert ([log[0]] + rest)[1..] == rest;
      } else {
        assert [] + rest == rest;
      }
    }
  }

  // ----- Emission -----

  lemma EmitAppend(a: seq<Record>, b: seq<Record>)
    ensures Emit(a + b) == Emit(a) + Emit(b)
  {
    if a == [] {
      assert a + b == b;
    } else {
      assert (a + b)[1..] == a[1..] + b;
      EmitAppend(a[1..], b);
    }
  }

  predicate AllFor(rs: seq<Record>, id: nat) {
    forall i | 0 <= i < |rs| :: rs[i].id == id
  }

  lemma {:induction false} RecordsFor(t: RecType, id: nat, contents: seq<bytes>)
    ensures AllFor(Records(t, id, contents), id)
    decreases |contents|
  {
    if contents != [] {
      RecordsFor(t, id, contents[1..]);
    }
  }

  lemma {:induction false} EmittedElsewhere(v: View, rs: seq<Record>, id: nat, other: nat)
    requires AllFor(rs, other) && other != id
    ensures Watch(v, Emit(rs), id) == v
    decreases |rs|
  {
    if rs != [] {
      EmittedElsewhere(v, rs[1..], id, other);
      assert ([Emitted(rs[0])] + Emit(rs[1..]))[1..] == Emit(rs[1..]);
    }
  }

  /** The record type of a stream is open in a view. */
  predicate Open(v: View, which: Which) {
    v.phase.Replying? && !(if which == Cout then v.phase.outEnded else v.phase.errEnded)
  }

  function EndStream(v: View, which: Which): View
    requires v.phase.Replying?
  {
    if which == Cout then v.(phase := v.phase.(outEnded := true)) else v.(phase := v.phase.(errEnded := true))
  }

  lemma {:induction false} DataSeen(v: View, which: Which, id: nat, body: seq<bytes>)
    requires Open(v, which) && AllData(body)
    ensures Watch(v, Emit(Records(RecTypeOf(which), id, body)), id) == v
    decreases |body|
  {
    if body != [] {
      DataSeen(v, which, id, body[1..]);
      var rs := Records(RecTypeOf(which), id, body);
      assert rs[1..] == Records(RecTypeOf(which), id, body[1..]);
      assert Emit(rs)[1..] == Emit(rs[1..]);
    }
  }

  lemma EndSeen(v: View, which: Which, id: nat)
    requires Open(v, which)
    ensures Watch(v, Emit(Records(RecTypeOf(which), id, [[]])), id) == EndStream(v, which)
  {
    var r := Record(RecTypeOf(which), id, []);
    var contents: seq<bytes> := [[]];
    assert contents[1..] == [];
    assert Records(RecTypeOf(which), id, contents) == [r];
    assert [r][1..] == [];
    assert Emit([r]) == [Emitted(r)];
    WatchOne(v, Emitted(r), id);
  }

  /** Closing a stream of an accepted request: data, then its end. */
  lemma SealedSeen(v: View, which: Which, id: nat, o: Out, data: bytes, sent: seq<bytes>)
    requires Open(v, which) && o.sendEof && Sealed(o, data, sent)
    ensures Watch(v, Emit(Records(RecTypeOf(which), id, sent)), id) == EndStream(v, which)
  {
    var t := RecTypeOf(which);
    var body: seq<bytes> :| sent == body + [[]] && AllData(body) && Flatten(body) == o.pending + data;
    RecordsAppend(t, id, body, [[]]);
    EmitAppend(Records(t, id, body), Records(t, id, [[]]));
    WatchAppend(v, Emit(Records(t, id, body)), Emit(Records(t, id, [[]])), id);
    DataSeen(v, which, id, body);
    EndSeen(v, which, id);
  }
}
