/**
 The replies as the peer meets them: the records of a connection's log, framed, sent in parts under the
 output mutex and met again by a reading loop, form well-formed replies for every id.
 */
module WireReplies {
  import opened Bytes
  import opened Streams
  import opened NameValuePairs
  import opened Requests
  import opened Packets
  import opened Workers
  import opened Lifecycle
  import opened Lifetime
  import opened Replies
  import opened ReplyInvariant
  import ReplyContents
  import SendLock

  /** The records that a connection has sent, in the order of its log. */
  function Sent(log: seq<Event>): seq<Record> {
    if log == [] then []
    else (if log[0].Emitted? then [log[0].record] else []) + Sent(log[1..])
  }

  /** The records without padding, as they go out. */
  function Framed(rs: seq<Record>): (fs: seq<Frame>)
    ensures |fs| == |rs|
  {
    seq(|rs|, i requires 0 <= i < |rs| => Frame(rs[i], []))
  }

  /** The peer does not see when a request is accepted: a reply begins with its first stream record. */
  function NextOnWire(p: Phase, r: Record): Phase {
    NextPhase(if p == Quiet && r.recType in {Stdout, Stderr} then Replying(false, false) else p, r)
  }

  /** What the packets met make of the reply for an id. */
  function OnWire(p: Phase, met: seq<Packet>, id: nat): Phase
    decreases |met|
  {
    if met == [] then p
    else
      var h := met[0].header;
      OnWire(if h.requestId == id then NextOnWire(p, Record(h.recType, id, met[0].content)) else p, met[1..], id)
  }

  /** How many packets of a type are for an id; with `empty`, only those without content. */
  function CountMet(met: seq<Packet>, id: nat, t: RecType, empty: bool): nat {
    if met == [] then 0
    else
      var h := met[0].header;
      One(h.requestId == id && h.recType == t && (empty ==> met[0].content == [])) + CountMet(met[1..], id, t, empty)
  }

  /** What the peer knows of the phase of an id. */
  predicate Follows(seen: Phase, wire: Phase) {
    seen == Broken || wire == seen || (seen == Replying(false, false) && wire == Quiet)
  }

  lemma StepFollows(v: View, e: Event, id: nat, p: Phase)
    requires Follows(v.phase, p)
    ensures Follows(Look(v, e, id).phase, if e.Emitted? && e.record.id == id then NextOnWire(p, e.record) else p)
  {}

  /** The packets that the records sent make. */
  function SentPackets(log: seq<Event>): seq<Packet> {
    PacketsOf(Framed(Sent(log)))
  }

  lemma PacketsOfLog(log: seq<Event>)
    ensures log == [] ==> SentPackets(log) == []
    ensures log != [] && !log[0].Emitted? ==> SentPackets(log) == SentPackets(log[1..])
    ensures log != [] && log[0].Emitted? ==>
      && SentPackets(log) != [] && SentPackets(log)[0] == PacketOf(Frame(log[0].record, []))
      && SentPackets(log)[1..] == SentPackets(log[1..])
  {
    if log != [] {
      var rest := Sent(log[1..]);
      if log[0].Emitted? {
        assert Sent(log) == [log[0].record] + rest;
        assert SentPackets(log)[1..] == SentPackets(log[1..]);
      } else {
        assert [] + rest == rest;
      }
    }
  }

  /** The phase on the wire follows the phase in the log. */
  lemma {:induction false} WireFollows(v: View, log: seq<Event>, id: nat, p: Phase)
    requires Follows(v.phase, p)
    ensures Follows(Watch(v, log, id).phase, OnWire(p, SentPackets(log), id))
    decreases |log|
  {
    hide Look, NextOnWire, Follows, SentPackets;
    PacketsOfLog(log);
    if log != [] {
      var e := log[0];
      StepFollows(v, e, id, p);
      WireFollows(Look(v, e, id), log[1..], id, if e.Emitted? && e.record.id == id then NextOnWire(p, e.record) else p);
    }
  }

  /** The packets met are the records emitted. */
  lemma {:induction false} MetIsEmitted(log: seq<Event>, id: nat, t: RecType, empty: bool)
    ensures CountMet(SentPackets(log), id, t, empty) == CountEmitted(log, id, t, empty)
    decreases |log|
  {
    hide SentPackets;
    PacketsOfLog(log);
    if log != [] {
      MetIsEmitted(log[1..], id, t, empty);
    }
  }

  lemma {:induction false} OnWireAppend(p: Phase, a: seq<Packet>, b: seq<Packet>, id: nat)
    ensures OnWire(p, a + b, id) == OnWire(OnWire(p, a, id), b, id)
    decreases |a|
  {
    hide NextOnWire;
    if a == [] {
      assert a + b == b;
    } else {
      assert (a + b)[1..] == a[1..] + b;
      var h := a[0].header;
      OnWireAppend(if h.requestId == id then NextOnWire(p, Record(h.recType, id, a[0].content)) else p, a[1..], b, id);
    }
  }

  lemma {:induction false} BrokenOnWire(met: seq<Packet>, id: nat)
    ensures OnWire(Broken, met, id) == Broken
    decreases |met|
  {
    if met != [] {
      BrokenOnWire(met[1..], id);
    }
  }

  /** In every state of every run, and whichever parts the sends take: a peer that has read all of the
      connection has met, for every id, well-formed replies, with one END_REQUEST and one empty record of
      each stream for each accepted request, but for what the current one has still to send. */
  lemma RepliesMet(trace: seq<State>, actions: seq<Action>, limit: nat, i: nat, c: nat, id: nat,
                   line: seq<SendLock.Line>, moves: seq<SendLock.Move>, j: nat)
    requires Run(trace, actions, limit) && i < |trace| && c < |trace[i].conns| && id > 0
    requires SendLock.Run(line, moves) && j < |line| && line[j].holder == SendLock.Free && !line[j].down
    requires var fs := Framed(Sent(trace[i].conns[c].log));
      (forall k | 0 <= k < |fs| :: WellFormed(fs[k])) && line[j].log == SendLock.Encodings(fs)
    ensures var log, met := trace[i].conns[c].log, Walk(line[j].wire); var now := Seen(log, id).phase;
      && now != Broken && Follows(now, OnWire(Quiet, met, id))
      && CountMet(met, id, EndRequest, false) + One(now.Replying?) == CountAccepted(log, id)
      && CountMet(met, id, Stdout, true) + One(now.Replying? && !now.outEnded) == CountAccepted(log, id)
      && CountMet(met, id, Stderr, true) + One(now.Replying? && !now.errEnded) == CountAccepted(log, id)
  {
    hide Inv, Parse, Lifecycle.Next, Lifecycle.Enabled, Walk, WellFormed, SendLock.Run, SendLock.Encodings, OnWire;
    hide CountMet;
    var log := trace[i].conns[c].log;
    RunOk(trace, actions, limit, i);
    assert IdOk(trace[i].conns[c], id - 1, limit);
    OneOfEach(NOTHING_SEEN, log, id);
    SendLock.PeerMeetsRecords(line, moves, j, Framed(Sent(log)));
    WireFollows(NOTHING_SEEN, log, id, Quiet);
    MetIsEmitted(log, id, EndRequest, false);
    MetIsEmitted(log, id, Stdout, true);
    MetIsEmitted(log, id, Stderr, true);
  }

  /** At any other moment, also when the peer has been found gone in the middle of a record, what it has met
      is a beginning of such replies, but for the last packet, which may be cut. */
  lemma RepliesBegun(trace: seq<State>, actions: seq<Action>, limit: nat, i: nat, c: nat, id: nat,
                     line: seq<SendLock.Line>, moves: seq<SendLock.Move>, j: nat)
    requires Run(trace, actions, limit) && i < |trace| && c < |trace[i].conns| && id > 0
    requires SendLock.Run(line, moves) && j < |line|
    requires var fs := Framed(Sent(trace[i].conns[c].log));
      (forall k | 0 <= k < |fs| :: WellFormed(fs[k])) && line[j].log == SendLock.Encodings(fs)
    ensures var met := Walk(line[j].wire); met != [] ==> OnWire(Quiet, met[..|met| - 1], id) != Broken
  {
    hide Inv, Parse, Lifecycle.Next, Lifecycle.Enabled, Walk, WellFormed, SendLock.Run, SendLock.Encodings, OnWire;
    var log := trace[i].conns[c].log;
    var all, met := SentPackets(log), Walk(line[j].wire);
    RunOk(trace, actions, limit, i);
    assert IdOk(trace[i].conns[c], id - 1, limit);
    NotBroken(trace[i].conns[c], id, limit);
    WireFollows(NOTHING_SEEN, log, id, Quiet);
    SendLock.PeerMeetsBeginning(line, moves, j, Framed(Sent(log)));
    if met != [] {
      var whole := met[..|met| - 1];
      assert whole == all[..|whole|];
      assert all == whole + all[|whole|..];
      OnWireAppend(Quiet, whole, all[|whole|..], id);
      BrokenOnWire(all[|whole|..], id);
    }
  }

  lemma NotBroken(c: Conn, id: nat, limit: nat)
    requires id > 0 && IdOk(c, id - 1, limit)
    ensures Seen(c.log, id).phase != Broken
  {
    hide Parse;
  }

  // ----- The contents met -----

  /** The contents of the packets of a type met for an id since its last END_REQUEST, after `before`. */
  function Octets(before: bytes, met: seq<Packet>, id: nat, t: RecType): bytes
    decreases |met|
  {
    if met == [] then before
    else
      var h := met[0].header;
      var next := if h.requestId != id then before
                  else if h.recType == EndRequest then []
                  else if h.recType == t then before + met[0].content
                  else before;
      Octets(next, met[1..], id, t)
  }

  /** While a reply is under way what has been met of it is what has been sent. */
  predicate SameOctets(now: Phase, sent: bytes, met: bytes) {
    match now
    case Quiet => met == []
    case Replying(_, _) => met == sent
    case Broken => true
  }

  lemma {:induction false} OctetsFollow(v: View, log: seq<Event>, id: nat, t: RecType, sent: bytes, met: bytes)
    requires t in {Stdout, Stderr} && SameOctets(v.phase, sent, met)
    ensures SameOctets(Watch(v, log, id).phase, ReplyContents.Sent(sent, log, id, t),
                       Octets(met, SentPackets(log), id, t))
    decreases |log|
  {
    hide SentPackets, Look, SameOctets, IsData;
    PacketsOfLog(log);
    if log != [] {
      var e := log[0];
      var sent' := match e
        case Received(_) => sent
        case Accepted(i) => if i == id then [] else sent
        case Emitted(r) => if r.id == id && r.recType == t then sent + r.content else sent;
      var met' := if !e.Emitted? || e.record.id != id then met
                  else if e.record.recType == EndRequest then []
                  else if e.record.recType == t then met + e.record.content
                  else met;
      EventOctets(v, e, id, t, sent, met);
      OctetsFollow(Look(v, e, id), log[1..], id, t, sent', met');
    }
  }

  lemma EventOctets(v: View, e: Event, id: nat, t: RecType, sent: bytes, met: bytes)
    requires t in {Stdout, Stderr} && SameOctets(v.phase, sent, met)
    ensures SameOctets(Look(v, e, id).phase,
              match e
              case Received(_) => sent
              case Accepted(i) => if i == id then [] else sent
              case Emitted(r) => if r.id == id && r.recType == t then sent + r.content else sent,
              if !e.Emitted? || e.record.id != id then met
              else if e.record.recType == EndRequest then []
              else if e.record.recType == t then met + e.record.content
              else met)
  {}

  /** While a reply is under way, a peer that has read all of the connection has met of it, on STDOUT and on
      STDERR, exactly the octets sent since the request was accepted. */
  lemma ContentsMet(log: seq<Event>, id: nat, t: RecType, line: seq<SendLock.Line>, moves: seq<SendLock.Move>, j: nat)
    requires t in {Stdout, Stderr} && Seen(log, id).phase.Replying?
    requires SendLock.Run(line, moves) && j < |line| && line[j].holder == SendLock.Free && !line[j].down
    requires var fs := Framed(Sent(log));
      (forall k | 0 <= k < |fs| :: WellFormed(fs[k])) && line[j].log == SendLock.Encodings(fs)
    ensures Octets([], Walk(line[j].wire), id, t) == ReplyContents.Sent([], log, id, t)
  {
    hide Walk, WellFormed, SendLock.Run, SendLock.Encodings, Octets, ReplyContents.Sent;
    SendLock.PeerMeetsRecords(line, moves, j, Framed(Sent(log)));
    OctetsFollow(NOTHING_SEEN, log, id, t, [], []);
  }
}
