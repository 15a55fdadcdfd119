/**
 `out_mutex` of src/connection.hpp: many threads send on one connection, each `send` may take any
 part of what is left of a packet, and only the holder of the mutex sends.
 */
module SendLock {
  import opened Bytes
  import opened Packets
  import opened Streams

  datatype Holder = Free | Held(thread: nat, rest: bytes)

  /** `wire` is what the socket has taken; `log` has the packets in the order of the locks; `down` says
      that a send has found the peer gone, after which the socket takes nothing more. */
  datatype Line = Line(wire: bytes, holder: Holder, log: seq<bytes>, down: bool)

  datatype Move = Lock(thread: nat, packet: bytes) | Send(thread: nat, n: nat) | Unlock(thread: nat) | Fail(thread: nat)

  /** A thread unlocks when all of its packet is sent, or when its send finds the peer gone. */
  predicate Enabled(l: Line, m: Move) {
    match m
    case Lock(_, _) => l.holder == Free
    case Send(t, n) => !l.down && l.holder.Held? && l.holder.thread == t && 0 < n <= |l.holder.rest|
    case Unlock(t) => l.holder == Held(t, [])
    case Fail(t) => l.holder.Held? && l.holder.thread == t && l.holder.rest != []
  }

  function Next(l: Line, m: Move): Line
    requires Enabled(l, m)
  {
    match m
    case Lock(t, packet) => l.(holder := Held(t, packet), log := l.log + [packet])
    case Send(t, n) => l.(wire := l.wire + l.holder.rest[..n], holder := Held(t, l.holder.rest[n..]))
    case Unlock(_) => l.(holder := Free)
    case Fail(_) => l.(holder := Free, down := true)
  }

  ghost predicate Run(trace: seq<Line>, moves: seq<Move>) {
    && |trace| == |moves| + 1 && trace[0] == Line([], Free, [], false)
    && forall i | 0 <= i < |moves| :: Enabled(trace[i], moves[i]) && trace[i + 1] == Next(trace[i], moves[i])
  }

  function Rest(l: Line): bytes {
    if l.holder.Held? then l.holder.rest else []
  }

  /** While the peer is there the wire is the packets in lock order, but for what the holder has still to
      send; when it is gone what has been sent is a beginning of them. */
  lemma {:induction false} WholePackets(trace: seq<Line>, moves: seq<Move>, i: nat)
    requires Run(trace, moves) && i < |trace|
    ensures !trace[i].down ==> trace[i].wire + Rest(trace[i]) == Flatten(trace[i].log)
    ensures trace[i].wire <= Flatten(trace[i].log)
    decreases i
  {
    if i > 0 {
      var l, m := trace[i - 1], moves[i - 1];
      WholePackets(trace, moves, i - 1);
      match m
      case Lock(_, packet) =>
        FlattenSnoc(l.log, packet);
        assert l.wire + [] == l.wire;
      case Send(_, n) => MoveSlice(l.wire, l.holder.rest, 0, n);
      case Unlock(_) => assert l.wire + [] == l.wire;
      case Fail(_) =>
    }
  }

  function Encodings(fs: seq<Frame>): seq<bytes>
    requires forall i | 0 <= i < |fs| :: WellFormed(fs[i])
  {
    seq(|fs|, i requires 0 <= i < |fs| => Encode(fs[i]))
  }

  lemma {:induction false} FlattenEncodings(fs: seq<Frame>)
    requires forall i | 0 <= i < |fs| :: WellFormed(fs[i])
    ensures Flatten(Encodings(fs)) == EncodeAll(fs)
    decreases |fs|
  {
    hide Encode;
    if fs != [] {
      assert Encodings(fs)[1..] == Encodings(fs[1..]);
      FlattenEncodings(fs[1..]);
    }
  }

  /** Hence a peer that reads the connection while nobody sends meets exactly the records sent, whole
      and in lock order, whichever threads sent them and however the sends were cut. */
  lemma PeerMeetsRecords(trace: seq<Line>, moves: seq<Move>, i: nat, fs: seq<Frame>)
    requires Run(trace, moves) && i < |trace| && trace[i].holder == Free && !trace[i].down
    requires forall j | 0 <= j < |fs| :: WellFormed(fs[j]) && InSync(fs[j])
    requires trace[i].log == Encodings(fs)
    ensures Walk(trace[i].wire) == PacketsOf(fs)
  {
    hide Walk, Encode;
    WholePackets(trace, moves, i);
    assert trace[i].wire + [] == trace[i].wire;
    FlattenEncodings(fs);
    WalkRecords(fs, []);
    WalkNothing();
    assert EncodeAll(fs) + [] == EncodeAll(fs);
  }

  /** At any other moment, also after a failure, the peer has met a beginning of the records sent, all of
      them whole but perhaps the last. */
  lemma PeerMeetsBeginning(trace: seq<Line>, moves: seq<Move>, i: nat, fs: seq<Frame>)
    requires Run(trace, moves) && i < |trace|
    requires forall j | 0 <= j < |fs| :: WellFormed(fs[j]) && InSync(fs[j])
    requires trace[i].log == Encodings(fs)
    ensures Beginning(Walk(trace[i].wire), fs)
  {
    hide Walk, Encode, Beginning;
    WholePackets(trace, moves, i);
    FlattenEncodings(fs);
    WalkBeginning(fs, trace[i].wire);
  }

  lemma WalkNothing()
    ensures Walk([]) == []
  {}
}
