/**
 The two I/O loops of src/connection.cpp, `recv_all` and `send_packet`, over a socket whose
 system calls may move any number of octets, be interrupted, or fail.
 */
module Sockets {
  import opened Bytes

  /** What one `read` does: at most `most` octets, an errno on which the source tries again
      (EINTR, ENOBUFS), or another errno. */
  datatype ReadReply = Chunk(most: nat) | ReadAgain | ReadFault

  /** What one `send` does: at most `most` octets, an errno on which the source tries again, a
      peer that is gone (ECONNRESET, EPIPE), or an errno that is thrown. */
  datatype SendReply = Sent(most: nat) | SendAgain | PeerGone | SendFault

  datatype SendResult = Whole | Cut | Threw

  /** What a call of `read` means to `recv_all`. */
  datatype ReadOutcome = Got(octets: bytes) | TryAgain | GaveUp

  /** How many of the replies let at least one octet through. */
  function ReadProgress(replies: seq<ReadReply>): nat {
    if replies == [] then 0
    else (match replies[0] case Chunk(most) => (if most > 0 then 1 else 0) case _ => 0) + ReadProgress(replies[1..])
  }

  /** No reply ends the stream or is a fault, and at least `n` replies let an octet through. */
  predicate Progresses(replies: seq<ReadReply>, n: int) {
    && (forall i | 0 <= i < |replies| :: replies[i] != ReadFault && replies[i] != Chunk(0))
    && ReadProgress(replies) >= n
  }

  /** The replies are at least `n` and none of them is a failure or an interruption. */
  predicate Ample(replies: seq<ReadReply>, n: int) {
    && (forall i | 0 <= i < |replies| :: replies[i].Chunk? && replies[i].most > 0)
    && |replies| >= n
  }

  function SendProgress(replies: seq<SendReply>): nat {
    if replies == [] then 0
    else (match replies[0] case Sent(most) => most case _ => 0) + SendProgress(replies[1..])
  }

  /** No reply is a failure, and together they let at least `n` octets through. */
  predicate Sends(replies: seq<SendReply>, n: int) {
    PeerGone !in replies && SendFault !in replies && SendProgress(replies) >= n
  }

  /** How many replies of a script have been used, when `left` are left of it. */
  function Used<T>(script: seq<T>, left: seq<T>): nat
    requires |left| <= |script|
  {
    |script| - |left|
  }

  /** The last reply used. */
  function Last<T>(script: seq<T>, left: seq<T>): Option<T>
    requires |left| <= |script|
  {
    if |left| == |script| then None else Some(script[|script| - |left| - 1])
  }

  /** Using one more reply of a script. */
  lemma UseOne<T>(script: seq<T>, left: seq<T>)
    requires |left| <= |script| && left == script[Used(script, left)..]
    ensures var k := Used(script, left);
      left == [] || (script[k] == left[0] && left[1..] == script[k + 1..] && script[..k + 1] == script[..k] + [left[0]])
  {}

  /** After one reply: what is left of a script that makes progress, or of an ample one. */
  lemma ScriptGoesOn(script: seq<ReadReply>, n: nat)
    requires n > 0
    ensures script == [] ==> !Progresses(script, n) && !Ample(script, n)
    ensures script != [] && Progresses(script, n) ==>
      script[0] != ReadFault && script[0] != Chunk(0)
      && forall m: nat :: m <= (if script[0].Chunk? then n - 1 else n) ==> Progresses(script[1..], m)
  {
    if script != [] {
      assert forall i | 0 <= i < |script[1..]| :: script[1..][i] == script[i + 1];
    }
  }

  lemma AmpleGoesOn(script: seq<ReadReply>)
    ensures script != [] && Ample(script, |script|) ==>
      script[0].Chunk? && script[0].most > 0 && Ample(script[1..], |script| - 1)
  {
    if script != [] {
      assert forall i | 0 <= i < |script[1..]| :: script[1..][i] == script[i + 1];
    }
  }

  lemma AmpleLess(script: seq<ReadReply>, n: int)
    ensures Ample(script, n) ==> Ample(script, |script|) && |script| >= n
    ensures n <= |script| && Ample(script, |script|) ==> Ample(script, n)
  {}

  /** A reply after which `recv_all` gives up. */
  predicate Stops(last: Option<ReadReply>, incoming: bytes) {
    last.Some? && (last.value == ReadFault || (last.value.Chunk? && (last.value.most == 0 || incoming == [])))
  }

  function Min(a: nat, b: nat): nat {
    if a < b then a else b
  }

  class Socket {
    var incoming: bytes             // sent by the peer and not yet read
    var readScript: seq<ReadReply>  // what the next calls of `read` do; after them the peer is gone
    var outgoing: bytes             // accepted by `send`, in order
    var sendScript: seq<SendReply>  // what the next calls of `send` do; after them the peer is gone
    var socketInsane: bool          // true while the reading side is sound, in spite of its name

    constructor (incoming: bytes, readScript: seq<ReadReply>, sendScript: seq<SendReply>)
      ensures this.incoming == incoming && this.readScript == readScript && this.sendScript == sendScript
      ensures outgoing == [] && socketInsane
    {
      this.incoming, this.readScript, this.sendScript := incoming, readScript, sendScript;
      outgoing, socketInsane := [], true;
    }

    /** One `read` of at most `size` octets; an end of file is a connection reset. */
    method ReadOnce(size: nat) returns (r: ReadOutcome)
      requires size > 0
      modifies this`incoming, this`readScript
      ensures old(readScript) == [] ==> r == GaveUp && readScript == []
      ensures old(readScript) != [] ==> readScript == old(readScript)[1..]
      ensures if r.Got? then 0 < |r.octets| <= size && r.octets + incoming == old(incoming)
              else incoming == old(incoming)
      ensures r == TryAgain <==> old(readScript) != [] && old(readScript)[0] == ReadAgain
      ensures r == GaveUp <==> old(readScript) == [] || Stops(Some(old(readScript)[0]), old(incoming))
    {
      if readScript == [] {
        return GaveUp;
      }
      var reply := readScript[0];
      readScript := readScript[1..];
      match reply {
        case Chunk(most) =>
          var n := Min(Min(most, size), |incoming|);
          if n == 0 {
            return GaveUp;
          }
          r := Got(incoming[..n]);
          incoming := incoming[n..];
        case ReadAgain => return TryAgain;
        case ReadFault => return GaveUp;
      }
    }

    /** `recv_all`. The octets returned are always the next ones of the stream. The flag
        `socketInsane` stays true exactly when there are `size` of them and no call was interrupted: an
        interrupted call goes on reading, and is complete when enough replies make progress and none
        is a fault, but clears the flag all the same. */
    method RecvAll(size: nat) returns (data: bytes)
      modifies this`incoming, this`readScript, this`socketInsane
      ensures |data| <= size && data + incoming == old(incoming)
      ensures |readScript| <= |old(readScript)| && readScript == old(readScript)[Used(old(readScript), readScript)..]
      ensures socketInsane <==>
                old(socketInsane) && |data| == size
                && ReadAgain !in old(readScript)[..Used(old(readScript), readScript)]
      ensures |data| < size ==> readScript == [] || Stops(Last(old(readScript), readScript), incoming)
      ensures size <= |old(incoming)| && Progresses(old(readScript), size) ==> |data| == size
      ensures size <= |old(incoming)| && Ample(old(readScript), size) ==>
                socketInsane == old(socketInsane) && Ample(readScript, |old(readScript)| - size)
    {
      hide Progresses, Ample;
      data := [];
      var left: nat := size;
      ghost var script, smooth := readScript, Ample(readScript, size) && size <= |incoming|;
      ghost var k: nat := 0;
      AmpleLess(script, size);
      while left > 0
        invariant left <= size && |data| == size - left && data + incoming == old(incoming)
        invariant k <= |script| && readScript == script[k..]
        invariant socketInsane <==> old(socketInsane) && ReadAgain !in script[..k]
        invariant size <= |old(incoming)| && Progresses(script, size) ==> Progresses(readScript, left)
        invariant smooth ==> k <= size - left && Ample(readScript, |readScript|) && ReadAgain !in script[..k]
        decreases |readScript|, left
      {
        ScriptGoesOn(readScript, left);
        AmpleGoesOn(readScript);
        UseOne(script, readScript);
        var got := ReadOnce(left);
        k := Used(script, readScript);
        match got {
          case Got(octets) =>
            data, left := data + octets, left - |octets|;
          case TryAgain =>
            socketInsane := false;
          case GaveUp =>
            socketInsane := false;
            return;
        }
      }
      AmpleLess(readScript, |script| - size);
    }

    /** The unlocked body of `send_packet`. What has been sent is always a beginning of `buffer`; it is
        all of it when the replies let enough octets through and no failure comes first. */
    method SendPacket(buffer: bytes) returns (r: SendResult)
      modifies this`outgoing, this`sendScript
      ensures exists n ::
        0 <= n <= |buffer| && outgoing == old(outgoing) + buffer[..n] && (r == Whole <==> n == |buffer|)
      ensures Sends(old(sendScript), |buffer|) ==> r == Whole
      ensures |sendScript| <= |old(sendScript)| && sendScript == old(sendScript)[Used(old(sendScript), sendScript)..]
      ensures r == Threw ==> Last(old(sendScript), sendScript) == Some(SendFault)
      ensures r == Cut ==> sendScript == [] || Last(old(sendScript), sendScript) == Some(PeerGone)
      ensures PeerGone !in old(sendScript)[..Used(old(sendScript), sendScript)] || r == Cut
      ensures SendFault !in old(sendScript)[..Used(old(sendScript), sendScript)] || r == Threw
    {
      var at: nat := 0;
      while at < |buffer|
        invariant at <= |buffer| && outgoing == old(outgoing) + buffer[..at]
        invariant Sends(old(sendScript), |buffer|) ==> Sends(sendScript, |buffer| - at)
        invariant |sendScript| <= |old(sendScript)|
            && sendScript == old(sendScript)[Used(old(sendScript), sendScript)..]
        invariant PeerGone !in old(sendScript)[..Used(old(sendScript), sendScript)]
        invariant SendFault !in old(sendScript)[..Used(old(sendScript), sendScript)]
        decreases |sendScript|
      {
        if sendScript == [] {
          return Cut;
        }
        var reply := sendScript[0];
        ghost var k := Used(old(sendScript), sendScript);
        sendScript := sendScript[1..];
        assert reply == old(sendScript)[k];
        assert old(sendScript)[..k + 1] == old(sendScript)[..k] + [reply];
        match reply {
          case Sent(most) =>
            var n := Min(most, |buffer| - at);
            assert buffer[..at] + buffer[at..at + n] == buffer[..at + n];
            outgoing, at := outgoing + buffer[at..at + n], at + n;
          case SendAgain =>
          case PeerGone => return Cut;
          case SendFault => return Threw;
        }
      }
      assert buffer[..at] == buffer;
      return Whole;
    }
  }
}
