/**
 Input streams: `istreambuf` of src/iostream.cpp, fed by the connection thread and read by a worker.
 A reader that would wait on `queue_bell` gets `Blocks`.
 */
module InStreams {
  import opened Bytes

  datatype ReadResult = Octet(octet: byte) | Eof | Blocks

  /** The stream as a value: what `area` holds stands between `gptr()` and `egptr()`. */
  datatype Buf = Buf(isOpen: bool, queue: seq<bytes>, area: bytes)

  /** A stream after a call, and what the reader gets. */
  datatype Called = Called(buf: Buf, result: ReadResult)

  /** `underflow`: the next non-empty record becomes the get area. */
  function Fill(b: Buf): Called {
    if !b.isOpen then Called(b, Eof)
    else if b.queue == [] then Called(b, Blocks)
    else if b.queue[0] == [] then Called(Buf(false, b.queue[1..], b.area), Eof)
    else Called(Buf(true, b.queue[1..], b.queue[0]), Octet(b.queue[0][0]))
  }

  /** `sbumpc`, with `uflow` when the get area is used up. */
  function Bump(b: Buf): Called {
    var filled := if b.area == [] then Fill(b) else Called(b, Octet(b.area[0]));
    if filled.result.Octet? then filled.(buf := filled.buf.(area := filled.buf.area[1..])) else filled
  }

  /** The records before the first empty one. */
  function BeforeEnd(records: seq<bytes>): seq<bytes> {
    if records == [] || records[0] == [] then [] else [records[0]] + BeforeEnd(records[1..])
  }

  lemma {:induction false} BeforeEndAppend(a: seq<bytes>, b: seq<bytes>)
    ensures BeforeEnd(a + b) == if [] in a then BeforeEnd(a) else a + BeforeEnd(b)
    decreases |a|
  {
    if a == [] {
      assert a + b == b;
    } else {
      assert (a + b)[1..] == a[1..] + b;
      assert a == [a[0]] + a[1..];
      BeforeEndAppend(a[1..], b);
    }
  }

  class IStreamBuf {
    var isOpen: bool
    var queue: seq<bytes>
    var area: bytes            // from `gptr()` to `egptr()`
    ghost var fed: seq<bytes>  // the contents fed, in order
    ghost var taken: seq<bytes>
    ghost var got: bytes       // the octets the reader has obtained

    /** What has been read and what stands in the get area is what the records taken hold; the
        stream is closed once the empty record has been taken. */
    ghost predicate Valid()
      reads this
    {
      && [] !in taken && got + area == Flatten(taken)
      && fed == taken + (if isOpen then queue else [[]] + queue)
    }

    ghost function State(): Buf
      reads this
    {
      Buf(isOpen, queue, area)
    }

    /** The stream that the reader is promised. */
    ghost function Promised(): bytes
      reads this
    {
      Flatten(BeforeEnd(fed))
    }

    constructor ()
      ensures Valid() && isOpen && fed == [] && got == []
    {
      isOpen, queue, area := true, [], [];
      fed, taken, got := [], [], [];
    }

    method Feed(content: bytes)
      requires Valid()
      modifies this`queue, this`fed
      ensures Valid() && fed == old(fed) + [content]
    {
      queue := queue + [content];
      fed := fed + [content];
    }

    /** `underflow`, with the get area used up: the next non-empty record becomes the get area. */
    method Underflow() returns (r: ReadResult)
      requires Valid() && area == []
      modifies this`isOpen, this`queue, this`area, this`taken
      ensures Valid() && fed == old(fed) && got == old(got)
      ensures Called(State(), r) == Fill(old(State()))
      ensures r.Octet? ==> area != [] && r.octet == area[0]
      ensures !r.Octet? ==> area == []
      ensures r == Blocks ==> isOpen && queue == [] && taken == fed
      ensures r == Eof ==> !isOpen
      ensures !old(isOpen) ==> r == Eof
    {
      if queue == [] && isOpen {
        return Blocks;
      }
      if isOpen {
        var packet := queue[0];
        queue := queue[1..];
        assert old(queue) == [packet] + queue;
        if packet == [] {
          isOpen := false;
        } else {
          FlattenSnoc(taken, packet);
          taken, area := taken + [packet], packet;
          return Octet(packet[0]);
        }
      }
      return Eof;
    }

    /** One octet more, `sbumpc`: the reader obtains the next octet of the promised stream; the end
        exactly when it has all of it and the empty record has come; and waits otherwise. */
    method Read() returns (r: ReadResult)
      requires Valid()
      modifies this`isOpen, this`queue, this`area, this`taken, this`got
      ensures Valid() && fed == old(fed)
      ensures Called(State(), r) == Bump(old(State()))
      ensures got == old(got) + (if r.Octet? then [r.octet] else [])
      ensures got <= Promised()
      ensures r == Eof ==> got == Promised() && [] in fed
      ensures r == Blocks ==> got == Promised() && [] !in fed
      ensures !old(isOpen) && old(area) == [] ==> r == Eof
      ensures r == Eof ==> !isOpen && area == []
    {
      Promise();
      if area == [] {
        r := Underflow();
        Promise();
        if !r.Octet? {
          return;
        }
      }
      r := Octet(area[0]);
      got, area := got + [area[0]], area[1..];
      assert got + area == old(got) + (if old(area) == [] then [r.octet] + area else old(area));
      Promise();
    }

    lemma Promise()
      requires Valid()
      ensures got <= Promised() && (isOpen <==> taken + queue == fed)
      ensures !isOpen ==> [] in fed && Promised() == Flatten(taken)
      ensures isOpen && queue == [] ==> [] !in fed && Promised() == Flatten(taken)
    {
      var rest := if isOpen then queue else [[]] + queue;
      BeforeEndAppend(taken, rest);
      FlattenAppend(taken, BeforeEnd(rest));
      assert got <= got + area;
      if !isOpen {
        assert fed[|taken|] == [];
        assert taken + [] == taken;
      } else if queue == [] {
        assert fed == taken;
        assert taken + [] == taken;
      }
    }
  }
}
