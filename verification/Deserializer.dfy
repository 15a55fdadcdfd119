/**
 `fcgi::NVP::Deserializer` and `ToMap`: the resumable push parser of
 src/name-value-pairs.cpp, which may be cut by a record boundary anywhere.
 The places where the class departs from the letter of the source are listed in
 README.md; module AsWritten treats the letter.
 */
module Deserializers {
  import opened Bytes
  import opened NameValuePairs

  /** `parse_state`; WILL_READ_BUFFER is never stored by the source. */
  datatype ParseState = ReadNew | ReadNameLen | ReadValueLen | ReadBuffer

  /** The object `current_buffer` points into. */
  datatype Target = IntoName | IntoValue | IntoBuffer

  /** One turn of the parse loop: a pair delivered, the record used up inside a pair, or the error thrown. */
  datatype PairStep = Delivered | Suspended | Threw

  datatype FeedResult = More | EndOfStream | PairSizeError

  /** `got` octets of a 4-octet length stand in `field`, its form bit cleared, and `s` is what was read. */
  ghost predicate PartialLength(field: bytes, got: nat, s: bytes) {
    && |field| == 4 && 1 <= got <= 4 && |s| == got
    && field[0] < 0x80 && s[0] == field[0] + 0x80
    && s[1..] == field[1..got]
  }

  lemma PartialLengthRead(field: bytes, got: nat, s: bytes)
    requires PartialLength(field, got, s)
    ensures ReadLength(s) == if got == 4 then Length(Ntohl(field), 4) else Short
  {
    if got == 4 {
      assert [s[0] - 0x80] + s[1..4] == field;
    }
  }

  /** Copying more octets in behind the ones already there. */
  lemma PartialLengthGrows(field: bytes, got: nat, s: bytes, chunk: bytes)
    requires PartialLength(field, got, s) && got + |chunk| <= 4
    ensures PartialLength(Splice(field, got, chunk), got + |chunk|, s + chunk)
  {
    var grown := Splice(field, got, chunk);
    assert grown[..got][1..] == field[..got][1..];
    assert grown[1..got + |chunk|] == grown[..got][1..] + grown[got..got + |chunk|];
    assert (s + chunk)[1..] == s[1..] + chunk;
  }

  /** `std::vector::resize`. */
  function Resize(buffer: bytes, size: nat): (r: bytes)
    ensures |r| == size
  {
    if size <= |buffer| then buffer[..size] else buffer + seq(size - |buffer|, _ => 0)
  }

  /** Octets that are exactly the next pair extend what has been parsed by that pair. */
  lemma PairDone(done: bytes, pending: bytes, delivered: seq<Pair>, limit: nat)
    requires Parse(done, limit) == Parsed(delivered, [], false)
    requires ReadFront(pending, limit).Whole? && ReadFront(pending, limit).size == |pending|
    ensures var pair := ReadFront(pending, limit).pair;
      && Parse(done + pending, limit) == Parsed(delivered + [pair], [], false)
      && ToMap(map[], delivered + [pair]) == ToMap(map[], delivered)[pair.name := pair.value]
  {
    hide Parse, ReadFront, ToMap;
    var pair := ReadFront(pending, limit).pair;
    ParseAppend(done, pending, limit);
    ParseWhole(pending, [], limit);
    ParseEmpty(limit);
    assert [] + pending == pending == pending + [];
    ToMapSnoc(delivered, pair);
  }

  class Deserializer {
    var stringBuffer: bytes
    var nameLen: bytes        // the four octets of `name_len`, in network order
    var valueLen: bytes       // the four octets of `value_len`, in network order
    var current: Target       // `current_buffer`: the object it points into
    var offset: nat           // `current_buffer`: how far into that object
    var remaining: nat
    var parseState: ParseState
    var maxPairSize: nat
    const globalMaxPairSize: nat
    var params: Params        // the map `ToMap` writes to

    ghost var done: bytes     // the octets of the pairs delivered
    ghost var pending: bytes  // the octets read since
    ghost var delivered: seq<Pair>
    ghost var failed: bool    // a `pair_size_error` was thrown
    ghost var nameUsed: nat   // how many octets of `pending` are the name length field
    ghost var valueUsed: nat  // how many after them are the value length field

    /** `effective_max_pair_size`: a limit of the instance replaces the global one. */
    function EffectiveMaxPairSize(): nat
      reads this`maxPairSize
    {
      if maxPairSize != 0 then maxPairSize else globalMaxPairSize
    }

    /** What the parser has made of all octets fed to it. */
    ghost function Abstract(): Parsed
      reads this
    {
      Parsed(delivered, pending, failed)
    }

    /** The pairs delivered are the pairs of the octets `done`, `ToMap` has seen them all, and the
        buffer is within the limit. */
    ghost predicate Consistent()
      reads this`done, this`delivered, this`maxPairSize, this`params, this`stringBuffer
    {
      && |stringBuffer| <= EffectiveMaxPairSize()
      && Parse(done, EffectiveMaxPairSize()) == Parsed(delivered, [], false)
      && params == ToMap(map[], delivered)
    }

    /** The name length field has been read. */
    ghost predicate NameRead()
      reads this
    {
      |nameLen| == 4 && nameUsed <= |pending| && ReadLength(pending[..nameUsed]) == Length(Ntohl(nameLen), nameUsed)
    }

    /** Both length fields have been read. */
    ghost predicate ValueRead()
      reads this
    {
      && NameRead() && |valueLen| == 4 && nameUsed + valueUsed <= |pending|
      && ReadLength(pending[nameUsed..nameUsed + valueUsed]) == Length(Ntohl(valueLen), valueUsed)
    }

    ghost predicate InName()
      reads this
    {
      && remaining < 4 && offset == 4 - remaining && current == IntoName
      && PartialLength(nameLen, offset, pending)
    }

    ghost predicate InValue()
      reads this
    {
      && remaining < 4 && offset == 4 - remaining && current == IntoValue
      && NameRead() && nameUsed + offset == |pending|
      && PartialLength(valueLen, offset, pending[nameUsed..])
    }

    ghost predicate InBuffer()
      reads this
    {
      && ValueRead()
      && |stringBuffer| == Ntohl(nameLen) + Ntohl(valueLen) <= EffectiveMaxPairSize()
      && remaining <= |stringBuffer| && offset == |stringBuffer| - remaining && current == IntoBuffer
      && pending[nameUsed + valueUsed..] == stringBuffer[..offset]
    }

    /** The suspended state stands for exactly the octets `pending`. With nothing `remaining` this
        also covers the instants between the copying of the last octet and its use. */
    ghost predicate Encodes()
      reads this
    {
      && |nameLen| == |valueLen| == 4
      && match parseState
         case ReadNew => remaining == 0 && pending == []
         case ReadNameLen => if remaining == 0 then NameRead() && nameUsed == |pending| else InName()
         case ReadValueLen => if remaining == 0 then ValueRead() && nameUsed + valueUsed == |pending| else InValue()
         case ReadBuffer => InBuffer()
    }

    /** The invariant between two calls of `Feed`. */
    ghost predicate Valid()
      reads this
    {
      && Consistent() && !failed && Encodes()
      && (parseState == ReadValueLen || parseState == ReadBuffer ==> remaining > 0)
    }

    constructor (globalMaxPairSize: nat)
      ensures Valid() && Abstract() == NOTHING && params == map[]
      ensures maxPairSize == 0 && this.globalMaxPairSize == globalMaxPairSize
    {
      this.globalMaxPairSize, maxPairSize := globalMaxPairSize, 0;
      stringBuffer, nameLen, valueLen := [], [0, 0, 0, 0], [0, 0, 0, 0];
      current, offset, remaining, parseState := IntoBuffer, 0, 0, ReadNew;
      params, done, pending, delivered, failed := map[], [], [], [], false;
      nameUsed, valueUsed := 0, 0;
    }

    /** A suspended state never holds a whole pair, nor lengths over the limit. */
    lemma SuspendedIsPartial()
      requires Valid()
      ensures ReadFront(pending, EffectiveMaxPairSize()) == Partial
    {
      match parseState
      case ReadNew =>
      case ReadNameLen =>
        if remaining == 0 {
          assert pending[..nameUsed] == pending;
        } else {
          PartialLengthRead(nameLen, offset, pending);
        }
      case ReadValueLen =>
        assert pending == pending[..nameUsed] + pending[nameUsed..];
        ReadLengthExtends(pending[..nameUsed], pending[nameUsed..]);
        PartialLengthRead(valueLen, offset, pending[nameUsed..]);
      case ReadBuffer => LengthsRead();
    }

    /** With both length fields read, the front of `pending` is a pair of those lengths. */
    lemma LengthsRead()
      requires ValueRead()
      ensures ReadFront(pending, EffectiveMaxPairSize())
           == FrontWithBody(pending[nameUsed + valueUsed..], Ntohl(nameLen), Ntohl(valueLen), nameUsed + valueUsed,
                            EffectiveMaxPairSize())
    {
      var a, b := nameUsed, nameUsed + valueUsed;
      var n, v, body := pending[..a], pending[a..b], pending[b..];
      assert v + body == pending[a..];
      assert n + (v + body) == pending;
      ReadLengthExtends(n, v + body);
      ReadLengthExtends(v, body);
      FrontOfFields(n, v, body, Ntohl(nameLen), Ntohl(valueLen), EffectiveMaxPairSize());
    }

    /** The same when the octets `body` follow what has been read. */
    lemma LengthsFollowedBy(body: bytes)
      requires ValueRead() && nameUsed + valueUsed == |pending|
      ensures ReadFront(pending + body, EffectiveMaxPairSize())
           == FrontWithBody(body, Ntohl(nameLen), Ntohl(valueLen), |pending|, EffectiveMaxPairSize())
    {
      var n, v := pending[..nameUsed], pending[nameUsed..];
      assert v == pending[nameUsed..nameUsed + valueUsed];
      AppendAssociates(n, v, body);
      assert n + v == pending;
      ReadLengthExtends(n, v + body);
      ReadLengthExtends(v, body);
      FrontOfFields(n, v, body, Ntohl(nameLen), Ntohl(valueLen), EffectiveMaxPairSize());
    }

    /** `memcpy(current_buffer, chunk)`, with the pointer and the count moved on. */
    method CopyIn(chunk: bytes)
      requires Encodes() && |chunk| <= remaining
      modifies this`stringBuffer, this`nameLen, this`valueLen, this`offset, this`remaining, this`pending,
          this`nameUsed, this`valueUsed
      ensures Encodes() && |stringBuffer| == |old(stringBuffer)|
      ensures pending == old(pending) + chunk && remaining == old(remaining) - |chunk|
    {
      hide ReadLength, Ntohl;
      if chunk == [] {
        return;
      }
      match current {
        case IntoName => CopyIntoName(chunk);
        case IntoValue => CopyIntoValue(chunk);
        case IntoBuffer => CopyIntoBuffer(chunk);
      }
    }

    method CopyIntoName(chunk: bytes)
      requires InName() && 0 < |chunk| <= remaining
      modifies this`nameLen, this`offset, this`remaining, this`pending, this`nameUsed
      ensures if remaining == 0 then NameRead() && nameUsed == |pending| else InName()
      ensures pending == old(pending) + chunk && remaining == old(remaining) - |chunk|
    {
      PartialLengthGrows(nameLen, offset, pending, chunk);
      nameLen := Splice(nameLen, offset, chunk);
      offset, remaining, pending := offset + |chunk|, remaining - |chunk|, pending + chunk;
      PartialLengthRead(nameLen, offset, pending);
      nameUsed := |pending|;
      assert pending[..nameUsed] == pending;
    }

    method CopyIntoValue(chunk: bytes)
      requires InValue() && 0 < |chunk| <= remaining
      modifies this`valueLen, this`offset, this`remaining, this`pending, this`valueUsed
      ensures if remaining == 0 then ValueRead() && nameUsed + valueUsed == |pending| else InValue()
      ensures pending == old(pending) + chunk && remaining == old(remaining) - |chunk|
    {
      PartialLengthGrows(valueLen, offset, pending[nameUsed..], chunk);
      AppendSlices(pending, chunk, 0, nameUsed);
      valueLen := Splice(valueLen, offset, chunk);
      offset, remaining, pending := offset + |chunk|, remaining - |chunk|, pending + chunk;
      PartialLengthRead(valueLen, offset, pending[nameUsed..]);
      valueUsed := offset;
      assert pending[nameUsed..nameUsed + valueUsed] == pending[nameUsed..];
    }

    method CopyIntoBuffer(chunk: bytes)
      requires InBuffer() && |chunk| <= remaining
      modifies this`stringBuffer, this`offset, this`remaining, this`pending
      ensures InBuffer() && |stringBuffer| == |old(stringBuffer)|
      ensures pending == old(pending) + chunk && remaining == old(remaining) - |chunk|
    {
      hide ReadLength, Ntohl;
      AppendSlices(pending, chunk, 0, nameUsed);
      AppendSlices(pending, chunk, nameUsed, nameUsed + valueUsed);
      var copied := Splice(stringBuffer, offset, chunk);
      SliceOfSplice(stringBuffer, offset, chunk, copied);
      stringBuffer := copied;
      offset, remaining, pending := offset + |chunk|, remaining - |chunk|, pending + chunk;
    }

    /** `read_keyval_length`: read one length field of `data` from `pos` on. When the record ends
        inside the field, what there is of it is kept and `suspend` is true. */
    method ReadKeyvalLength(data: bytes, pos: nat, dest: Target) returns (suspend: bool, next: nat)
      requires pos < |data| && dest != IntoBuffer && |nameLen| == |valueLen| == 4 && remaining == 0
      modifies this`nameLen, this`valueLen, this`current, this`offset, this`remaining
      ensures |nameLen| == |valueLen| == 4
      ensures dest == IntoName ==> valueLen == old(valueLen)
      ensures dest == IntoValue ==> nameLen == old(nameLen)
      ensures var field := if dest == IntoName then nameLen else valueLen;
        if suspend then
          && next == |data| && offset == |data| - pos == 4 - remaining && 0 < remaining && current == dest
          && PartialLength(field, offset, data[pos..])
        else
          && pos < next <= |data| && remaining == 0
          && ReadLength(data[pos..next]) == Length(Ntohl(field), next - pos)
    {
      var field := if dest == IntoName then nameLen else valueLen;
      if data[pos] >= 0x80 {
        var len := |data| - pos;
        if len < 4 {
          field := Splice(field, 0, data[pos..]);
          remaining, current, offset := 4 - len, dest, len;
          field := field[0 := field[0] - 0x80];
          suspend, next := true, |data|;
        } else {
          field := data[pos..pos + 4];
          field := field[0 := field[0] - 0x80];
          suspend, next := false, pos + 4;
          assert [data[pos] - 0x80] + data[pos..next][1..4] == field;
        }
      } else {
        field := [0, 0, 0, data[pos]];
        suspend, next := false, pos + 1;
      }
      if dest == IntoName {
        nameLen := field;
      } else {
        valueLen := field;
      }
    }

    /** What `Feed` promised at its start, in terms of the state now and of the octets `rest` still to read. */
    ghost predicate OnTrack(goal: Parsed, rest: bytes)
      reads this`delivered, this`pending, this`maxPairSize
    {
      goal == After(delivered, Parse(pending + rest, EffectiveMaxPairSize()))
    }

    /** `handle_keyval` with `ToMap::new_key`: deliver the pair that `buffer` starts with. */
    method HandleKeyval(buffer: bytes, ghost goal: Parsed, ghost rest: bytes)
      requires |nameLen| == |valueLen| == 4 && Ntohl(nameLen) + Ntohl(valueLen) <= |buffer|
      requires Consistent() && OnTrack(goal, rest)
      requires ReadFront(pending, EffectiveMaxPairSize())
            == Whole(Pair(buffer[..Ntohl(nameLen)], buffer[Ntohl(nameLen)..Ntohl(nameLen) + Ntohl(valueLen)]),
                |pending|)
      modifies this`params, this`done, this`pending, this`delivered
      ensures Consistent() && pending == [] && OnTrack(goal, rest)
    {
      hide Parse, ReadFront, ToMap, Ntohl;
      var n, v := Ntohl(nameLen), Ntohl(valueLen);
      var name, value := buffer[..n], buffer[n..n + v];
      params := params[name := value];
      PairDone(done, pending, delivered, EffectiveMaxPairSize());
      ParseWhole(pending, rest, EffectiveMaxPairSize());
      AfterAfter(delivered, [Pair(name, value)], Parse(rest, EffectiveMaxPairSize()));
      done, pending, delivered := done + pending, [], delivered + [Pair(name, value)];
      assert pending + rest == rest;
    }

    /** The split branch: start to gather a pair of `sum` octets, all of the record's rest being part of it. */
    method StartBuffer(sum: nat, chunk: bytes)
      requires ValueRead() && nameUsed + valueUsed == |pending|
      requires sum == Ntohl(nameLen) + Ntohl(valueLen) <= EffectiveMaxPairSize() && |chunk| < sum
      modifies this`stringBuffer, this`current, this`offset, this`remaining, this`parseState, this`pending
      ensures parseState == ReadBuffer && remaining > 0 && Encodes() && pending == old(pending) + chunk
          && |stringBuffer| == sum
    {
      hide ReadLength, Ntohl;
      remaining := sum;
      stringBuffer := Resize(stringBuffer, sum);
      current, offset := IntoBuffer, 0;
      assert pending[nameUsed + valueUsed..] == [] == stringBuffer[..0];
      CopyIntoBuffer(chunk);
      parseState := ReadBuffer;
    }

    /** The branch without a copy: the whole pair stands in what is left of the record. */
    method DeliverInPlace(rest: bytes, ghost goal: Parsed)
      requires Consistent() && ValueRead() && nameUsed + valueUsed == |pending| && remaining == 0
      requires Ntohl(nameLen) + Ntohl(valueLen) <= EffectiveMaxPairSize()
      requires Ntohl(nameLen) + Ntohl(valueLen) <= |rest| && OnTrack(goal, rest)
      modifies this`params, this`done, this`pending, this`delivered, this`parseState
      ensures Consistent() && Encodes() && parseState == ReadNew
      ensures OnTrack(goal, rest[Ntohl(nameLen) + Ntohl(valueLen)..])
    {
      hide Parse, ReadFront;
      ghost var n, sum := Ntohl(nameLen), Ntohl(nameLen) + Ntohl(valueLen);
      ghost var body, tail := rest[..sum], rest[sum..];
      LengthsFollowedBy(body);
      assert body[..n] == rest[..n] && body[n..] == rest[n..sum];
      assert body + tail == rest;
      AppendAssociates(pending, body, tail);
      pending := pending + body;
      HandleKeyval(rest, goal, tail);
      parseState := ReadNew;
    }

    /** The case WILL_READ_BUFFER: both lengths are known and none of the body has been read. The sum
        of the lengths is taken in 32 bits, which cannot wrap as each is below 2^31. */
    method WillReadBuffer(data: bytes, pos: nat, ghost goal: Parsed) returns (r: PairStep, next: nat)
      requires Consistent() && ValueRead() && nameUsed + valueUsed == |pending| && remaining == 0 && !failed
      requires pos <= |data| && OnTrack(goal, data[pos..])
      modifies this
      ensures maxPairSize == old(maxPairSize) && Consistent()
      ensures r == Delivered ==>
        Encodes() && parseState == ReadNew && !failed && pos <= next <= |data| && OnTrack(goal, data[next..])
      ensures r == Suspended ==> Encodes() && parseState == ReadBuffer && remaining > 0 && !failed && OnTrack(goal, [])
      ensures r == Threw ==> failed && Abstract() == goal
    {
      hide Parse, ReadFront, Ntohl;
      ReadLengthBelow31Bits(pending[..nameUsed]);
      ReadLengthBelow31Bits(pending[nameUsed..nameUsed + valueUsed]);
      var sum := (Ntohl(nameLen) + Ntohl(valueLen)) % TWO_32;
      next := |data|;
      if sum > EffectiveMaxPairSize() {
        LengthsFollowedBy(data[pos..]);
        ParseStopped(pending + data[pos..], EffectiveMaxPairSize());
        failed, pending := true, pending + data[pos..];
        r := Threw;
      } else if |data| - pos >= sum {
        next := pos + sum;
        assert data[pos..][sum..] == data[next..];
        DeliverInPlace(data[pos..], goal);
        r := Delivered;
      } else {
        assert pending + data[pos..] == pending + data[pos..] + [];
        StartBuffer(sum, data[pos..]);
        r := Suspended;
      }
    }

    /** The case READ_NEW up to its fall-through. */
    method BeginName(data: bytes, pos: nat, ghost goal: Parsed) returns (suspend: bool, next: nat)
      requires Encodes() && parseState == ReadNew
      requires pos < |data| && OnTrack(goal, data[pos..])
      modifies this`nameLen, this`valueLen, this`current, this`offset, this`remaining, this`parseState, this`pending,
          this`nameUsed
      ensures pos < next <= |data| && OnTrack(goal, data[next..])
      ensures suspend ==> next == |data| && Encodes() && parseState == ReadNameLen
      ensures !suspend ==>
        remaining == 0 && NameRead() && nameUsed == |pending| && |valueLen| == 4 && parseState == ReadNew
    {
      hide Parse, ReadFront, ReadLength;
      suspend, next := ReadKeyvalLength(data, pos, IntoName);
      MoveSlice(pending, data, pos, next);
      pending := pending + data[pos..next];
      if suspend {
        parseState := ReadNameLen;
      } else {
        nameUsed := |pending|;
        assert pending[..nameUsed] == pending;
      }
    }

    /** The case READ_NAME_LEN up to its fall-through; a record may also end right before the value length. */
    method BeginValue(data: bytes, pos: nat, ghost goal: Parsed) returns (suspend: bool, next: nat)
      requires NameRead() && nameUsed == |pending| && remaining == 0 && |valueLen| == 4
      requires pos <= |data| && OnTrack(goal, data[pos..])
      modifies this`nameLen, this`valueLen, this`current, this`offset, this`remaining, this`parseState, this`pending,
          this`valueUsed
      ensures pos <= next <= |data| && OnTrack(goal, data[next..])
      ensures suspend ==>
        && next == |data| && Encodes() && (parseState == ReadValueLen ==> remaining > 0)
        && parseState in {ReadNameLen, ReadValueLen}
      ensures !suspend ==> pos < next && remaining == 0 && ValueRead() && nameUsed + valueUsed == |pending|
    {
      hide Parse, ReadFront, ReadLength, Ntohl;
      if pos == |data| {
        parseState := ReadNameLen;
        return true, pos;
      }
      suspend, next := ReadKeyvalLength(data, pos, IntoValue);
      MoveSlice(pending, data, pos, next);
      pending := pending + data[pos..next];
      if suspend {
        parseState := ReadValueLen;
      } else {
        valueUsed := next - pos;
        assert pending[nameUsed..nameUsed + valueUsed] == pending[nameUsed..];
      }
    }

    /** The case READ_BUFFER, with the buffer full. */
    method DeliverBuffer(ghost goal: Parsed, ghost rest: bytes)
      requires Consistent() && Encodes() && parseState == ReadBuffer && remaining == 0 && OnTrack(goal, rest)
      modifies this`params, this`done, this`pending, this`delivered, this`parseState
      ensures Consistent() && Encodes() && parseState == ReadNew && OnTrack(goal, rest)
    {
      hide Parse, ReadFront, ReadLength, Ntohl;
      LengthsRead();
      assert stringBuffer == pending[nameUsed + valueUsed..];
      HandleKeyval(stringBuffer, goal, rest);
      parseState := ReadNew;
    }

    /** One turn of the main parse loop, entered with nothing `remaining`. */
    method ParseStep(data: bytes, pos: nat, ghost goal: Parsed) returns (step: PairStep, next: nat)
      requires Consistent() && Encodes() && remaining == 0 && !failed
      requires pos <= |data| && (parseState == ReadNew ==> pos < |data|) && OnTrack(goal, data[pos..])
      modifies this
      ensures maxPairSize == old(maxPairSize) && Consistent()
      ensures step == Delivered ==>
        Encodes() && parseState == ReadNew && !failed && pos <= next <= |data| && OnTrack(goal, data[next..])
        && (old(parseState) == ReadNew ==> pos < next)
      ensures step == Suspended ==> Valid() && OnTrack(goal, [])
      ensures step == Threw ==> failed && Abstract() == goal
    {
      hide Parse, ReadFront, ReadLength, Ntohl, ToMap;
      next := pos;
      assert data[|data|..] == [];
      if parseState == ReadBuffer {
        DeliverBuffer(goal, data[pos..]);
        return Delivered, pos;
      }
      var suspend;
      if parseState == ReadNew {
        suspend, next := BeginName(data, next, goal);
        if suspend {
          return Suspended, next;
        }
      }
      if parseState != ReadValueLen {
        suspend, next := BeginValue(data, next, goal);
        if suspend {
          return Suspended, next;
        }
      }
      step, next := WillReadBuffer(data, next, goal);
    }

    /** Between two calls nothing more can be parsed, so the goal has been reached. */
    lemma AtRest(goal: Parsed)
      requires Valid() && OnTrack(goal, [])
      ensures Abstract() == goal
    {
      hide Parse, ReadFront;
      SuspendedIsPartial();
      ParseStopped(pending, EffectiveMaxPairSize());
      assert pending + [] == pending;
      assert delivered + [] == delivered;
    }

    /** `feed`: take the content of one record. The empty record ends the stream; any other resumes
        the parser where the last one left it. */
    method Feed(content: bytes) returns (r: FeedResult)
      requires Valid()
      modifies this
      ensures maxPairSize == old(maxPairSize)
      ensures var limit := if maxPairSize != 0 then maxPairSize else globalMaxPairSize;
              Abstract() == Resume(old(Abstract()), content, limit)
      ensures params == ToMap(map[], delivered) && |stringBuffer| <= EffectiveMaxPairSize()
      ensures content == [] ==> r == EndOfStream && unchanged(this)
      ensures content != [] ==> r == if failed then PairSizeError else More
      ensures !failed ==> Valid()
    {
      hide Parse, ReadFront, ReadLength, ToMap, Ntohl;
      ghost var goal := Resume(Abstract(), content, EffectiveMaxPairSize());
      SuspendedIsPartial();
      ParseStopped(pending, EffectiveMaxPairSize());
      if |content| == 0 {
        assert pending + content == pending;
        return EndOfStream;
      }
      if remaining > |content| {
        CopyIn(content);
        assert pending + [] == old(pending) + content;
        AtRest(goal);
        return More;
      }
      var pos := remaining;
      CopyIn(content[..pos]);
      assert pending + content[pos..] == old(pending) + content;
      var more := true;
      while more
        invariant pos <= |content| && !failed && Consistent() && Encodes() && maxPairSize == old(maxPairSize)
        invariant remaining == 0 && OnTrack(goal, content[pos..])
        invariant more && parseState == ReadNew ==> pos < |content|
        invariant !more ==> parseState == ReadNew && pos == |content|
        decreases |content| - pos, if parseState == ReadNew then 0 else 1, more
      {
        var step;
        step, pos := ParseStep(content, pos, goal);
        match step {
          case Threw => return PairSizeError;
          case Suspended => AtRest(goal);
            return More;
          case Delivered =>
        }
        more := pos < |content|;
      }
      assert content[pos..] == [];
      AtRest(goal);
      return More;
    }
  }
}
