/**
 The letter of `feed` and `read_keyval_length` of src/name-value-pairs.cpp, over whole streams: every
 field of the parser as memory, every state the source can leave it in, and what the letter does with
 the next record from there. Reading or writing outside of an object is `Undefined`, for good; a
 pointer that has moved outside and is not followed, and a copy of no octets, do no harm.
 */
module AsWrittenFeed {
  import opened Bytes
  import opened NameValuePairs

  /** The four octets of `name_len` or `value_len` in memory. */
  type Field = f: bytes | |f| == 4 witness [0, 0, 0, 0]

  /** What `parse_state` can hold: the letter never stores WILL_READ_BUFFER or READ_BUFFER. */
  datatype Phase = New | NameLen | ValueLen

  /** The object that `current_buffer` was last set into; it has no value at the start. */
  datatype Target = Nowhere | IntoName | IntoValue | IntoBuffer

  /** The parser, with the pairs delivered. After the exception its owner destroys it. */
  datatype Letter =
    | Undefined
    | Threw(pairs: seq<Pair>)
    | Parser(pairs: seq<Pair>, phase: Phase, remaining: nat, target: Target, offset: nat,
             name: Field, value: Field, buffer: bytes)

  /** The largest record: the content length of a header has 16 bits. */
  const RECORD_LIMIT := 0x1_0000

  predicate AllRecords(records: seq<bytes>) {
    forall i | 0 <= i < |records| :: 0 < |records[i]| < RECORD_LIMIT
  }

  /** A parser between two pairs: what its other fields hold plays no part. */
  predicate AsNew(l: Letter) {
    l.Parser? && l.phase == New && l.remaining == 0
  }

  // ----- The letter -----

  /** `forward` moves `current_buffer` along with the record. */
  function Forward(l: Letter, n: nat): Letter
    requires l.Parser?
  {
    l.(offset := l.offset + n)
  }

  function Room(l: Letter): nat
    requires l.Parser?
  {
    match l.target
    case Nowhere => 0
    case IntoName => 4
    case IntoValue => 4
    case IntoBuffer => |l.buffer|
  }

  /** `memcpy(current_buffer, chunk)`; the pointer stays where it is. */
  function CopyTo(l: Letter, chunk: bytes): Letter
    requires l.Parser?
  {
    if chunk == [] then l
    else if l.offset + |chunk| > Room(l) then Undefined
    else
      match l.target
      case IntoName => l.(name := Splice(l.name, l.offset, chunk))
      case IntoValue => l.(value := Splice(l.value, l.offset, chunk))
      case IntoBuffer => l.(buffer := Splice(l.buffer, l.offset, chunk))
      case Nowhere => Undefined
  }

  function WithField(l: Letter, dest: Target, field: Field): Letter
    requires l.Parser?
  {
    if dest == IntoName then l.(name := field) else l.(value := field)
  }

  /** The first octets of a 4-octet length in a field, the form bit cleared. */
  function CutField(was: Field, first: bytes): Field
    requires 1 <= |first| <= 4 && first[0] >= 0x80
  {
    Splice(was, 0, first)[0 := first[0] - 0x80]
  }

  /** `read_keyval_length` returns true, or false with the rest of the record. */
  datatype FieldRead = Suspend(l: Letter) | GoOn(l: Letter, rest: bytes)

  /** The form bit of a complete 4-octet length is not cleared, and `len` is compared after it has been
      moved on: the parse goes on only when 8 octets were left. With none left the read is outside. */
  function ReadField(l: Letter, s: bytes, dest: Target): FieldRead
    requires l.Parser?
  {
    if s == [] then Suspend(Undefined)
    else if s[0] >= 0x80 then
      if |s| < 4 then
        var field := CutField(if dest == IntoName then l.name else l.value, s);
        Suspend(WithField(l, dest, field).(remaining := 4 - |s|, target := dest, offset := |s|))
      else
        var m := Forward(WithField(l, dest, s[..4]), 4);
        if |s| == 8 then GoOn(m, s[4..]) else Suspend(m)
    else GoOn(Forward(WithField(l, dest, [0, 0, 0, s[0]]), 1), s[1..])
  }

  /** `name_len = ntohl(name_len)` in place: on other than big-endian hosts the octets change places. */
  function Converted(h: Host, f: Field): Field {
    if h == BigEndianHost then f else [f[3], f[2], f[1], f[0]]
  }

  /** One turn of the parse loop: `feed` returns, or a pair has been delivered. */
  datatype Turn = Done(l: Letter) | Again(l: Letter, rest: bytes)

  /** From WILL_READ_BUFFER on. In the split branch `parse_state` stays as it was at the `switch`. */
  function BodyTurn(h: Host, l: Letter, s: bytes, limit: nat): Turn
    requires l.Parser?
  {
    var n, v := Ntohl(l.name), Ntohl(l.value);
    var sum := (n + v) % TWO_32;
    var m := l.(name := Converted(h, l.name), value := Converted(h, l.value));
    if sum > limit then Done(Threw(l.pairs))
    else if |s| < sum then
      Done(m.(remaining := sum - |s|, buffer := s + seq(sum - |s|, _ => 0), target := IntoBuffer, offset := |s|))
    else if n + v > |s| then Done(Undefined)
    else Again(Forward(m.(pairs := l.pairs + [Pair(s[..n], s[n..n + v])], phase := New), sum), s[sum..])
  }

  function ValueTurn(h: Host, l: Letter, s: bytes, limit: nat): Turn
    requires l.Parser?
  {
    match ReadField(l, s, IntoValue)
    case Suspend(m) => Done(if m.Parser? then m.(phase := ValueLen) else m)
    case GoOn(m, rest) => BodyTurn(h, m, rest, limit)
  }

  function NameTurn(h: Host, l: Letter, s: bytes, limit: nat): Turn
    requires l.Parser?
  {
    match ReadField(l, s, IntoName)
    case Suspend(m) => Done(if m.Parser? then m.(phase := NameLen) else m)
    case GoOn(m, rest) => ValueTurn(h, m, rest, limit)
  }

  function TurnOf(h: Host, l: Letter, s: bytes, limit: nat): (t: Turn)
    requires l.Parser?
    ensures t.Again? ==> t.l.Parser? && t.l.phase == New && |t.rest| <= |s| && (l.phase != ValueLen ==> |t.rest| < |s|)
  {
    match l.phase
    case New => NameTurn(h, l, s, limit)
    case NameLen => ValueTurn(h, l, s, limit)
    case ValueLen => BodyTurn(h, l, s, limit)
  }

  /** The do-while loop. */
  function Loop(h: Host, l: Letter, s: bytes, limit: nat): Letter
    requires l.Parser?
    decreases |s|, if l.phase == New then 0 else 1
  {
    match TurnOf(h, l, s, limit)
    case Done(m) => m
    case Again(m, rest) => if rest == [] then m else Loop(h, m, rest, limit)
  }

  /** `feed`. A count of octets once awaited is never set back to zero. */
  function Feed(h: Host, l: Letter, record: bytes, limit: nat): Letter {
    if !l.Parser? || record == [] then l
    else if l.remaining > |record| then
      var m := CopyTo(l, record);
      if m.Parser? then m.(remaining := l.remaining - |record|) else m
    else
      var m := CopyTo(l, record[..l.remaining]);
      if m.Parser? then Loop(h, Forward(m, l.remaining), record[l.remaining..], limit) else m
  }

  function Run(h: Host, l: Letter, records: seq<bytes>, limit: nat): Letter
    decreases |records|
  {
    if records == [] then l else Run(h, Feed(h, l, records[0], limit), records[1..], limit)
  }

  // ----- Whole pairs with lengths below 128 -----

  /** A list of whole pairs within the limit, every length in one octet. */
  predicate WholeShortPairs(s: bytes, limit: nat)
    decreases |s|
  {
    s == [] ||
    (|s| >= 2 && s[0] < 0x80 && s[1] < 0x80
     && (var sum := s[0] as nat + s[1] as nat; sum <= limit && |s| >= 2 + sum && WholeShortPairs(s[2 + sum..], limit)))
  }

  /** A turn at a pair with two short lengths, and what the reference parser makes of its front. */
  lemma ShortTurn(h: Host, l: Letter, s: bytes, limit: nat)
    requires l.Parser? && l.phase == New && |s| >= 2 && s[0] < 0x80 && s[1] < 0x80
    ensures var n, v, body, t := s[0] as nat, s[1] as nat, s[2..], TurnOf(h, l, s, limit);
      && ReadFront(s, limit) == FrontWithBody(body, n, v, 2, limit)
      && if n + v > limit then t == Done(Threw(l.pairs))
         else if |body| < n + v then
           && t.Done? && t.l.Parser? && t.l.pairs == l.pairs && t.l.phase == New && t.l.remaining == n + v - |body|
           && t.l.target == IntoBuffer && t.l.offset == |body| && |t.l.buffer| == n + v
         else
           && t.Again? && t.rest == body[n + v..] && t.l.pairs == l.pairs + [Pair(body[..n], body[n..n + v])]
           && t.l.phase == New && t.l.remaining == l.remaining && t.l.target == l.target && |t.l.buffer| == |l.buffer|
           && t.l.offset == l.offset + |s| - |t.rest|
  {
    hide TurnOf, BodyTurn, ReadFront, Ntohl;
    var a, b, body := s[..1], s[1..2], s[2..];
    assert s[1..] == b + body && s == a + (b + body);
    FrontOfFields(a, b, body, s[0] as nat, s[1] as nat, limit);
    ShortFields(h, l, s, limit);
    BodyOfShort(h, l.(name := [0, 0, 0, s[0]], value := [0, 0, 0, s[1]], offset := l.offset + 2), body, limit,
                s[0] as nat, s[1] as nat);
  }

  lemma ShortFields(h: Host, l: Letter, s: bytes, limit: nat)
    requires l.Parser? && l.phase == New && |s| >= 2 && s[0] < 0x80 && s[1] < 0x80
    ensures TurnOf(h, l, s, limit)
         == BodyTurn(h, l.(name := [0, 0, 0, s[0]], value := [0, 0, 0, s[1]], offset := l.offset + 2), s[2..], limit)
  {
    hide BodyTurn;
    assert s[1..][1..] == s[2..];
  }

  /** A turn with both lengths known, when their sum does not wrap. */
  lemma BodyOfShort(h: Host, l: Letter, body: bytes, limit: nat, n: nat, v: nat)
    requires n < 0x80 && v < 0x80
    requires l.Parser? && l.phase == New && l.name == [0, 0, 0, n as byte] && l.value == [0, 0, 0, v as byte]
    ensures var t := BodyTurn(h, l, body, limit);
      if n + v > limit then t == Done(Threw(l.pairs))
      else if |body| < n + v then
        && t.Done? && t.l.Parser? && t.l.pairs == l.pairs && t.l.phase == New && t.l.remaining == n + v - |body|
        && t.l.target == IntoBuffer && t.l.offset == |body| && |t.l.buffer| == n + v
      else
        && t.Again? && t.rest == body[n + v..] && t.l.pairs == l.pairs + [Pair(body[..n], body[n..n + v])]
        && t.l.phase == New && t.l.remaining == l.remaining && t.l.target == l.target && t.l.buffer == l.buffer
        && t.l.offset == l.offset + n + v
  {
    hide Converted;
    assert Ntohl(l.name) == n && Ntohl(l.value) == v;
  }

  /** On whole short pairs the loop delivers exactly those, and moves the pointer along. */
  lemma {:induction false} LoopOnWhole(h: Host, l: Letter, s: bytes, limit: nat)
    requires l.Parser? && l.phase == New && s != [] && WholeShortPairs(s, limit)
    ensures var m := Loop(h, l, s, limit);
      && m.Parser? && m.phase == New && m.remaining == l.remaining && m.pairs == l.pairs + Parse(s, limit).pairs
      && m.target == l.target && |m.buffer| == |l.buffer| && m.offset == l.offset + |s|
    ensures Parse(s, limit).rest == [] && !Parse(s, limit).oversized
    decreases |s|
  {
    hide TurnOf, ReadFront;
    ShortTurn(h, l, s, limit);
    var t := TurnOf(h, l, s, limit);
    ParseEmpty(limit);
    assert s[2 + s[0] as nat + s[1] as nat..] == t.rest;
    if t.rest != [] {
      LoopOnWhole(h, t.l, t.rest, limit);
    }
  }

  // ----- What is lost stays lost -----

  /** A parser that is not between two pairs, in one of the ways that the letter leads to. */
  predicate Lost(l: Letter) {
    || !l.Parser? || l.remaining > 0
    || (l.phase == NameLen && Ntohl(l.name) >= TWO_31)
    || (l.phase == ValueLen && Ntohl(l.name) + Ntohl(l.value) >= TWO_31)
  }

  lemma TurnKeepsRemaining(h: Host, l: Letter, s: bytes, limit: nat)
    requires l.Parser? && l.remaining > 0
    ensures var m := TurnOf(h, l, s, limit).l; m.Parser? ==> m.remaining > 0
  {
    hide Ntohl, Converted, CutField, Splice;
  }

  /** A positive `remaining_len` never returns to zero in the loop. */
  lemma {:induction false} RemainingSticks(h: Host, l: Letter, s: bytes, limit: nat)
    requires l.Parser? && l.remaining > 0
    ensures var m := Loop(h, l, s, limit); m.Parser? ==> m.remaining > 0
    decreases |s|, if l.phase == New then 0 else 1
  {
    hide TurnOf;
    TurnKeepsRemaining(h, l, s, limit);
    var t := TurnOf(h, l, s, limit);
    if t.Again? && t.rest != [] {
      RemainingSticks(h, t.l, t.rest, limit);
    }
  }

  /** A length read with its form bit never completes inside a record. */
  lemma FormBitNeverCompletes(h: Host, l: Letter, s: bytes, limit: nat)
    requires l.Parser? && |s| < RECORD_LIMIT
    requires Ntohl(l.name) + Ntohl(l.value) >= TWO_31
    ensures BodyTurn(h, l, s, limit).Done? && Lost(BodyTurn(h, l, s, limit).l)
  {}

  lemma FieldValue(f: Field)
    ensures f[0] >= 0x80 <==> Ntohl(f) >= TWO_31
  {}

  /** Any record that is not whole short pairs leads a parser between two pairs astray. */
  lemma {:induction false} LoopOnOther(h: Host, l: Letter, s: bytes, limit: nat)
    requires AsNew(l) && 0 < |s| < RECORD_LIMIT && !WholeShortPairs(s, limit)
    ensures Lost(Loop(h, l, s, limit)) && !AsNew(Loop(h, l, s, limit))
    decreases |s|
  {
    hide Ntohl, ReadFront;
    if |s| >= 2 && s[0] < 0x80 && s[1] < 0x80 {
      hide TurnOf;
      ShortTurn(h, l, s, limit);
      var t := TurnOf(h, l, s, limit);
      if t.Again? {
        assert s[2 + s[0] as nat + s[1] as nat..] == t.rest;
        LoopOnOther(h, t.l, t.rest, limit);
      }
    } else {
      LongTurn(h, l, s, limit);
    }
  }

  lemma LongTurn(h: Host, l: Letter, s: bytes, limit: nat)
    requires AsNew(l) && 0 < |s| < RECORD_LIMIT && (|s| < 2 || s[0] >= 0x80 || s[1] >= 0x80)
    ensures var t := TurnOf(h, l, s, limit); t.Done? && Lost(t.l) && !AsNew(t.l)
  {
    hide Ntohl, BodyTurn;
    match ReadField(l, s, IntoName)
    case Suspend(m) => if |s| >= 4 { FieldValue(s[..4]); }
    case GoOn(m, rest) =>
      if rest != [] {
        FieldValue(m.name);
        LongValueTurn(h, m, rest, limit);
      }
  }

  lemma LongValueTurn(h: Host, l: Letter, s: bytes, limit: nat)
    requires l.Parser? && 0 < |s| < RECORD_LIMIT && (Ntohl(l.name) >= TWO_31 || s[0] >= 0x80)
    ensures var t := ValueTurn(h, l, s, limit); t.Done? && Lost(t.l) && !AsNew(t.l)
  {
    hide Ntohl;
    match ReadField(l, s, IntoValue)
    case Suspend(m) => if |s| >= 4 { FieldValue(s[..4]); }
    case GoOn(m, rest) =>
      FieldValue(m.value);
      FormBitNeverCompletes(h, m, rest, limit);
      FormBitNotNew(h, m, rest, limit);
  }

  lemma FormBitNotNew(h: Host, l: Letter, s: bytes, limit: nat)
    requires l.Parser? && |s| < RECORD_LIMIT
    requires Ntohl(l.name) + Ntohl(l.value) >= TWO_31
    ensures !AsNew(BodyTurn(h, l, s, limit).l)
  {}

  /** And once astray it never comes back. */
  lemma LostStays(h: Host, l: Letter, record: bytes, limit: nat)
    requires Lost(l) && !AsNew(l) && 0 < |record| < RECORD_LIMIT
    ensures Lost(Feed(h, l, record, limit)) && !AsNew(Feed(h, l, record, limit))
  {
    hide Ntohl, Loop;
    if l.Parser? && l.remaining > 0 {
      if l.remaining <= |record| {
        var m := CopyTo(l, record[..l.remaining]);
        if m.Parser? {
          RemainingSticks(h, Forward(m, l.remaining), record[l.remaining..], limit);
        }
      }
    } else if l.Parser? {
      assert record[..0] == [] && record[0..] == record;
      assert Forward(l, 0) == l;
      LostTurn(h, l, record, limit);
      LoopOfDone(h, l, record, limit);
    }
  }

  lemma LoopOfDone(h: Host, l: Letter, s: bytes, limit: nat)
    requires l.Parser? && TurnOf(h, l, s, limit).Done?
    ensures Loop(h, l, s, limit) == TurnOf(h, l, s, limit).l
  {}

  lemma LostTurn(h: Host, l: Letter, s: bytes, limit: nat)
    requires l.Parser? && l.remaining == 0 && l.phase != New && Lost(l) && 0 < |s| < RECORD_LIMIT
    ensures var t := TurnOf(h, l, s, limit); t.Done? && Lost(t.l) && !AsNew(t.l)
  {
    hide Ntohl, ValueTurn, BodyTurn;
    if l.phase == NameLen {
      LongValueTurn(h, l, s, limit);
    } else {
      FormBitNeverCompletes(h, l, s, limit);
      FormBitNotNew(h, l, s, limit);
    }
  }

  lemma FeedFromNew(h: Host, l: Letter, record: bytes, limit: nat)
    requires AsNew(l) && record != []
    ensures Feed(h, l, record, limit) == Loop(h, l, record, limit)
  {
    assert record[..0] == [] && record[0..] == record;
    assert Forward(l, 0) == l;
  }

  // ----- When the letter leaves the parser as new -----

  /** One record: the letter takes a parser between two pairs back there exactly when the record is
      whole pairs within the limit with lengths below 128, and then it delivers those pairs. */
  lemma FeedExact(h: Host, l: Letter, record: bytes, limit: nat)
    requires AsNew(l) && 0 < |record| < RECORD_LIMIT
    ensures var m := Feed(h, l, record, limit);
      && (AsNew(m) <==> WholeShortPairs(record, limit))
      && (AsNew(m) ==> m.pairs == l.pairs + Parse(record, limit).pairs)
      && (AsNew(m) ==> Parse(record, limit) == Parsed(Parse(record, limit).pairs, [], false))
      && (!AsNew(m) ==> Lost(m))
  {
    hide Feed, Loop, Lost, WholeShortPairs, Parse;
    FeedFromNew(h, l, record, limit);
    if WholeShortPairs(record, limit) {
      LoopOnWhole(h, l, record, limit);
    } else {
      LoopOnOther(h, l, record, limit);
    }
  }

  lemma {:induction false} RunLost(h: Host, l: Letter, records: seq<bytes>, limit: nat)
    requires Lost(l) && !AsNew(l) && AllRecords(records)
    ensures !AsNew(Run(h, l, records, limit))
    decreases |records|
  {
    hide Lost, Feed, AsNew;
    if records != [] {
      LostStays(h, l, records[0], limit);
      RunLost(h, Feed(h, l, records[0], limit), records[1..], limit);
    }
  }

  /** What follows whole pairs is parsed after them. */
  lemma ParseJoin(s: bytes, more: bytes, limit: nat)
    requires Parse(s, limit).rest == [] && !Parse(s, limit).oversized
    ensures Parse(s + more, limit) == After(Parse(s, limit).pairs, Parse(more, limit))
  {
    hide Parse;
    ParseAppend(s, more, limit);
    assert [] + more == more;
  }

  /** Over every stream, on every host, whatever the fields hold at the start: the letter leaves the
      parser as new exactly when every record is whole short pairs, and then it has delivered the pairs
      of the stream. */
  lemma {:induction false} RunExact(h: Host, l: Letter, records: seq<bytes>, limit: nat)
    requires AsNew(l) && AllRecords(records)
    ensures var m := Run(h, l, records, limit);
      && (AsNew(m) <==> forall i | 0 <= i < |records| :: WholeShortPairs(records[i], limit))
      && (AsNew(m) ==> m.pairs == l.pairs + Parse(Flatten(records), limit).pairs)
      && (AsNew(m) ==> Parse(Flatten(records), limit).rest == [] && !Parse(Flatten(records), limit).oversized)
    decreases |records|
  {
    hide Parse, Feed, WholeShortPairs, Lost, AsNew;
    if records == [] {
      ParseEmpty(limit);
    } else {
      var m, rest := Feed(h, l, records[0], limit), records[1..];
      FeedExact(h, l, records[0], limit);
      assert forall i | 0 < i < |records| :: records[i] == rest[i - 1];
      if AsNew(m) {
        RunExact(h, m, rest, limit);
        ParseJoin(records[0], Flatten(rest), limit);
      } else {
        RunLost(h, m, rest, limit);
      }
    }
  }

  // ----- When the pairs delivered are right -----

  /** How many octets the pairs take in the stream, at the least. */
  function Weight(ps: seq<Pair>): nat {
    if ps == [] then 0 else 2 + |ps[0].name| + |ps[0].value| + Weight(ps[1..])
  }

  lemma {:induction false} WeightAppend(a: seq<Pair>, b: seq<Pair>)
    ensures Weight(a + b) == Weight(a) + Weight(b)
    decreases |a|
  {
    if a == [] {
      assert a + b == b;
    } else {
      assert (a + b)[1..] == a[1..] + b;
      WeightAppend(a[1..], b);
    }
  }

  lemma WeightOne(p: Pair)
    ensures Weight([p]) == 2 + |p.name| + |p.value|
  {
    assert [p][1..] == [];
  }

  lemma {:induction false} WeightOfStream(s: bytes, limit: nat)
    requires WholeShortPairs(s, limit)
    ensures Weight(Parse(s, limit).pairs) == |s|
    decreases |s|
  {
    hide ReadFront;
    ParseEmpty(limit);
    if s != [] {
      var l := Parser([], New, 0, Nowhere, 0, [0, 0, 0, 0], [0, 0, 0, 0], []);
      ShortTurn(BigEndianHost, l, s, limit);
      var sum := s[0] as nat + s[1] as nat;
      assert s[2..][sum..] == s[2 + sum..];
      WeightOfStream(s[2 + sum..], limit);
      var p := ReadFront(s, limit).pair;
      WeightAppend([p], Parse(s[2 + sum..], limit).pairs);
      WeightOne(p);
    }
  }

  /** The octets that the parser has used for what it has: the pairs, and the lengths it holds. */
  function Spent(l: Letter): nat
    requires l.Parser?
  {
    Weight(l.pairs) + (match l.phase case New => 0 case NameLen => 1 case ValueLen => 2)
  }

  lemma BodyCost(h: Host, l: Letter, s: bytes, limit: nat)
    requires l.Parser? && |s| < RECORD_LIMIT
    ensures var t := BodyTurn(h, l, s, limit);
      && (t.Done? && t.l.Parser? ==> t.l.pairs == l.pairs && t.l.phase == l.phase)
      && (t.Again? ==> Spent(t.l) + |t.rest| <= Weight(l.pairs) + 2 + |s|)
  {
    hide Ntohl, Weight;
    var t := BodyTurn(h, l, s, limit);
    if t.Again? {
      var p := t.l.pairs[|l.pairs|];
      assert t.l.pairs == l.pairs + [p];
      WeightAppend(l.pairs, [p]);
      WeightOne(p);
    }
  }

  /** Reading a length takes an octet at least and delivers nothing. */
  lemma FieldCost(l: Letter, s: bytes, dest: Target)
    requires l.Parser?
    ensures match ReadField(l, s, dest)
      case Suspend(m) => m.Parser? ==> s != [] && m.pairs == l.pairs && m.phase == l.phase
      case GoOn(m, rest) => m.Parser? && m.pairs == l.pairs && m.phase == l.phase && |rest| < |s|
  {}

  /** A turn spends no more than it takes from the record. */
  lemma TurnCost(h: Host, l: Letter, s: bytes, limit: nat)
    requires l.Parser? && |s| < RECORD_LIMIT
    ensures var t := TurnOf(h, l, s, limit);
      && (t.Done? && t.l.Parser? ==> Spent(t.l) <= Spent(l) + |s|)
      && (t.Again? ==> Spent(t.l) + |t.rest| <= Spent(l) + |s|)
  {
    hide BodyTurn, Weight, ReadField;
    FieldCost(l, s, IntoName);
    var afterName := if l.phase == New then ReadField(l, s, IntoName) else GoOn(l, s);
    if afterName.GoOn? {
      FieldCost(afterName.l, afterName.rest, IntoValue);
      var afterValue := if l.phase == ValueLen then afterName else ReadField(afterName.l, afterName.rest, IntoValue);
      if afterValue.GoOn? {
        BodyCost(h, afterValue.l, afterValue.rest, limit);
      }
    }
  }

  lemma {:induction false} LoopCost(h: Host, l: Letter, s: bytes, limit: nat)
    requires l.Parser? && |s| < RECORD_LIMIT
    ensures var m := Loop(h, l, s, limit); m.Parser? ==> Spent(m) <= Spent(l) + |s|
    decreases |s|, if l.phase == New then 0 else 1
  {
    hide TurnOf, Spent;
    TurnCost(h, l, s, limit);
    var t := TurnOf(h, l, s, limit);
    if t.Again? && t.rest != [] {
      LoopCost(h, t.l, t.rest, limit);
    }
  }

  lemma FeedCost(h: Host, l: Letter, record: bytes, limit: nat)
    requires l.Parser? && |record| < RECORD_LIMIT
    ensures var m := Feed(h, l, record, limit); m.Parser? ==> Spent(m) <= Spent(l) + |record|
  {
    hide Loop, Weight;
    if record != [] && l.remaining <= |record| {
      var m := CopyTo(l, record[..l.remaining]);
      if m.Parser? {
        LoopCost(h, Forward(m, l.remaining), record[l.remaining..], limit);
      }
    }
  }

  lemma {:induction false} RunCost(h: Host, l: Letter, records: seq<bytes>, limit: nat)
    requires AllRecords(records)
    ensures var m := Run(h, l, records, limit);
      m.Parser? ==> l.Parser? && Weight(m.pairs) <= Spent(l) + |Flatten(records)|
    decreases |records|
  {
    hide Feed, Weight;
    if records != [] {
      FeedOfNone(h, l, records[0], limit);
      if l.Parser? {
        FeedCost(h, l, records[0], limit);
      }
      RunCost(h, Feed(h, l, records[0], limit), records[1..], limit);
    }
  }

  lemma FeedOfNone(h: Host, l: Letter, record: bytes, limit: nat)
    ensures !l.Parser? ==> Feed(h, l, record, limit) == l
  {}

  /** A record that cuts a pair of a stream of whole short pairs costs the parser octets for nothing. */
  lemma {:induction false} CutCosts(h: Host, l: Letter, s: bytes, more: bytes, limit: nat)
    requires l.Parser? && l.phase == New && |s| < RECORD_LIMIT
    requires !WholeShortPairs(s, limit) && WholeShortPairs(s + more, limit)
    ensures var m := Loop(h, l, s, limit); !m.Parser? || Spent(m) < Spent(l) + |s|
    decreases |s|
  {
    hide TurnOf, ReadFront, Spent, Weight, Parse;
    assert (s + more)[0] == s[0];
    if |s| == 1 {
      LoneOctet(h, l, s, limit);
    } else {
      assert (s + more)[1] == s[1];
      ShortTurn(h, l, s, limit);
      var t := TurnOf(h, l, s, limit);
      if t.Again? {
        var sum := s[0] as nat + s[1] as nat;
        assert s[2..][sum..] == s[2 + sum..] && (s + more)[2 + sum..] == s[2 + sum..] + more;
        CutCosts(h, t.l, t.rest, more, limit);
        TurnCost(h, l, s, limit);
      } else {
        SamePairsSpent(l, t.l);
      }
    }
  }

  lemma SamePairsSpent(l: Letter, m: Letter)
    requires l.Parser? && m.Parser? && l.phase == m.phase && l.pairs == m.pairs
    ensures Spent(l) == Spent(m)
  {}

  /** A record that ends between the two lengths is read beyond its end. */
  lemma LoneOctet(h: Host, l: Letter, s: bytes, limit: nat)
    requires l.Parser? && l.phase == New && |s| == 1 && s[0] < 0x80
    ensures Loop(h, l, s, limit) == Undefined
  {}

  /** What follows whole short pairs in a stream of them is such a stream. */
  lemma {:induction false} WholeRest(s: bytes, more: bytes, limit: nat)
    requires WholeShortPairs(s, limit) && WholeShortPairs(s + more, limit)
    ensures WholeShortPairs(more, limit)
    decreases |s|
  {
    if s == [] {
      assert s + more == more;
    } else {
      var sum := s[0] as nat + s[1] as nat;
      assert (s + more)[2 + sum..] == s[2 + sum..] + more;
      WholeRest(s[2 + sum..], more, limit);
    }
  }

  lemma {:induction false} StreamCost(h: Host, l: Letter, records: seq<bytes>, limit: nat)
    requires AsNew(l) && AllRecords(records) && WholeShortPairs(Flatten(records), limit)
    requires exists i :: 0 <= i < |records| && !WholeShortPairs(records[i], limit)
    ensures var m := Run(h, l, records, limit); m.Parser? ==> Weight(m.pairs) < Weight(l.pairs) + |Flatten(records)|
    decreases |records|
  {
    hide Feed, Loop, WholeShortPairs, Parse, Weight, Lost;
    var first, rest := records[0], records[1..];
    var m := Feed(h, l, first, limit);
    if WholeShortPairs(first, limit) {
      FeedExact(h, l, first, limit);
      WholeRest(first, Flatten(rest), limit);
      assert exists i :: 0 <= i < |rest| && !WholeShortPairs(rest[i], limit) by {
        var i :| 0 <= i < |records| && !WholeShortPairs(records[i], limit);
        assert rest[i - 1] == records[i];
      }
      StreamCost(h, m, rest, limit);
      WeightAppend(l.pairs, Parse(first, limit).pairs);
      WeightOfStream(first, limit);
    } else {
      FeedFromNew(h, l, first, limit);
      CutCosts(h, l, first, Flatten(rest), limit);
      RunCost(h, m, rest, limit);
    }
  }

  /** Over a stream of whole pairs with lengths below 128, however it is cut: at its end the letter has
      delivered the pairs of the stream exactly when no record cuts a pair. */
  lemma PairsExact(h: Host, l: Letter, records: seq<bytes>, limit: nat)
    requires AsNew(l) && AllRecords(records) && WholeShortPairs(Flatten(records), limit)
    ensures var m := Run(h, l, records, limit);
      (m.Parser? && m.pairs == l.pairs + Parse(Flatten(records), limit).pairs)
      <==> forall i | 0 <= i < |records| :: WholeShortPairs(records[i], limit)
  {
    hide Run, WholeShortPairs, Parse, Weight;
    RunExact(h, l, records, limit);
    if exists i :: 0 <= i < |records| && !WholeShortPairs(records[i], limit) {
      StreamCost(h, l, records, limit);
      WeightAppend(l.pairs, Parse(Flatten(records), limit).pairs);
      WeightOfStream(Flatten(records), limit);
    }
  }

  // ----- Records that end inside a 4-octet length -----

  /** The rest of a turn whose lengths were put together from two records. */
  lemma BodyDelivers(h: Host, l: Letter, s: bytes, limit: nat)
    requires l.Parser? && l.remaining > 0 && l.target in {IntoName, IntoValue} && l.offset >= 4
    requires Ntohl(l.name) < TWO_31 && Ntohl(l.value) < TWO_31
    requires var sum := Ntohl(l.name) + Ntohl(l.value); sum <= limit && sum <= |s| && WholeShortPairs(s[sum..], limit)
    ensures var n, sum, t := Ntohl(l.name), Ntohl(l.name) + Ntohl(l.value), BodyTurn(h, l, s, limit);
      && t.Again? && t.rest == s[sum..]
      && var m := if t.rest == [] then t.l else Loop(h, t.l, t.rest, limit);
      && Stale(m) && m.pairs == l.pairs + ([Pair(s[..n], s[n..sum])] + Parse(s[sum..], limit).pairs)
  {
    hide Ntohl, ReadFront, WholeShortPairs, Parse, BodyTurn, Loop;
    BodyDeliversOne(h, l, s, limit);
    var t := BodyTurn(h, l, s, limit);
    ParseEmpty(limit);
    if t.rest != [] {
      LoopOnWhole(h, t.l, t.rest, limit);
    }
  }

  lemma BodyDeliversOne(h: Host, l: Letter, s: bytes, limit: nat)
    requires l.Parser? && Ntohl(l.name) < TWO_31 && Ntohl(l.value) < TWO_31
    requires Ntohl(l.name) + Ntohl(l.value) <= limit && Ntohl(l.name) + Ntohl(l.value) <= |s|
    ensures var n, sum, t := Ntohl(l.name), Ntohl(l.name) + Ntohl(l.value), BodyTurn(h, l, s, limit);
      && t.Again? && t.l.Parser? && t.rest == s[sum..] && t.l.pairs == l.pairs + [Pair(s[..n], s[n..sum])]
      && t.l.phase == New && t.l.remaining == l.remaining && t.l.target == l.target && t.l.offset == l.offset + sum
  {
    hide Ntohl, Converted;
  }

  /** A parser between two pairs that still awaits octets, with nowhere to put them. */
  predicate Stale(l: Letter) {
    l.Parser? && l.phase == New && l.remaining > 0 && l.target in {IntoName, IntoValue} && l.offset >= 4
  }

  lemma StaleIsUseless(h: Host, l: Letter, record: bytes, limit: nat)
    requires Stale(l) && record != []
    ensures Feed(h, l, record, limit) == Undefined
  {
    hide Loop;
  }

  lemma RunTwo(h: Host, l: Letter, first: bytes, second: bytes, limit: nat)
    ensures Run(h, l, [first, second], limit) == Feed(h, Feed(h, l, first, limit), second, limit)
  {
    hide Feed;
    var m := Feed(h, l, first, limit);
    assert [first, second][1..] == [second] && [second][1..] == [];
    assert Run(h, m, [second], limit) == Feed(h, m, second, limit);
  }

  /** A field put together from the first octets of its length, and the others from the next record. */
  lemma FieldJoined(was: Field, first: bytes, second: bytes)
    requires 1 <= |first| <= 3 && first[0] >= 0x80 && |second| == 4 - |first|
    ensures var s := first + second; Splice(CutField(was, first), |first|, second) == [s[0] - 0x80] + s[1..4]
  {}

  lemma ShortField(x: byte)
    ensures Ntohl([0, 0, 0, x]) == x as nat
  {}

  /** A parser with a 4-octet length cut after `first`, and the next record. */
  lemma ResumedField(h: Host, l: Letter, dest: Target, was: Field, first: bytes, second: bytes, limit: nat)
    requires l.Parser? && dest in {IntoName, IntoValue} && 1 <= |first| <= 3 && first[0] >= 0x80
    requires |second| >= 4 - |first|
    requires l.remaining == 4 - |first| && l.target == dest && l.offset == |first|
    requires (if dest == IntoName then l.name else l.value) == CutField(was, first)
    ensures var k := 4 - |first|; var s := first + second[..k];
      Feed(h, l, second, limit)
      == Loop(h, WithField(l, dest, [s[0] - 0x80] + s[1..4]).(offset := 4), second[k..], limit)
  {
    hide Loop;
    FieldJoined(was, first, second[..4 - |first|]);
  }

  /** A record that ends inside its first length, or inside its second. */
  lemma NameCut(h: Host, l: Letter, first: bytes, limit: nat)
    requires AsNew(l) && 1 <= |first| <= 3 && first[0] >= 0x80
    ensures Feed(h, l, first, limit)
         == l.(phase := NameLen, remaining := 4 - |first|, target := IntoName, offset := |first|,
               name := CutField(l.name, first))
  {
    hide CutField, Ntohl;
    FeedFromNew(h, l, first, limit);
    LoopOfDone(h, l, first, limit);
  }

  lemma ValueCut(h: Host, l: Letter, first: bytes, limit: nat)
    requires AsNew(l) && 2 <= |first| <= 4 && first[0] < 0x80 && first[1] >= 0x80
    ensures Feed(h, l, first, limit)
         == l.(phase := ValueLen, remaining := 5 - |first|, target := IntoValue, offset := |first| - 1,
               name := [0, 0, 0, first[0]], value := CutField(l.value, first[1..]))
  {
    hide CutField, Ntohl;
    FeedFromNew(h, l, first, limit);
    LoopOfDone(h, l, first, limit);
  }

  lemma ShortValueTurn(h: Host, c: Letter, s: bytes, limit: nat)
    requires c.Parser? && c.phase == NameLen && s != [] && s[0] < 0x80
    ensures TurnOf(h, c, s, limit) == BodyTurn(h, c.(value := [0, 0, 0, s[0]], offset := c.offset + 1), s[1..], limit)
  {
    hide BodyTurn;
  }

  lemma KnownLengthsTurn(h: Host, c: Letter, s: bytes, limit: nat)
    requires c.Parser? && c.phase == ValueLen
    ensures TurnOf(h, c, s, limit) == BodyTurn(h, c, s, limit)
  {
    hide BodyTurn;
  }

  /** A name length cut by the end of a record, the pair being whole in the next record with a value
      length below 128, and whole short pairs after it: the letter delivers all of them. But the next
      record that comes is written outside of the field. */
  lemma NameCutDelivers(h: Host, l: Letter, first: bytes, second: bytes, limit: nat)
    requires AsNew(l) && 1 <= |first| <= 3 && first[0] >= 0x80
    requires |second| > 4 - |first| && second[4 - |first|] < 0x80
    requires var front := ReadFront(first + second, limit);
      front.Whole? && WholeShortPairs((first + second)[front.size..], limit)
    ensures DeliversThenDies(h, l, first, second, limit)
  {
    hide Ntohl, Parse, WholeShortPairs, BodyTurn, Feed, Loop, ReadFront, Stale, CutField;
    hide TurnOf;
    var s, k := first + second, 4 - |first|;
    var a := l.(phase := NameLen, remaining := k, target := IntoName, offset := |first|,
                name := CutField(l.name, first));
    NameCut(h, l, first, limit);
    ResumedField(h, a, IntoName, l.name, first, second, limit);
    var field := [s[0] - 0x80] + s[1..4];
    SlicesAcross(first, second, 0, 4);
    SliceOfSlice(s, 0, 4, 1, 4);
    assert s[4..][1..] == s[5..];
    var c := a.(name := field, value := [0, 0, 0, s[4]], offset := 5);
    ShortValueTurn(h, a.(name := field, offset := 4), s[4..], limit);
    ShortField(s[4]);
    FrontByFields(s, 4, 5, field, c.value, limit);
    BodyDelivers(h, c, s[5..], limit);
    LoopByTurn(h, a.(name := field, offset := 4), s[4..], limit);
    DeliveredThenDead(h, l, first, second, limit);
  }

  /** The same for a value length. */
  lemma ValueCutDelivers(h: Host, l: Letter, first: bytes, second: bytes, limit: nat)
    requires AsNew(l) && 2 <= |first| <= 4 && first[0] < 0x80 && first[1] >= 0x80
    requires |second| >= 5 - |first|
    requires var front := ReadFront(first + second, limit);
      front.Whole? && WholeShortPairs((first + second)[front.size..], limit)
    ensures DeliversThenDies(h, l, first, second, limit)
  {
    hide Ntohl, Parse, WholeShortPairs, BodyTurn, Feed, Loop, ReadFront, Stale, CutField;
    hide TurnOf;
    var s, tail := first + second, first[1..];
    var k := 4 - |tail|;
    var a := l.(phase := ValueLen, remaining := k, target := IntoValue, offset := |tail|, name := [0, 0, 0, s[0]],
                value := CutField(l.value, tail));
    ValueCut(h, l, first, limit);
    ResumedField(h, a, IntoValue, l.value, tail, second, limit);
    var joined := tail + second[..k];
    var field := [joined[0] - 0x80] + joined[1..4];
    SlicesAcross(first, second, 1, 5);
    SliceOfSlice(s, 1, 5, 1, 4);
    var b := a.(value := field, offset := 4);
    ShortField(s[0]);
    FrontByFields(s, 1, 5, b.name, field, limit);
    BodyDelivers(h, b, s[5..], limit);
    KnownLengthsTurn(h, b, s[5..], limit);
    LoopByTurn(h, b, s[5..], limit);
    DeliveredThenDead(h, l, first, second, limit);
  }

  /** The pairs of two records are delivered, and the parser cannot take a third one. */
  ghost predicate DeliversThenDies(h: Host, l: Letter, first: bytes, second: bytes, limit: nat)
    requires l.Parser?
  {
    var m := Run(h, l, [first, second], limit);
    && m.Parser? && m.pairs == l.pairs + Parse(first + second, limit).pairs
    && forall record :: record != [] ==> Feed(h, m, record, limit) == Undefined
  }

  lemma LoopByTurn(h: Host, l: Letter, s: bytes, limit: nat)
    requires l.Parser? && TurnOf(h, l, s, limit).Again?
    ensures var t := TurnOf(h, l, s, limit);
      Loop(h, l, s, limit) == if t.rest == [] then t.l else Loop(h, t.l, t.rest, limit)
  {}

  lemma DeliveredThenDead(h: Host, l: Letter, first: bytes, second: bytes, limit: nat)
    requires l.Parser? && ReadFront(first + second, limit).Whole?
    requires var m, f := Feed(h, Feed(h, l, first, limit), second, limit), ReadFront(first + second, limit);
      Stale(m) && m.pairs == l.pairs + ([f.pair] + Parse((first + second)[f.size..], limit).pairs)
    ensures DeliversThenDies(h, l, first, second, limit)
  {
    hide Feed, Parse;
    RunTwo(h, l, first, second, limit);
    ParseFront(first + second, limit);
    var m := Run(h, l, [first, second], limit);
    forall record | record != [] ensures Feed(h, m, record, limit) == Undefined {
      StaleIsUseless(h, m, record, limit);
    }
  }

  /** The front of a stream whose length fields, `s[..a]` and `s[a..b]`, are in memory. */
  lemma FrontByFields(s: bytes, a: nat, b: nat, name: Field, value: Field, limit: nat)
    requires a <= b <= |s| && ReadLength(s) == Length(Ntohl(name), a)
    requires ReadLength(s[a..]) == Length(Ntohl(value), b - a)
    ensures Ntohl(name) < TWO_31 && Ntohl(value) < TWO_31
    ensures ReadFront(s, limit) == FrontWithBody(s[b..], Ntohl(name), Ntohl(value), b, limit)
    ensures var sum := Ntohl(name) + Ntohl(value); sum <= |s| - b ==> s[b..][sum..] == s[b + sum..]
  {
    hide Ntohl, ReadLength;
    ReadLengthBelow31Bits(s);
    ReadLengthBelow31Bits(s[a..]);
    var n, v := Ntohl(name), Ntohl(value);
    if n + v <= |s| - b {
      assert s[b..][..n] == s[b..b + n] && s[b..][n..n + v] == s[b + n..b + n + v];
    }
  }

  lemma ParseFront(s: bytes, limit: nat)
    requires ReadFront(s, limit).Whole?
    ensures var f := ReadFront(s, limit); Parse(s, limit).pairs == [f.pair] + Parse(s[f.size..], limit).pairs
  {}

  /** A record that begins with a complete 4-octet name length is given up after it, its rest unread, unless
      four more octets are all there is. */
  lemma LongNameDropsRest(h: Host, l: Letter, s: bytes, limit: nat)
    requires AsNew(l) && |s| >= 4 && s[0] >= 0x80 && |s| != 8
    ensures Feed(h, l, s, limit) == l.(phase := NameLen, name := s[..4], offset := l.offset + 4)
  {
    hide Ntohl;
    FeedFromNew(h, l, s, limit);
    LoopOfDone(h, l, s, limit);
  }

  // ----- Single inputs -----

  /** Two of the records on which the letter fails: a name length of 1 in four octets, and a record
      that ends between the two lengths of a pair. */
  lemma LetterFails(h: Host, l: Letter)
    requires AsNew(l)
    ensures var m := Feed(h, l, [0x80, 0, 0, 1, 0, 65], 0xFFFF);
      && m.Parser? && m.phase == NameLen && m.pairs == l.pairs
      && Parse([0x80, 0, 0, 1, 0, 65], 0xFFFF).pairs == [Pair([65], [])]
    ensures Feed(h, l, [1], 0xFFFF) == Undefined && Parse([1], 0xFFFF) == Parsed([], [1], false)
  {
    var s: bytes := [0x80, 0, 0, 1, 0, 65];
    assert [s[0] - 0x80] + s[1..4] == [0, 0, 0, 1];
    assert ReadLength(s) == Length(1, 4) && ReadLength(s[4..]) == Length(0, 1);
    assert ReadFront(s, 0xFFFF) == Whole(Pair(s[5..6], s[6..6]), 6);
    assert s[5..6] == [65] && s + [] == s;
    ParseEmpty(0xFFFF);
    ParseWhole(s, [], 0xFFFF);
    FeedFromNew(h, l, s, 0xFFFF);
    FeedFromNew(h, l, [1], 0xFFFF);
  }

  /** A pair whose body is cut, READ_BUFFER not being entered, is lost: when whole short pairs follow in the
      record they are delivered without it, and when nothing follows the parser leaves the record. */
  lemma CutPairIsLost(h: Host, l: Letter, p: Pair, first: bytes, second: bytes, after: bytes, limit: nat)
    requires AsNew(l) && |p.name| < 0x80 && |p.value| < 0x80 && |p.name| + |p.value| <= limit
    requires first + second == Serialize(p) && 2 <= |first| && second != []
    requires after != [] && WholeShortPairs(after, limit)
    ensures var m := Feed(h, l, first, limit);
      && m.Parser? && m.pairs == l.pairs
      && Feed(h, m, second, limit) == Undefined
      && var d := Feed(h, m, second + after, limit); d.Parser? && d.pairs == l.pairs + Parse(after, limit).pairs
    ensures Parse(first + (second + after), limit).pairs == [p] + Parse(after, limit).pairs
  {
    hide Parse, ReadFront, WholeShortPairs, Feed, Loop, TurnOf;
    assert |first| + |second| == |Serialize(p)| && first[0] == Serialize(p)[0] && first[1] == Serialize(p)[1];
    ShortTurn(h, l, first, limit);
    FeedFromNew(h, l, first, limit);
    LoopOfDone(h, l, first, limit);
    BodyResumed(h, Feed(h, l, first, limit), second, after, limit);
    FrontRoundTrip(p, [], limit);
    assert Serialize(p) + [] == Serialize(p);
    ParseWhole(Serialize(p), after, limit);
    AppendAssociates(first, second, after);
  }

  /** The next record fills the buffer, and the loop goes on at READ_NEW. */
  lemma BodyResumed(h: Host, l: Letter, second: bytes, after: bytes, limit: nat)
    requires l.Parser? && l.phase == New && l.target == IntoBuffer && l.offset + |second| == |l.buffer|
    requires second != [] && l.remaining == |second| && after != [] && WholeShortPairs(after, limit)
    ensures Feed(h, l, second, limit) == Undefined
    ensures var m := Feed(h, l, second + after, limit); m.Parser? && m.pairs == l.pairs + Parse(after, limit).pairs
  {
    hide Parse, Loop, WholeShortPairs;
    var m := Forward(CopyTo(l, second), |second|);
    assert second[..|second|] == second && (second + after)[..|second|] == second;
    assert second[|second|..] == [] && (second + after)[|second|..] == after;
    LoopOnNothing(h, m, limit);
    LoopOnWhole(h, m, after, limit);
  }

  lemma LoopOnNothing(h: Host, l: Letter, limit: nat)
    requires l.Parser? && l.phase == New
    ensures Loop(h, l, [], limit) == Undefined
  {}

  /** Why a condition on the records alone cannot be exact for every stream: on these three, which cut a
      4-octet length twice, the outcome depends on what `name_len` held before the pair. */
  lemma MemoryDecides(h: Host, l: Letter, limit: nat)
    requires AsNew(l)
    ensures var records: seq<bytes> := [[0x80], [0], [0, 0, 0]]; var m := Run(h, l, records, limit);
      && Parse(Flatten(records), limit) == Parsed([Pair([], [])], [], false)
      && ((m.Parser? && m.pairs == l.pairs + Parse(Flatten(records), limit).pairs) <==> l.name[3] == 0)
  {
    hide Feed, Parse, Loop;
    var records: seq<bytes> := [[0x80], [0], [0, 0, 0]];
    var a: Letter := l.(phase := NameLen, remaining := 3, target := IntoName, offset := 1,
                        name := [0, l.name[1], l.name[2], l.name[3]]);
    assert CutField(l.name, [0x80]) == a.name;
    FeedFromNew(h, l, [0x80], limit);
    LoopOfDone(h, l, [0x80], limit);
    var b := a.(remaining := 2, name := [0, 0, l.name[2], l.name[3]]);
    SecondCut(h, a, limit);
    ThirdCut(h, b, limit);
    assert records[1..] == [[0], [0, 0, 0]] && records[1..][1..] == [[0, 0, 0]] && records[1..][1..][1..] == [];
    RunTwo(h, a, [0], [0, 0, 0], limit);
    assert Run(h, l, records, limit) == Feed(h, b, [0, 0, 0], limit);
    ZeroPair(records, limit);
  }

  lemma SecondCut(h: Host, a: Letter, limit: nat)
    requires a.Parser? && a.remaining == 3 && a.target == IntoName && a.offset == 1
    ensures Feed(h, a, [0], limit) == a.(remaining := 2, name := [a.name[0], 0, a.name[2], a.name[3]])
  {
    hide Loop;
  }

  lemma ThirdCopied(h: Host, b: Letter, limit: nat)
    requires b.Parser? && b.remaining == 2 && b.target == IntoName && b.offset == 1 && b.name[0] == 0
    ensures Feed(h, b, [0, 0, 0], limit) == Loop(h, b.(name := [0, 0, 0, b.name[3]], offset := 3), [0], limit)
  {
    hide Loop;
    var r: bytes := [0, 0, 0];
    assert r[..2] == [0, 0] && r[2..] == [0];
    assert Splice(b.name, 1, [0, 0]) == [0, 0, 0, b.name[3]];
  }

  lemma ZeroValue(h: Host, c: Letter, limit: nat)
    requires c.Parser? && c.phase == NameLen
    ensures TurnOf(h, c, [0], limit) == BodyTurn(h, c.(value := [0, 0, 0, 0], offset := c.offset + 1), [], limit)
  {
    hide BodyTurn;
    var s: bytes := [0];
    assert s[1..] == [];
  }

  lemma ZeroBody(h: Host, d: Letter, n: byte, limit: nat)
    requires d.Parser? && d.name == [0, 0, 0, n] && d.value == [0, 0, 0, 0]
    ensures var t := BodyTurn(h, d, [], limit);
      if n == 0 then t.Again? && t.rest == [] && t.l.Parser? && t.l.pairs == d.pairs + [Pair([], [])]
      else t.Done? && !t.l.Undefined? && t.l.pairs == d.pairs
  {
    hide Ntohl, Converted;
    ShortField(n);
    ShortField(0);
  }

  lemma ThirdCut(h: Host, b: Letter, limit: nat)
    requires b.Parser? && b.phase == NameLen && b.remaining == 2
    requires b.target == IntoName && b.offset == 1 && b.name[0] == 0
    ensures var m := Feed(h, b, [0, 0, 0], limit);
      if b.name[3] == 0 then m.Parser? && m.pairs == b.pairs + [Pair([], [])] else !m.Undefined? && m.pairs == b.pairs
  {
    hide Loop, Feed, BodyTurn, TurnOf;
    var c := b.(name := [0, 0, 0, b.name[3]], offset := 3);
    ThirdCopied(h, b, limit);
    ZeroValue(h, c, limit);
    ZeroBody(h, c.(value := [0, 0, 0, 0], offset := 4), b.name[3], limit);
    if b.name[3] == 0 {
      LoopByTurn(h, c, [0], limit);
    } else {
      LoopOfDone(h, c, [0], limit);
    }
  }

  lemma ZeroPair(records: seq<bytes>, limit: nat)
    requires records == [[0x80], [0], [0, 0, 0]]
    ensures Parse(Flatten(records), limit) == Parsed([Pair([], [])], [], false)
  {
    hide Parse, Flatten;
    ZeroOctets(records);
    ZeroFront(limit);
    var s: bytes := [0x80, 0, 0, 0, 0];
    assert s + [] == s;
    ParseWhole(s, [], limit);
    ParseEmpty(limit);
  }

  lemma ZeroOctets(records: seq<bytes>)
    requires records == [[0x80], [0], [0, 0, 0]]
    ensures Flatten(records) == [0x80, 0, 0, 0, 0]
  {
    hide Flatten;
    var a: bytes := [0x80];
    FlattenSnoc([], a);
    FlattenSnoc([a], [0]);
    FlattenSnoc([a, [0]], [0, 0, 0]);
    FlattenNone();
    assert [] + [a] == [a] && [a] + [[0]] == [a, [0]] && [a, [0]] + [[0, 0, 0]] == records;
  }

  lemma FlattenNone()
    ensures Flatten([]) == []
  {}

  lemma ZeroFront(limit: nat)
    ensures ReadFront([0x80, 0, 0, 0, 0], limit) == Whole(Pair([], []), 5)
  {
    hide ReadFront, Ntohl, ReadLength, FrontWithBody;
    var s: bytes := [0x80, 0, 0, 0, 0];
    var field: Field := [0, 0, 0, 0];
    ShortField(0);
    ZeroLengths(s, field);
    FrontByFields(s, 4, 5, field, field, limit);
    NoBody(s[5..], limit);
  }

  lemma ZeroLengths(s: bytes, field: Field)
    requires s == [0x80, 0, 0, 0, 0] && field == [0, 0, 0, 0]
    ensures ReadLength(s) == Length(Ntohl(field), 4) && ReadLength(s[4..]) == Length(0, 1)
  {
    hide Ntohl;
    assert [s[0] - 0x80] + s[1..4] == field;
    assert s[4..] == [0];
  }

  lemma NoBody(body: bytes, limit: nat)
    requires body == []
    ensures FrontWithBody(body, 0, 0, 5, limit) == Whole(Pair([], []), 5)
  {}

  /** And the host matters as well: on these three records, which hold the pair ("A", "B") and part of another,
      a big-endian host delivers octets of the second pair in place of the first, and any other throws,
      as `name_len` is converted again when READ_NAME_LEN is entered again. */
  lemma HostDecides(h: Host, l: Letter)
    requires AsNew(l)
    ensures var m := Run(h, l, [[0x80], [0, 0, 1, 1, 65], [66, 1, 67, 68]], 0xFFFF);
      if h == BigEndianHost then m.Parser? && m.pairs == l.pairs + [Pair([67], [68])] else m == Threw(l.pairs)
  {
    hide Feed, Loop;
    var first, second, third: bytes := [0x80], [0, 0, 1, 1, 65], [66, 1, 67, 68];
    var records := [first, second, third];
    var a: Letter := l.(phase := NameLen, remaining := 3, target := IntoName, offset := 1,
                        name := CutField(l.name, first));
    NameCut(h, l, first, 0xFFFF);
    var b := SplitBehindName(h, a, l.name, second);
    ConvertedAgain(h, b, third);
    assert records[1..] == [second, third] && records[1..][1..] == [third] && records[1..][1..][1..] == [];
    RunTwo(h, a, second, third, 0xFFFF);
    assert Run(h, l, records, 0xFFFF) == Feed(h, b, third, 0xFFFF);
  }

  lemma SplitBehindName(h: Host, a: Letter, was: Field, second: bytes) returns (b: Letter)
    requires a.Parser? && a.phase == NameLen && a.remaining == 3 && a.target == IntoName && a.offset == 1
    requires a.name == CutField(was, [0x80]) && second == [0, 0, 1, 1, 65]
    ensures b == Feed(h, a, second, 0xFFFF) && b.Parser? && b.phase == NameLen && b.pairs == a.pairs
    ensures b.remaining == 1 && b.target == IntoBuffer && b.offset == 1 && |b.buffer| == 2
    ensures b.name == if h == BigEndianHost then [0, 0, 0, 1] else [1, 0, 0, 0]
  {
    hide Feed, Loop, Ntohl;
    ResumedField(h, a, IntoName, was, [0x80], second, 0xFFFF);
    var joined: bytes := [0x80] + second[..3];
    assert second[..3] == [0, 0, 1] && joined[1..4] == [0, 0, 1];
    assert [joined[0] - 0x80] + joined[1..4] == [0, 0, 0, 1];
    var c := a.(name := [0, 0, 0, 1], offset := 4);
    assert second[3..] == [1, 65] && second[3..][1..] == [65];
    ShortField(1);
    LoopOfDone(h, c, [1, 65], 0xFFFF);
    b := Feed(h, a, second, 0xFFFF);
  }

  lemma ConvertedAgain(h: Host, b: Letter, third: bytes)
    requires b.Parser? && b.phase == NameLen && b.remaining == 1 && b.target == IntoBuffer && b.offset == 1
    requires |b.buffer| == 2 && third == [66, 1, 67, 68]
    requires b.name == if h == BigEndianHost then [0, 0, 0, 1] else [1, 0, 0, 0]
    ensures var m := Feed(h, b, third, 0xFFFF);
      if h == BigEndianHost then m.Parser? && m.pairs == b.pairs + [Pair([67], [68])] else m == Threw(b.pairs)
  {
    hide Loop;
    assert third[..1] == [66] && third[1..] == [1, 67, 68] && third[1..][1..] == [67, 68];
    hide BodyTurn, TurnOf, Ntohl;
    var c := Forward(CopyTo(b, [66]), 1);
    assert Feed(h, b, third, 0xFFFF) == Loop(h, c, third[1..], 0xFFFF);
    var d := c.(value := [0, 0, 0, 1], offset := c.offset + 1);
    ShortValueTurn(h, c, third[1..], 0xFFFF);
    TwoOctets(h, d, third[1..][1..]);
    if h == BigEndianHost {
      LoopByTurn(h, c, third[1..], 0xFFFF);
    } else {
      LoopOfDone(h, c, third[1..], 0xFFFF);
    }
  }

  lemma TwoOctets(h: Host, d: Letter, body: bytes)
    requires d.Parser? && d.value == [0, 0, 0, 1] && body == [67, 68]
    requires d.name == if h == BigEndianHost then [0, 0, 0, 1] else [1, 0, 0, 0]
    ensures var t := BodyTurn(h, d, body, 0xFFFF);
      if h == BigEndianHost then t.Again? && t.rest == [] && t.l.Parser? && t.l.pairs == d.pairs + [Pair([67], [68])]
      else t == Done(Threw(d.pairs))
  {
    assert Ntohl([0, 0, 0, 1]) == 1 && Ntohl([1, 0, 0, 0]) == 0x100_0000;
    assert body[..1] == [67] && body[1..2] == [68] && body[2..] == [];
  }

  /** The sum of two lengths wraps: with 1 and a value length of four octets 255, and four octets after it, it
      is 0, so neither the limit nor the end of the record stands in the way of a pair that the record does
      not hold. */
  lemma SumWraps(h: Host, l: Letter)
    requires AsNew(l)
    ensures Feed(h, l, [1, 255, 255, 255, 255, 65, 65, 65, 65], 0xFFFF) == Undefined
  {
    var s: bytes := [1, 255, 255, 255, 255, 65, 65, 65, 65];
    FeedFromNew(h, l, s, 0xFFFF);
    var n, v: Field := [0, 0, 0, 1], [255, 255, 255, 255];
    assert s[1..][..4] == v && s[1..][4..] == [65, 65, 65, 65];
    LengthsWrap(h, l.(name := n, value := v, offset := l.offset + 5), s[1..][4..]);
    LoopOfDone(h, l, s, 0xFFFF);
  }

  lemma LengthsWrap(h: Host, l: Letter, body: bytes)
    requires l.Parser? && l.name == [0, 0, 0, 1] && l.value == [255, 255, 255, 255] && |body| == 4
    ensures BodyTurn(h, l, body, 0xFFFF) == Done(Undefined)
  {
    assert Ntohl(l.name) == 1 && Ntohl(l.value) == 0xFFFF_FFFF;
  }
}
