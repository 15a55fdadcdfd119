/**
 The name-value pair format of section 3.4 of the FastCGI Specification 1.0:
 the serializer of src/name-value-pairs.cpp and a one-shot reference parser.
 */
module NameValuePairs {
  import opened Bytes

  datatype Pair = Pair(name: bytes, value: bytes)

  /** The largest length that the serializer accepts. */
  const MAX_SERIALIZABLE := 0x8FFF_FFFF

  // ----- Reference parser -----

  /** Reading one length field: not enough octets, or its value and its width. */
  datatype LengthRead = Short | Length(value: nat, width: nat)

  function ReadLength(s: bytes): LengthRead {
    if |s| == 0 then Short
    else if s[0] < 0x80 then Length(s[0] as nat, 1)
    else if |s| < 4 then Short
    else Length(Ntohl([s[0] - 0x80] + s[1..4]), 4)
  }

  /** What stands at the front of a stream: part of a pair, a pair over the limit, or a whole pair. */
  datatype Front = Partial | Oversized | Whole(pair: Pair, size: nat)

  function ReadFront(s: bytes, limit: nat): Front {
    match ReadLength(s)
    case Short => Partial
    case Length(n, a) =>
      match ReadLength(s[a..])
      case Short => Partial
      case Length(v, b) =>
        if n + v > limit then Oversized
        else if |s| < a + b + n + v then Partial
        else Whole(Pair(s[a + b..a + b + n], s[a + b + n..a + b + n + v]), a + b + n + v)
  }

  /** The pairs read, the octets that no whole pair covers, and whether the next pair is over the limit. */
  datatype Parsed = Parsed(pairs: seq<Pair>, rest: bytes, oversized: bool)

  const NOTHING := Parsed([], [], false)

  function After(before: seq<Pair>, p: Parsed): Parsed {
    p.(pairs := before + p.pairs)
  }

  function Parse(s: bytes, limit: nat): Parsed
    decreases |s|
  {
    match ReadFront(s, limit)
    case Partial => Parsed([], s, false)
    case Oversized => Parsed([], s, true)
    case Whole(pair, size) => After([pair], Parse(s[size..], limit))
  }

  /** One record more: what a parser that holds `p` makes of it. A parser over the limit is dead. */
  function Resume(p: Parsed, record: bytes, limit: nat): Parsed {
    if p.oversized then p else After(p.pairs, Parse(p.rest + record, limit))
  }

  function ResumeAll(p: Parsed, records: seq<bytes>, limit: nat): Parsed
    decreases |records|
  {
    if records == [] then p else ResumeAll(Resume(p, records[0], limit), records[1..], limit)
  }

  lemma AfterAfter(a: seq<Pair>, b: seq<Pair>, p: Parsed)
    ensures After(a, After(b, p)) == After(a + b, p)
  {
    assert a + (b + p.pairs) == a + b + p.pairs;
  }

  /** A length field that is complete reads the same whatever follows it. */
  lemma ReadLengthExtends(s: bytes, t: bytes)
    requires ReadLength(s).Length?
    ensures ReadLength(s + t) == ReadLength(s)
  {
    if s[0] >= 0x80 {
      assert (s + t)[1..4] == s[1..4];
    }
  }

  lemma ReadFrontExtends(s: bytes, t: bytes, limit: nat)
    requires !ReadFront(s, limit).Partial?
    ensures ReadFront(s + t, limit) == ReadFront(s, limit)
  {
    ReadLengthExtends(s, t);
    var Length(n, a) := ReadLength(s);
    assert (s + t)[a..] == s[a..] + t;
    ReadLengthExtends(s[a..], t);
    var Length(v, b) := ReadLength(s[a..]);
    if n + v <= limit {
      assert (s + t)[a + b..a + b + n] == s[a + b..a + b + n];
      assert (s + t)[a + b + n..a + b + n + v] == s[a + b + n..a + b + n + v];
    }
  }

  /** A length field holds 31 bits at most. */
  lemma ReadLengthBelow31Bits(s: bytes)
    ensures ReadLength(s).Length? ==> ReadLength(s).value < TWO_31
  {}

  /** A whole pair in front is parsed first, whatever follows. */
  lemma ParseWhole(s: bytes, t: bytes, limit: nat)
    requires ReadFront(s, limit).Whole? && ReadFront(s, limit).size == |s|
    ensures Parse(s + t, limit) == After([ReadFront(s, limit).pair], Parse(t, limit))
  {
    ReadFrontExtends(s, t, limit);
    assert (s + t)[|s|..] == t;
  }

  /** Stopping anywhere and resuming with the octets left over loses and adds nothing. */
  lemma {:induction false} ParseAppend(s: bytes, t: bytes, limit: nat)
    ensures Parse(s + t, limit).pairs == Resume(Parse(s, limit), t, limit).pairs
    ensures Parse(s + t, limit).oversized == Resume(Parse(s, limit), t, limit).oversized
    ensures !Parse(s, limit).oversized ==> Parse(s + t, limit) == Resume(Parse(s, limit), t, limit)
    decreases |s|
  {
    match ReadFront(s, limit)
    case Partial =>
    case Oversized => ReadFrontExtends(s, t, limit);
    case Whole(pair, size) =>
      ReadFrontExtends(s, t, limit);
      assert (s + t)[size..] == s[size..] + t;
      ParseAppend(s[size..], t, limit);
      var rest := Parse(s[size..], limit);
      if !rest.oversized {
        AfterAfter([pair], rest.pairs, Parse(rest.rest + t, limit));
      }
  }

  /** What is left over never hides a whole pair, so parsing it again changes nothing. */
  lemma {:induction false} ParseRest(s: bytes, limit: nat)
    ensures var p := Parse(s, limit); Parse(p.rest, limit) == Parsed([], p.rest, p.oversized)
    decreases |s|
  {
    match ReadFront(s, limit)
    case Partial =>
    case Oversized =>
    case Whole(_, size) => ParseRest(s[size..], limit);
  }

  /** The same pairs and the same failure; and the same octets left over, unless the parser is dead. */
  predicate Agree(cut: Parsed, whole: Parsed) {
    cut.pairs == whole.pairs && cut.oversized == whole.oversized && (!whole.oversized ==> cut.rest == whole.rest)
  }

  /** Chunk invariance: however the stream is cut into records, the records read one by one
      give the pairs, and the failure, of the whole stream. */
  lemma {:induction false} ChunkInvariance(before: bytes, records: seq<bytes>, limit: nat)
    ensures Agree(ResumeAll(Parse(before, limit), records, limit), Parse(before + Flatten(records), limit))
    decreases |records|
  {
    if records == [] {
      assert before + Flatten(records) == before;
    } else {
      var first, others := records[0], records[1..];
      assert before + Flatten(records) == (before + first) + Flatten(others);
      ParseAppend(before, first, limit);
      if Parse(before, limit).oversized {
        ParseAppend(before, Flatten(records), limit);
        ResumeDead(Parse(before, limit), records, limit);
      } else {
        ChunkInvariance(before + first, others, limit);
      }
    }
  }

  /** Hence two ways to cut one stream into records cannot be told apart by what is delivered. */
  lemma CutsAgree(records: seq<bytes>, others: seq<bytes>, limit: nat)
    requires Flatten(records) == Flatten(others)
    ensures Agree(ResumeAll(NOTHING, records, limit), ResumeAll(NOTHING, others, limit))
  {
    hide Parse, ResumeAll;
    ParseEmpty(limit);
    ChunkInvariance([], records, limit);
    ChunkInvariance([], others, limit);
  }

  lemma {:induction false} ResumeDead(p: Parsed, records: seq<bytes>, limit: nat)
    requires p.oversized
    ensures ResumeAll(p, records, limit) == p
    decreases |records|
  {
    if records != [] {
      ResumeDead(p, records[1..], limit);
    }
  }

  /** Every pair delivered is within the limit. */
  lemma {:induction false} PairsWithinLimit(s: bytes, limit: nat)
    ensures AllWithin(Parse(s, limit).pairs, limit)
    decreases |s|
  {
    match ReadFront(s, limit)
    case Partial =>
    case Oversized =>
    case Whole(_, size) => PairsWithinLimit(s[size..], limit);
  }

  lemma ParseStopped(s: bytes, limit: nat)
    ensures ReadFront(s, limit).Oversized? ==> Parse(s, limit) == Parsed([], s, true)
    ensures ReadFront(s, limit).Partial? ==> Parse(s, limit) == Parsed([], s, false)
  {}

  lemma ParseEmpty(limit: nat)
    ensures Parse([], limit) == NOTHING
  {}

  // ----- Serializer -----

  /** `serialize_size`: the octets put on the stream, or the `length_error` it throws. */
  datatype Serialized = LengthError | Octets(octets: bytes)

  function SerializeSize(size: nat): Serialized {
    if size > MAX_SERIALIZABLE then LengthError
    else if size > 127 then
      var length := Htonl(size);
      Octets([if length[0] >= 0x80 then length[0] else length[0] + 0x80] + length[1..])
    else Octets([size as byte])
  }

  /** Both lengths are accepted by `serialize_size`. */
  predicate Serializable(p: Pair) {
    |p.name| <= MAX_SERIALIZABLE && |p.value| <= MAX_SERIALIZABLE
  }

  function Serialize(p: Pair): bytes
    requires Serializable(p)
  {
    SerializeSize(|p.name|).octets + (SerializeSize(|p.value|).octets + (p.name + p.value))
  }

  function SerializeAll(ps: seq<Pair>): bytes
    requires forall i | 0 <= i < |ps| :: Serializable(ps[i])
  {
    if ps == [] then [] else Serialize(ps[0]) + SerializeAll(ps[1..])
  }

  /** A length that fits in 31 bits. */
  predicate Reversible(p: Pair) {
    |p.name| < TWO_31 && |p.value| < TWO_31
  }

  predicate AllReversible(ps: seq<Pair>)
    ensures AllReversible(ps) ==> forall i | 0 <= i < |ps| :: Serializable(ps[i])
  {
    forall i | 0 <= i < |ps| :: Reversible(ps[i])
  }

  predicate AllWithin(ps: seq<Pair>, limit: nat) {
    forall i | 0 <= i < |ps| :: |ps[i].name| + |ps[i].value| <= limit
  }

  /** The octets of a length: one below 128, else four, the most significant first and its top bit set;
      above 0x8FFFFFFF the serializer throws. */
  lemma SizeLayout(size: nat)
    ensures size > 0x8FFF_FFFF ==> SerializeSize(size) == LengthError
    ensures size <= 127 ==> SerializeSize(size) == Octets([size as byte])
    ensures 127 < size <= 0x8FFF_FFFF ==>
      var top := size / 0x100_0000;
      SerializeSize(size) == Octets([(if top < 128 then 128 + top else top) as byte, (size / 0x1_0000 % 0x100) as byte,
                                     (size / 0x100 % 0x100) as byte, (size % 0x100) as byte])
  {
    if 127 < size <= 0x8FFF_FFFF {
      var a, b, c := size / 0x100, size / 0x1_0000, size / 0x100_0000;
      var length := Htonl(size);
      assert length == [c as byte, (b % 0x100) as byte, (a % 0x100) as byte, (size % 0x100) as byte] by {
        BigEndianOctets(size);
      }
    }
  }

  /** The octets of a pair: both lengths, the name, the value. */
  lemma PairLayout(p: Pair)
    requires |p.name| < 128 && |p.value| < 128
    ensures Serialize(p) == [|p.name| as byte, |p.value| as byte] + p.name + p.value
  {}

  /** A length field read back gives the length modulo 2^31: the top bit is the form flag. */
  lemma SizeReadBack(size: nat, t: bytes)
    requires size <= MAX_SERIALIZABLE
    ensures ReadLength(SerializeSize(size).octets + t)
         == Length(if size < TWO_31 then size else size - TWO_31, |SerializeSize(size).octets|)
  {
    var o := SerializeSize(size).octets;
    if size > 127 {
      var s := o + t;
      var length := Htonl(size);
      assert s[0] == o[0] && s[1..4] == o[1..4] == length[1..];
      var field := [s[0] - 0x80] + s[1..4];
      assert field[1] == length[1] && field[2] == length[2] && field[3] == length[3];
      assert Ntohl(length) == size;
      if size < TWO_31 {
        assert length[0] < 0x80 && field[0] == length[0];
      } else {
        assert length[0] >= 0x80 && field[0] == length[0] - 0x80;
      }
    }
  }

  /** The front of a stream whose length fields, `at` octets wide, say `nl` and `vl`. */
  function FrontWithBody(body: bytes, nl: nat, vl: nat, at: nat, limit: nat): Front {
    if nl + vl > limit then Oversized
    else if |body| < nl + vl then Partial
    else Whole(Pair(body[..nl], body[nl..nl + vl]), at + nl + vl)
  }

  /** Two length fields `n` and `v` in front of `body` make a pair of the first octets of `body`. */
  lemma FrontOfFields(n: bytes, v: bytes, body: bytes, nl: nat, vl: nat, limit: nat)
    requires ReadLength(n + (v + body)) == Length(nl, |n|)
    requires ReadLength(v + body) == Length(vl, |v|)
    ensures ReadFront(n + (v + body), limit) == FrontWithBody(body, nl, vl, |n| + |v|, limit)
  {
    var s := n + (v + body);
    assert s[|n|..] == v + body;
    if nl + vl <= limit && |body| >= nl + vl {
      SliceBehind(n, v, body, 0, nl);
      SliceBehind(n, v, body, nl, nl + vl);
    }
  }

  /** A serialized pair at the front of a stream is read back as that pair exactly when both
      lengths are below 2^31; the serializer accepts lengths up to 0x8FFFFFFF. */
  lemma FrontRoundTrip(p: Pair, t: bytes, limit: nat)
    requires Serializable(p) && |p.name| + |p.value| <= limit
    ensures Reversible(p) <==> ReadFront(Serialize(p) + t, limit) == Whole(p, |Serialize(p)|)
  {
    var n, v := SerializeSize(|p.name|).octets, SerializeSize(|p.value|).octets;
    var body := p.name + p.value + t;
    var nl := if |p.name| < TWO_31 then |p.name| else |p.name| - TWO_31;
    var vl := if |p.value| < TWO_31 then |p.value| else |p.value| - TWO_31;
    FrontOfSerialized(p, n, v, t, nl, vl, limit);
    assert body[..|p.name|] == p.name;
    assert body[|p.name|..|p.name| + |p.value|] == p.value;
    if !Reversible(p) && |body| >= nl + vl {
      assert |body[..nl]| != |p.name| || |body[nl..nl + vl]| != |p.value|;
    }
  }

  /** The pair that is read back has both lengths reduced below 2^31. */
  lemma FrontOfSerialized(p: Pair, n: bytes, v: bytes, t: bytes, nl: nat, vl: nat, limit: nat)
    requires Serializable(p) && SerializeSize(|p.name|) == Octets(n) && SerializeSize(|p.value|) == Octets(v)
    requires nl == if |p.name| < TWO_31 then |p.name| else |p.name| - TWO_31
    requires vl == if |p.value| < TWO_31 then |p.value| else |p.value| - TWO_31
    ensures |Serialize(p)| == |n| + |v| + |p.name| + |p.value|
    ensures ReadFront(Serialize(p) + t, limit) == FrontWithBody(p.name + p.value + t, nl, vl, |n| + |v|, limit)
  {
    var body := p.name + p.value + t;
    SizeReadBack(|p.name|, v + body);
    SizeReadBack(|p.value|, body);
    AppendAssociates(n, v + (p.name + p.value), t);
    AppendAssociates(v, p.name + p.value, t);
    FrontOfFields(n, v, body, nl, vl, limit);
  }

  /** The parser undoes the serializer, whatever follows on the stream. */
  lemma {:induction false} RoundTrip(ps: seq<Pair>, t: bytes, limit: nat)
    requires AllReversible(ps) && AllWithin(ps, limit)
    ensures Parse(SerializeAll(ps) + t, limit) == After(ps, Parse(t, limit))
    decreases |ps|
  {
    hide Serialize, ReadFront;
    if ps == [] {
      assert SerializeAll(ps) + t == t;
    } else {
      var p, rest := ps[0], ps[1..];
      var tail := SerializeAll(rest) + t;
      AppendAssociates(Serialize(p), SerializeAll(rest), t);
      FrontRoundTrip(p, tail, limit);
      assert (Serialize(p) + tail)[|Serialize(p)|..] == tail;
      RoundTrip(rest, t, limit);
      AfterAfter([p], rest, Parse(t, limit));
      assert [p] + rest == ps;
    }
  }

  /** Hence the encoding is injective and prefix-free: no two lists of pairs share their octets,
      even when one is followed by more pairs or by part of a pair. */
  lemma SerializeAllInjective(ps: seq<Pair>, qs: seq<Pair>, t: bytes)
    requires AllReversible(ps) && AllReversible(qs)
    requires SerializeAll(ps) + t == SerializeAll(qs)
    ensures ps <= qs
    ensures t == [] ==> ps == qs
  {
    RoundTrip(ps, t, TWO_32);
    RoundTrip(qs, [], TWO_32);
    ParseEmpty(TWO_32);
    assert SerializeAll(qs) + [] == SerializeAll(qs);
    assert ps + Parse(t, TWO_32).pairs == qs;
  }

  /** From 2^31 on the encoding is not injective: each such length is written as another one. */
  lemma SizeCollision(size: nat)
    requires TWO_31 + 127 < size <= MAX_SERIALIZABLE
    ensures SerializeSize(size) == SerializeSize(size - TWO_31)
  {
    var hi := Htonl(size);
    var lo := [hi[0] - 0x80] + hi[1..];
    assert lo[1..] == hi[1..];
    NtohlInjective(lo, Htonl(size - TWO_31));
  }

  // ----- `ToMap` -----

  type Params = map<bytes, bytes>

  /** `ToMap::new_key` over a list of pairs: the last value of a name wins. */
  function ToMap(m: Params, ps: seq<Pair>): Params
    decreases |ps|
  {
    if ps == [] then m else ToMap(m[ps[0].name := ps[0].value], ps[1..])
  }

  lemma {:induction false} ToMapAppend(m: Params, a: seq<Pair>, b: seq<Pair>)
    ensures ToMap(m, a + b) == ToMap(ToMap(m, a), b)
    decreases |a|
  {
    if a == [] {
      assert a + b == b;
    } else {
      assert (a + b)[1..] == a[1..] + b;
      ToMapAppend(m[a[0].name := a[0].value], a[1..], b);
    }
  }

  lemma ToMapSnoc(ps: seq<Pair>, p: Pair)
    ensures ToMap(map[], ps + [p]) == ToMap(map[], ps)[p.name := p.value]
  {
    ToMapAppend(map[], ps, [p]);
    assert [p][1..] == [];
  }

  predicate LastValue(ps: seq<Pair>, name: bytes, i: int) {
    0 <= i < |ps| && ps[i].name == name && forall j :: i < j < |ps| ==> ps[j].name != name
  }

  /** The map holds a name exactly when a pair bears it, with the value of the last such pair. */
  lemma {:induction false} ToMapLastWins(ps: seq<Pair>, name: bytes)
    ensures name in ToMap(map[], ps) <==> exists i :: LastValue(ps, name, i)
    ensures forall i :: LastValue(ps, name, i) ==> name in ToMap(map[], ps) && ToMap(map[], ps)[name] == ps[i].value
    decreases |ps|
  {
    if ps != [] {
      var last := |ps| - 1;
      var front := ps[..last];
      assert ps == front + [ps[last]];
      ToMapSnoc(front, ps[last]);
      ToMapLastWins(front, name);
      if ps[last].name == name {
        assert LastValue(ps, name, last);
      } else {
        forall i ensures LastValue(ps, name, i) <==> LastValue(front, name, i) {
          assert forall j | 0 <= j < last :: front[j] == ps[j];
        }
      }
    }
  }
}
