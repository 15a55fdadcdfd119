/**
 `Connection::GetValueHandler` of src/connection.cpp: the names asked for in GET_VALUES records are
 parsed as they come, and the answers serialized to the GET_VALUES_RESULT stream.
 */
module GetValueHandlers {
  import opened Bytes
  import opened Streams
  import opened NameValuePairs
  import opened OutStreams

  const FCGI_MPXS_CONNS: bytes := [70, 67, 71, 73, 95, 77, 80, 88, 83, 95, 67, 79, 78, 78, 83]
  const FCGI_MAX_REQS: bytes := [70, 67, 71, 73, 95, 77, 65, 88, 95, 82, 69, 81, 83]
  const FCGI_MAX_CONNS: bytes := [70, 67, 71, 73, 95, 77, 65, 88, 95, 67, 79, 78, 78, 83]

  /** `std::to_string`. */
  function Decimal(n: nat): bytes {
    if n < 10 then [(48 + n) as byte] else Decimal(n / 10) + [(48 + n % 10) as byte]
  }

  /** The handler's `new_key`: the answer to one name, with `cores` from `hardware_concurrency`; the
      product is taken in `unsigned int`. */
  function Answer(name: bytes, cores: nat): seq<Pair> {
    if name == FCGI_MPXS_CONNS then [Pair(name, [49])]
    else if name == FCGI_MAX_REQS then [Pair(name, Decimal(cores * 20 % TWO_32))]
    else if name == FCGI_MAX_CONNS then [Pair(name, Decimal(cores))]
    else []
  }

  function Answers(asked: seq<Pair>, cores: nat): seq<Pair> {
    if asked == [] then [] else Answer(asked[0].name, cores) + Answers(asked[1..], cores)
  }

  // ----- What the answers are -----

  /** The octets of a string of ASCII characters. */
  function Ascii(s: string): (r: bytes)
    requires forall i | 0 <= i < |s| :: s[i] < 128 as char
    ensures |r| == |s|
  {
    seq(|s|, i requires 0 <= i < |s| => s[i] as int as byte)
  }

  /** Decimal digits, the first of them not zero unless it is the only one. */
  predicate IsDecimal(s: bytes) {
    s != [] && (forall i | 0 <= i < |s| :: 48 <= s[i] <= 57) && (s[0] == 48 ==> |s| == 1)
  }

  /** The number that decimal digits denote. */
  function ReadDecimal(s: bytes): int {
    if s == [] then 0 else ReadDecimal(s[..|s| - 1]) * 10 + (s[|s| - 1] as int - 48)
  }

  lemma {:induction false} DecimalReadBack(n: nat)
    ensures IsDecimal(Decimal(n)) && ReadDecimal(Decimal(n)) == n
    ensures n > 0 ==> Decimal(n)[0] != 48
    decreases n
  {
    var last := (48 + n % 10) as byte;
    if n < 10 {
      assert ReadDecimal([last][..0]) == 0;
    } else {
      DecimalReadBack(n / 10);
      assert Decimal(n)[..|Decimal(n)| - 1] == Decimal(n / 10);
    }
  }

  /** `value` is how `std::to_string` writes `n`. */
  predicate Denotes(value: bytes, n: nat) {
    IsDecimal(value) && ReadDecimal(value) == n
  }

  /** The value of a name, if it is one of the three that the server knows. */
  predicate Knows(name: bytes, cores: nat, n: nat) {
    || (name == Ascii("FCGI_MPXS_CONNS") && n == 1)
    || (name == Ascii("FCGI_MAX_REQS") && n == cores * 20 % 0x1_0000_0000)
    || (name == Ascii("FCGI_MAX_CONNS") && n == cores)
  }

  /** The answers to the names asked: one pair for each name that is known, in order, none for the others. */
  ghost predicate Answered(asked: seq<Pair>, answers: seq<Pair>, cores: nat)
    decreases |asked|
  {
    if asked == [] then answers == []
    else if exists n: nat :: Knows(asked[0].name, cores, n) then
      && answers != [] && answers[0].name == asked[0].name
      && (exists n: nat :: Knows(asked[0].name, cores, n) && Denotes(answers[0].value, n))
      && Answered(asked[1..], answers[1..], cores)
    else Answered(asked[1..], answers, cores)
  }

  lemma KnownNames()
    ensures Ascii("FCGI_MPXS_CONNS") == FCGI_MPXS_CONNS
    ensures Ascii("FCGI_MAX_REQS") == FCGI_MAX_REQS
    ensures Ascii("FCGI_MAX_CONNS") == FCGI_MAX_CONNS
    ensures |FCGI_MPXS_CONNS| == 15 && |FCGI_MAX_REQS| == 13 && |FCGI_MAX_CONNS| == 14
  {}

  /** The answer to one name. */
  lemma AnswerSays(name: bytes, cores: nat)
    ensures (exists n: nat :: Knows(name, cores, n)) <==> Answer(name, cores) != []
    ensures forall p | p in Answer(name, cores) ::
      Answer(name, cores) == [p] && p.name == name && exists n: nat :: Knows(name, cores, n) && Denotes(p.value, n)
  {
    hide FCGI_MPXS_CONNS, FCGI_MAX_REQS, FCGI_MAX_CONNS, Ascii, IsDecimal, ReadDecimal;
    KnownNames();
    DecimalReadBack(1);
    DecimalReadBack(cores * 20 % TWO_32);
    DecimalReadBack(cores);
    One();
    assert name == FCGI_MPXS_CONNS ==> Knows(name, cores, 1);
    assert name == FCGI_MAX_REQS ==> Knows(name, cores, cores * 20 % TWO_32);
    assert name == FCGI_MAX_CONNS ==> Knows(name, cores, cores);
  }

  lemma One()
    ensures Decimal(1) == [49]
  {}

  lemma {:induction false} AnswersSay(asked: seq<Pair>, cores: nat)
    ensures Answered(asked, Answers(asked, cores), cores)
    decreases |asked|
  {
    hide Answer, Knows, Denotes;
    if asked != [] {
      var first, rest := Answer(asked[0].name, cores), Answers(asked[1..], cores);
      AnswerSays(asked[0].name, cores);
      AnswersSay(asked[1..], cores);
      if first == [] {
        assert first + rest == rest;
      } else {
        assert first[0] in first && first == [first[0]];
        assert (first + rest)[1..] == rest;
      }
    }
  }

  /** The parser of the handler and its result stream. */
  datatype Handler = Handler(parser: Parsed, out: Out)

  const CREATED := Handler(NOTHING, Out([], false, true))

  /** The handler after a record, and the contents of the records it sent. */
  datatype HandlerStep = HandlerStep(handler: Handler, sent: seq<bytes>)

  /** The pairs that a record completes. */
  function NewPairs(p: Parsed, content: bytes, limit: nat): seq<Pair> {
    if p.oversized then [] else Parse(p.rest + content, limit).pairs
  }

  function AnswerOctets(asked: seq<Pair>, cores: nat): bytes
    requires cores < TWO_32
  {
    AnswersAreShort(asked, cores);
    SerializeAll(Answers(asked, cores))
  }

  /** `GetValueHandler::handle_packet`. When a pair is over the limit the pairs before it have been
      answered, and the exception is not caught. */
  function Handle(h: Handler, content: bytes, limit: nat, cores: nat): HandlerStep
    requires cores < TWO_32
  {
    if content == [] then
      var closed := Close(h.out);
      HandlerStep(h.(out := closed.out), closed.sent)
    else
      var written := Write(h.out, AnswerOctets(NewPairs(h.parser, content, limit), cores));
      HandlerStep(Handler(Resume(h.parser, content, limit), written.out), written.sent)
  }

  function HandleAll(h: Handler, contents: seq<bytes>, limit: nat, cores: nat): HandlerStep
    requires cores < TWO_32
    decreases |contents|
  {
    if contents == [] then HandlerStep(h, [])
    else
      var first := Handle(h, contents[0], limit, cores);
      var rest := HandleAll(first.handler, contents[1..], limit, cores);
      HandlerStep(rest.handler, first.sent + rest.sent)
  }

  /** Answers are few octets, so `serialize` never throws here. */
  lemma AnswersAreShort(asked: seq<Pair>, cores: nat)
    requires cores < TWO_32
    ensures AllReversible(Answers(asked, cores)) && AllWithin(Answers(asked, cores), 64)
  {
    hide FCGI_MPXS_CONNS, FCGI_MAX_REQS, FCGI_MAX_CONNS;
    if asked != [] {
      AnswersAreShort(asked[1..], cores);
      DecimalIsShort(cores * 20 % TWO_32, 10);
      DecimalIsShort(cores, 10);
      NamesAreShort();
    }
  }

  lemma NamesAreShort()
    ensures |FCGI_MPXS_CONNS| <= 15 && |FCGI_MAX_REQS| <= 15 && |FCGI_MAX_CONNS| <= 15
  {}

  function Pow10(k: nat): nat {
    if k == 0 then 1 else 10 * Pow10(k - 1)
  }

  lemma {:induction false} DecimalIsShort(n: nat, k: nat)
    requires k > 0 && n < Pow10(k)
    ensures 0 < |Decimal(n)| <= k
    decreases k
  {
    if n >= 10 {
      DecimalIsShort(n / 10, k - 1);
    }
  }

  lemma {:induction false} AnswersAppend(a: seq<Pair>, b: seq<Pair>, cores: nat)
    requires cores < TWO_32
    ensures Answers(a + b, cores) == Answers(a, cores) + Answers(b, cores)
    ensures AnswerOctets(a + b, cores) == AnswerOctets(a, cores) + AnswerOctets(b, cores)
    decreases |a|
  {
    hide Answer, Serialize;
    AnswersJoin(a, b, cores);
    AnswersAreShort(a, cores);
    AnswersAreShort(b, cores);
    SerializeAllAppend(Answers(a, cores), Answers(b, cores));
  }

  lemma {:induction false} AnswersJoin(a: seq<Pair>, b: seq<Pair>, cores: nat)
    ensures Answers(a + b, cores) == Answers(a, cores) + Answers(b, cores)
    decreases |a|
  {
    hide Answer;
    if a == [] {
      assert a + b == b;
    } else {
      assert (a + b)[1..] == a[1..] + b;
      AnswersJoin(a[1..], b, cores);
      AppendAssociates(Answer(a[0].name, cores), Answers(a[1..], cores), Answers(b, cores));
    }
  }

  lemma {:induction false} SerializeAllAppend(a: seq<Pair>, b: seq<Pair>)
    requires AllReversible(a) && AllReversible(b)
    ensures AllReversible(a + b) && SerializeAll(a + b) == SerializeAll(a) + SerializeAll(b)
    decreases |a|
  {
    hide Serialize;
    if a == [] {
      assert a + b == b;
    } else {
      assert (a + b)[1..] == a[1..] + b;
      SerializeAllAppend(a[1..], b);
      AppendAssociates(Serialize(a[0]), SerializeAll(a[1..]), SerializeAll(b));
    }
  }

  /** While no empty record has come, the stream carries the answers to all pairs read so far. */
  lemma {:induction false} AnswersCarried(h: Handler, contents: seq<bytes>, limit: nat, cores: nat)
    requires cores < TWO_32 && Fits(h.out) && h.out.attached
    requires forall i | 0 <= i < |contents| :: contents[i] != []
    requires !ResumeAll(h.parser, contents, limit).oversized && !h.parser.oversized
    ensures var r := HandleAll(h, contents, limit, cores);
      && r.handler.parser == ResumeAll(h.parser, contents, limit)
      && h.parser.pairs <= r.handler.parser.pairs
      && Carries(h.out, AnswerOctets(r.handler.parser.pairs[|h.parser.pairs|..], cores), Step(r.handler.out, r.sent))
    decreases |contents|
  {
    hide Parse, Write, AnswerOctets, Answers, Carries;
    var was := h.parser.pairs;
    if contents == [] {
      assert was[|was|..] == [];
      NothingCarried(h.out, cores);
    } else {
      var first := Handle(h, contents[0], limit, cores);
      var now := NewPairs(h.parser, contents[0], limit);
      if Resume(h.parser, contents[0], limit).oversized {
        ResumeDead(Resume(h.parser, contents[0], limit), contents[1..], limit);
        assert false;
      }
      WriteCarries(h.out, AnswerOctets(now, cores));
      StillOpen(h.out, AnswerOctets(now, cores), Write(h.out, AnswerOctets(now, cores)));
      AnswersCarried(first.handler, contents[1..], limit, cores);
      var rest := HandleAll(first.handler, contents[1..], limit, cores);
      var later := rest.handler.parser.pairs[|was + now|..];
      assert rest.handler.parser.pairs[|was|..] == now + later;
      AnswersAppend(now, later, cores);
      CarriesThen(h.out, AnswerOctets(now, cores), Step(first.handler.out, first.sent),
                  AnswerOctets(later, cores), Step(rest.handler.out, rest.sent));
    }
  }

  lemma StillOpen(o: Out, data: bytes, s: Step)
    requires Carries(o, data, s)
    ensures Fits(s.out) && s.out.attached
  {}

  lemma NothingCarried(o: Out, cores: nat)
    requires cores < TWO_32 && Fits(o) && o.attached
    ensures Carries(o, AnswerOctets([], cores), Step(o, []))
  {
    assert AnswerOctets([], cores) == [];
    assert o.pending + [] == o.pending == [] + o.pending;
  }

  /** However the request is cut into records, once its empty record has come the GET_VALUES_RESULT
      records read back as one pair for each known name asked for, in order, with its value in decimal
      digits: 1, 20 for each core modulo 2^32, or the number of cores. */
  lemma AnsweredAtEnd(contents: seq<bytes>, limit: nat, cores: nat)
    requires cores < TWO_32 && forall i | 0 <= i < |contents| :: contents[i] != []
    requires !Parse(Flatten(contents), limit).oversized
    ensures var r := HandleAll(CREATED, contents, limit, cores);
      exists body: seq<bytes> ::
        && r.sent + Handle(r.handler, [], limit, cores).sent == body + (if body != [] then [[]] else [])
        && AllData(body)
        && ResumeAll(NOTHING, body, 64) == Parsed(ResumeAll(NOTHING, body, 64).pairs, [], false)
        && Answered(Parse(Flatten(contents), limit).pairs, ResumeAll(NOTHING, body, 64).pairs, cores)
  {
    hide Parse, Carries, ResumeAll, HandleAll, Close, Sync, Serialize, Answer, Answers, Answered;
    ParseEmpty(limit);
    ChunkInvariance([], contents, limit);
    assert [] + Flatten(contents) == Flatten(contents);
    AnswersCarried(CREATED, contents, limit, cores);
    var r := HandleAll(CREATED, contents, limit, cores);
    var asked := r.handler.parser.pairs;
    assert asked[0..] == asked;
    CloseSeals(CREATED.out, AnswerOctets(asked, cores), Step(r.handler.out, r.sent));
    var sent := r.sent + Close(r.handler.out).sent;
    var body: seq<bytes> :| sent == body + (if CREATED.out.sendEof || body != [] then [[]] else [])
      && AllData(body) && Flatten(body) == CREATED.out.pending + AnswerOctets(asked, cores);
    AnswersAreShort(asked, cores);
    assert [] + AnswerOctets(asked, cores) == SerializeAll(Answers(asked, cores));
    RecordsReadBack(Answers(asked, cores), body, 64);
    AnswersSay(asked, cores);
  }

  // ----- When the answers leave -----

  /** A write of any octets ends with some of them in the put area. */
  lemma {:induction false} WriteLeavesPending(o: Out, data: bytes)
    requires o.attached && data != []
    ensures Write(o, data).out.attached && Write(o, data).out.pending != []
    decreases |data|
  {
    if |data| > 1 {
      WriteLeavesPending(Put(o, data[0]).out, data[1..]);
    }
  }

  /** So a put area that is empty at the end was never written to. */
  lemma {:induction false} NothingPending(h: Handler, contents: seq<bytes>, limit: nat, cores: nat)
    requires cores < TWO_32 && h.out.attached && forall i | 0 <= i < |contents| :: contents[i] != []
    requires HandleAll(h, contents, limit, cores).handler.out.pending == []
    ensures h.out.pending == [] && HandleAll(h, contents, limit, cores).sent == []
    decreases |contents|
  {
    hide Parse, Write, AnswerOctets, Resume;
    if contents != [] {
      var data := AnswerOctets(NewPairs(h.parser, contents[0], limit), cores);
      if data != [] {
        WriteLeavesPending(h.out, data);
      } else {
        WriteNothing(h.out);
      }
      NothingPending(Handle(h, contents[0], limit, cores).handler, contents[1..], limit, cores);
    }
  }

  lemma WriteNothing(o: Out)
    ensures Write(o, []) == Step(o, [])
  {}

  /** The answers, before any empty record: sent so far, and those that have still to be sent. */
  lemma AnswersSplit(contents: seq<bytes>, limit: nat, cores: nat)
    requires cores < TWO_32 && forall i | 0 <= i < |contents| :: contents[i] != []
    requires !Parse(Flatten(contents), limit).oversized
    ensures var r := HandleAll(CREATED, contents, limit, cores);
      var all := AnswerOctets(Parse(Flatten(contents), limit).pairs, cores);
      && Carries(CREATED.out, all, Step(r.handler.out, r.sent))
      && Flatten(r.sent) + r.handler.out.pending == all
      && r.handler.parser == Parse(Flatten(contents), limit)
  {
    hide Parse, Carries, ResumeAll, HandleAll, AnswerOctets;
    ParseEmpty(limit);
    ChunkInvariance([], contents, limit);
    assert [] + Flatten(contents) == Flatten(contents);
    AnswersCarried(CREATED, contents, limit, cores);
    var r := HandleAll(CREATED, contents, limit, cores);
    assert r.handler.parser.pairs[0..] == r.handler.parser.pairs;
    CarriedOctets(CREATED.out, AnswerOctets(r.handler.parser.pairs, cores), Step(r.handler.out, r.sent));
  }

  lemma CarriedOctets(o: Out, data: bytes, s: Step)
    requires Carries(o, data, s)
    ensures Fits(s.out) && s.out.attached && Flatten(s.sent) + s.out.pending == o.pending + data
    ensures o.pending == [] ==> Flatten(s.sent) + s.out.pending == data
  {
    assert [] + data == data;
  }

  /** Without an empty record, all answers have been sent exactly when there are none: some always wait
      for the buffer to fill. */
  lemma SentWithoutEnd(contents: seq<bytes>, limit: nat, cores: nat)
    requires cores < TWO_32 && forall i | 0 <= i < |contents| :: contents[i] != []
    requires !Parse(Flatten(contents), limit).oversized
    ensures var r := HandleAll(CREATED, contents, limit, cores);
      var all := AnswerOctets(Parse(Flatten(contents), limit).pairs, cores);
      Flatten(r.sent) == all <==> all == []
  {
    hide Parse, Carries, HandleAll, AnswerOctets;
    AnswersSplit(contents, limit, cores);
    var r := HandleAll(CREATED, contents, limit, cores);
    if r.handler.out.pending == [] {
      NothingPending(CREATED, contents, limit, cores);
    }
  }

  /** The names asked for by all records, the empty ones playing no part in the parse. */
  lemma {:induction false} HandleAllAppend(h: Handler, a: seq<bytes>, b: seq<bytes>, limit: nat, cores: nat)
    requires cores < TWO_32
    ensures var x := HandleAll(h, a, limit, cores); var y := HandleAll(x.handler, b, limit, cores);
      HandleAll(h, a + b, limit, cores) == HandlerStep(y.handler, x.sent + y.sent)
    decreases |a|
  {
    hide Handle;
    if a == [] {
      assert a + b == b;
    } else {
      assert (a + b)[1..] == a[1..] + b;
      var first := Handle(h, a[0], limit, cores);
      HandleAllAppend(first.handler, a[1..], b, limit, cores);
      AppendAssociates(first.sent, HandleAll(first.handler, a[1..], limit, cores).sent,
                       HandleAll(HandleAll(h, a, limit, cores).handler, b, limit, cores).sent);
    }
  }

  /** Over all records, empty ones among them: the answers to the names in the records before the first
      empty one leave when it comes, or else when the connection is destroyed, which closes the stream;
      no other answers ever do. */
  lemma AnswersInTheEnd(early: seq<bytes>, late: seq<bytes>, limit: nat, cores: nat)
    requires cores < TWO_32 && forall i | 0 <= i < |early| :: early[i] != []
    requires late == [] || late[0] == []
    requires !Parse(Flatten(early), limit).oversized
    ensures var r := HandleAll(CREATED, early + late, limit, cores);
      var answers := AnswerOctets(Parse(Flatten(early), limit).pairs, cores);
      && Flatten(r.sent + Close(r.handler.out).sent) == answers
      && (late != [] ==> Flatten(r.sent) == answers && r.handler.out == CLOSED)
      && (late == [] ==> (Flatten(r.sent) == answers <==> answers == []))
  {
    hide Parse, Carries, HandleAll, AnswerOctets, Close, Fits;
    AnswersSplit(early, limit, cores);
    var x := HandleAll(CREATED, early, limit, cores);
    CarriedOctets(CREATED.out, AnswerOctets(x.handler.parser.pairs, cores), Step(x.handler.out, x.sent));
    CloseSendsPending(x.handler.out);
    FlattenAppend(x.sent, Close(x.handler.out).sent);
    if late == [] {
      assert early + late == early;
      SentWithoutEnd(early, limit, cores);
    } else {
      HandleAllAppend(CREATED, early, late, limit, cores);
      EndThenNothing(x.handler, late, limit, cores);
      CloseClosed();
      var r := HandleAll(CREATED, early + late, limit, cores);
      assert r.sent + [] == r.sent;
    }
  }

  /** So in the end every name asked for has been answered exactly when none of those read after the first
      empty record has an answer. */
  lemma AnsweredExactly(early: seq<bytes>, late: seq<bytes>, limit: nat, cores: nat)
    requires cores < TWO_32 && forall i | 0 <= i < |early| :: early[i] != []
    requires late == [] || late[0] == []
    requires !Parse(Flatten(early + late), limit).oversized
    ensures var before, asked := Parse(Flatten(early), limit).pairs, Parse(Flatten(early + late), limit).pairs;
      && before <= asked
      && var r := HandleAll(CREATED, early + late, limit, cores);
      && (Flatten(r.sent + Close(r.handler.out).sent) == AnswerOctets(asked, cores)
          <==> AnswerOctets(asked[|before|..], cores) == [])
  {
    hide Parse, HandleAll, AnswerOctets, Close;
    FlattenAppend(early, late);
    ParseAppend(Flatten(early), Flatten(late), limit);
    AnswersInTheEnd(early, late, limit, cores);
    var before, asked := Parse(Flatten(early), limit).pairs, Parse(Flatten(early + late), limit).pairs;
    assert asked == before + asked[|before|..];
    AnswersAppend(before, asked[|before|..], cores);
  }

  lemma CloseClosed()
    ensures Close(CLOSED) == Step(CLOSED, [])
  {}

  lemma EndThenNothing(h: Handler, late: seq<bytes>, limit: nat, cores: nat)
    requires cores < TWO_32 && late != [] && late[0] == [] && Close(h.out).out == CLOSED
    ensures var y := HandleAll(h, late, limit, cores); y.sent == Close(h.out).sent && y.handler.out == CLOSED
  {
    hide Close, Parse;
    var ended := Handle(h, [], limit, cores).handler;
    ClosedForGood(ended, late[1..], limit, cores);
    assert Close(h.out).sent + [] == Close(h.out).sent;
  }

  lemma {:induction false} WriteFits(o: Out, data: bytes)
    requires o.attached && |o.pending| + |data| <= BUFFER_SIZE
    ensures Write(o, data) == Step(o.(pending := o.pending + data), [])
    decreases |data|
  {
    if data == [] {
      assert o.pending + [] == o.pending;
    } else {
      AppendAssociates(o.pending, [data[0]], data[1..]);
      assert [data[0]] + data[1..] == data;
      WriteFits(o.(pending := o.pending + [data[0]]), data[1..]);
    }
  }

  /** A request that is not followed by an empty record gets no answer as long as the answers fit the
      buffer; section 4.1 of the FastCGI Specification 1.0 has no such record. And after the empty record no
      request is answered any more, as nothing attaches the stream again. */
  lemma UnansweredWithoutEnd(content: bytes, later: seq<bytes>, limit: nat, cores: nat)
    requires cores < TWO_32 && content != []
    requires |AnswerOctets(Parse(content, limit).pairs, cores)| <= BUFFER_SIZE
    ensures Handle(CREATED, content, limit, cores).sent == []
    ensures var ended := Handle(Handle(CREATED, content, limit, cores).handler, [], limit, cores).handler;
            ended.out == CLOSED && HandleAll(ended, later, limit, cores).sent == []
  {
    hide Parse, AnswerOctets;
    assert [] + content == content;
    WriteFits(CREATED.out, AnswerOctets(Parse(content, limit).pairs, cores));
    ClosedForGood(Handle(Handle(CREATED, content, limit, cores).handler, [], limit, cores).handler, later, limit,
        cores);
  }

  lemma {:induction false} ClosedForGood(h: Handler, contents: seq<bytes>, limit: nat, cores: nat)
    requires cores < TWO_32 && h.out == CLOSED
    ensures var r := HandleAll(h, contents, limit, cores); r.sent == [] && r.handler.out == CLOSED
    decreases |contents|
  {
    hide Parse, AnswerOctets;
    if contents != [] {
      WriteClosed(AnswerOctets(NewPairs(h.parser, contents[0], limit), cores));
      ClosedForGood(Handle(h, contents[0], limit, cores).handler, contents[1..], limit, cores);
    }
  }
}
