/** The GUI wire protocol on flat byte sequences: how a message is framed, and what the handler's
    three-state machine makes of any byte stream, however it is cut. */
module WireProtocol {
  import opened Varint

  datatype Message = Message(msgType: nat, payload: seq<byte>)

  datatype InternalState = NEXT_MSG | GETLENGTH | READ_MSG

  /** Everything the handler and its input buffer remember between two bytes. */
  datatype Parser = Parser(state: InternalState, msgType: nat, msgLength: nat, multiplier: nat, limit: nat) {
    predicate Valid() {
      && msgType < TWO_32 && msgLength < TWO_32
      && (state == READ_MSG ==> limit == ReadableBytes(msgLength))
    }

    /** Between two messages, with nothing half read. */
    predicate Idle() {
      state == NEXT_MSG && msgType == 0 && multiplier == 1 && limit == 5
    }
  }

  const START := Parser(NEXT_MSG, 0, 0, 1, 5)

  /** What is left of a 32-bit length once `update_limit` has turned it into a signed limit. */
  function ReadableBytes(msgLength: nat): nat {
    if msgLength < TWO_31 then msgLength else 0
  }

  datatype Outcome = Outcome(parser: Parser, unread: seq<byte>, delivered: seq<Message>)

  function Min(a: nat, b: nat): nat {
    if a <= b then a else b
  }

  /** `handle_messages` run on the unread bytes until it stops. The message callback reads the stream
      until the stream reports its end. */
  function Parse(p: Parser, input: seq<byte>): (o: Outcome)
    requires p.Valid()
    ensures o.parser.Valid()
    decreases |input|, if p.state == READ_MSG then 1 else 0
  {
    match p.state
    case NEXT_MSG =>
      var r := ReadFrom(p.msgType, p.multiplier, p.limit, input);
      ReadTakesPrefix(p.msgType, p.multiplier, p.limit, input);
      ReadStays32(p.msgType, p.multiplier, p.limit, input);
      if r.done then Parse(Parser(GETLENGTH, r.num, 0, r.multiplier, 5), r.rest)
      else Outcome(p.(msgType := r.num, multiplier := r.multiplier, limit := r.limit), r.rest, [])
    case GETLENGTH =>
      var r := ReadFrom(p.msgLength, p.multiplier, p.limit, input);
      ReadTakesPrefix(p.msgLength, p.multiplier, p.limit, input);
      ReadStays32(p.msgLength, p.multiplier, p.limit, input);
      if r.done then Parse(Parser(READ_MSG, p.msgType, r.num, r.multiplier, ReadableBytes(r.num)), r.rest)
      else Outcome(p.(msgLength := r.num, multiplier := r.multiplier, limit := r.limit), r.rest, [])
    case READ_MSG =>
      if |input| >= p.msgLength then
        var n := Min(p.limit, |input|);
        var later := Parse(Parser(NEXT_MSG, 0, p.msgLength, p.multiplier, 5), input[n..]);
        later.(delivered := [Message(p.msgType, input[..n])] + later.delivered)
      else
        Outcome(p, input, [])
  }

  lemma {:induction false} ReadStays32(num: nat, multiplier: nat, limit: nat, input: seq<byte>)
    requires num < TWO_32
    ensures ReadFrom(num, multiplier, limit, input).num < TWO_32
    decreases |input|
  {
    if limit != 0 && input != [] && input[0] >= 128 {
      ReadStays32((num + input[0] % 128 * multiplier) % TWO_32, multiplier * 128 % TWO_32, limit - 1, input[1..]);
    }
  }

  function Join(first: Outcome, second: Outcome): Outcome {
    second.(delivered := first.delivered + second.delivered)
  }

  /** Handling the bytes in two portions gives what handling them at once gives, for every byte
      stream, well-formed or not, and every cut, inside a varint or a payload included. */
  lemma {:induction false} ParseResumes(p: Parser, a: seq<byte>, b: seq<byte>)
    requires p.Valid()
    ensures var first := Parse(p, a);
            Parse(p, a + b) == Join(first, Parse(first.parser, first.unread + b))
    decreases |a|, if p.state == READ_MSG then 1 else 0
  {
    match p.state
    case NEXT_MSG =>
      var r := ReadFrom(p.msgType, p.multiplier, p.limit, a);
      ReadTakesPrefix(p.msgType, p.multiplier, p.limit, a);
      ReadStays32(p.msgType, p.multiplier, p.limit, a);
      ReadResumes(p.msgType, p.multiplier, p.limit, a, b);
      if r.done {
        ParseResumes(Parser(GETLENGTH, r.num, 0, r.multiplier, 5), r.rest, b);
      }
    case GETLENGTH =>
      var r := ReadFrom(p.msgLength, p.multiplier, p.limit, a);
      ReadTakesPrefix(p.msgLength, p.multiplier, p.limit, a);
      ReadStays32(p.msgLength, p.multiplier, p.limit, a);
      ReadResumes(p.msgLength, p.multiplier, p.limit, a, b);
      if r.done {
        ParseResumes(Parser(READ_MSG, p.msgType, r.num, r.multiplier, ReadableBytes(r.num)), r.rest, b);
      }
    case READ_MSG =>
      if |a| >= p.msgLength {
        var n := p.limit;
        assert (a + b)[..n] == a[..n] && (a + b)[n..] == a[n..] + b;
        var next := Parser(NEXT_MSG, 0, p.msgLength, p.multiplier, 5);
        ParseResumes(next, a[n..], b);
        var first := Parse(next, a[n..]);
        var second := Parse(first.parser, first.unread + b);
        var m := [Message(p.msgType, a[..n])];
        assert m + (first.delivered + second.delivered) == (m + first.delivered) + second.delivered;
      }
  }

  /** Nothing is left to do after a run: handling no new bytes changes nothing. */
  lemma {:induction false} ParseIsIdempotent(p: Parser, a: seq<byte>)
    requires p.Valid()
    ensures var o := Parse(p, a); Parse(o.parser, o.unread) == o.(delivered := [])
  {
    ParseResumes(p, a, []);
    var o := Parse(p, a);
    assert a + [] == a && o.unread + [] == o.unread;
    var again := Parse(o.parser, o.unread);
    assert o.delivered == o.delivered + again.delivered;
    assert |again.delivered| == 0;
  }

  function Flatten(chunks: seq<seq<byte>>): seq<byte> {
    if chunks == [] then [] else chunks[0] + Flatten(chunks[1..])
  }

  /** The incoming data callback, once for each chunk. */
  function ParseChunks(p: Parser, unread: seq<byte>, chunks: seq<seq<byte>>): Outcome
    requires p.Valid()
    decreases |chunks|
  {
    if chunks == [] then Outcome(p, unread, [])
    else
      var o := Parse(p, unread + chunks[0]);
      Join(o, ParseChunks(o.parser, o.unread, chunks[1..]))
  }

  lemma {:induction false} ParseChunksIsParse(p: Parser, unread: seq<byte>, chunks: seq<seq<byte>>)
    requires p.Valid() && Parse(p, unread) == Outcome(p, unread, [])
    ensures ParseChunks(p, unread, chunks) == Parse(p, unread + Flatten(chunks))
    decreases |chunks|
  {
    if chunks == [] {
      assert unread + [] == unread;
    } else {
      var a, b := unread + chunks[0], Flatten(chunks[1..]);
      var o := Parse(p, a);
      ParseIsIdempotent(p, a);
      ParseChunksIsParse(o.parser, o.unread, chunks[1..]);
      ParseResumes(p, a, b);
      assert unread + Flatten(chunks) == a + b;
    }
  }

  // ----- the end of all handling -----

  /** A header is being read, and nothing more may be taken for it. */
  predicate Stalled(p: Parser) {
    p.state != READ_MSG && p.limit == 0
  }

  /** A stalled handler takes no further byte and calls nothing back, whatever comes in whatever chunks. */
  lemma {:induction false} StalledForGood(p: Parser, unread: seq<byte>, chunks: seq<seq<byte>>)
    requires p.Valid() && Stalled(p)
    ensures ParseChunks(p, unread, chunks) == Outcome(p, unread + Flatten(chunks), [])
    decreases |chunks|
  {
    if chunks == [] {
      assert unread + [] == unread;
    } else {
      StalledForGood(p, unread + chunks[0], chunks[1..]);
      assert unread + Flatten(chunks) == unread + chunks[0] + Flatten(chunks[1..]);
    }
  }

  /** A handler that begins the next message has called back the one before. */
  lemma {:induction false} NextMeansDelivered(p: Parser, input: seq<byte>)
    requires p.Valid() && p.state != NEXT_MSG
    ensures var o := Parse(p, input); o.parser.state == NEXT_MSG ==> o.delivered != []
  {
    if p.state == GETLENGTH {
      ReadStays32(p.msgLength, p.multiplier, p.limit, input);
    }
  }

  /** A type or a length stalls the handler exactly when none of the bytes it may take ends it, five for a
      new one. */
  lemma HeaderStallsIff(p: Parser, input: seq<byte>)
    requires p.Valid() && p.state != READ_MSG
    ensures var o := Parse(p, input);
            && (Stalled(o.parser) && o.parser.state == p.state && o.delivered == [] <==> NeverEnds(p.limit, input))
            && (NeverEnds(p.limit, input) ==> o.unread == input[p.limit..])
  {
    var num := if p.state == NEXT_MSG then p.msgType else p.msgLength;
    var r := ReadFrom(num, p.multiplier, p.limit, input);
    ReadStallsIff(num, p.multiplier, p.limit, input);
    ReadStays32(num, p.multiplier, p.limit, input);
    if r.done {
      var next := if p.state == NEXT_MSG then Parser(GETLENGTH, r.num, 0, r.multiplier, 5)
                  else Parser(READ_MSG, p.msgType, r.num, r.multiplier, ReadableBytes(r.num));
      assert Parse(p, input) == Parse(next, r.rest);
      NextMeansDelivered(next, r.rest);
    }
  }

  // ----- the printer and the round trip -----

  /** The record `write_message` sends. */
  function Frame(m: Message): seq<byte> {
    Encode(m.msgType) + Encode(|m.payload|) + m.payload
  }

  /** Type, length and payload, in this order: in a small record the first byte is the type, the second one
      the number of bytes that follow. */
  lemma SmallFrame(m: Message)
    requires m.msgType < 128 && |m.payload| < 128
    ensures |Frame(m)| == 2 + |m.payload| && Frame(m)[0] == m.msgType && Frame(m)[1] == |m.payload|
    ensures Frame(m)[2..] == m.payload
  {
  }

  function FrameAll(msgs: seq<Message>): seq<byte> {
    if msgs == [] then [] else Frame(msgs[0]) + FrameAll(msgs[1..])
  }

  /** Type and length fit the 32-bit fields of the handler. */
  predicate Fits(m: Message) {
    m.msgType < TWO_32 && |m.payload| < TWO_32
  }

  /** The length also survives the conversion to a signed read limit. */
  predicate Readable(m: Message) {
    |m.payload| < TWO_31
  }

  lemma ReadHeader(n: nat, rest: seq<byte>)
    requires n < TWO_32
    ensures var r := ReadFrom(0, 1, 5, Encode(n) + rest);
            r.done && r.num == n && r.multiplier == 1 && r.rest == rest
  {
    FiveBytes(n);
    ReadEncoded(0, 1, 5, n, rest);
    OnceFromZero(n);
  }

  lemma OnceFromZero(n: nat)
    requires n < TWO_32
    ensures (0 + n * 1) % TWO_32 == n
  {
  }

  lemma ParseType(p: Parser, msgType: nat, rest: seq<byte>)
    requires p.Valid() && p.Idle() && msgType < TWO_32
    ensures Parse(p, Encode(msgType) + rest) == Parse(Parser(GETLENGTH, msgType, 0, 1, 5), rest)
  {
    ReadHeader(msgType, rest);
  }

  lemma ParseLength(msgType: nat, len: nat, rest: seq<byte>)
    requires msgType < TWO_32 && len < TWO_32
    ensures Parse(Parser(GETLENGTH, msgType, 0, 1, 5), Encode(len) + rest)
         == Parse(Parser(READ_MSG, msgType, len, 1, ReadableBytes(len)), rest)
  {
    ReadHeader(len, rest);
  }

  /** One frame at the front of the stream: header and readable part are taken, the rest stays. */
  lemma ParseOneFrame(p: Parser, m: Message, rest: seq<byte>)
    requires p.Valid() && p.Idle() && Fits(m)
    ensures var n := ReadableBytes(|m.payload|);
            var later := Parse(Parser(NEXT_MSG, 0, |m.payload|, 1, 5), m.payload[n..] + rest);
            Parse(p, Frame(m) + rest) ==
            later.(delivered := [Message(m.msgType, m.payload[..n])] + later.delivered)
  {
    var len := |m.payload|;
    var n := ReadableBytes(len);
    var body := m.payload + rest;
    assert Frame(m) + rest == Encode(m.msgType) + (Encode(len) + body);
    ParseType(p, m.msgType, Encode(len) + body);
    ParseLength(m.msgType, len, body);
    assert body[n..] == m.payload[n..] + rest;
    assert body[..n] == m.payload[..n];
  }

  lemma ReadableFrame(p: Parser, m: Message, rest: seq<byte>)
    requires p.Valid() && p.Idle() && Fits(m) && Readable(m)
    ensures var later := Parse(Parser(NEXT_MSG, 0, |m.payload|, 1, 5), rest);
            Parse(p, Frame(m) + rest) == later.(delivered := [m] + later.delivered)
  {
    ParseOneFrame(p, m, rest);
    assert m.payload[|m.payload|..] + rest == rest && m.payload[..|m.payload|] == m.payload;
  }

  lemma UnreadableFrame(p: Parser, m: Message, rest: seq<byte>)
    requires p.Valid() && p.Idle() && Fits(m) && !Readable(m)
    ensures var o := Parse(p, Frame(m) + rest); o.delivered != [] && o.delivered[0] == Message(m.msgType, [])
  {
    ParseOneFrame(p, m, rest);
    assert m.payload[..0] == [];
  }

  /** Framing then parsing gives back the messages, once each, in order and complete, with the handler
      idle and nothing unread, exactly when every payload is below 2^31 bytes. */
  lemma {:induction false} RoundTrip(p: Parser, msgs: seq<Message>)
    requires p.Valid() && p.Idle() && forall m <- msgs :: Fits(m)
    ensures Parse(p, FrameAll(msgs)).delivered == msgs <==> forall m <- msgs :: Readable(m)
    ensures (forall m <- msgs :: Readable(m)) ==>
              Parse(p, FrameAll(msgs)).unread == [] && Parse(p, FrameAll(msgs)).parser.Idle()
    decreases |msgs|
  {
    if msgs == [] {
      assert Parse(p, []).delivered == [];
    } else {
      var m, rest := msgs[0], FrameAll(msgs[1..]);
      assert msgs == [m] + msgs[1..];
      if Readable(m) {
        var next := Parser(NEXT_MSG, 0, |m.payload|, 1, 5);
        ReadableFrame(p, m, rest);
        RoundTrip(next, msgs[1..]);
        SameTail(m, Parse(next, rest).delivered, msgs[1..]);
      } else {
        UnreadableFrame(p, m, rest);
        assert Parse(p, FrameAll(msgs)).delivered[0] != m && m in msgs;
      }
    }
  }

  lemma SameTail(m: Message, a: seq<Message>, b: seq<Message>)
    ensures [m] + a == [m] + b <==> a == b
  {
    if [m] + a == [m] + b {
      assert a == ([m] + a)[1..] && b == ([m] + b)[1..];
    }
  }

  /** The same for any way the network cuts the stream into chunks. */
  lemma StreamingRoundTrip(msgs: seq<Message>, chunks: seq<seq<byte>>)
    requires forall m <- msgs :: Fits(m)
    requires Flatten(chunks) == FrameAll(msgs)
    ensures ParseChunks(START, [], chunks).delivered == msgs <==> forall m <- msgs :: Readable(m)
    ensures (forall m <- msgs :: Readable(m)) ==>
              var o := ParseChunks(START, [], chunks); o.unread == [] && o.parser.Idle()
  {
    assert Parse(START, []) == Outcome(START, [], []);
    ParseChunksIsParse(START, [], chunks);
    assert [] + Flatten(chunks) == Flatten(chunks);
    RoundTrip(START, msgs);
  }

  lemma {:induction false} FrameAllConcat(a: seq<Message>, b: seq<Message>)
    ensures FrameAll(a + b) == FrameAll(a) + FrameAll(b)
    decreases |a|
  {
    if a == [] {
      assert a + b == b;
    } else {
      assert (a + b)[1..] == a[1..] + b;
      FrameAllConcat(a[1..], b);
    }
  }

  /** While a stream of readable messages is still arriving, what has been called back is always a
      prefix of the messages sent. */
  lemma DeliveredIsPrefix(msgs: seq<Message>, arrived: seq<byte>, missing: seq<byte>)
    requires forall m <- msgs :: Fits(m) && Readable(m)
    requires arrived + missing == FrameAll(msgs)
    ensures Parse(START, arrived).delivered <= msgs
  {
    ParseResumes(START, arrived, missing);
    RoundTrip(START, msgs);
  }

  /** It already holds every message whose frame has arrived: no message waits for later bytes. */
  lemma DeliveredWithoutDelay(msgs: seq<Message>, more: seq<byte>)
    requires forall m <- msgs :: Fits(m) && Readable(m)
    ensures msgs <= Parse(START, FrameAll(msgs) + more).delivered
  {
    ParseResumes(START, FrameAll(msgs), more);
    RoundTrip(START, msgs);
  }

  /** Where a message should begin, five bytes that each announce another one end all handling: what was
      framed before is delivered, and nothing that comes later is, in whatever chunks. */
  lemma EndlessHeaderStalls(msgs: seq<Message>, tail: seq<byte>, chunks: seq<seq<byte>>)
    requires (forall m <- msgs :: Fits(m) && Readable(m)) && NeverEnds(5, tail)
    requires Flatten(chunks) == FrameAll(msgs) + tail
    ensures var o := ParseChunks(START, [], chunks);
            o.delivered == msgs && Stalled(o.parser) && o.unread == tail[5..]
  {
    ParseChunksIsParse(START, [], chunks);
    assert [] + Flatten(chunks) == FrameAll(msgs) + tail;
    RoundTrip(START, msgs);
    ParseResumes(START, FrameAll(msgs), tail);
    var idle := Parse(START, FrameAll(msgs)).parser;
    assert [] + tail == tail;
    HeaderStallsIff(idle, tail);
  }

  // ----- where the handler is defined -----

  /** Handling the bytes meets a product beyond 2^31 - 1. */
  predicate ParseOverflows(p: Parser, input: seq<byte>)
    requires p.Valid()
    decreases |input|, if p.state == READ_MSG then 1 else 0
  {
    match p.state
    case NEXT_MSG =>
      var r := ReadFrom(p.msgType, p.multiplier, p.limit, input);
      ReadTakesPrefix(p.msgType, p.multiplier, p.limit, input);
      ReadStays32(p.msgType, p.multiplier, p.limit, input);
      || Overflows(p.multiplier, p.limit, input)
      || (r.done && ParseOverflows(Parser(GETLENGTH, r.num, 0, r.multiplier, 5), r.rest))
    case GETLENGTH =>
      var r := ReadFrom(p.msgLength, p.multiplier, p.limit, input);
      ReadTakesPrefix(p.msgLength, p.multiplier, p.limit, input);
      ReadStays32(p.msgLength, p.multiplier, p.limit, input);
      || Overflows(p.multiplier, p.limit, input)
      || (r.done && ParseOverflows(Parser(READ_MSG, p.msgType, r.num, r.multiplier, ReadableBytes(r.num)), r.rest))
    case READ_MSG =>
      |input| >= p.msgLength
        && ParseOverflows(Parser(NEXT_MSG, 0, p.msgLength, p.multiplier, 5), input[Min(p.limit, |input|)..])
  }

  /** Cutting the bytes makes no difference. */
  lemma {:induction false} ParseOverflowsResumes(p: Parser, a: seq<byte>, b: seq<byte>)
    requires p.Valid()
    ensures var first := Parse(p, a);
            ParseOverflows(p, a + b) <==> ParseOverflows(p, a) || ParseOverflows(first.parser, first.unread + b)
    decreases |a|, if p.state == READ_MSG then 1 else 0
  {
    match p.state
    case NEXT_MSG =>
      var r := ReadFrom(p.msgType, p.multiplier, p.limit, a);
      ReadTakesPrefix(p.msgType, p.multiplier, p.limit, a);
      ReadStays32(p.msgType, p.multiplier, p.limit, a);
      ReadResumes(p.msgType, p.multiplier, p.limit, a, b);
      OverflowsResumes(p.msgType, p.multiplier, p.limit, a, b);
      if r.done {
        ParseOverflowsResumes(Parser(GETLENGTH, r.num, 0, r.multiplier, 5), r.rest, b);
      }
    case GETLENGTH =>
      var r := ReadFrom(p.msgLength, p.multiplier, p.limit, a);
      ReadTakesPrefix(p.msgLength, p.multiplier, p.limit, a);
      ReadStays32(p.msgLength, p.multiplier, p.limit, a);
      ReadResumes(p.msgLength, p.multiplier, p.limit, a, b);
      OverflowsResumes(p.msgLength, p.multiplier, p.limit, a, b);
      if r.done {
        ParseOverflowsResumes(Parser(READ_MSG, p.msgType, r.num, r.multiplier, ReadableBytes(r.num)), r.rest, b);
      }
    case READ_MSG =>
      if |a| >= p.msgLength {
        assert (a + b)[p.limit..] == a[p.limit..] + b;
        ParseOverflowsResumes(Parser(NEXT_MSG, 0, p.msgLength, p.multiplier, 5), a[p.limit..], b);
      }
  }

  predicate ChunksOverflow(p: Parser, unread: seq<byte>, chunks: seq<seq<byte>>)
    requires p.Valid()
    decreases |chunks|
  {
    chunks != [] &&
    var o := Parse(p, unread + chunks[0]);
    ParseOverflows(p, unread + chunks[0]) || ChunksOverflow(o.parser, o.unread, chunks[1..])
  }

  lemma {:induction false} ChunksOverflowIsParseOverflows(p: Parser, unread: seq<byte>, chunks: seq<seq<byte>>)
    requires p.Valid() && !ParseOverflows(p, unread)
    ensures ChunksOverflow(p, unread, chunks) <==> ParseOverflows(p, unread + Flatten(chunks))
    decreases |chunks|
  {
    if chunks == [] {
      assert unread + [] == unread;
    } else {
      var a, b := unread + chunks[0], Flatten(chunks[1..]);
      var o := Parse(p, a);
      assert unread + Flatten(chunks) == a + b;
      ParseOverflowsResumes(p, a, b);
      if !ParseOverflows(p, a) {
        ParseOverflowsResumes(p, a, []);
        assert a + [] == a && o.unread + [] == o.unread;
        ChunksOverflowIsParseOverflows(o.parser, o.unread, chunks[1..]);
      }
    }
  }

  /** Type and length are below 2^31. */
  predicate Small(m: Message) {
    m.msgType < TWO_31 && |m.payload| < TWO_31
  }

  lemma TypeOverflows(p: Parser, msgType: nat, rest: seq<byte>)
    requires p.Valid() && p.Idle() && msgType < TWO_32
    ensures ParseOverflows(p, Encode(msgType) + rest) <==>
            msgType >= TWO_31 || ParseOverflows(Parser(GETLENGTH, msgType, 0, 1, 5), rest)
  {
    ReadHeader(msgType, rest);
    FiveBytes(msgType);
    EncodedOverflows(1, TWO_31, 5, msgType, rest);
  }

  lemma LengthOverflows(msgType: nat, len: nat, rest: seq<byte>)
    requires msgType < TWO_32 && len < TWO_32
    ensures ParseOverflows(Parser(GETLENGTH, msgType, 0, 1, 5), Encode(len) + rest) <==>
            len >= TWO_31 || ParseOverflows(Parser(READ_MSG, msgType, len, 1, ReadableBytes(len)), rest)
  {
    ReadHeader(len, rest);
    FiveBytes(len);
    EncodedOverflows(1, TWO_31, 5, len, rest);
  }

  lemma FrameOverflows(p: Parser, m: Message, rest: seq<byte>)
    requires p.Valid() && p.Idle() && Fits(m)
    ensures ParseOverflows(p, Frame(m) + rest) <==>
            !Small(m) || ParseOverflows(Parser(NEXT_MSG, 0, |m.payload|, 1, 5), rest)
  {
    var len := |m.payload|;
    var body := m.payload + rest;
    assert Frame(m) + rest == Encode(m.msgType) + (Encode(len) + body);
    TypeOverflows(p, m.msgType, Encode(len) + body);
    LengthOverflows(m.msgType, len, body);
    assert body[len..] == rest;
  }

  /** Framed messages keep the handler within signed integers exactly when all types and lengths are below
      2^31; and then they come back. */
  lemma {:induction false} DefinedRoundTrip(p: Parser, msgs: seq<Message>)
    requires p.Valid() && p.Idle() && forall m <- msgs :: Fits(m)
    ensures !ParseOverflows(p, FrameAll(msgs)) <==> forall m <- msgs :: Small(m)
    ensures !ParseOverflows(p, FrameAll(msgs)) ==> Parse(p, FrameAll(msgs)).delivered == msgs
    decreases |msgs|
  {
    RoundTrip(p, msgs);
    if msgs != [] {
      FrameOverflows(p, msgs[0], FrameAll(msgs[1..]));
      DefinedRoundTrip(Parser(NEXT_MSG, 0, |msgs[0].payload|, 1, 5), msgs[1..]);
      assert msgs == [msgs[0]] + msgs[1..];
    }
  }

  /** The same for any way the network cuts the stream into chunks. */
  lemma DefinedStreamingRoundTrip(msgs: seq<Message>, chunks: seq<seq<byte>>)
    requires forall m <- msgs :: Fits(m)
    requires Flatten(chunks) == FrameAll(msgs)
    ensures !ChunksOverflow(START, [], chunks) <==> forall m <- msgs :: Small(m)
    ensures !ChunksOverflow(START, [], chunks) ==>
              var o := ParseChunks(START, [], chunks); o.delivered == msgs && o.unread == [] && o.parser.Idle()
  {
    ChunksOverflowIsParseOverflows(START, [], chunks);
    assert [] + Flatten(chunks) == Flatten(chunks);
    DefinedRoundTrip(START, msgs);
    StreamingRoundTrip(msgs, chunks);
  }
}
