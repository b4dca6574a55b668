/** The connection to one GUI client: framing of outgoing messages, and the state machine that turns
    incoming chunks into message callbacks. */
module ClientHandling {
  import opened Varint
  import opened WireProtocol
  import opened ClientBuffers

  lemma WhileReadingType(p: Parser, input: seq<byte>)
    requires p.Valid() && p.state == NEXT_MSG
    ensures var r := ReadFrom(p.msgType, p.multiplier, p.limit, input);
            && r.num < TWO_32 && (r.done ==> |r.rest| < |input|) && |r.rest| <= |input|
            && var next := Parser(GETLENGTH, r.num, 0, r.multiplier, 5);
               next.Valid() && Parse(p, input) == if r.done then Parse(next, r.rest)
                               else Outcome(p.(msgType := r.num, multiplier := r.multiplier, limit := r.limit),
                                            r.rest, [])
  {
    ReadTakesPrefix(p.msgType, p.multiplier, p.limit, input);
    ReadStays32(p.msgType, p.multiplier, p.limit, input);
  }

  lemma WhileReadingLength(p: Parser, input: seq<byte>)
    requires p.Valid() && p.state == GETLENGTH
    ensures var r := ReadFrom(p.msgLength, p.multiplier, p.limit, input);
            && r.num < TWO_32 && (r.done ==> |r.rest| < |input|) && |r.rest| <= |input|
            && var next := Parser(READ_MSG, p.msgType, r.num, r.multiplier, ReadableBytes(r.num));
               next.Valid() && Parse(p, input) == if r.done then Parse(next, r.rest)
                               else Outcome(p.(msgLength := r.num, multiplier := r.multiplier, limit := r.limit),
                                            r.rest, [])
  {
    ReadTakesPrefix(p.msgLength, p.multiplier, p.limit, input);
    ReadStays32(p.msgLength, p.multiplier, p.limit, input);
  }

  lemma TakenInParts(stream: seq<byte>, payload: seq<byte>, data: seq<byte>, before: seq<byte>, after: seq<byte>)
    requires stream == payload + before && before == data + after
    ensures stream == payload + data + after
  {
  }

  lemma TakenWhole(stream: seq<byte>, payload: seq<byte>, rest: seq<byte>)
    requires stream == payload + [] + rest
    ensures |stream| == |payload| + |rest| && stream[..|payload|] == payload && stream[|payload|..] == rest
  {
  }

  class ClientHandler {
    var internalState: InternalState
    var msgType: nat
    var msgLength: nat
    const inputBuffer: ClientInputBuffer
    var delivered: seq<Message>  // the callbacks made so far, each with the bytes it read

    ghost predicate Valid()
      reads this, inputBuffer
    {
      inputBuffer.Valid() && View().Valid()
    }

    ghost function View(): Parser
      reads this, inputBuffer
    {
      Parser(internalState, msgType, msgLength, inputBuffer.multiplier, inputBuffer.Remaining())
    }

    constructor ()
      ensures Valid() && fresh(inputBuffer)
      ensures View() == START && inputBuffer.Unread() == [] && delivered == []
    {
      internalState, msgType, msgLength, delivered := NEXT_MSG, 0, 0, [];
      inputBuffer := new ClientInputBuffer();
    }

    /** The message callback: reads the stream until it reports its end. */
    method ParseMessageCb()
      requires Valid()
      modifies this`delivered, inputBuffer
      ensures inputBuffer.Valid() && inputBuffer.multiplier == old(inputBuffer.multiplier)
      ensures var n := Min(old(inputBuffer.Remaining()), |old(inputBuffer.Unread())|);
              && delivered == old(delivered) + [Message(msgType, old(inputBuffer.Unread())[..n])]
              && inputBuffer.Unread() == old(inputBuffer.Unread())[n..]
    {
      ghost var stream := inputBuffer.Unread();
      var payload := [];
      var more, data := inputBuffer.Next();
      while more
        invariant inputBuffer.Valid() && inputBuffer.multiplier == old(inputBuffer.multiplier)
        invariant delivered == old(delivered)
        invariant stream == payload + data + inputBuffer.Unread()
        invariant |payload| + |data| + inputBuffer.Remaining() == old(inputBuffer.Remaining())
        invariant !more ==> data == [] && (inputBuffer.Remaining() == 0 || inputBuffer.Unread() == [])
        decreases more, inputBuffer.streamSize, |inputBuffer.ioBuffer|
      {
        ghost var before := inputBuffer.Unread();
        payload := payload + data;
        more, data := inputBuffer.Next();
        TakenInParts(stream, payload, data, before, inputBuffer.Unread());
      }
      TakenWhole(stream, payload, inputBuffer.Unread());
      assert |payload| == Min(old(inputBuffer.Remaining()), |stream|);
      delivered := delivered + [Message(msgType, payload)];
    }

    /** Handles all that has arrived so far. */
    method HandleMessages()
      requires Valid()
      modifies this, inputBuffer
      ensures Valid()
      ensures var o := Parse(old(View()), old(inputBuffer.Unread()));
              View() == o.parser && inputBuffer.Unread() == o.unread && delivered == old(delivered) + o.delivered
      decreases inputBuffer.streamSize, if internalState == READ_MSG then 1 else 0
    {
      ghost var p, stream := View(), inputBuffer.Unread();
      match internalState {
        case NEXT_MSG =>
          WhileReadingType(p, stream);
          var done, num := inputBuffer.ReadVarint32(msgType);
          msgType := num;
          if done {
            msgLength := 0;
            internalState := GETLENGTH;
            inputBuffer.UpdateLimit(5);
          } else {
            return;
          }
          HandleMessages();
        case GETLENGTH =>
          WhileReadingLength(p, stream);
          var done, num := inputBuffer.ReadVarint32(msgLength);
          msgLength := num;
          if done {
            internalState := READ_MSG;
            inputBuffer.UpdateLimit(ToInt32(msgLength));
          } else {
            return;
          }
          HandleMessages();
        case READ_MSG =>
          if inputBuffer.GetStreamSize() >= msgLength {
            ParseMessageCb();
            msgType := 0;
            internalState := NEXT_MSG;
            inputBuffer.UpdateLimit(5);
            HandleMessages();
          }
      }
    }

    /** The incoming data callback of the connection. */
    method IncomingData(data: seq<byte>)
      requires Valid()
      modifies this, inputBuffer
      ensures Valid()
      ensures var o := Parse(old(View()), old(inputBuffer.Unread()) + data);
              View() == o.parser && inputBuffer.Unread() == o.unread && delivered == old(delivered) + o.delivered
    {
      inputBuffer.AppendData(data);
      HandleMessages();
    }
  }

  /** The conversion of an unsigned 32-bit value to a signed one. */
  function ToInt32(n: nat): int
    requires n < TWO_32
  {
    if n < TWO_31 then n else n - TWO_32
  }

  /** A connection over its lifetime: whatever the chunks, the callbacks are those of the whole stream. */
  method Receive(handler: ClientHandler, chunks: seq<seq<byte>>)
    requires handler.Valid() && handler.View() == START
    requires handler.inputBuffer.Unread() == [] && handler.delivered == []
    modifies handler, handler.inputBuffer
    ensures handler.Valid()
    ensures var o := Parse(START, Flatten(chunks));
            && handler.delivered == o.delivered && handler.View() == o.parser
            && handler.inputBuffer.Unread() == o.unread
    ensures forall msgs: seq<Message> {:trigger FrameAll(msgs)} ::
              FrameAll(msgs) == Flatten(chunks) && (forall m <- msgs :: Fits(m) && Readable(m)) ==>
                handler.delivered == msgs && handler.View().Idle() && handler.inputBuffer.Unread() == []
  {
    assert Parse(START, []) == Outcome(START, [], []);
    ParseChunksIsParse(START, [], chunks);
    assert [] + Flatten(chunks) == Flatten(chunks);
    ghost var total := ParseChunks(START, [], chunks);
    for i := 0 to |chunks|
      invariant handler.Valid()
      invariant total == Join(Outcome(START, [], handler.delivered),
                              ParseChunks(handler.View(), handler.inputBuffer.Unread(), chunks[i..]))
    {
      handler.IncomingData(chunks[i]);
      assert chunks[i..][1..] == chunks[i + 1..];
    }
    forall msgs: seq<Message> | FrameAll(msgs) == Flatten(chunks) && (forall m <- msgs :: Fits(m) && Readable(m))
      ensures handler.delivered == msgs && handler.View().Idle() && handler.inputBuffer.Unread() == []
    {
      RoundTrip(START, msgs);
    }
  }

  /** Serialises a message body into the stream, as the protobuf library does with the space `Next` offers. */
  method SerializeToZeroCopyStream(payload: seq<byte>, stream: ClientOutputBuffer) returns (ok: bool)
    requires stream.Valid()
    modifies stream, stream.buffer
    ensures stream.Valid()
    ensures ok <==> old(stream.localOffset) + |payload| <= stream.buffer.Length
    ensures ok ==> stream.Written() == old(stream.Written()) + payload
  {
    if payload == [] {
      return true;
    }
    var more, start, size := stream.Next();
    if size < |payload| {
      return false;
    }
    ghost var before := stream.buffer[..start];
    for i := 0 to |payload|
      invariant stream.Valid() && stream.localOffset == start + size == stream.buffer.Length
      invariant stream.buffer[..start] == before
      invariant stream.buffer[start..start + i] == payload[..i]
    {
      stream.buffer[start + i] := payload[i];
    }
    stream.BackUp(size - |payload|);
    assert stream.Written() == stream.buffer[..start] + stream.buffer[start..start + |payload|];
    return true;
  }

  /** Writes type, size and body, giving up at the first part that finds no room. */
  method WriteParts(m: Message, stream: ClientOutputBuffer) returns (ok: bool)
    requires stream.Valid() && stream.Written() == []
    modifies stream, stream.buffer
    ensures stream.Valid()
    ensures ok <==> |Frame(m)| <= stream.buffer.Length
    ensures ok ==> stream.Written() == Frame(m)
  {
    ok := stream.WriteVarint32(m.msgType);
    if ok {
      assert stream.Written() == Encode(m.msgType);
      ok := stream.WriteVarint32(|m.payload|);
      if ok {
        ok := SerializeToZeroCopyStream(m.payload, stream);
      }
    }
  }

  /** The buffer `write_message` allocates has the size of the frame, or is one byte short for a payload
      whose length the logarithm has rounded down. */
  lemma SizeOfFrame(log: nat -> real, m: Message)
    requires Rounds(log) && Separates(log) && m.msgType < TWO_32
    ensures var size := LengthOfVarint(log, m.msgType) + LengthOfVarint(log, |m.payload|) + |m.payload|;
            0 <= size <= |Frame(m)|
              && (size == |Frame(m)| <==> LengthOfVarint(log, |m.payload|) == |Encode(|m.payload|)|)
    ensures |m.payload| < Pow128(7) ==> LengthOfVarint(log, |m.payload|) == |Encode(|m.payload|)|
  {
    TypeIsShort(m.msgType);
    LengthOfVarintIsExact(log, m.msgType);
    LengthOfVarintIsExactIff(log, |m.payload|);
    if |m.payload| < Pow128(7) {
      LengthOfVarintIsExact(log, |m.payload|);
    }
  }

  /** Frames one message in a buffer of the computed size. Below 2^49 bytes that is exactly the size of the
      frame; a buffer that is too small makes it give up, with nothing sent. */
  method WriteMessage(log: nat -> real, m: Message) returns (record: seq<byte>)
    requires Rounds(log) && Separates(log) && m.msgType < TWO_32
    ensures |m.payload| < Pow128(7) ==> record == Frame(m)
    ensures record == if LengthOfVarint(log, |m.payload|) == |Encode(|m.payload|)| then Frame(m) else []
  {
    SizeOfFrame(log, m);
    var size := LengthOfVarint(log, m.msgType) + LengthOfVarint(log, |m.payload|) + |m.payload|;
    var buffer := new byte[size];
    var stream := new ClientOutputBuffer(buffer);
    var ok := WriteParts(m, stream);
    if !ok {
      return [];
    }
    return buffer[..];
  }

  lemma TypeIsShort(msgType: nat)
    requires msgType < TWO_32
    ensures msgType < Pow128(7)
  {
    FiveBytes(msgType);
    EncodeLengthBounds(msgType);
    Pow128Monotone(|Encode(msgType)|, 7);
  }
}
