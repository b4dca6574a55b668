/** The two zero-copy streams between the network and the message parser. */
module ClientBuffers {
  import opened Varint
  import opened WireProtocol

  /** The input stream: a queue of received chunks, the chunk being read, and a read limit. */
  class ClientInputBuffer {
    var ioBuffer: seq<seq<byte>>
    var limit: int
    var multiplier: nat
    var streamSize: int
    var hasRecord: bool
    var actualRecord: seq<byte>
    var localOffset: nat

    /** The stream the buffer stands for: the bytes not yet handed out. */
    ghost function Unread(): seq<byte>
      reads this
      requires localOffset <= |actualRecord|
    {
      actualRecord[localOffset..] + Flatten(ioBuffer)
    }

    /** The limit as a reader sees it; a trimmed chunk leaves the field negative. */
    function Remaining(): nat
      reads this
    {
      if limit < 0 then 0 else limit
    }

    ghost predicate Valid()
      reads this
    {
      && localOffset <= |actualRecord| && streamSize == |Unread()|
      && (!hasRecord ==> actualRecord == [])
    }

    constructor ()
      ensures Valid() && Unread() == [] && Remaining() == 5 && multiplier == 1
    {
      ioBuffer, limit, multiplier, streamSize := [], 5, 1, 0;
      hasRecord, actualRecord, localOffset := false, [], 0;
    }

    method AppendData(data: seq<byte>)
      requires Valid()
      modifies this
      ensures Valid() && Unread() == old(Unread()) + data
      ensures Remaining() == old(Remaining()) && multiplier == old(multiplier)
    {
      streamSize := streamSize + |data|;
      FlattenAppend(ioBuffer, data);
      ioBuffer := ioBuffer + [data];
      assert Unread() == old(Unread()) + data;
    }

    method UpdateLimit(newLimit: int)
      requires Valid()
      modifies this`limit
      ensures Valid() && Unread() == old(Unread())
      ensures Remaining() == if newLimit < 0 then 0 else newLimit
    {
      limit := newLimit;
    }

    function GetStreamSize(): (n: int)
      requires Valid()
      ensures n == |Unread()|
      reads this
    {
      streamSize
    }

    /** Hands out the next stretch of unread bytes, never more than the limit allows. */
    method Next() returns (ok: bool, data: seq<byte>)
      requires Valid()
      modifies this
      ensures Valid() && multiplier == old(multiplier)
      ensures ok <==> old(Remaining()) > 0 && old(Unread()) != []
      ensures !ok ==> data == [] && Unread() == old(Unread()) && Remaining() == old(Remaining())
      ensures old(Unread()) == data + Unread()
      ensures old(Remaining()) == |data| + Remaining()
      ensures ok ==> hasRecord && |data| <= localOffset && actualRecord[localOffset - |data|..localOffset] == data
      ensures ok && data == [] ==> |ioBuffer| < |old(ioBuffer)|
      ensures |ioBuffer| <= |old(ioBuffer)|
    {
      if limit <= 0 || streamSize <= 0 {
        return false, [];
      }
      if !hasRecord || localOffset >= |actualRecord| {
        if ioBuffer == [] {
          return false, [];
        }
        hasRecord, actualRecord, ioBuffer, localOffset := true, ioBuffer[0], ioBuffer[1..], 0;
      }
      var start, size := localOffset, |actualRecord| - localOffset;
      limit := limit - size;
      if limit < 0 {
        size := size + limit;
      }
      localOffset := localOffset + size;
      streamSize := streamSize - size;
      ok, data := true, actualRecord[start..start + size];
      assert actualRecord[start..] == data + actualRecord[localOffset..];
    }

    /** Gives the last `count` bytes handed out back to the stream, and their share of the limit. */
    method BackUp(count: nat)
      requires Valid() && hasRecord && count <= localOffset
      modifies this
      ensures Valid() && multiplier == old(multiplier) && ioBuffer == old(ioBuffer)
      ensures Unread() == old(actualRecord[localOffset - count..localOffset]) + old(Unread())
      ensures Remaining() == old(Remaining()) + count
    {
      actualRecord := actualRecord[localOffset - count..];
      localOffset := 0;
      streamSize := streamSize + count;
      if limit < 0 {
        limit := count;
      } else {
        limit := limit + count;
      }
      assert Unread() == old(actualRecord[localOffset - count..localOffset]) + old(Unread());
    }

    /** Drops `count` bytes, or all that can be had when there are fewer. It ends with a backup of the bytes
        too many, for which there must be a record: skipping nothing on a stream that has not handed out
        anything is a fault: it uses a record that does not exist. */
    method Skip(count: nat) returns (ok: bool, fault: bool)
      requires Valid()
      modifies this
      ensures Valid() && multiplier == old(multiplier)
      ensures fault <==> count == 0 && !old(hasRecord)
      ensures ok <==> !fault && count <= Min(old(Remaining()), |old(Unread())|)
      ensures var n := Min(count, Min(old(Remaining()), |old(Unread())|));
              Unread() == old(Unread())[n..] && Remaining() == old(Remaining()) - n
    {
      ghost var stream, limitThen := Unread(), Remaining();
      ghost var taken := 0;
      var left: int := count;
      while left > 0
        invariant Valid() && multiplier == old(multiplier)
        invariant 0 <= taken <= |stream| && Unread() == stream[taken..] && Remaining() == limitThen - taken
        invariant left < count ==> hasRecord
        invariant left == count - taken && (count == 0 ==> hasRecord == old(hasRecord))
        invariant left < 0 ==>
                  -left <= localOffset && actualRecord[localOffset + left..localOffset] == stream[count..taken]
        decreases left, |ioBuffer|
      {
        var more, data := Next();
        if !more {
          assert taken == Min(limitThen, |stream|) && taken < count;
          return false, false;
        }
        TakeOff(stream, taken, data, Unread(), count);
        taken := taken + |data|;
        left := left - |data|;
      }
      if !hasRecord {
        return false, true;
      }
      BackUp(-left);
      PutBack(stream, count, taken);
      return true, false;
    }

    /** Reads a varint, going on from `num` and the multiplier a cut-off read left behind. */
    method ReadVarint32(num: nat) returns (done: bool, result: nat)
      requires Valid()
      modifies this
      ensures Valid()
      ensures ReadFrom(num, old(multiplier), old(Remaining()), old(Unread()))
           == Read(done, result, multiplier, Remaining(), Unread())
    {
      ghost var target := ReadFrom(num, multiplier, Remaining(), Unread());
      result := num;
      while true
        invariant Valid()
        invariant ReadFrom(result, multiplier, Remaining(), Unread()) == target
        decreases streamSize, |ioBuffer|
      {
        var more, data := Next();
        if !more {
          return false, result;
        }
        done, result := ReadBytes(data, result);
        if done {
          return true, result;
        }
      }
    }

    /** The loop over the bytes of one record: gives back what follows the varint, if that ends here. */
    method ReadBytes(bytes: seq<byte>, num: nat) returns (done: bool, result: nat)
      requires Valid() && hasRecord && |bytes| <= localOffset
               && actualRecord[localOffset - |bytes|..localOffset] == bytes
      modifies this
      ensures Valid()
      ensures ReadFrom(num, old(multiplier), old(Remaining()) + |bytes|, bytes + old(Unread()))
           == if done then Read(true, result, multiplier, Remaining(), Unread())
              else ReadFrom(result, multiplier, Remaining(), Unread())
      ensures !done ==> streamSize == old(streamSize) && ioBuffer == old(ioBuffer)
    {
      ghost var later, rest := Unread(), Remaining();
      ghost var target := ReadFrom(num, multiplier, rest + |bytes|, bytes + later);
      var data := bytes;
      result := num;
      while data != []
        invariant Valid() && hasRecord && |data| <= localOffset && streamSize == old(streamSize)
                  && ioBuffer == old(ioBuffer)
        invariant Unread() == later && Remaining() == rest
        invariant actualRecord[localOffset - |data|..localOffset] == data
        invariant ReadFrom(result, multiplier, rest + |data|, data + later) == target
      {
        if data[0] >= 128 {
          ReadOneByte(result, multiplier, rest, data, later);
          SliceTail(actualRecord, localOffset - |data|, localOffset);
          result := (result + data[0] % 128 * multiplier) % TWO_32;
          multiplier := multiplier * 128 % TWO_32;
          data := data[1..];
        } else {
          result := ReadLastByte(data, result);
          return true, result;
        }
      }
      assert data + later == later;
      return false, result;
    }

    /** The byte that ends a varint: gives the rest of the record back. */
    method ReadLastByte(data: seq<byte>, num: nat) returns (result: nat)
      requires Valid() && hasRecord && |data| <= localOffset && actualRecord[localOffset - |data|..localOffset] == data
      requires data != [] && data[0] < 128
      modifies this
      ensures Valid()
      ensures ReadFrom(num, old(multiplier), old(Remaining()) + |data|, data + old(Unread()))
           == Read(true, result, multiplier, Remaining(), Unread())
    {
      ReadOneByte(num, multiplier, Remaining(), data, Unread());
      SliceTail(actualRecord, localOffset - |data|, localOffset);
      result := (num + data[0] * multiplier) % TWO_32;
      BackUp(|data| - 1);
      multiplier := 1;
    }
  }

  /** Bytes taken off the stream, and those of them beyond the first `count` of all. */
  lemma TakeOff(stream: seq<byte>, taken: nat, data: seq<byte>, rest: seq<byte>, count: nat)
    requires taken <= |stream| && stream[taken..] == data + rest && taken <= count
    ensures taken + |data| <= |stream| && stream[taken + |data|..] == rest
    ensures count < taken + |data| ==> data[count - taken..] == stream[count..taken + |data|]
  {
    assert stream[taken..taken + |data|] == data;
  }

  lemma PutBack(stream: seq<byte>, count: nat, taken: nat)
    requires count <= taken <= |stream|
    ensures stream[count..] == stream[count..taken] + stream[taken..]
  {
  }

  lemma SliceTail(s: seq<byte>, from: nat, to: nat)
    requires from < to <= |s|
    ensures s[from..to][1..] == s[from + 1..to]
  {
  }

  lemma ReadOneByte(num: nat, multiplier: nat, limit: nat, data: seq<byte>, later: seq<byte>)
    requires data != []
    ensures ReadFrom(num, multiplier, limit + |data|, data + later) ==
            if data[0] >= 128 then
              ReadFrom((num + data[0] % 128 * multiplier) % TWO_32, multiplier * 128 % TWO_32,
                       limit + |data[1..]|, data[1..] + later)
            else
              Read(true, (num + data[0] * multiplier) % TWO_32, 1, limit + |data[1..]|, data[1..] + later)
  {
    assert (data + later)[1..] == data[1..] + later;
  }

  lemma {:induction false} FlattenAppend(chunks: seq<seq<byte>>, data: seq<byte>)
    ensures Flatten(chunks + [data]) == Flatten(chunks) + data
  {
    if chunks == [] {
      assert [data][1..] == [] && Flatten([data]) == data + [];
    } else {
      assert (chunks + [data])[1..] == chunks[1..] + [data];
      FlattenAppend(chunks[1..], data);
    }
  }

  /** The output stream: a buffer of fixed size that is filled from the front. */
  class ClientOutputBuffer {
    const buffer: array<byte>
    var localOffset: nat

    ghost predicate Valid()
      reads this
    {
      localOffset <= buffer.Length
    }

    ghost function Written(): seq<byte>
      reads this, buffer
      requires Valid()
    {
      buffer[..localOffset]
    }

    constructor (buffer: array<byte>)
      ensures Valid() && this.buffer == buffer && Written() == []
    {
      this.buffer, localOffset := buffer, 0;
    }

    /** Hands out all the free space at once. */
    method Next() returns (ok: bool, start: nat, size: nat)
      requires Valid()
      modifies this
      ensures Valid() && start == old(localOffset) && localOffset == start + size
      ensures localOffset == buffer.Length
      ensures ok <==> size > 0
    {
      start, size := localOffset, 0;
      if localOffset >= buffer.Length {
        return false, start, 0;
      }
      size := buffer.Length - localOffset;
      localOffset := localOffset + size;
      return true, start, size;
    }

    method BackUp(count: nat)
      requires Valid() && count <= localOffset
      modifies this
      ensures Valid() && localOffset == old(localOffset) - count
    {
      localOffset := localOffset - count;
    }

    method PutByte(b: byte)
      requires Valid() && localOffset < buffer.Length
      modifies this, buffer
      ensures Valid() && Written() == old(Written()) + [b] && localOffset == old(localOffset) + 1
    {
      buffer[localOffset] := b;
      localOffset := localOffset + 1;
    }

    /** Writes as much of the varint as there is room for. */
    method WriteVarint32(num: nat) returns (ok: bool)
      requires Valid()
      modifies this, buffer
      ensures Valid()
      ensures ok <==> old(localOffset) + |Encode(num)| <= buffer.Length
      ensures ok ==> Written() == old(Written()) + Encode(num)
      ensures !ok ==> localOffset == buffer.Length && old(Written()) <= Written() <= old(Written()) + Encode(num)
    {
      ghost var goal := Written() + Encode(num);
      var n := num;
      while n >= 128
        invariant Valid() && old(Written()) <= Written()
        invariant goal == Written() + Encode(n)
      {
        if localOffset >= buffer.Length {
          return false;
        }
        ghost var before := Written();
        PutByte(n % 128 + 128);
        EncodeContinues(before, n);
        n := n / 128;
      }
      if localOffset >= buffer.Length {
        return false;
      }
      PutByte(n);
      return true;
    }
  }

  lemma EncodeContinues(before: seq<byte>, n: nat)
    requires n >= 128
    ensures before + Encode(n) == before + [n % 128 + 128] + Encode(n / 128)
  {
  }
}
