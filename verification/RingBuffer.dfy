/** The linear buffer behind each direction of a connection: a byte queue kept between two positions
    of an array (server/RingBuffer.cpp, server/RingBuffer.h). */
module RingBuffer {
  import opened Bytes

  /** What the socket has for a receive call. */
  datatype Ready = Data(bytes: seq<byte>) | PeerClosed | WouldBlock | Broken

  datatype RecvResult = Got(n: nat) | Eof | Again | NoBufferSpace | Error

  class RingBuffer {
    var buf: array<byte>
    var readPos: nat
    var writePos: nat

    ghost predicate Valid()
      reads this
    {
      readPos <= writePos <= buf.Length
    }

    /** The queued bytes, oldest first. */
    ghost function Contents(): (s: seq<byte>)
      reads this, buf
      requires Valid()
      ensures |s| == writePos - readPos
    {
      buf[readPos..writePos]
    }

    constructor (capacity: nat)
      ensures Valid() && fresh(buf) && buf.Length == capacity
      ensures Contents() == [] && readPos == 0
    {
      buf := new byte[capacity](i => 0);
      readPos, writePos := 0, 0;
    }

    method ReadableBytes() returns (n: nat)
      requires Valid()
      ensures n == |Contents()|
    {
      n := writePos - readPos;
    }

    /** Moves the unread bytes to the front of the array, in place. */
    method Compact()
      requires Valid()
      modifies this, buf
      ensures Valid() && buf == old(buf)
      ensures Contents() == old(Contents()) && readPos == 0
    {
      if readPos == 0 {
        return;
      }
      var keep := writePos - readPos;
      for k := 0 to keep
        invariant readPos == old(readPos) && writePos == old(writePos) && buf == old(buf)
        invariant forall j :: 0 <= j < k ==> buf[j] == old(buf[readPos + j])
        invariant forall j :: k <= j < buf.Length ==> buf[j] == old(buf[j])
      {
        buf[k] := buf[readPos + k];
      }
      readPos := 0;
      writePos := keep;
    }

    /** Receives into the free tail. At most as much as fits is taken; the rest of the data stays with
        the socket. A full buffer is compacted first, and refused only if it is full of unread bytes. */
    method WriteFromFd(ready: Ready) returns (r: RecvResult)
      requires Valid()
      modifies this, buf
      ensures Valid() && buf == old(buf)
      ensures r.NoBufferSpace? <==> |old(Contents())| == buf.Length
      ensures old(readPos) == 0 ==> readPos == 0
      ensures r.Got? <==> ready.Data? && ready.bytes != [] && !r.NoBufferSpace?
      ensures r.Got? ==> 0 < r.n <= |ready.bytes| && Contents() == old(Contents()) + ready.bytes[..r.n]
      ensures r.Got? ==>
                var room := buf.Length - if old(writePos) == buf.Length then |old(Contents())| else old(writePos);
                r.n == if |ready.bytes| < room then |ready.bytes| else room
      ensures !r.Got? ==> Contents() == old(Contents())
      ensures !r.NoBufferSpace? ==>
                match ready
                case Data(bytes) => r.Got? || r.Eof?
                case PeerClosed => r.Eof?
                case WouldBlock => r.Again?
                case Broken => r.Error?
    {
      if writePos == buf.Length {
        Compact();
      }
      if writePos == buf.Length {
        return NoBufferSpace;
      }
      match ready {
        case PeerClosed => return Eof;
        case WouldBlock => return Again;
        case Broken => return Error;
        case Data(bytes) =>
          if bytes == [] {
            return Eof;
          }
          var room := buf.Length - writePos;
          var n := if |bytes| < room then |bytes| else room;
          CopyIn(bytes[..n]);
          return Got(n);
      }
    }

    /** Copies `data` behind the queued bytes; there is room. */
    method CopyIn(data: seq<byte>)
      requires Valid() && writePos + |data| <= buf.Length
      modifies this`writePos, buf
      ensures Valid() && buf == old(buf)
      ensures Contents() == old(Contents()) + data
    {
      for k := 0 to |data|
        invariant writePos == old(writePos) && readPos == old(readPos) && writePos + |data| <= buf.Length
        invariant forall j :: 0 <= j < k ==> buf[writePos + j] == data[j]
        invariant forall j :: 0 <= j < writePos ==> buf[j] == old(buf[j])
      {
        buf[writePos + k] := data[k];
      }
      writePos := writePos + |data|;
      assert buf[readPos..writePos] == buf[readPos..old(writePos)] + buf[old(writePos)..writePos];
    }

    /** Appends from memory, growing the array when needed. */
    method WriteFrom(data: seq<byte>)
      requires Valid()
      modifies this, buf
      ensures Valid() && (buf == old(buf) || fresh(buf))
      ensures Contents() == old(Contents()) + data
      ensures readPos == old(readPos)
    {
      if writePos + |data| > buf.Length {
        var bigger := new byte[writePos + |data|](i => 0);
        for k := 0 to buf.Length
          invariant buf == old(buf) && writePos == old(writePos) && readPos == old(readPos)
          invariant forall j :: 0 <= j < buf.Length ==> buf[j] == old(buf[j])
          invariant forall j :: 0 <= j < k ==> bigger[j] == buf[j]
        {
          bigger[k] := buf[k];
        }
        buf := bigger;
        assert Contents() == old(Contents());
      }
      CopyIn(data);
    }

    method Append(data: seq<byte>)
      requires Valid()
      modifies this, buf
      ensures Valid() && (buf == old(buf) || fresh(buf))
      ensures Contents() == old(Contents()) + data
      ensures readPos == old(readPos)
    {
      WriteFrom(data);
    }

    /** Drops bytes from the front, at most all of them. */
    method Consume(bytes: nat)
      requires Valid()
      modifies this`readPos
      ensures Valid()
      ensures Contents() == old(Contents())[if bytes < |old(Contents())| then bytes else |old(Contents())|..]
    {
      var n := if bytes > writePos - readPos then writePos - readPos else bytes;
      readPos := readPos + n;
    }

    method Reset()
      modifies this`readPos, this`writePos
      ensures Valid() && Contents() == []
    {
      readPos, writePos := 0, 0;
    }
  }
}
