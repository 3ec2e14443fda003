/**
 The connection buffer: a byte array with a read and a write position.
 Seen from outside it is a queue of bytes, `Contents()`.
 */
module ByteBuffer {
  import opened Common

  class Buffer {
    var bytes: array<byte>
    var readPos: nat
    var writePos: nat

    ghost predicate Valid()
      reads this
    {
      readPos <= writePos <= bytes.Length
    }

    ghost function Contents(): Bytes
      requires Valid()
      reads this, bytes
    {
      bytes[readPos..writePos]
    }

    constructor (initialSize: nat)
      ensures Valid() && fresh(bytes) && bytes.Length == initialSize && Contents() == []
    {
      bytes := new byte[initialSize];
      readPos, writePos := 0, 0;
    }

    method ReadableBytes() returns (n: nat)
      requires Valid()
      ensures n == |Contents()|
    {
      n := writePos - readPos;
    }

    /** The first `n` readable bytes, left in place. */
    method Peek(from: nat, n: nat) returns (front: Bytes)
      requires Valid() && from + n <= |Contents()|
      ensures front == Contents()[from..from + n]
    {
      front := bytes[readPos + from..readPos + from + n];
      assert forall k :: 0 <= k < n ==> front[k] == Contents()[from + k];
    }

    method Retrieve(len: nat)
      requires Valid() && len <= |Contents()|
      modifies this
      ensures Valid() && bytes == old(bytes)
      ensures Contents() == old(Contents())[len..]
      ensures if len < |old(Contents())| then readPos == old(readPos) + len && writePos == old(writePos)
              else readPos == writePos == 0
    {
      if len < writePos - readPos {
        readPos := readPos + len;
      } else {
        RetrieveAll();
      }
    }

    method RetrieveAll()
      requires Valid()
      modifies this
      ensures Valid() && bytes == old(bytes)
      ensures Contents() == [] && readPos == writePos == 0
    {
      readPos := 0;
      writePos := 0;
    }

    method RetrieveAllAsString() returns (result: Bytes)
      requires Valid()
      modifies this
      ensures Valid() && bytes == old(bytes)
      ensures result == old(Contents()) && Contents() == [] && readPos == writePos == 0
    {
      result := bytes[readPos..writePos];
      RetrieveAll();
    }

    /** Grow the array, or slide the readable bytes down over themselves. */
    method MakeSpace(len: nat)
      requires Valid()
      modifies this, bytes
      ensures Valid() && (bytes == old(bytes) || fresh(bytes))
      ensures Contents() == old(Contents())
      ensures bytes.Length - writePos >= len
    {
      if (bytes.Length - writePos) + readPos < len {
        var larger := new byte[writePos + len];
        for i := 0 to bytes.Length
          invariant readPos == old(readPos) && writePos == old(writePos)
          invariant bytes == old(bytes) && bytes[..] == old(bytes[..])
          invariant larger[..i] == bytes[..i]
        {
          larger[i] := bytes[i];
        }
        bytes := larger;
        assert bytes[readPos..writePos] == old(bytes[readPos..writePos]);
      } else {
        SlideDown();
      }
    }

    /** `std::copy` to the front: source and destination overlap, so only a forward copy works. */
    method SlideDown()
      requires Valid()
      modifies this, bytes
      ensures Valid() && bytes == old(bytes) && readPos == 0
      ensures Contents() == old(Contents())
    {
      var readable := writePos - readPos;
      for i := 0 to readable
        invariant bytes == old(bytes) && readPos == old(readPos) && writePos == old(writePos)
        invariant forall k :: 0 <= k < i ==> bytes[k] == old(bytes[readPos + k])
        invariant forall k :: i <= k < bytes.Length ==> bytes[k] == old(bytes[k])
      {
        bytes[i] := bytes[readPos + i];
      }
      readPos := 0;
      writePos := readable;
    }

    method EnsureWritableBytes(len: nat)
      requires Valid()
      modifies this, bytes
      ensures Valid() && (bytes == old(bytes) || fresh(bytes))
      ensures Contents() == old(Contents())
      ensures bytes.Length - writePos >= len
    {
      if bytes.Length - writePos >= len {
        return;
      }
      MakeSpace(len);
    }

    method Append(data: Bytes)
      requires Valid()
      modifies this, bytes
      ensures Valid() && (bytes == old(bytes) || fresh(bytes))
      ensures Contents() == old(Contents()) + data
    {
      EnsureWritableBytes(|data|);
      CopyIn(data);
      assert bytes[readPos..writePos + |data|] == bytes[readPos..writePos] + bytes[writePos..writePos + |data|];
      writePos := writePos + |data|;
    }

    method CopyIn(data: Bytes)
      requires Valid() && bytes.Length - writePos >= |data|
      modifies bytes
      ensures bytes[..writePos] == old(bytes[..writePos])
      ensures bytes[writePos..writePos + |data|] == data
    {
      for i := 0 to |data|
        invariant bytes[..writePos] == old(bytes[..writePos])
        invariant forall k :: 0 <= k < i ==> bytes[writePos + k] == data[k]
      {
        bytes[writePos + i] := data[i];
      }
    }
  }
}
