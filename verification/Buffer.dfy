// Buffer: a byte queue in one array, with room kept free in front. Unread bytes lie between the two indexes.

module Buffers {
  import opened Basics

  const PREPEND := 8
  const INITIAL_SIZE := 1024

  lemma Joined(s: seq<char>, from: nat, mid: nat, front: seq<char>, message: seq<char>)
    requires from <= mid <= mid + |message| <= |s|
    requires s[..mid] == front && s[mid..mid + |message|] == message
    ensures s[from..mid + |message|] == front[from..] + message
  {
    assert s[from..mid] == front[from..];
  }

  class Buffer {
    var buffer: array<char>
    var readIndex: nat
    var writeIndex: nat
    /** The most unread bytes ever held or made room for. */
    ghost var peak: nat

    ghost predicate Valid()
      reads this, buffer
    {
      && PREPEND <= readIndex <= writeIndex <= buffer.Length
      && writeIndex - readIndex <= peak
      && buffer.Length <= Max(INITIAL_SIZE, 7 + 2 * peak)
    }

    /** The unread bytes. */
    function Contents(): seq<char>
      requires Valid()
      reads this, buffer
    {
      buffer[readIndex..writeIndex]
    }

    constructor ()
      ensures Valid() && fresh(buffer) && Contents() == [] && peak == 0 && buffer.Length == 1024 && readIndex == 8
    {
      buffer := new char[INITIAL_SIZE](_ => '\0');
      readIndex, writeIndex, peak := PREPEND, PREPEND, 0;
    }

    function ReadableBytes(): nat
      requires Valid()
      reads this, buffer
      ensures ReadableBytes() == |Contents()|
    {
      writeIndex - readIndex
    }

    function WritableBytes(): nat
      requires Valid()
      reads this, buffer
    {
      buffer.Length - writeIndex
    }

    function PrependableBytes(): nat
      reads this
    {
      readIndex
    }

    /** std::copy to a lower address in the same array: front to back, nothing is read after it was written. */
    method CopyDown(from: nat, to: nat, target: nat)
      requires target < from <= to <= buffer.Length
      modifies buffer
      ensures buffer[target..target + (to - from)] == old(buffer[from..to])
    {
      ghost var was := buffer[from..to];
      var n := to - from;
      for i := 0 to n
        invariant forall k :: 0 <= k < i ==> buffer[target + k] == was[k]
        invariant forall k :: i <= k < n ==> buffer[from + k] == was[k]
      {
        buffer[target + i] := buffer[from + i];
      }
      assert buffer[target..target + n] == was;
    }

    /** std::copy of outside bytes into the array. */
    method CopyIn(message: seq<char>, target: nat)
      requires target + |message| <= buffer.Length
      modifies buffer
      ensures buffer[..target] == old(buffer[..target])
      ensures buffer[target..target + |message|] == message
    {
      for i := 0 to |message|
        invariant buffer[..target] == old(buffer[..target])
        invariant buffer[target..target + i] == message[..i]
      {
        buffer[target + i] := message[i];
      }
    }

    /** vector::resize to a larger size: the old elements stay, the new ones are zero. */
    method Resize(size: nat)
      requires buffer.Length < size
      modifies this`buffer
      ensures fresh(buffer) && buffer.Length == size
      ensures buffer[..old(buffer.Length)] == old(buffer[..])
    {
      var bigger := new char[size](_ => '\0');
      for i := 0 to buffer.Length
        invariant bigger[..i] == buffer[..i]
        modifies bigger
      {
        bigger[i] := buffer[i];
      }
      buffer := bigger;
    }

    /** Makes room for `len` more bytes: as it is, by moving the unread bytes to the front, or by growing. */
    method EnsureWritableBytes(len: nat)
      requires Valid()
      modifies this, buffer
      ensures Valid() && (buffer == old(buffer) || fresh(buffer))
      ensures Contents() == old(Contents()) && WritableBytes() >= len
      ensures peak == Max(old(peak), |old(Contents())| + len)
      ensures buffer.Length ==
        if |old(Contents())| + len + PREPEND <= old(buffer.Length) || old(WritableBytes()) >= len
        then old(buffer.Length) else old(writeIndex) + len
    {
      peak := Max(peak, ReadableBytes() + len);
      if WritableBytes() >= len {
        return;
      }
      ghost var was := Contents();
      if WritableBytes() + PrependableBytes() >= PREPEND + len {
        var n := ReadableBytes();
        CopyDown(readIndex, writeIndex, PREPEND);
        writeIndex := PREPEND + n;
        readIndex := PREPEND;
      } else {
        ghost var front := buffer[..writeIndex];
        assert front[readIndex..] == was;
        Resize(writeIndex + len);
        assert buffer[..writeIndex] == front;
        assert buffer[..writeIndex][readIndex..] == was;
      }
    }

    /** Adds the bytes at the end of the queue. */
    method Append(message: seq<char>)
      requires Valid()
      modifies this, buffer
      ensures Valid() && (buffer == old(buffer) || fresh(buffer))
      ensures Contents() == old(Contents()) + message
      ensures peak == Max(old(peak), |Contents()|)
    {
      EnsureWritableBytes(|message|);
      ghost var was, front, w := Contents(), buffer[..writeIndex], writeIndex;
      assert front[readIndex..] == was;
      CopyIn(message, writeIndex);
      writeIndex := writeIndex + |message|;
      Joined(buffer[..], readIndex, w, front, message);
      assert Contents() == buffer[..][readIndex..writeIndex];
    }

    function PeekAsString(len: nat): seq<char>
      requires Valid() && len <= ReadableBytes()
      reads this, buffer
      ensures PeekAsString(len) == Contents()[..len]
    {
      buffer[readIndex..readIndex + len]
    }

    /** Drops the first `len` bytes; a queue that becomes empty starts again at the front of the array. */
    method Retrieve(len: nat)
      requires Valid() && len <= ReadableBytes()
      modifies this
      ensures Valid() && unchanged(`buffer) && unchanged(`peak)
      ensures Contents() == old(Contents())[len..]
      ensures Contents() == [] ==> readIndex == 8
    {
      if len + readIndex < writeIndex {
        readIndex := readIndex + len;
      } else {
        RetrieveAll();
      }
    }

    method RetrieveAll()
      requires Valid()
      modifies this
      ensures Valid() && unchanged(`buffer) && unchanged(`peak)
      ensures Contents() == [] && readIndex == 8
    {
      writeIndex := PREPEND;
      readIndex := writeIndex;
    }

    /** Unread bytes begin at the array position `end` from now on. One before the unread bytes brings read ones
        back, and the buffer stays well formed exactly when it does not lie in the room kept free in front. */
    method RetrieveUtil(end: nat)
      requires Valid() && end <= writeIndex
      modifies this
      ensures unchanged(`buffer) && unchanged(`writeIndex) && readIndex == end
      ensures Valid() <==> PREPEND <= end
      ensures Valid() ==> Contents() == old(buffer[end..writeIndex])
      ensures old(readIndex) <= end ==>
        Valid() && unchanged(`peak) && Contents() == old(Contents())[end - old(readIndex)..]
    {
      peak := Max(peak, writeIndex - end);
      readIndex := readIndex + (end - readIndex);
    }

    method RetrieveAsString(len: nat) returns (s: seq<char>)
      requires Valid() && len <= ReadableBytes()
      modifies this
      ensures Valid() && unchanged(`buffer) && unchanged(`peak)
      ensures s + Contents() == old(Contents()) && |s| == len
    {
      s := PeekAsString(len);
      Retrieve(len);
    }

    /** Likewise, with the bytes passed over; asking for a string that ends before it begins leaves the method by
        an exception, and the buffer as it was. */
    method RetrieveUtilAsString(end: nat) returns (ok: bool, s: seq<char>)
      requires Valid() && end <= writeIndex
      modifies this
      ensures Valid() && unchanged(`buffer) && unchanged(`peak)
      ensures ok <==> old(readIndex) <= end
      ensures ok ==> s + Contents() == old(Contents()) && |s| == end - old(readIndex)
      ensures !ok ==> unchanged(this)
    {
      if end < readIndex {
        return false, "";
      }
      ok, s := true, PeekAsString(end - readIndex);
      RetrieveUtil(end);
    }

    method RetrieveAllAsString() returns (s: seq<char>)
      requires Valid() && ReadableBytes() > 0
      modifies this
      ensures Valid() && unchanged(`buffer) && unchanged(`peak)
      ensures s == old(Contents()) && Contents() == []
    {
      s := PeekAsString(ReadableBytes());
      RetrieveAll();
    }
  }
}
