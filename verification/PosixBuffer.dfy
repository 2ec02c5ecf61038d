/** The bounded buffer an event is encoded into and sent from. */
module PosixBuffers {
  import opened Bytes

  function Min(a: nat, b: nat): nat {
    if a < b then a else b
  }

  /** How many bytes a clamped write of `wanted` bytes at `offset` copies. */
  function Room(capacity: nat, offset: nat, wanted: nat): nat
    requires offset <= capacity
  {
    Min(wanted, capacity - offset)
  }

  /** A buffer after a clamped write. */
  function Fill<T>(data: seq<T>, offset: nat, source: seq<T>): (r: seq<T>)
    requires offset <= |data|
    ensures |r| == |data|
    ensures r[..offset] == data[..offset]
  {
    var n := Room(|data|, offset, |source|);
    data[..offset] + source[..n] + data[offset + n..]
  }

  /** A clamped write puts as much of `source` as fits at `offset` and leaves every other byte alone. */
  lemma FillBytes<T>(data: seq<T>, offset: nat, source: seq<T>)
    requires offset <= |data|
    ensures var n, r := Room(|data|, offset, |source|), Fill(data, offset, source);
            && |r| == |data|
            && r[offset..offset + n] == source[..n]
            && (n < |source| ==> offset + n == |data|)
            && forall i :: 0 <= i < |data| && !(offset <= i < offset + n) ==> r[i] == data[i]
  {
  }

  /** Two clamped writes in a row are one clamped write of both. */
  lemma FillTwice<T>(data: seq<T>, offset: nat, a: seq<T>, b: seq<T>)
    requires offset <= |data|
    ensures var n := Room(|data|, offset, |a|);
            && n + Room(|data|, offset + n, |b|) == Room(|data|, offset, |a + b|)
            && Fill(Fill(data, offset, a), offset + n, b) == Fill(data, offset, a + b)
  {
  }

  class PosixBuffer {
    const data: array<Byte>
    var readOffset: nat
    var writeOffset: nat

    /** Reading and writing past the end is undefined in C++, so callers keep both offsets inside. */
    ghost predicate Valid()
      reads this
    {
      readOffset <= data.Length && writeOffset <= data.Length
    }

    constructor (size: nat)
      ensures Valid() && fresh(this) && fresh(data)
      ensures readOffset == 0 && writeOffset == 0
      ensures data.Length == size && forall i :: 0 <= i < size ==> data[i] == 0
    {
      data := new Byte[size](_ => 0);
      readOffset, writeOffset := 0, 0;
    }

    function GetCapacity(): nat {
      data.Length
    }

    /** Writes as much of `source` as still fits, behind what was written before. */
    method WriteData(source: seq<Byte>) returns (size: nat)
      requires Valid()
      modifies this`writeOffset, data
      ensures Valid()
      ensures size == Room(data.Length, old(writeOffset), |source|)
      ensures writeOffset == old(writeOffset) + size
      ensures data[..] == Fill(old(data[..]), old(writeOffset), source)
    {
      size := |source|;
      if data.Length <= size + writeOffset {
        size := data.Length - writeOffset;
      }
      forall i | 0 <= i < size {
        data[writeOffset + i] := source[i];
      }
      assert data[..] == Fill(old(data[..]), writeOffset, source);
      writeOffset := writeOffset + size;
    }

    /** Hands out as many of the next `wanted` bytes as the buffer still holds. */
    method ReadData(wanted: nat) returns (out: seq<Byte>)
      requires Valid()
      modifies this`readOffset
      ensures Valid()
      ensures |out| == Room(data.Length, old(readOffset), wanted)
      ensures readOffset == old(readOffset) + |out|
      ensures out + data[readOffset..] == data[old(readOffset)..]
    {
      var size := wanted;
      if data.Length <= size + readOffset {
        size := data.Length - readOffset;
      }
      out := data[readOffset..readOffset + size];
      readOffset := readOffset + size;
    }

    /** `memcpy` to the start of `getData()`: how a sender stamps the length header. */
    method Overwrite(source: seq<Byte>)
      requires |source| <= data.Length
      modifies data
      ensures data[..] == source + old(data[..])[|source|..]
    {
      ghost var before := data[..];
      forall i | 0 <= i < |source| {
        data[i] := source[i];
      }
      assert data[..] == source + before[|source|..];
    }

    method SetReadOffset(offset: nat)
      modifies this`readOffset
      ensures readOffset == offset
    {
      readOffset := offset;
    }

    method SetWriteOffset(offset: nat)
      modifies this`writeOffset
      ensures writeOffset == offset
    {
      writeOffset := offset;
    }
  }
}
