/** The growable byte buffer of `src/frame.c`.

    A frame owns one heap buffer. Only the first `dataLength` bytes are data; the
    rest of the buffer is spare room whose bytes the transmit path can still send
    as padding, so the contracts say what those bytes are as well. */
module Frames {
  import opened CTypes

  /** `size` rounded up to a multiple of four, as the source writes it. */
  function RoundUp4(size: nat): (r: nat)
    ensures r % 4 == 0 && size <= r < size + 4
  {
    if size % 4 == 0 then size else size + (4 - size % 4)
  }

  /** An opaque 8-byte system time. */
  type Timestamp = t: seq<Byte> | |t| == 8 witness [0, 0, 0, 0, 0, 0, 0, 0]

  predicate AllZero(s: seq<Byte>) {
    forall i | 0 <= i < |s| :: s[i] == 0
  }

  function Zeros(n: nat): (z: seq<Byte>)
    ensures |z| == n && AllZero(z)
  {
    seq(n, _ => 0)
  }

  /** `memmove` into a buffer: the bytes outside the window stay. */
  function Overwrite(s: seq<Byte>, at: nat, data: seq<Byte>): (r: seq<Byte>)
    requires at + |data| <= |s|
    ensures |r| == |s|
  {
    s[..at] + data + s[at + |data|..]
  }

  /** The same into the fixed buffer of a caller. */
  method CopyOut(a: array<Byte>, at: nat, data: seq<Byte>)
    requires at + |data| <= a.Length
    modifies a
    ensures a[..] == Overwrite(old(a[..]), at, data)
  {
    forall i | 0 <= i < |data| {
      a[at + i] := data[i];
    }
  }

  class Frame {
    var buffer: seq<Byte>    // empty when the source's pointer is null
    var bufferSize: nat
    var dataLength: nat
    var frameSize: Unsigned
    var lostBytes: Unsigned
    var timestamp: Timestamp

    ghost predicate Valid()
      reads this
    {
      bufferSize == |buffer| && bufferSize % 4 == 0 && dataLength <= bufferSize < U32
    }

    /** The bytes queued in the frame, oldest first. */
    ghost function Contents(): (s: seq<Byte>)
      reads this
      requires Valid()
      ensures |s| == dataLength
    {
      buffer[..dataLength]
    }

    /** The bytes of the buffer behind the data. */
    ghost function Spare(): (s: seq<Byte>)
      reads this
      requires Valid()
      ensures |s| == bufferSize - dataLength
    {
      buffer[dataLength..]
    }

    constructor ()
      ensures Valid() && bufferSize == 0 && Contents() == []
      ensures frameSize == 0 && lostBytes == 0
    {
      buffer := [];
      bufferSize, dataLength, frameSize, lostBytes := 0, 0, 0, 0;
    }

    /** Replaces the buffer: data is kept up to `size` bytes and the new spare room is zero. */
    method UpdateBufferSize(size: nat)
      requires Valid() && RoundUp4(size) < U32
      modifies this`buffer, this`bufferSize, this`dataLength
      ensures Valid() && bufferSize == RoundUp4(size)
      ensures Contents() == old(Contents())[..Min(old(dataLength), size)]
      ensures AllZero(Spare())
    {
      if size == 0 {
        buffer := [];
        bufferSize := 0;
        dataLength := 0;
        return;
      }
      var fourAligned := RoundUp4(size);
      var newBuffer: seq<Byte> := Zeros(fourAligned);
      if bufferSize != 0 {
        if dataLength > 0 {
          dataLength := Min(dataLength, size);
          newBuffer := Overwrite(newBuffer, 0, buffer[..dataLength]);
        }
      }
      buffer := newBuffer;
      bufferSize := fourAligned;
    }

    /** Appends `data`. Room is added only when there is not enough of it, and then it is zeroed. */
    method AddData(data: seq<Byte>) returns (ok: bool)
      requires Valid() && dataLength + |data| <= U32 - 4
      modifies this`buffer, this`bufferSize, this`dataLength
      ensures Valid() && ok == (data != [])
      ensures Contents() == old(Contents()) + data
      ensures old(dataLength) + |data| <= old(bufferSize) ==>
        bufferSize == old(bufferSize) && Spare() == old(Spare())[|data|..]
      ensures old(dataLength) + |data| > old(bufferSize) ==>
        bufferSize == RoundUp4(old(dataLength) + |data|) && AllZero(Spare())
    {
      if |data| == 0 {
        return false;
      }
      if dataLength + |data| > bufferSize {
        UpdateBufferSize(dataLength + |data|);
      }
      buffer := Overwrite(buffer, dataLength, data);
      dataLength := dataLength + |data|;
      return true;
    }

    /** Removes up to `length` bytes from the front, copying them to `destination` if there is one.
        The rest moves up; behind it the old bytes of the buffer stay. */
    method RemoveData(destination: array?<Byte>, offset: nat, length: nat) returns (removed: nat)
      requires Valid()
      requires destination != null ==> offset + Min(length, dataLength) <= destination.Length
      modifies this`buffer, this`dataLength, destination
      ensures Valid() && bufferSize == old(bufferSize) && removed == Min(length, old(dataLength))
      ensures Contents() == old(Contents())[removed..]
      ensures Spare() == old(buffer)[old(dataLength) - removed..]
      ensures destination != null ==>
        destination[..] == Overwrite(old(destination[..]), offset, old(Contents())[..removed])
    {
      if length == 0 || dataLength == 0 {
        return 0;
      }
      removed := Min(length, dataLength);
      if destination != null {
        CopyOut(destination, offset, buffer[..removed]);
        assert buffer[..removed] == Contents()[..removed];
      }
      dataLength := dataLength - removed;
      buffer := Overwrite(buffer, 0, buffer[removed..removed + dataLength]);
    }

    /** Moves bytes from the front of `source` to the end of `this`: as many as there are, up to
        the room `frameSize - (dataLength + lostBytes)` computed in wrapping arithmetic. */
    method CopyData(source: Frame) returns (moved: bool)
      requires Valid() && source.Valid() && source != this
      requires dataLength + Min(source.dataLength, SubU32(frameSize, dataLength + lostBytes)) <= U32 - 4
      modifies this`buffer, this`bufferSize, this`dataLength
      modifies source`buffer, source`dataLength
      ensures Valid() && source.Valid()
      ensures var amount := old(Min(source.dataLength, SubU32(frameSize, dataLength + lostBytes)));
        && moved == (amount > 0)
        && Contents() == old(Contents()) + old(source.Contents())[..amount]
        && source.Contents() == old(source.Contents())[amount..]
    {
      var amount := Min(source.dataLength, SubU32(frameSize, dataLength + lostBytes));
      if amount == 0 {
        return false;
      }
      var newBuffer := new Byte[amount];
      var removed := source.RemoveData(newBuffer, 0, amount);
      assert newBuffer[..] == old(source.Contents())[..amount];
      var _ := AddData(newBuffer[..removed]);
      return true;
    }
  }
}
