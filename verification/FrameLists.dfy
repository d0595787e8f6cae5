/** The frame queue of `src/flist.c`: a list of frames with a cached estimate of their bytes. */
module FrameLists {
  import opened CTypes
  import opened Frames

  /** No frame is twice in the list. */
  ghost predicate Distinct(fs: seq<Frame>) {
    forall i, j :: 0 <= i < j < |fs| ==> fs[i] != fs[j]
  }

  function SumLengths(fs: seq<Frame>): nat
    reads fs
  {
    if fs == [] then 0 else SumLengths(fs[..|fs| - 1]) + fs[|fs| - 1].dataLength
  }

  class FrameList {
    var frames: seq<Frame>
    var estimatedMemoryUsage: Unsigned

    constructor ()
      ensures frames == [] && estimatedMemoryUsage == 0
    {
      frames := [];
      estimatedMemoryUsage := 0;
    }

    method AddFrame(frame: Frame)
      modifies this
      ensures frames == old(frames) + [frame]
      ensures estimatedMemoryUsage == AddU32(old(estimatedMemoryUsage), frame.dataLength)
    {
      frames := frames + [frame];
      estimatedMemoryUsage := AddU32(estimatedMemoryUsage, frame.dataLength);
    }

    method PeekFront() returns (frame: Frame?)
      ensures frames == [] ==> frame == null
      ensures frames != [] ==> frame == frames[0]
    {
      frame := if |frames| == 0 then null else frames[0];
    }

    method PeekBack() returns (frame: Frame?)
      ensures frames == [] ==> frame == null
      ensures frames != [] ==> frame == frames[|frames| - 1]
    {
      frame := if |frames| == 0 then null else frames[|frames| - 1];
    }

    method RemoveFrame() returns (frame: Frame?)
      modifies this
      ensures old(frames) == [] ==> frame == null && unchanged(this)
      ensures old(frames) != [] ==>
        && frame != null && old(frames) == [frame] + frames
        && estimatedMemoryUsage == SubU32(old(estimatedMemoryUsage), frame.dataLength)
    {
      if |frames| == 0 {
        return null;
      }
      frame := frames[0];
      frames := frames[1..];
      estimatedMemoryUsage := SubU32(estimatedMemoryUsage, frame.dataLength);
    }

    /** Removes the first frame only if it is no longer than `size`. */
    method RemoveFrameIfLte(size: nat) returns (frame: Frame?)
      modifies this
      ensures frame != null <==> old(frames) != [] && old(frames)[0].dataLength <= size
      ensures frame == null ==> unchanged(this)
      ensures frame != null ==>
        && old(frames) == [frame] + frames
        && estimatedMemoryUsage == SubU32(old(estimatedMemoryUsage), frame.dataLength)
    {
      if |frames| == 0 {
        return null;
      }
      if frames[0].dataLength > size {
        return null;
      }
      frame := frames[0];
      frames := frames[1..];
      estimatedMemoryUsage := SubU32(estimatedMemoryUsage, frame.dataLength);
    }

    method Clear()
      modifies this
      ensures frames == [] && estimatedMemoryUsage == 0
    {
      while |frames| != 0
        decreases |frames|
      {
        frames := frames[1..];
      }
      estimatedMemoryUsage := 0;
    }

    /** Recounts the bytes, modulo 2^32. The walk stops at the last node without counting it, so the
        result is the memory held exactly when the list is empty or its last frame is. */
    method CalculateMemoryUsage() returns (memory: Unsigned)
      ensures frames == [] ==> memory == 0
      ensures frames != [] ==>
        memory == (SumLengths(frames) - frames[|frames| - 1].dataLength) % U32
      ensures memory == SumLengths(frames) % U32 <==> frames == [] || frames[|frames| - 1].dataLength % U32 == 0
    {
      memory := 0;
      var i := 0;
      while i < |frames| - 1
        invariant 0 <= i && (frames == [] || i < |frames|)
        invariant frames == [] ==> i == 0
        invariant memory == SumLengths(frames[..i]) % U32
      {
        assert frames[..i + 1][..i] == frames[..i];
        AddMod(SumLengths(frames[..i]), frames[i].dataLength);
        memory := AddU32(memory, frames[i].dataLength);
        i := i + 1;
      }
      if frames != [] {
        SameMod(SumLengths(frames[..i]), frames[i].dataLength);
      }
    }
  }

  lemma AddMod(x: nat, y: nat)
    ensures AddU32(x % U32, y) == (x + y) % U32
  {
  }

  lemma SameMod(x: nat, y: nat)
    ensures x % U32 == (x + y) % U32 <==> y % U32 == 0
  {
  }
}
