/** The receive half of `struct synccom_port` and the handlers that change it (`src/isr.c`).

    The handlers work in place on the driver's frames and lists. A ghost copy of the state of
    `Receive` moves along, and `Valid` ties it to the real fields, so that each handler is one
    step of that machine. */
module ReceivePort {
  import opened CTypes
  import opened Frames
  import opened FrameLists
  import opened Offsets
  import H = Handshake
  import P = Packing
  import R = Receive

  /** The frames `fs` hold what the machine says is pending. */
  ghost predicate HoldsPending(fs: seq<Frame>, pending: seq<R.Pending>)
    reads fs
  {
    && |pending| == |fs|
    && forall i :: 0 <= i < |fs| ==>
         && fs[i].Valid()
         && pending[i].size == fs[i].frameSize
         && pending[i].data == fs[i].Contents()
         && pending[i].lost == fs[i].lostBytes
  }

  /** The frames `fs` are the queue a reader sees. */
  ghost predicate HoldsQueued(fs: seq<Frame>, queue: seq<P.Item>)
    reads fs
  {
    && |queue| == |fs|
    && forall i :: 0 <= i < |fs| ==>
         fs[i].Valid() && queue[i] == P.Item(fs[i].Contents(), fs[i].timestamp)
  }

  /** The stream and the frames of the two lists are all different objects. */
  ghost predicate Separate(stream: Frame, ps: seq<Frame>, qs: seq<Frame>) {
    && Distinct(ps) && Distinct(qs)
    && stream !in ps && stream !in qs
    && forall f | f in ps :: f !in qs
  }

  lemma SeparateFinish(stream: Frame, ps: seq<Frame>, qs: seq<Frame>, finished: Frame)
    requires Separate(stream, ps, qs) && ps != []
    requires finished != stream && finished !in ps && finished !in qs
    ensures Separate(stream, ps[1..], qs + [finished])
    ensures Separate(stream, ps[1..], qs)
    ensures ps[0] !in ps[1..] && ps[0] !in qs && ps[0] != stream
  {
    assert ps == [ps[0]] + ps[1..];
  }

  lemma SeparateMore(stream: Frame, ps: seq<Frame>, qs: seq<Frame>, f: Frame)
    requires Separate(stream, ps, qs) && f != stream && f !in ps && f !in qs
    ensures Separate(stream, ps + [f], qs)
  {
  }

  /** The two bytes of each 16-bit word change places. */
  function PairSwap(s: seq<Byte>): (r: seq<Byte>)
    ensures |r| == |s|
  {
    if |s| < 2 then s else [s[1], s[0]] + PairSwap(s[2..])
  }

  lemma {:induction false} PairSwapAppend(s: seq<Byte>, x: Byte, y: Byte)
    requires |s| % 2 == 0
    ensures PairSwap(s + [x, y]) == PairSwap(s) + [y, x]
  {
    if s == [] {
      assert s + [x, y] == [x, y];
    } else {
      PairSwapAppend(s[2..], x, y);
      assert (s + [x, y])[2..] == s[2..] + [x, y];
    }
  }

  /** Swapping twice gives the bytes back. */
  lemma {:induction false} PairSwapTwice(s: seq<Byte>)
    ensures PairSwap(PairSwap(s)) == s
  {
    if |s| >= 2 { PairSwapTwice(s[2..]); }
  }

  /** Each byte changes places with its neighbour in the word. */
  lemma {:induction false} PairSwapAt(s: seq<Byte>, k: nat)
    requires 2 * k + 1 < |s|
    ensures PairSwap(s)[2 * k] == s[2 * k + 1] && PairSwap(s)[2 * k + 1] == s[2 * k]
  {
    if k > 0 { PairSwapAt(s[2..], k - 1); }
  }

  method SwapAt(a: array<Byte>, i: nat)
    requires i + 2 <= a.Length
    modifies a
    ensures var s := old(a[..]); a[..] == Overwrite(s, i, [s[i + 1], s[i]])
  {
    var storage := a[i];
    a[i] := a[i + 1];
    a[i + 1] := storage;
  }

  /** Swaps the bytes of each word in place; an odd length takes one byte more along. */
  method SwapPairs(a: array<Byte>, length: nat)
    requires length + length % 2 <= a.Length
    modifies a
    ensures var n := length + length % 2; a[..] == PairSwap(old(a[..])[..n]) + old(a[..])[n..]
  {
    ghost var raw, pairs, words := a[..], 0, (length + length % 2) / 2;
    assert raw == PairSwap(raw[..0]) + raw[0..];
    ghost var n := length + length % 2;
    assert n == 2 * words && length <= n <= length + 1;
    hide PairSwap, Overwrite;
    var i := 0;
    while i < length
      invariant 0 <= pairs <= words && i == 2 * pairs
      invariant a[..] == PairSwap(raw[..i]) + raw[i..]
    {
      assert pairs + 1 <= words;
      SwappedSoFar(raw, pairs);
      SwapAt(a, i);
      i := i + 2;
      pairs := pairs + 1;
    }
    assert i == n;
  }

  lemma SwappedSoFar(raw: seq<Byte>, pairs: nat)
    requires 2 * pairs + 2 <= |raw|
    ensures var i := 2 * pairs; var s := PairSwap(raw[..i]) + raw[i..];
      |s| == |raw| && Overwrite(s, i, [s[i + 1], s[i]]) == PairSwap(raw[..i + 2]) + raw[i + 2..]
  {
    var i := 2 * pairs;
    var p := PairSwap(raw[..i]);
    var s := p + raw[i..];
    assert s[..i] == p && s[i + 2..] == raw[i + 2..] && s[i] == raw[i] && s[i + 1] == raw[i + 1];
    PairSwapAppend(raw[..i], raw[i], raw[i + 1]);
    assert raw[..i + 2] == raw[..i] + [raw[i], raw[i + 1]];
  }

  /** The first two bytes of a packet: how many bytes of payload follow. */
  function PayloadSize(high: Byte, low: Byte): nat {
    high * 256 + low
  }

  /** Every length below 2^16 is read back from its two bytes, the higher one first. */
  lemma PayloadSizeOf(n: nat)
    requires n < 65536
    ensures PayloadSize(n / 256, n % 256) == n
  {
  }

  /** The mode and option bits that make a port stream, one by one. */
  lemma StreamingBits(p: Port)
    ensures p.IsStreaming() <==>
      && (p.ccr0 & 1 != 0 <==> p.ccr0 & 2 == 0)
      && p.ccr0 & 0x100 == 0 && p.ccr0 & 0x200 == 0 && p.ccr0 & 0x400 == 0
      && p.ccr0 & 0x10000 == 0 && p.ccr0 & 0x20000 == 0 && p.ccr0 & 0x40000 == 0
      && p.ccr2 < 0x10000
  {
    ModeBits(p.ccr0);
    OptionBits(p.ccr2);
  }

  lemma ModeBits(c: bv32)
    ensures (c & 0x3 == 0x2 || c & 0x3 == 0x1) <==> (c & 1 != 0 <==> c & 2 == 0)
    ensures c & 0x700 == 0 <==> c & 0x100 == 0 && c & 0x200 == 0 && c & 0x400 == 0
    ensures c & 0x70000 == 0 <==> c & 0x10000 == 0 && c & 0x20000 == 0 && c & 0x40000 == 0
  {
  }

  lemma OptionBits(c: bv32)
    ensures c & 0xffff0000 == 0 <==> c < 0x10000
  {
  }

  /** The current time, whatever it is. */
  method QuerySystemTime() returns (now: Timestamp)
  {
    now := *;
  }

  class Port {
    var istream: Frame
    const pendingIframes: FrameList
    const queuedIframes: FrameList
    var pendingFrameSizeReads: int
    var appendStatus: bool
    var appendTimestamp: bool
    var rxMultiple: bool
    var memoryCapInput: nat
    var ccr0: bv32
    var ccr2: bv32
    var commands: seq<H.Command>   // what was sent to the board, in order
    ghost var model: R.State
    ghost var queue: seq<P.Item>   // queued_iframes with their times

    ghost predicate Valid()
      reads this, pendingIframes, queuedIframes, istream, pendingIframes.frames, queuedIframes.frames
    {
      && pendingIframes != queuedIframes
      && istream.Valid() && istream.Contents() == model.istream
      && HoldsPending(pendingIframes.frames, model.pending)
      && HoldsQueued(queuedIframes.frames, queue) && model.queued == P.Data(queue)
      && pendingIframes.estimatedMemoryUsage == model.pendingEstimate
      && queuedIframes.estimatedMemoryUsage == model.queuedEstimate
      && Separate(istream, pendingIframes.frames, queuedIframes.frames)
    }

    /** Lengths stay where the 32-bit sizes of the buffers can follow. */
    static ghost predicate Small(s: R.State) {
      |s.istream| <= U32 - 4 &&
      forall i :: 0 <= i < |s.pending| ==>
        |s.pending[i].data| + |s.istream| <= U32 - 4
    }

    constructor ()
      ensures Valid() && model == R.INIT && pendingFrameSizeReads == 0 && commands == []
      ensures memoryCapInput == 1000000
      ensures fresh(istream) && fresh(pendingIframes) && fresh(queuedIframes)
    {
      istream := new Frame();
      pendingIframes := new FrameList();
      queuedIframes := new FrameList();
      pendingFrameSizeReads := 0;
      appendStatus, appendTimestamp, rxMultiple := false, false, false;
      memoryCapInput := 1000000;
      ccr0, ccr2 := 0x0011201c, 0;
      commands := [];
      model := R.INIT;
      queue := [];
    }

    /** The port delivers a plain byte stream instead of frames. */
    predicate IsStreaming()
      reads this`ccr0, this`ccr2
    {
      var transparent := ccr0 & 0x3 == 0x2;
      var xsync := ccr0 & 0x3 == 0x1;
      (transparent || xsync)
      && !(ccr2 & 0xffff0000 != 0 || ccr0 & 0x700 != 0 || ccr0 & 0x70000 != 0)
    }

    /** Copies stream bytes into the front pending frame. */
    method FillFront(frame: Frame)
      requires Valid() && Small(model) && R.CanCut(model) && frame == pendingIframes.frames[0]
      modifies this`model, istream, frame
      ensures Valid() && model == R.FillStep(old(model)) && istream == old(istream)
      ensures frame.frameSize == old(frame.frameSize)
    {
      hide HoldsPending, HoldsQueued, Separate, R.FillStep;
      ghost var ps, qs, m := pendingIframes.frames, queuedIframes.frames, model;
      HeldLengths();
      FrontApart(frame);
      var _ := frame.CopyData(istream);
      Filled(m, frame.Contents(), istream.Contents());
      HoldsFront(ps, R.FillStep(m).pending, m.pending[1..]);
      model := R.FillStep(m);
    }

    /** What the fill step does, by the bytes that end up in the frame and in the stream. */
    static lemma Filled(m: R.State, data: seq<Byte>, rest: seq<Byte>)
      requires R.CanCut(m)
      requires var f, amount := m.pending[0], R.Taken(m);
        data == f.data + m.istream[..amount] && rest == m.istream[amount..]
      ensures R.FillStep(m) == m.(istream := rest, pending := m.pending[0 := m.pending[0].(data := data)])
      ensures R.FillStep(m).pending[1..] == m.pending[1..]
    {
    }

    static lemma HoldsFront(ps: seq<Frame>, pending: seq<R.Pending>, rest: seq<R.Pending>)
      requires ps != [] && pending != [] && pending[1..] == rest && HoldsPending(ps[1..], rest)
      requires ps[0].Valid() && pending[0] == R.Pending(ps[0].frameSize, ps[0].Contents(), ps[0].lostBytes)
      ensures HoldsPending(ps, pending)
    {
      assert ps == [ps[0]] + ps[1..];
      assert pending == [pending[0]] + rest;
    }

    static lemma HoldsLast(qs: seq<Frame>, queue: seq<P.Item>, f: Frame)
      requires HoldsQueued(qs, queue) && f.Valid()
      ensures var item := P.Item(f.Contents(), f.timestamp);
        HoldsQueued(qs + [f], queue + [item]) && P.Data(queue + [item]) == P.Data(queue) + [item.data]
    {
    }

    /** A new frame with the bytes of `frame`, cut to its size, and the time of completion. */
    static method Completed(frame: Frame) returns (finished: Frame)
      requires frame.Valid() && frame.dataLength <= U32 - 4
      modifies frame`buffer, frame`dataLength
      ensures fresh(finished) && finished.Valid() && frame.Valid()
      ensures var n := Min(old(frame.dataLength), SubU32(frame.frameSize, 0));
        finished.Contents() == old(frame.Contents())[..n] && frame.dataLength == old(frame.dataLength) - n
    {
      finished := new Frame();
      finished.frameSize := frame.frameSize;
      var _ := finished.CopyData(frame);
      finished.timestamp := QuerySystemTime();
    }

    /** Moves the full front frame to the queue. */
    method FinishFront(frame: Frame)
      requires Valid() && model.pending != [] && frame == pendingIframes.frames[0]
      requires frame.dataLength <= U32 - 4
      modifies this`model, this`queue, pendingIframes, queuedIframes, frame
      ensures Valid() && model == R.FinishStep(old(model)) && istream == old(istream)
      ensures pendingIframes.frames == old(pendingIframes.frames)[1..]
      ensures old(queue) <= queue
    {
      hide HoldsPending, HoldsQueued, Separate, P.Data, SubU32, AddU32, Min, R.FinishStep;
      ghost var ps, qs, m := pendingIframes.frames, queuedIframes.frames, model;
      HeldLengths();
      FrontApart(frame);
      var finished := Completed(frame);
      SeparateFinish(istream, ps, qs, finished);
      HoldsLast(qs, queue, finished);
      Finished(m, finished.Contents());
      queuedIframes.AddFrame(finished);
      var _ := pendingIframes.RemoveFrame();
      queue := queue + [P.Item(finished.Contents(), finished.timestamp)];
      model := R.FinishStep(m);
    }

    /** What the finish step does, by the bytes of the finished frame. */
    static lemma Finished(m: R.State, data: seq<Byte>)
      requires m.pending != []
      requires var f := m.pending[0]; data == f.data[..Min(|f.data|, SubU32(f.size, 0))]
      ensures var t := R.FinishStep(m);
        t == m.(pending := m.pending[1..], queued := m.queued + [data], done := t.done,
                pendingEstimate := SubU32(m.pendingEstimate, |m.pending[0].data| - |data|),
                queuedEstimate := AddU32(m.queuedEstimate, |data|))
    {
    }

    /** The front frame is held once, and apart from everything else. */
    lemma FrontApart(frame: Frame)
      requires Valid() && pendingIframes.frames != [] && frame == pendingIframes.frames[0]
      ensures |model.pending| == |pendingIframes.frames| && frame.Valid()
      ensures model.pending[0] == R.Pending(frame.frameSize, frame.Contents(), frame.lostBytes)
      ensures var ps, qs := pendingIframes.frames, queuedIframes.frames;
        && HoldsPending(ps[1..], model.pending[1..]) && Separate(istream, ps[1..], qs)
        && frame in ps && frame !in ps[1..] && frame !in qs && frame != istream
        && istream !in ps[1..] && istream !in qs
    {
      var ps := pendingIframes.frames;
      assert ps == [ps[0]] + ps[1..];
      assert ps[0] in ps;
    }

    /** Drops a front frame of size 0. */
    method DiscardFront(frame: Frame)
      requires Valid() && pendingIframes.frames != [] && frame == pendingIframes.frames[0]
      modifies this`model, pendingIframes
      ensures Valid() && model == R.DiscardStep(old(model)) && istream == old(istream)
      ensures pendingIframes.frames == old(pendingIframes.frames)[1..]
    {
      hide HoldsPending, HoldsQueued, Separate;
      FrontApart(frame);
      var _ := pendingIframes.RemoveFrame();
      model := R.DiscardStep(model);
    }

    /** One round of the worker's loop. */
    method CutRound()
      requires Valid() && Small(model) && R.CanCut(model)
      modifies this`model, this`queue, pendingIframes, queuedIframes, istream, set f | f in pendingIframes.frames
      ensures Valid() && model == R.CutStep(old(model)) && istream == old(istream) && old(queue) <= queue
      ensures forall f | f in pendingIframes.frames :: f in old(pendingIframes.frames)
    {
      ghost var ps, qs, m := pendingIframes.frames, queuedIframes.frames, model;
      var frame := pendingIframes.PeekFront();
      assert ps == [frame] + ps[1..];
      FrontApart(frame);
      if frame.frameSize == 0 {
        DiscardFront(frame);
        return;
      }
      FillFront(frame);
      FrontApart(frame);
      if AddU32(frame.dataLength, frame.lostBytes) >= frame.frameSize {
        FinishFront(frame);
      }
    }

    static lemma SmallCut(s: R.State)
      requires Small(s) && R.CanCut(s)
      ensures Small(R.CutStep(s))
    {
      var t := R.CutStep(s);
      assert forall i :: 0 <= i < |t.pending| ==>
        t.pending[i] == s.pending[i + |s.pending| - |t.pending|] || (i == 0 && |t.pending| == |s.pending|);
    }

    lemma HeldLengths()
      requires Valid()
      ensures |model.istream| == istream.dataLength && |model.pending| == |pendingIframes.frames|
    {
    }

    /** Cuts the stream into frames until the stream or the list of pending frames is used up. */
    method IframeWorker()
      requires Valid() && Small(model)
      modifies this`model, this`queue, pendingIframes, queuedIframes, istream, set f | f in pendingIframes.frames
      ensures Valid() && model == R.Worker(old(model)) && istream == old(istream) && old(queue) <= queue
    {
      while true
        invariant Valid() && Small(model) && istream == old(istream) && old(queue) <= queue
        invariant forall f | f in pendingIframes.frames :: f in old(pendingIframes.frames)
        invariant R.Worker(model) == R.Worker(old(model))
        decreases R.CutRounds(model)
      {
        HeldLengths();
        hide Small, HoldsPending, HoldsQueued, Separate, R.CutStep;
        if !(istream.dataLength > 0) { break; }
        if |pendingIframes.frames| == 0 { break; }
        SmallCut(model);
        R.CutTerminates(model);
        assert forall f | f in pendingIframes.frames :: f in old(pendingIframes.frames);
        assert istream == old(istream);
        CutRound();
      }
    }

    /** The bytes the driver believes it holds for the reader. */
    method GetInputMemoryUsage() returns (value: Unsigned)
      requires Valid()
      ensures value == R.Usage(model)
    {
      value := queuedIframes.estimatedMemoryUsage;
      value := AddU32(value, istream.dataLength);
      value := AddU32(value, pendingIframes.estimatedMemoryUsage);
    }

    /** What the handlers send to the board and remember about it. */
    ghost function Board(): H.State
      reads this
    {
      H.INIT.(commands := commands, pendingReads := pendingFrameSizeReads)
    }

    /** Sends `remaining` size reads, none if it is not positive, and counts them. */
    method IssueSizeReads(remaining: int)
      requires Valid()
      modifies this`commands, this`pendingFrameSizeReads
      ensures Valid()
      ensures var n := if remaining > 0 then remaining else 0;
        commands == old(commands) + H.SizeReads(n) && pendingFrameSizeReads == old(pendingFrameSizeReads) + n
    {
      hide HoldsPending, HoldsQueued, Separate;
      var i := 0;
      while i < remaining
        invariant Valid() && 0 <= i && (i <= remaining || i == 0)
        invariant pendingFrameSizeReads == old(pendingFrameSizeReads) + i
        invariant commands == old(commands) + H.SizeReads(i)
      {
        commands := commands + [H.ReadSize];
        pendingFrameSizeReads := pendingFrameSizeReads + 1;
        i := i + 1;
      }
    }

    /** The completion of a register read: a count issues size reads, a size opens a frame. */
    method RegisterCompletion(address: nat, value: Unsigned)
      requires Valid()
      modifies this, pendingIframes
      ensures Valid() && istream == old(istream)
      ensures address == 0x10 ==>
        model == old(model) && Board() == H.OnCount(old(Board()), value)
      ensures address == 0x04 ==>
        && Board() == H.OnSize(old(Board()), value).(framed := [])
        && model == if H.Accepts(value, old(pendingFrameSizeReads)) then R.AnnounceStep(old(model), value)
                    else old(model)
      ensures address != 0x10 && address != 0x04 ==>
        model == old(model) && Board() == old(Board())
    {
      if address == FIFO_FC_OFFSET {
        if value % H.COUNT_MASK != 0 {
          IssueSizeReads(value % H.COUNT_MASK - pendingFrameSizeReads);
        } else {
          assert commands == commands + H.SizeReads(0);
        }
      } else if address == BC_FIFO_L_OFFSET {
        var currentReadValue := pendingFrameSizeReads;
        if pendingFrameSizeReads > 0 {
          pendingFrameSizeReads := pendingFrameSizeReads - 1;
        }
        if value > 0 && currentReadValue > 0 {
          OpenFrame(value);
        }
        commands := commands + [H.ReadCount];
      }
    }

    /** A new, empty pending frame of the given size. */
    method OpenFrame(size: Unsigned)
      requires Valid()
      modifies this`model, pendingIframes
      ensures Valid() && model == R.AnnounceStep(old(model), size)
    {
      hide HoldsPending, HoldsQueued, Separate;
      ghost var ps, qs, m := pendingIframes.frames, queuedIframes.frames, model;
      var frame := new Frame();
      frame.frameSize := size;
      HoldsMore(ps, m.pending, frame);
      SeparateMore(istream, ps, qs, frame);
      pendingIframes.AddFrame(frame);
      model := R.AnnounceStep(m, size);
    }

    static lemma HoldsMore(ps: seq<Frame>, pending: seq<R.Pending>, f: Frame)
      requires HoldsPending(ps, pending) && f.Valid()
      ensures HoldsPending(ps + [f], pending + [R.Pending(f.frameSize, f.Contents(), f.lostBytes)])
    {
    }

    /** Adds lost bytes to the newest pending frame, if there is one. */
    method ChargeLost(bytesLost: nat)
      requires Valid()
      modifies this`model, set f | f in pendingIframes.frames
      ensures Valid() && model == R.ChargeStep(old(model), bytesLost) && istream == old(istream)
    {
      hide HoldsPending, HoldsQueued, Separate, R.ChargeStep;
      ghost var ps, m := pendingIframes.frames, model;
      BackApart();
      var frame := pendingIframes.PeekBack();
      if frame != null {
        frame.lostBytes := AddU32(frame.lostBytes, bytesLost);
        HoldsBack(ps, m.pending[..|ps| - 1], R.ChargeStep(m, bytesLost).pending);
        model := R.ChargeStep(m, bytesLost);
      }
    }

    /** The last frame is held once, and apart from everything else. */
    lemma BackApart()
      requires Valid()
      ensures |model.pending| == |pendingIframes.frames|
      ensures model.pending == [] ==> forall lost: nat :: R.ChargeStep(model, lost) == model
      ensures pendingIframes.frames != [] ==>
        var ps, pending := pendingIframes.frames, model.pending;
        var frame, front := ps[|ps| - 1], pending[..|ps| - 1];
        && frame in ps && frame !in ps[..|ps| - 1] && frame !in queuedIframes.frames && frame != istream
        && frame.Valid() && HoldsPending(ps[..|ps| - 1], front)
        && pending[|ps| - 1] == R.Pending(frame.frameSize, frame.Contents(), frame.lostBytes)
        && forall lost: nat :: R.ChargeStep(model, lost) == model.(pending :=
             front + [R.Pending(frame.frameSize, frame.Contents(), AddU32(frame.lostBytes, lost))])
    {
      var ps, k := pendingIframes.frames, |pendingIframes.frames| - 1;
      if ps != [] {
        assert ps[k] in ps;
        forall lost: nat ensures R.ChargeStep(model, lost).pending ==
            model.pending[..k] + [model.pending[k].(lost := AddU32(model.pending[k].lost, lost))] {
        }
      }
    }

    static lemma HoldsBack(ps: seq<Frame>, rest: seq<R.Pending>, pending: seq<R.Pending>)
      requires ps != [] && |pending| == |ps| && pending[..|ps| - 1] == rest
      requires HoldsPending(ps[..|ps| - 1], rest)
      requires var f := ps[|ps| - 1];
        f.Valid() && pending[|ps| - 1] == R.Pending(f.frameSize, f.Contents(), f.lostBytes)
      ensures HoldsPending(ps, pending)
    {
    }

    method AppendToStream(data: seq<Byte>)
      requires Valid() && |model.istream| + |data| <= U32 - 4
      modifies this`model, istream
      ensures Valid() && model == R.AppendStep(old(model), data) && istream == old(istream)
    {
      var _ := istream.AddData(data);
      model := R.AppendStep(model, data);
    }

    /** Keeps what fits under the memory cap and charges the rest to the newest pending frame. */
    method Accept(payload: seq<Byte>)
      requires Valid() && |model.istream| + |payload| <= U32 - 4
      modifies this`model, istream, set f | f in pendingIframes.frames
      ensures Valid() && istream == old(istream)
      ensures model == R.ReceivedStep(old(model), payload, memoryCapInput, IsStreaming())
      ensures var kept := |istream.Contents()| - |old(istream.Contents())|;
        && 0 <= kept <= |payload| && istream.Contents() == old(istream.Contents()) + payload[..kept]
        && (kept > 0 ==> R.Usage(old(model)) + kept <= memoryCapInput)
        && (kept < |payload| ==> R.Usage(old(model)) + kept >= memoryCapInput)
        && R.ChargedNewest(old(model).pending, model.pending, if IsStreaming() then 0 else |payload| - kept)
    {
      hide HoldsPending, HoldsQueued, Separate, IsStreaming, R.Usage, R.ChargedNewest, R.ChargeStep;
      R.LongestPrefixKept(model, payload, memoryCapInput, IsStreaming());
      R.ChargeNothing(model);
      var payloadSize := |payload|;
      var currentMemory := GetInputMemoryUsage();
      if payloadSize + currentMemory > memoryCapInput {
        var bytesLost;
        if currentMemory >= memoryCapInput {
          bytesLost := payloadSize;
          payloadSize := 0;
        } else {
          bytesLost := payloadSize + currentMemory - memoryCapInput;
          payloadSize := memoryCapInput - currentMemory;
        }
        if !IsStreaming() {
          ChargeLost(bytesLost);
        }
        if payloadSize < 1 {
          assert R.AppendStep(model, []) == model;
          return;
        }
      }
      AppendToStream(payload[..payloadSize]);
    }

    /** A packet from the data pipe: a big-endian payload length, then 16-bit words with their
        bytes swapped. */
    method ReceivedData(readBuffer: array<Byte>, length: nat)
      requires Valid() && length + length % 2 <= readBuffer.Length
      requires |model.istream| + length <= U32 - 4
      modifies this`model, this`commands, readBuffer, istream, set f | f in pendingIframes.frames
      ensures Valid() && istream == old(istream)
      ensures var raw := old(readBuffer[..]);
        if length > 2 && PayloadSize(raw[0], raw[1]) <= length - 2 then
          && commands == old(commands) + [H.ReadCount]
          && var payload := PairSwap(raw[..length + length % 2])[2..2 + PayloadSize(raw[0], raw[1])];
             model == R.ReceivedStep(old(model), payload, memoryCapInput, IsStreaming())
        else
          model == old(model) && commands == old(commands)
    {
      hide HoldsPending, HoldsQueued, Separate, IsStreaming, R.ReceivedStep;
      if !(length > 2) { return; }
      var payloadSize := PayloadSize(readBuffer[0], readBuffer[1]);
      if payloadSize > length - 2 { return; }
      ghost var swapped := PairSwap(readBuffer[..length + length % 2]);
      assert readBuffer[..length + length % 2] == readBuffer[..][..length + length % 2];
      SwapPairs(readBuffer, length);
      assert readBuffer[2..2 + payloadSize] == swapped[2..2 + payloadSize];
      commands := commands + [H.ReadCount];
      Accept(readBuffer[2..2 + payloadSize]);
    }

    /** The settings of this port that decide what a read returns. */
    function Options(): P.Options
      reads this`appendStatus, this`appendTimestamp, this`rxMultiple
    {
      P.Options(appendStatus, appendTimestamp, rxMultiple)
    }

    lemma OptionsMultiple()
      ensures Options().multiple == rxMultiple
    {
    }

    lemma HeldQueue()
      requires Valid()
      ensures |model.queued| == |queue|
    {
    }

    method MaxFrameLength(room: Unsigned) returns (max: int)
      ensures max == P.MaxFrameLength(room, Options())
    {
      if appendStatus && appendTimestamp {
        max := P.AsInt(room - P.STAMP_LENGTH);
      } else if appendStatus {
        max := P.AsInt(room);
      } else if appendTimestamp {
        max := P.AsInt(AddU32(room, P.STATUS_LENGTH) - P.STAMP_LENGTH);
      } else {
        max := P.AsInt(AddU32(room, P.STATUS_LENGTH));
      }
    }

    /** Takes the first frame off the queue if it is no longer than `max`. */
    method PopFrame(max: nat) returns (frame: Frame?)
      requires Valid()
      modifies this`model, this`queue, queuedIframes
      ensures Valid()
      ensures frame == null <==> old(queue) == [] || |old(queue)[0].data| > max
      ensures frame == null ==>
        model == old(model) && queue == old(queue) && queuedIframes.frames == old(queuedIframes.frames)
      ensures frame != null ==>
        && frame in old(queuedIframes.frames) && frame !in queuedIframes.frames
        && frame !in pendingIframes.frames && frame != istream
        && frame.Valid() && P.Item(frame.Contents(), frame.timestamp) == old(queue)[0]
        && model == R.ReadStep(old(model), 1) && queuedIframes.frames == old(queuedIframes.frames)[1..]
        && queue == old(queue)[1..]
    {
      ghost var qs, m := queuedIframes.frames, model;
      frame := queuedIframes.RemoveFrameIfLte(max);
      if frame != null {
        assert qs == [frame] + qs[1..];
        assert m.queued[..1] == [m.queued[0]];
        R.FlatOne(m.queued[0]);
        assert P.Data(queue[1..]) == P.Data(queue)[1..];
        queue := queue[1..];
        model := R.ReadStep(model, 1);
      }
    }

    /** Writes a frame as the options ask for. */
    method Render(frame: Frame, buf: array<Byte>, offset: nat) returns (length: nat)
      requires frame.Valid()
      requires P.Renderable(P.Item(frame.Contents(), frame.timestamp), Options())
      requires offset + |P.Shown(P.Item(frame.Contents(), frame.timestamp), Options())| <= buf.Length
      modifies frame`buffer, frame`dataLength, buf
      ensures var bytes := P.Shown(old(P.Item(frame.Contents(), frame.timestamp)), Options());
        length == |bytes| && buf[..] == Overwrite(old(buf[..]), offset, bytes)
    {
      length := frame.dataLength - if appendStatus then 0 else P.STATUS_LENGTH;
      ghost var data, was := frame.Contents(), buf[..];
      ghost var bytes := P.Shown(P.Item(data, frame.timestamp), Options());
      P.ShownParts(P.Item(data, frame.timestamp), Options());
      assert length <= |data| && offset + length <= buf.Length;
      assert appendTimestamp ==> bytes == data[..length] + frame.timestamp && |bytes| == length + P.STAMP_LENGTH;
      assert !appendTimestamp ==> bytes == data[..length] && |bytes| == length;
      hide P.Shown, P.Renderable, Overwrite, Options;
      RenderData(frame, buf, offset, length);
      if appendTimestamp {
        RenderStamp(buf, offset, length, frame.timestamp, was, data[..length]);
        length := length + P.STAMP_LENGTH;
      }
    }

    /** The same for a frame that is no longer in a list. */
    method RenderPopped(frame: Frame, buf: array<Byte>, offset: nat) returns (length: nat)
      requires Valid() && frame.Valid()
      requires frame !in queuedIframes.frames && frame !in pendingIframes.frames && frame != istream
      requires P.Renderable(P.Item(frame.Contents(), frame.timestamp), Options())
      requires offset + |P.Shown(P.Item(frame.Contents(), frame.timestamp), Options())| <= buf.Length
      modifies frame`buffer, frame`dataLength, buf
      ensures Valid()
      ensures var bytes := P.Shown(old(P.Item(frame.Contents(), frame.timestamp)), Options());
        length == |bytes| && buf[..] == Overwrite(old(buf[..]), offset, bytes)
    {
      hide *;
      length := Render(frame, buf, offset);
    }

    /** Takes the first bytes of a frame into the buffer. */
    static method RenderData(frame: Frame, buf: array<Byte>, offset: nat, length: nat)
      requires frame.Valid() && length <= frame.dataLength && offset + length <= buf.Length
      modifies frame`buffer, frame`dataLength, buf
      ensures buf[..] == Overwrite(old(buf[..]), offset, old(frame.Contents())[..length])
    {
      hide Overwrite;
      var removed := frame.RemoveData(buf, offset, length);
      assert removed == length;
    }

    /** Puts the time behind the data already in the buffer. */
    static method RenderStamp(buf: array<Byte>, offset: nat, length: nat, stamp: Timestamp,
                              ghost was: seq<Byte>, ghost data: seq<Byte>)
      requires |data| == length && offset + length + P.STAMP_LENGTH <= buf.Length == |was|
      requires buf[..] == Overwrite(was, offset, data)
      modifies buf
      ensures buf[..] == Overwrite(was, offset, data + stamp)
    {
      OverwriteAppend(was, offset, data, stamp);
      hide Overwrite;
      CopyOut(buf, offset + length, stamp);
    }

    /** One round of the read: the first frame, if it fits the room left. */
    method ReadOne(buf: array<Byte>, offset: nat, room: Unsigned) returns (taken: bool, length: nat)
      requires Valid() && offset + room <= buf.Length && P.Safe(queue, Options(), room)
      modifies this`model, this`queue, queuedIframes, buf, set f | f in queuedIframes.frames
      ensures Valid() && taken == P.Takes(old(queue), Options(), room)
      ensures forall f | f in queuedIframes.frames :: f in old(queuedIframes.frames)
      ensures !taken ==> length == 0 && buf[..] == old(buf[..]) && queue == old(queue)
                         && queuedIframes.frames == old(queuedIframes.frames) && model == old(model)
      ensures taken ==>
        && |queue| == |old(queue)| - 1
        && queue == old(queue)[1..] && model == R.ReadStep(old(model), 1)
        && var bytes := P.FirstShown(old(queue), Options());
           length == |bytes| <= room && buf[..] == Overwrite(old(buf[..]), offset, bytes)
    {
      hide *;
      P.TakesOpened(queue, Options(), room);
      taken, length := false, 0;
      var max := MaxFrameLength(room);
      if max >= 0 {
        var frame := PopFrame(max);
        if frame != null {
          length := RenderPopped(frame, buf, offset);
          taken := true;
        }
      }
    }

    /** One round of the read's loop; `out` is what the rounds before it wrote. */
    method ReadRound(buf: array<Byte>, total: Unsigned, offset: nat, ghost start: Start, ghost out: seq<Byte>)
      returns (again: bool, outLength: nat, ghost more: seq<Byte>)
      requires Valid() && total <= buf.Length && offset == |out|
      requires Reading(start, Options(), total, out, queue, buf[..], model, true)
      modifies this`model, this`queue, queuedIframes, buf, set f | f in queuedIframes.frames
      ensures Valid() && outLength == |more|
      ensures Reading(start, Options(), total, more, queue, buf[..], model, again)
      ensures forall f | f in queuedIframes.frames :: f in old(queuedIframes.frames)
      ensures |queue| <= |old(queue)| - if again then 1 else 0
    {
      hide *;
      ghost var o := Options();
      OptionsMultiple();
      more := ReadingRound(start, o, total, out, queue, buf[..], model);
      var taken, length := ReadOne(buf, offset, total - offset);
      again := taken && rxMultiple;
      outLength := offset + length;
    }

    /** Reads as many frames as the source's loop packs into the buffer. */
    method FrameRead(buf: array<Byte>, bufLength: Unsigned) returns (ok: bool, outLength: nat)
      requires Valid() && bufLength <= buf.Length && P.Safe(queue, Options(), bufLength)
      modifies this`model, this`queue, queuedIframes, buf, set f | f in queuedIframes.frames
      ensures Valid()
      ensures |queue| <= |old(queue)| == |old(model).queued|
      ensures model == R.ReadStep(old(model), |old(queue)| - |queue|)
      ensures var r := P.Pack(old(queue), Options(), bufLength);
        && outLength == |r.out| && outLength <= bufLength
        && buf[..] == Overwrite(old(buf[..]), 0, r.out)
        && queue == r.left
        && ok == (r.out != [])
    {
      hide *;
      ghost var start, out: seq<Byte> := Start(queue, buf[..], model), [];
      HeldQueue();
      ReadingStarts(start, Options(), bufLength);
      outLength := 0;
      var again := true;
      while again
        invariant Valid() && outLength == |out|
        invariant forall f | f in queuedIframes.frames :: f in old(queuedIframes.frames)
        invariant Reading(start, Options(), bufLength, out, queue, buf[..], model, again)
        decreases |queue|, again
      {
        again, outLength, out := ReadRound(buf, bufLength, outLength, start, out);
      }
      ReadingDone(start, Options(), bufLength, out, queue, buf[..], model);
      ok := outLength != 0;
    }
  }

  lemma OverwriteAppend(s: seq<Byte>, at: nat, a: seq<Byte>, b: seq<Byte>)
    requires at + |a| + |b| <= |s|
    ensures Overwrite(Overwrite(s, at, a), at + |a|, b) == Overwrite(s, at, a + b)
  {
  }

  /** What a read starts from. */
  datatype Start = Start(queue: seq<P.Item>, buf: seq<Byte>, model: R.State)

  /** Where a read stands after the rounds that wrote `out`. */
  ghost predicate Reading(start: Start, o: P.Options, total: Unsigned, out: seq<Byte>,
                          queue: seq<P.Item>, buf: seq<Byte>, model: R.State, again: bool)
  {
    && |out| <= total <= |start.buf| && buf == Overwrite(start.buf, 0, out)
    && P.Progress(start.queue, o, total, out, queue, again)
    && |queue| <= |start.queue| == |start.model.queued| && |queue| == |model.queued|
    && model == R.ReadStep(start.model, |start.queue| - |queue|)
  }

  lemma ReadingStarts(start: Start, o: P.Options, total: Unsigned)
    requires P.Safe(start.queue, o, total) && total <= |start.buf| && |start.queue| == |start.model.queued|
    ensures Reading(start, o, total, [], start.queue, start.buf, start.model, true)
  {
    assert Overwrite(start.buf, 0, []) == start.buf;
    R.ReadNone(start.model);
  }

  /** What the next round does, for whichever way it goes. */
  lemma ReadingRound(start: Start, o: P.Options, total: Unsigned, out: seq<Byte>,
                     queue: seq<P.Item>, buf: seq<Byte>, model: R.State)
    returns (more: seq<Byte>)
    requires Reading(start, o, total, out, queue, buf, model, true)
    ensures |out| <= total && P.Safe(queue, o, total - |out|)
    ensures var taken := P.Takes(queue, o, total - |out|);
      && (!taken ==> more == out && Reading(start, o, total, out, queue, buf, model, false))
      && (taken ==>
            && queue != [] && model.queued != [] && |out| + |P.FirstShown(queue, o)| == |more| <= |buf|
            && Reading(start, o, total, more, queue[1..], Overwrite(buf, |out|, P.FirstShown(queue, o)),
                       R.ReadStep(model, 1), o.multiple))
  {
    hide P.Progress, P.Takes, P.Safe, P.FirstShown, R.ReadStep, Overwrite;
    P.ProgressRound(start.queue, o, total, out, queue);
    more := out;
    if P.Takes(queue, o, total - |out|) {
      P.TakesOpened(queue, o, total - |out|);
      OverwriteAppend(start.buf, 0, out, P.FirstShown(queue, o));
      more := out + P.FirstShown(queue, o);
      R.ReadJoin(start.model, |start.queue| - |queue|, 1);
      R.ReadLeaves(model, 1);
    }
  }

  lemma ReadingDone(start: Start, o: P.Options, total: Unsigned, out: seq<Byte>,
                    queue: seq<P.Item>, buf: seq<Byte>, model: R.State)
    requires Reading(start, o, total, out, queue, buf, model, false)
    ensures P.Safe(start.queue, o, total) && P.Pack(start.queue, o, total) == P.Result(out, queue)
    ensures |out| <= total <= |start.buf| && buf == Overwrite(start.buf, 0, out)
    ensures |queue| <= |start.queue| == |start.model.queued|
    ensures model == R.ReadStep(start.model, |start.queue| - |queue|)
  {
    P.ProgressDone(start.queue, o, total, out, queue);
  }
}
