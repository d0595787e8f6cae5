/** The transmit half of `struct synccom_port` and the handlers that change it (`src/isr.c`).

    A ghost copy of the state of `Transmit` moves along with the driver's frames and lists, so
    that a handler is a short run of that machine. */
module TransmitPort {
  import opened CTypes
  import opened Frames
  import opened FrameLists
  import opened Offsets
  import T = Transmit

  /** A request on its way to the board. */
  datatype Request =
    | Data(bytes: seq<Byte>)
    | SetRegister(address: nat, value: nat)
    | GetRegister(address: nat)

  datatype Modifiers = Modifiers(xrep: bool, txt: bool, txext: bool)

  function CommandValue(m: Modifiers): nat {
    0x01000000 + (if m.xrep then 0x02000000 else 0)
    + (if m.txt then 0x10000000 else 0) + (if m.txext then 0x20000000 else 0)
  }

  /** The command has its start bit and a bit per modifier, and no other. */
  lemma CommandBits(m: Modifiers)
    ensures var v := CommandValue(m);
      && v % 0x01000000 == 0 && v / 0x01000000 % 2 == 1 && v / 0x04000000 % 4 == 0 && v / 0x40000000 == 0
      && (v / 0x02000000 % 2 == 1 <==> m.xrep)
      && (v / 0x10000000 % 2 == 1 <==> m.txt) && (v / 0x20000000 % 2 == 1 <==> m.txext)
  {
  }

  ghost function View(f: Frame): T.Buffered
    reads f
  {
    T.Buffered(f.buffer, f.dataLength, f.frameSize)
  }

  ghost predicate Holds(fs: seq<Frame>, queued: seq<T.OFrame>)
    reads fs
  {
    && |queued| == |fs|
    && forall i :: 0 <= i < |fs| ==> fs[i].Valid() && queued[i] == View(fs[i])
  }

  /** The part of a request that belongs to a frame: its bytes, or its size written to the length
      register at 0x04. */
  function FramePart(r: Request): seq<T.Sent> {
    match r
    case Data(bytes) => [T.Chunk(bytes)]
    case SetRegister(address, value) => if address == 0x04 then [T.Announce(value)] else []
    case GetRegister(_) => []
  }

  /** What the bus was handed for frames, in order. */
  function Handed(requests: seq<Request>): seq<T.Sent> {
    if requests == [] then []
    else Handed(requests[..|requests| - 1]) + FramePart(requests[|requests| - 1])
  }

  /** What histories say was sent, one frame after the other. */
  function AllSent(logs: seq<T.Log>): seq<T.Sent> {
    if logs == [] then [] else AllSent(logs[..|logs| - 1]) + logs[|logs| - 1].sent
  }

  lemma HandedPush(requests: seq<Request>, r: Request)
    ensures Handed(requests + [r]) == Handed(requests) + FramePart(r)
  {
    assert (requests + [r])[..|requests|] == requests;
  }

  lemma AllSentPush(logs: seq<T.Log>, l: T.Log)
    ensures AllSent(logs + [l]) == AllSent(logs) + l.sent
  {
    assert (logs + [l])[..|logs|] == logs;
  }

  lemma AllSentMore(logs: seq<T.Log>, f: T.OFrame, outcome: T.Outcome)
    requires logs != []
    ensures T.Record(logs, f, outcome) != []
    ensures AllSent(T.Record(logs, f, outcome)) == AllSent(logs) + T.SentNow(f, outcome)
  {
    hide T.SentNow, T.Chunks;
    var k := |logs| - 1;
    assert T.Record(logs, f, outcome)[..k] == logs[..k];
    Regroup(AllSent(logs[..k]), logs[k].sent, T.SentNow(f, outcome));
  }

  /** The requests of one turn for frame `f`: its next bytes if they could be sent, its size if
      nothing was removed before, a read of the FIFO's count, and the transmit command. */
  ghost predicate TurnRequested(
    before: seq<Request>, after: seq<Request>, f: T.OFrame, outcome: T.Outcome, command: nat)
  {
    after == before
             + (if outcome.Ok? then [Data(f.buffer[..Min(4092, RoundUp4(f.length))])] else [])
             + (if f.length == f.size then [SetRegister(0x04, f.size)] else [])
             + [GetRegister(0x0C)] + [SetRegister(0x14, command)]
  }

  /** The requests of one turn hand over exactly what the machine records for it. */
  lemma HandedTurn(before: seq<Request>, after: seq<Request>, f: T.OFrame, outcome: T.Outcome, command: nat)
    requires TurnRequested(before, after, f, outcome, command)
    ensures Handed(after) == Handed(before) + T.SentNow(f, outcome)
  {
    hide RoundUp4, Handed;
    var chunk := f.buffer[..Min(4092, RoundUp4(f.length))];
    assert chunk == T.NextChunk(f);
    var data := before + if outcome.Ok? then [Data(chunk)] else [];
    var sized := data + if f.length == f.size then [SetRegister(0x04, f.size)] else [];
    HandedPush(before, Data(chunk));
    HandedPush(data, SetRegister(0x04, f.size));
    HandedPush(sized, GetRegister(0x0C));
    HandedPush(sized + [GetRegister(0x0C)], SetRegister(0x14, command));
    assert before + [] == before && data + [] == data;
  }

  class Port {
    const queuedOframes: FrameList
    var pendingOframe: Frame?
    var writesInFlight: int
    var maxPendingWrites: nat
    var memoryCapOutput: nat
    var txModifiers: Modifiers
    var requests: seq<Request>   // what was handed to the bus, in order
    ghost var model: T.State

    /** The lists are those of the machine, and the bus was handed what its histories record. */
    ghost predicate Valid()
      reads this, queuedOframes, queuedOframes.frames, pendingOframe
    {
      && Holds(queuedOframes.frames, model.queued)
      && Distinct(queuedOframes.frames)
      && queuedOframes.estimatedMemoryUsage == model.estimate
      && writesInFlight == model.writesInFlight
      && (pendingOframe == null <==> model.pending.None?)
      && (pendingOframe != null ==>
            && pendingOframe.Valid() && model.pending.value == View(pendingOframe)
            && pendingOframe !in queuedOframes.frames && model.logs != [])
      && Handed(requests) == AllSent(model.logs)
    }

    /** The configuration of the machine: the driver has one worker. */
    function Config(): T.Config
      reads this`memoryCapOutput, this`maxPendingWrites
    {
      T.Config(memoryCapOutput, maxPendingWrites, 1)
    }

    constructor (maxPendingWrites: nat)
      ensures Valid() && model == T.INIT && requests == [] && fresh(queuedOframes)
      ensures memoryCapOutput == 1000000 && this.maxPendingWrites == maxPendingWrites
    {
      queuedOframes := new FrameList();
      pendingOframe := null;
      writesInFlight := 0;
      this.maxPendingWrites := maxPendingWrites;
      memoryCapOutput := 1000000;
      txModifiers := Modifiers(false, false, false);
      requests := [];
      model := T.INIT;
    }

    method GetOutputMemoryUsage() returns (value: Unsigned)
      requires Valid()
      ensures value == AddU32(model.estimate, T.PendingLength(model))
    {
      value := queuedOframes.estimatedMemoryUsage;
      if pendingOframe != null {
        value := AddU32(value, pendingOframe.dataLength);
      }
    }

    /** The machine's three steps of a write that nothing interrupts. */
    ghost function AfterWrite(data: seq<Byte>): T.State
      reads this
    {
      var s := T.Step(model, T.WriteCall(data), Config());
      T.Step(T.Step(s, T.SamplePending, Config()), T.Enqueue, Config())
    }

    lemma AfterWriteShape(data: seq<Byte>)
      requires model.handler.Idle? && model.sending.None? && data != [] && |data| <= U32 - 4
      ensures AfterWrite(data) ==
        if AddU32(model.estimate, T.PendingLength(model)) + |data| > memoryCapOutput then model
        else model.(queued := model.queued + [T.NewFrame(data)],
                    estimate := AddU32(model.estimate, |data|), written := model.written + [data])
    {
    }

    /** Builds a frame for `data` and queues it. */
    method QueueFrame(data: seq<Byte>)
      requires Valid() && data != [] && |data| <= U32 - 4
      modifies this`model, queuedOframes
      ensures Valid()
      ensures model == old(model).(queued := old(model).queued + [T.NewFrame(data)],
        estimate := AddU32(old(model).estimate, |data|), written := old(model).written + [data])
    {
      hide T.NewFrame, AllZero, Holds, View, Distinct;
      ghost var m := model;
      var frame := new Frame();
      var _ := frame.AddData(data);
      frame.frameSize := |data|;
      NewFrameView(frame, data);
      HoldsMore(queuedOframes.frames, m.queued, frame, T.NewFrame(data));
      queuedOframes.AddFrame(frame);
      model := m.(queued := m.queued + [T.NewFrame(data)],
        estimate := AddU32(m.estimate, |data|), written := m.written + [data]);
    }

    /** Handles a write request: queues it as a frame unless that would exceed the cap. */
    method EvtIoWrite(data: seq<Byte>) returns (ok: bool)
      requires Valid() && model.handler.Idle? && model.sending.None? && |data| <= U32 - 4
      modifies this`model, queuedOframes
      ensures Valid() && model == if data == [] then old(model) else old(AfterWrite(data))
      ensures ok == (data == []
        || AddU32(old(model.estimate), T.PendingLength(old(model))) + |data| <= memoryCapOutput)
    {
      if |data| == 0 { return true; }
      AfterWriteShape(data);
      hide AfterWrite, Holds;
      var usage := GetOutputMemoryUsage();
      if usage + |data| > memoryCapOutput {
        return false;
      }
      QueueFrame(data);
      return true;
    }

    static lemma HoldsMore(fs: seq<Frame>, queued: seq<T.OFrame>, f: Frame, view: T.OFrame)
      requires Holds(fs, queued) && Distinct(fs) && f.Valid() && f !in fs && view == View(f)
      ensures Holds(fs + [f], queued + [view]) && Distinct(fs + [f])
    {
    }

    static lemma NewFrameView(frame: Frame, data: seq<Byte>)
      requires frame.Valid() && frame.Contents() == data && frame.frameSize == |data|
      requires frame.bufferSize == RoundUp4(|data|) && AllZero(frame.Spare())
      ensures View(frame) == T.NewFrame(data)
    {
      assert frame.buffer == frame.Contents() + frame.Spare();
      assert frame.Spare() == Zeros(RoundUp4(|data|) - |data|);
    }

    method TxCompletion()
      requires Valid() && model.outstanding > 0
      modifies this`model, this`writesInFlight
      ensures Valid() && model == T.Step(old(model), T.Completed, Config())
    {
      writesInFlight := writesInFlight - 1;
      model := T.Step(model, T.Completed, Config());
    }

    /** Sends bytes to the data pipe; `outcome` is how the framework answers. */
    method DataWrite(bytes: seq<Byte>, outcome: T.Outcome) returns (success: bool)
      modifies this`requests, this`writesInFlight
      ensures success == outcome.Ok?
      ensures requests == old(requests) + if outcome.Ok? then [Data(bytes)] else []
      ensures writesInFlight == old(writesInFlight) + if outcome.NotMade? then 0 else 1
    {
      if outcome.NotMade? { return false; }
      if outcome.Ok? {
        requests := requests + [Data(bytes)];
      }
      writesInFlight := writesInFlight + 1;
      return outcome.Ok?;
    }

    static method DropChunk(frame: Frame, chunk: nat)
      requires frame.Valid() && RoundUp4(frame.dataLength) <= |frame.buffer|
      modifies frame`buffer, frame`dataLength
      ensures frame.Valid() && RoundUp4(frame.dataLength) <= |frame.buffer|
      ensures View(frame) == T.Remove(old(View(frame)), chunk)
    {
      ghost var was := frame.buffer;
      var n := frame.RemoveData(null, 0, chunk);
      assert frame.buffer == frame.Contents() + frame.Spare();
    }

    /** Sends the next chunk of a frame, and its size if nothing of it was sent before.
        Returns 0 for an empty frame, 1 if data is left and 2 if not. */
    method PrepareFrameForFifo(frame: Frame, outcome: T.Outcome) returns (result: nat)
      requires frame.Valid() && RoundUp4(frame.dataLength) <= |frame.buffer|
      modifies this`requests, this`writesInFlight, frame`buffer, frame`dataLength
      ensures frame.Valid() && RoundUp4(frame.dataLength) <= |frame.buffer|
      ensures var f: T.OFrame := old(View(frame));
        if f.length == 0 then result == 0 && View(frame) == f
                              && requests == old(requests) && writesInFlight == old(writesInFlight)
        else
          && View(frame) == (if outcome.Ok? then T.Remove(f, T.ChunkLength(f.length)) else f)
          && writesInFlight == old(writesInFlight) + (if outcome.NotMade? then 0 else 1)
          && requests == old(requests)
                         + (if outcome.Ok? then [Data(f.buffer[..Min(4092, RoundUp4(f.length))])] else [])
                         + (if f.length == f.size then [SetRegister(0x04, f.size)] else [])
                         + [GetRegister(0x0C)]
          && result == if frame.dataLength == 0 then 2 else 1
    {
      var currentLength := frame.dataLength;
      var sizeInFifo := RoundUp4(currentLength);
      var frameSize := frame.frameSize;
      var transmitLength := if sizeInFifo > T.FIFO_SPACE then T.FIFO_SPACE else sizeInFifo;
      if transmitLength < 1 { return 0; }
      ghost var f: T.OFrame := View(frame);
      assert transmitLength == Min(4092, RoundUp4(f.length));
      hide T.Remove, T.NextChunk;
      var success := DataWrite(frame.buffer[..transmitLength], outcome);
      if success {
        DropChunk(frame, transmitLength);
      }
      if currentLength == frameSize {
        requests := requests + [SetRegister(BC_FIFO_L_OFFSET, frameSize)];
      }
      requests := requests + [GetRegister(FIFO_BC_OFFSET)];
      return if frame.dataLength != 0 then 1 else 2;
    }

    /** The machine's three steps of a worker that nothing interrupts. */
    static ghost function Turn(s: T.State, outcome: T.Outcome, c: T.Config): T.State {
      T.Step(T.Step(T.Step(s, T.Check, c), T.Send(outcome), c), T.Finish, c)
    }

    /** What a turn does once frame `f` is pending: send, count, remove and announce at once. */
    static ghost function AfterSend(g: T.State, outcome: T.Outcome): T.State
      requires g.pending.Some?
    {
      var f := g.pending.value;
      var rest := if outcome.Ok? then T.Remove(f, T.ChunkLength(f.length)) else f;
      g.(pending := if rest.length == 0 then None else Some(rest),
         writesInFlight := g.writesInFlight + if outcome.NotMade? then 0 else 1,
         outstanding := g.outstanding + if outcome.Ok? then 1 else 0,
         failed := g.failed + if outcome.SendFailed? then 1 else 0,
         notMade := g.notMade + if outcome.NotMade? then 1 else 0,
         logs := T.Record(g.logs, f, outcome))
    }

    static lemma TurnShape(s: T.State, outcome: T.Outcome, c: T.Config)
      requires s.passed == 0 && s.sending.None? && c.workers == 1
      ensures Turn(s, outcome, c) ==
        if s.writesInFlight > c.maxPendingWrites then s
        else if T.PendingLength(T.Grab(s)) == 0 then T.Grab(s)
        else AfterSend(T.Grab(s), outcome)
    {
      if s.writesInFlight <= c.maxPendingWrites {
        var checked, g := s.(passed := 1), T.Grab(s);
        assert T.Step(s, T.Check, c) == checked;
        assert T.Grab(checked) == g.(passed := 1);
        hide T.Grab, T.Remove, T.Record, T.SentNow;
      }
    }

    /** Makes sure there is a pending frame if there is any frame at all. */
    method TakePending()
      requires Valid()
      modifies this`pendingOframe, this`model, queuedOframes
      ensures Valid() && model == T.Grab(old(model))
      ensures pendingOframe != null ==>
        pendingOframe == old(pendingOframe) || pendingOframe in old(queuedOframes.frames)
      ensures queuedOframes.frames == old(queuedOframes.frames)
        || (old(queuedOframes.frames) != [] && queuedOframes.frames == old(queuedOframes.frames)[1..])
    {
      if pendingOframe == null {
        ghost var fs := queuedOframes.frames;
        pendingOframe := queuedOframes.RemoveFrame();
        model := T.Grab(model);
        if pendingOframe != null {
          assert fs == [pendingOframe] + fs[1..];
        }
      }
    }

    /** Sends a chunk of the pending frame and tells the board to transmit. */
    method TransmitPending(outcome: T.Outcome) returns (result: nat)
      requires Valid() && pendingOframe != null
      modifies this`pendingOframe, this`model, this`requests, this`writesInFlight, pendingOframe
      ensures Valid() && (result == 0 <==> T.PendingLength(old(model)) == 0)
      ensures model == if result == 0 then old(model) else AfterSend(old(model), outcome)
      ensures
        if result == 0 then requests == old(requests) else
          TurnRequested(old(requests), requests, old(model).pending.value, outcome, CommandValue(txModifiers))
    {
      hide Holds, T.Remove, T.Record, T.SentNow, T.ChunkLength, Handed, AllSent, Distinct, CommandValue;
      ghost var f: T.OFrame := model.pending.value;
      ghost var before := requests;
      result := PrepareFrameForFifo(pendingOframe, outcome);
      if result == 0 { return; }
      requests := requests + [SetRegister(CMDR_OFFSET, CommandValue(txModifiers))];
      if result == 2 {
        pendingOframe := null;
      }
      HandedTurn(before, requests, f, outcome, CommandValue(txModifiers));
      AllSentMore(model.logs, f, outcome);
      model := AfterSend(model, outcome);
    }

    static lemma TurnEnds(
      before: seq<Request>, after: seq<Request>, f: T.OFrame, outcome: T.Outcome, command: nat)
      requires TurnRequested(before, after, f, outcome, command)
      ensures |after| >= |before| + 2 && after[|after| - 2..] == [GetRegister(0x0C), SetRegister(0x14, command)]
    {
    }

    /** One turn of the worker. It runs again if it found a frame with data. */
    method OframeWorker(outcome: T.Outcome) returns (again: bool)
      requires Valid() && model.passed == 0 && model.sending.None?
      modifies this`pendingOframe, this`model, this`requests, this`writesInFlight, queuedOframes,
        pendingOframe, set f | f in queuedOframes.frames
      ensures Valid() && model == Turn(old(model), outcome, Config())
      ensures again == (old(writesInFlight) <= maxPendingWrites && T.PendingLength(T.Grab(old(model))) > 0)
      ensures
        if !again then requests == old(requests) else
          TurnRequested(old(requests), requests, T.Grab(old(model)).pending.value, outcome, CommandValue(txModifiers))
      ensures again ==>
        && |requests| >= |old(requests)| + 2
        && requests[|requests| - 2..] == [GetRegister(0x0C), SetRegister(0x14, CommandValue(txModifiers))]
    {
      TurnShape(model, outcome, Config());
      hide Turn, Holds, AfterSend, T.Grab, Handed, AllSent, TurnRequested;
      ghost var before, g := requests, T.Grab(model);
      if writesInFlight > maxPendingWrites { return false; }
      TakePending();
      if pendingOframe == null { return false; }
      var result := TransmitPending(outcome);
      if result == 0 { return false; }
      TurnEnds(before, requests, g.pending.value, outcome, CommandValue(txModifiers));
      return true;
    }
  }
}
