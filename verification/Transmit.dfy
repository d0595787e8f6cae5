/** The transmit path as a machine over values (`src/isr.c:59-99`, `src/isr.c:237-398`,
    `src/isr.c:576-593`).

    A write handler samples the memory in use, then queues the buffer as a frame. Workers check
    the throttle and then, one at a time under the transmit locks, send the next chunk of the
    pending frame. A send and the counting of it are separate steps, so its completion may run
    between them. The steps of the handler, the workers and the completions interleave freely. */
module Transmit {
  import opened CTypes
  import opened Frames
  import R = Receive

  /** Room for one chunk: `TX_FIFO_SIZE - 1` rounded down to a multiple of four. */
  const FIFO_SPACE: nat := 4092

  /** A frame with its whole buffer: the transmit path sends bytes behind the data as padding. */
  datatype Buffered = Buffered(buffer: seq<Byte>, length: nat, size: nat)

  type OFrame = f: Buffered | RoundUp4(f.length) <= |f.buffer| witness Buffered([], 0, 0)

  datatype Sent = Chunk(bytes: seq<Byte>) | Announce(size: nat)

  /** History of one frame: what was written, what was sent for it, and how many attempts failed
      before its first chunk was sent. */
  datatype Log = Log(data: seq<Byte>, sent: seq<Sent>, early: nat)

  datatype Outcome =
    | Ok          // the request was sent
    | SendFailed  // the request was counted but could not be sent
    | NotMade     // the request could not be made and was not counted

  datatype Handler =
    | Idle
    | Sampling(queued: nat, data: seq<Byte>)  // sampled the queue, not yet the pending frame
    | Accepted(data: seq<Byte>)               // the sum was within the cap

  datatype State = State(
    queued: seq<OFrame>, estimate: Unsigned,  // queued_oframes
    pending: Option<OFrame>,                  // pending_oframe
    writesInFlight: int,
    passed: nat,                              // workers past the throttle, waiting for the locks
    sending: Option<Outcome>,                 // a worker holds the locks, between send and count
    outstanding: nat,                         // sent and not completed
    handler: Handler,
    failed: nat,                              // history: counted sends that failed
    notMade: nat,                             // history: requests that could not be made
    written: seq<seq<Byte>>,                  // history: the buffers queued, in order
    logs: seq<Log>)                           // history: the frames begun, in order

  datatype Config = Config(cap: nat, maxPendingWrites: nat, workers: nat)

  datatype Event =
    | WriteCall(data: seq<Byte>)   // the handler starts: it samples the queue's estimate
    | SamplePending                // it samples the pending frame and compares with the cap
    | Enqueue                      // it queues the frame
    | Check                        // a worker compares writes_in_flight with the maximum
    | Send(outcome: Outcome)       // a worker takes the locks and sends a chunk
    | Finish                       // it counts the send, removes the data and announces the frame
    | Completed                    // a sent request completes

  const INIT := State([], 0, None, 0, 0, None, 0, Idle, 0, 0, [], [])

  /** The frame the handler builds: the buffer is rounded up to words and zeroed first. */
  function NewFrame(data: seq<Byte>): OFrame {
    Buffered(data + Zeros(RoundUp4(|data|) - |data|), |data|, |data|)
  }

  function Contents(f: OFrame): (s: seq<Byte>)
    ensures |s| == f.length
  {
    f.buffer[..f.length]
  }

  /** How many bytes the next chunk of a frame takes from its buffer. */
  function ChunkLength(length: nat): nat {
    if RoundUp4(length) > FIFO_SPACE then FIFO_SPACE else RoundUp4(length)
  }

  function NextChunk(f: OFrame): seq<Byte> {
    f.buffer[..ChunkLength(f.length)]
  }

  /** The frame after a chunk: the data moves up, the bytes behind it are stale. */
  function Remove(f: OFrame, chunk: nat): OFrame {
    var n := Min(chunk, f.length);
    f.(buffer := f.buffer[n..f.length] + f.buffer[f.length - n..], length := f.length - n)
  }

  function PendingLength(s: State): nat {
    if s.pending.Some? then s.pending.value.length else 0
  }

  /** A worker without a pending frame takes the next queued one. */
  function Grab(s: State): State {
    if s.pending.Some? || s.queued == [] then s else
      var f := s.queued[0];
      s.(pending := Some(f), queued := s.queued[1..], estimate := SubU32(s.estimate, f.length),
         logs := s.logs + [Log(Contents(f), [], 0)])
  }

  function Chunks(sent: seq<Sent>): seq<seq<Byte>> {
    if sent == [] then []
    else Chunks(sent[..|sent| - 1])
         + if sent[|sent| - 1].Chunk? then [sent[|sent| - 1].bytes] else []
  }

  /** The history of a frame after a worker's turn. */
  function Extended(l: Log, f: OFrame, outcome: Outcome): Log {
    l.(sent := l.sent + SentNow(f, outcome),
       early := l.early + if !outcome.Ok? && Chunks(l.sent) == [] then 1 else 0)
  }

  /** Adds a turn to the history of the frame begun last. */
  function Record(logs: seq<Log>, f: OFrame, outcome: Outcome): seq<Log> {
    if logs == [] then logs else logs[|logs| - 1 := Extended(logs[|logs| - 1], f, outcome)]
  }

  predicate Enabled(s: State, e: Event, c: Config) {
    match e
    case WriteCall(data) => s.handler.Idle? && data != [] && |data| <= U32 - 4
    case SamplePending => s.handler.Sampling? && s.sending.None?
    case Enqueue => s.handler.Accepted?
    case Check => s.writesInFlight <= c.maxPendingWrites
                  && s.passed + (if s.sending.Some? then 1 else 0) < c.workers
    case Send(_) => s.passed > 0 && s.sending.None?
    case Finish => s.sending.Some? && s.pending.Some?
    case Completed => s.outstanding > 0
  }

  function SendStep(s: State, outcome: Outcome): State {
    var t := Grab(s).(passed := if s.passed > 0 then s.passed - 1 else 0);
    if t.pending.None? || t.pending.value.length == 0 then t
    else
      match outcome
      case Ok => t.(sending := Some(Ok), outstanding := t.outstanding + 1)
      case SendFailed => t.(sending := Some(SendFailed), failed := t.failed + 1)
      case NotMade => t.(sending := Some(NotMade), notMade := t.notMade + 1)
  }

  /** What goes to the board while a worker holds the locks. */
  function SentNow(f: OFrame, outcome: Outcome): seq<Sent> {
    (if outcome.Ok? then [Chunk(NextChunk(f))] else [])
    + (if f.length == f.size then [Announce(f.size)] else [])
  }

  function FinishStep(s: State): State
    requires s.sending.Some? && s.pending.Some?
  {
    var f, outcome := s.pending.value, s.sending.value;
    var rest := if outcome.Ok? then Remove(f, ChunkLength(f.length)) else f;
    s.(sending := None,
       writesInFlight := s.writesInFlight + if outcome.NotMade? then 0 else 1,
       pending := if rest.length == 0 then None else Some(rest),
       logs := Record(s.logs, f, outcome))
  }

  function Step(s: State, e: Event, c: Config): State {
    if !Enabled(s, e, c) then s else
    match e
    case WriteCall(data) => s.(handler := Sampling(s.estimate, data))
    case SamplePending =>
      var usage := AddU32(s.handler.queued, PendingLength(s));
      s.(handler := if usage + |s.handler.data| > c.cap then Idle else Accepted(s.handler.data))
    case Enqueue =>
      var data := s.handler.data;
      s.(handler := Idle, queued := s.queued + [NewFrame(data)],
         estimate := AddU32(s.estimate, |data|), written := s.written + [data])
    case Check => s.(passed := s.passed + 1)
    case Send(outcome) => SendStep(s, outcome)
    case Finish => FinishStep(s)
    case Completed =>
      s.(outstanding := s.outstanding - 1, writesInFlight := s.writesInFlight - 1)
  }

  function Run(s: State, events: seq<Event>, c: Config): State
    decreases |events|
  {
    if events == [] then s else Run(Step(s, events[0], c), events[1..], c)
  }

  // ---- the throttle ----

  function Uncounted(s: State): nat {
    if s.sending.Some? && !s.sending.value.NotMade? then 1 else 0
  }

  function Inside(s: State): nat {
    s.passed + if s.sending.Some? then 1 else 0
  }

  ghost predicate Throttled(s: State, c: Config) {
    && s.writesInFlight + Uncounted(s) == s.outstanding + s.failed
    && Inside(s) <= c.workers
    && s.outstanding + s.failed + s.passed <= c.maxPendingWrites + c.workers
  }

  lemma ThrottledStep(s: State, e: Event, c: Config)
    requires Throttled(s, c)
    ensures Throttled(Step(s, e, c), c)
  {
  }

  lemma {:induction false} ThrottledRun(s: State, events: seq<Event>, c: Config)
    requires Throttled(s, c)
    ensures Throttled(Run(s, events, c), c)
    decreases |events|
  {
    if events != [] {
      ThrottledStep(s, events[0], c);
      ThrottledRun(Step(s, events[0], c), events[1..], c);
    }
  }

  /** The count balances in every reachable state even though a completion may run before its
      send is counted, and with `workers` workers at most `maxPendingWrites + workers` writes are
      ever outstanding. The driver has one worker. */
  lemma WriteThrottle(events: seq<Event>, c: Config)
    ensures var s := Run(INIT, events, c);
      && s.writesInFlight + Uncounted(s) == s.outstanding + s.failed
      && s.outstanding + s.failed <= c.maxPendingWrites + c.workers
  {
    ThrottledRun(INIT, events, c);
  }

  /** The bound is reached: the test lets a worker through when the maximum is outstanding already. */
  lemma ThrottleLetsOneMoreThrough(s: State, c: Config)
    requires Throttled(s, c) && s.failed == 0 && s.passed == 0 && s.sending.None? && c.workers > 0
    requires s.outstanding == c.maxPendingWrites
    requires s.pending.Some? && s.pending.value.length > 0
    ensures Step(Step(s, Check, c), Send(Ok), c).outstanding == c.maxPendingWrites + 1
  {
  }

  /** A failed send stays counted for ever. Once more sends than the maximum have failed, no run
      sends anything any more. */
  lemma {:induction false} FailuresStall(s: State, events: seq<Event>, c: Config)
    requires Throttled(s, c) && s.passed == 0 && s.sending.None? && s.failed > c.maxPendingWrites
    ensures Run(s, events, c).logs == s.logs && Run(s, events, c).outstanding <= s.outstanding
    decreases |events|
  {
    if events != [] {
      ThrottledStep(s, events[0], c);
      FailuresStall(Step(s, events[0], c), events[1..], c);
    }
  }

  // ---- the output cap ----

  function TotalLength(frames: seq<OFrame>): nat {
    if frames == [] then 0 else TotalLength(frames[..|frames| - 1]) + frames[|frames| - 1].length
  }

  lemma {:induction false} TotalTail(frames: seq<OFrame>)
    requires frames != []
    ensures TotalLength(frames) == frames[0].length + TotalLength(frames[1..])
  {
    if |frames| > 1 {
      var init := frames[..|frames| - 1];
      TotalTail(init);
      assert frames[1..][..|frames| - 2] == init[1..];
    }
  }

  /** The bytes held for transmission. */
  function Usage(s: State): nat {
    TotalLength(s.queued) + PendingLength(s)
  }

  ghost predicate Capped(s: State, c: Config) {
    && s.estimate == TotalLength(s.queued) % U32
    && Usage(s) <= c.cap
    && (s.handler.Sampling? ==> TotalLength(s.queued) <= s.handler.queued <= c.cap)
    && (s.handler.Accepted? ==> Usage(s) + |s.handler.data| <= c.cap)
  }

  lemma CappedGrab(s: State, c: Config)
    requires Capped(s, c) && c.cap < U32
    ensures Capped(Grab(s), c) && Usage(Grab(s)) == Usage(s)
  {
    hide TotalLength, Contents;
    if s.queued != [] { TotalTail(s.queued); }
  }

  lemma CappedEnqueue(s: State, c: Config)
    requires Capped(s, c) && c.cap < U32 && s.handler.Accepted?
    ensures Capped(Step(s, Enqueue, c), c)
  {
    var data := s.handler.data;
    var f := NewFrame(data);
    assert f.length == |data|;
    var t := Step(s, Enqueue, c);
    hide NewFrame, PendingLength;
    assert t.queued[..|t.queued| - 1] == s.queued;
    assert TotalLength(t.queued) == TotalLength(s.queued) + |data|;
  }

  lemma CappedStep(s: State, e: Event, c: Config)
    requires Capped(s, c) && 2 * c.cap < U32
    ensures Capped(Step(s, e, c), c)
  {
    hide TotalLength, Grab, FinishStep, NewFrame, Remove;
    if Enabled(s, e, c) {
      match e
      case Enqueue => CappedEnqueue(s, c);
      case Send(outcome) => CappedSend(s, outcome, c);
      case Finish => CappedFinish(s, c);
      case SamplePending => CappedSample(s, c);
      case _ =>
    }
  }

  lemma CappedSend(s: State, outcome: Outcome, c: Config)
    requires Capped(s, c) && c.cap < U32
    ensures Capped(SendStep(s, outcome), c)
  {
    CappedGrab(s, c);
  }

  lemma CappedFinish(s: State, c: Config)
    requires Capped(s, c) && s.sending.Some? && s.pending.Some?
    ensures Capped(FinishStep(s), c)
  {
  }

  /** The sum of the two samples covers what is really held. */
  lemma NeverUndercounts(s: State, c: Config)
    requires Capped(s, c) && 2 * c.cap < U32 && s.handler.Sampling?
    ensures Usage(s) <= AddU32(s.handler.queued, PendingLength(s))
  {
    assert s.handler.queued + PendingLength(s) < U32;
  }

  lemma CappedSample(s: State, c: Config)
    requires Capped(s, c) && 2 * c.cap < U32 && Enabled(s, SamplePending, c)
    ensures Capped(Step(s, SamplePending, c), c)
  {
    NeverUndercounts(s, c);
  }

  lemma {:induction false} CappedRun(s: State, events: seq<Event>, c: Config)
    requires Capped(s, c) && 2 * c.cap < U32
    ensures Capped(Run(s, events, c), c)
    decreases |events|
  {
    if events != [] {
      CappedStep(s, events[0], c);
      CappedRun(Step(s, events[0], c), events[1..], c);
    }
  }

  /** The cap holds although the two samples of a write are not atomic: workers may move frames to
      the pending slot and drain them in between, but then the sum only overcounts. (A cap is a C
      `int`, so twice the cap still fits 32 bits.) */
  lemma OutputCap(events: seq<Event>, c: Config)
    requires 2 * c.cap < U32
    ensures var s := Run(INIT, events, c);
      && Usage(s) <= c.cap
      && (s.handler.Sampling? ==> Usage(s) <= AddU32(s.handler.queued, PendingLength(s)))
  {
    assert Capped(INIT, c);
    CappedRun(INIT, events, c);
    var s := Run(INIT, events, c);
    if s.handler.Sampling? { NeverUndercounts(s, c); }
  }

  // ---- chunking ----

  /** The reference: the lengths of the chunks a frame of `length` bytes is sent in. */
  function ChunkSizes(length: nat): seq<nat> {
    if length <= FIFO_SPACE then [RoundUp4(length)] else [FIFO_SPACE] + ChunkSizes(length - FIFO_SPACE)
  }

  lemma {:induction false} ChunkSizesBounded(length: nat)
    requires length > 0
    ensures |ChunkSizes(length)| == (length + 4091) / 4092
    ensures forall i :: 0 <= i < |ChunkSizes(length)| ==>
      ChunkSizes(length)[i] % 4 == 0 && 0 < ChunkSizes(length)[i] <= 4092
  {
    if length > FIFO_SPACE {
      ChunkSizesBounded(length - FIFO_SPACE);
      var more := ChunkSizes(length - FIFO_SPACE);
      forall i | 0 <= i < |ChunkSizes(length)|
        ensures ChunkSizes(length)[i] % 4 == 0 && 0 < ChunkSizes(length)[i] <= FIFO_SPACE
      {
        if i > 0 { assert ChunkSizes(length)[i] == more[i - 1]; }
      }
    }
  }

  function Lengths(chunks: seq<seq<Byte>>): (r: seq<nat>)
    ensures |r| == |chunks|
  {
    seq(|chunks|, i requires 0 <= i < |chunks| => |chunks[i]|)
  }

  function AsSent(chunks: seq<seq<Byte>>): (r: seq<Sent>)
    ensures |r| == |chunks|
  {
    seq(|chunks|, i requires 0 <= i < |chunks| => Chunk(chunks[i]))
  }

  /** What fills up the last word of a frame: zeros after a single chunk, otherwise what stood
      one chunk before the end. */
  function Padding(data: seq<Byte>): (p: seq<Byte>)
    ensures |data| + |p| == RoundUp4(|data|)
  {
    var n := RoundUp4(|data|) - |data|;
    if |data| <= FIFO_SPACE then Zeros(n) else data[|data| - FIFO_SPACE..][..n]
  }

  /** How a frame should appear on the wire: its size is announced once, after the first chunk. */
  function Script(chunks: seq<seq<Byte>>, size: nat): seq<Sent> {
    if chunks == [] then [] else [Chunk(chunks[0]), Announce(size)] + AsSent(chunks[1..])
  }

  function Announces(n: nat, size: nat): (a: seq<Sent>)
    ensures |a| == n
  {
    seq(n, _ => Announce(size))
  }

  /** Each attempt that failed before the first chunk announced the size; then the frame appears as
      it should. */
  predicate AsScripted(l: Log) {
    l.sent == Announces(l.early, |l.data|) + Script(Chunks(l.sent), |l.data|)
  }

  /** Everything of a frame has been sent. */
  ghost predicate Complete(l: Log, failures: nat) {
    && Lengths(Chunks(l.sent)) == ChunkSizes(|l.data|)
    && R.Flat(Chunks(l.sent)) == l.data + Padding(l.data)
    && AsScripted(l) && (failures == 0 ==> l.early == 0)
  }

  /** The rest of a frame is still in `f`. */
  ghost predicate Partial(l: Log, f: OFrame, failures: nat) {
    && f.size == |l.data| && f.length > 0
    && Lengths(Chunks(l.sent)) + ChunkSizes(f.length) == ChunkSizes(|l.data|)
    && R.Flat(Chunks(l.sent)) + Contents(f) == l.data
    && AsScripted(l) && (failures == 0 ==> l.early == 0)
    && (Chunks(l.sent) == [] ==> f == NewFrame(l.data))
    && (Chunks(l.sent) != [] ==> StaleEnd(l.data, f))
  }

  /** After a full chunk the buffer holds, behind the data, the last chunk's length of the frame. */
  ghost predicate StaleEnd(data: seq<Byte>, f: OFrame) {
    && |data| >= FIFO_SPACE && f.length + FIFO_SPACE <= |f.buffer|
    && f.buffer[f.length..f.length + FIFO_SPACE] == data[|data| - FIFO_SPACE..]
  }

  lemma StaleAfterChunk(l: Log, f: OFrame, failures: nat)
    requires Partial(l, f, failures) && f.length > FIFO_SPACE
    ensures StaleEnd(l.data, Remove(f, FIFO_SPACE))
  {
    hide AsScripted, StaleEnd, ChunkSizes, Lengths, Chunks, R.Flat, Contents, NewFrame, Remove;
    EndOf(R.Flat(Chunks(l.sent)), Contents(f), l.data);
    StaleOf(l.data, f);
  }

  lemma StaleOf(data: seq<Byte>, f: OFrame)
    requires f.length > FIFO_SPACE && |data| >= f.length
    requires Contents(f)[f.length - FIFO_SPACE..] == data[|data| - FIFO_SPACE..]
    ensures StaleEnd(data, Remove(f, FIFO_SPACE))
  {
    var rest := Remove(f, FIFO_SPACE);
    assert rest.buffer[rest.length..rest.length + FIFO_SPACE] == f.buffer[rest.length..f.length];
    assert f.buffer[rest.length..f.length] == Contents(f)[rest.length..];
  }

  lemma EndOf(a: seq<Byte>, b: seq<Byte>, data: seq<Byte>)
    requires a + b == data && |b| >= FIFO_SPACE
    ensures |data| >= |b| && b[|b| - FIFO_SPACE..] == data[|data| - FIFO_SPACE..]
  {
    assert data[|a|..] == b;
  }

  /** The last chunk is the rest of the data and the padding. */
  lemma LastChunk(l: Log, f: OFrame, failures: nat)
    requires Partial(l, f, failures) && f.length <= FIFO_SPACE
    ensures NextChunk(f) == Contents(f) + Padding(l.data)
  {
    hide AsScripted, StaleEnd, ChunkSizes, Lengths, R.Flat, NextChunk, Padding, NewFrame, Contents;
    if Chunks(l.sent) == [] {
      NoChunksYet(l, f, failures);
      NewFrameChunk(l.data);
    } else {
      SameWord(l, f, failures);
      StalePadding(l.data, f);
    }
  }

  lemma NoChunksYet(l: Log, f: OFrame, failures: nat)
    requires Partial(l, f, failures) && Chunks(l.sent) == []
    ensures f == NewFrame(l.data) && f.length == |l.data|
  {
    hide AsScripted, StaleEnd, ChunkSizes, Lengths, R.Flat;
  }

  lemma NewFrameChunk(data: seq<Byte>)
    requires |data| <= FIFO_SPACE
    ensures NextChunk(NewFrame(data)) == Contents(NewFrame(data)) + Padding(data)
  {
  }

  lemma StalePadding(data: seq<Byte>, f: OFrame)
    requires StaleEnd(data, f) && f.length <= FIFO_SPACE < |data|
    requires RoundUp4(|data|) - |data| == RoundUp4(f.length) - f.length
    ensures NextChunk(f) == Contents(f) + Padding(data)
  {
    var n := RoundUp4(f.length) - f.length;
    assert f.buffer[f.length..f.length + n] == f.buffer[f.length..f.length + FIFO_SPACE][..n];
  }

  /** What is left of a frame after full chunks needs as much padding as the whole. */
  lemma SameWord(l: Log, f: OFrame, failures: nat)
    requires Partial(l, f, failures) && Chunks(l.sent) != [] && f.length <= FIFO_SPACE
    ensures |l.data| > FIFO_SPACE && RoundUp4(|l.data|) - |l.data| == RoundUp4(f.length) - f.length
  {
    hide AsScripted, StaleEnd, Chunks, R.Flat, NewFrame, RoundUp4, ChunkSizes;
    var chunks := Chunks(l.sent);
    FullChunks(|l.data|, f.length, Lengths(chunks));
    FlatLength(chunks);
    assert |l.data| == R.Sum(Lengths(chunks)) + f.length;
    SameRounding(R.Sum(Lengths(chunks)), f.length);
  }

  lemma SameRounding(words: nat, rest: nat)
    requires words % 4 == 0
    ensures RoundUp4(words + rest) - (words + rest) == RoundUp4(rest) - rest
  {
  }

  lemma {:induction false} FlatLength(chunks: seq<seq<Byte>>)
    ensures |R.Flat(chunks)| == R.Sum(Lengths(chunks))
  {
    if chunks != [] {
      FlatLength(chunks[1..]);
      assert Lengths(chunks)[1..] == Lengths(chunks[1..]);
    }
  }

  lemma {:induction false} FullChunks(whole: nat, rest: nat, before: seq<nat>)
    requires before + ChunkSizes(rest) == ChunkSizes(whole) && 0 < rest <= FIFO_SPACE && before != []
    ensures whole > FIFO_SPACE && R.Sum(before) % 4 == 0
  {
    assert |ChunkSizes(rest)| == 1;
    assert |ChunkSizes(whole)| > 1;
    assert before[0] == ChunkSizes(whole)[0];
    if |before| > 1 {
      assert before[1..] + ChunkSizes(rest) == ChunkSizes(whole)[1..];
      FullChunks(whole - FIFO_SPACE, rest, before[1..]);
    }
  }

  ghost predicate LogsOk(logs: seq<Log>, pending: Option<OFrame>, failures: nat) {
    && (pending.Some? ==> logs != [] && Partial(logs[|logs| - 1], pending.value, failures))
    && forall i :: 0 <= i < |logs| - (if pending.Some? then 1 else 0) ==> Complete(logs[i], failures)
  }

  ghost predicate QueueOk(s: State) {
    && |s.logs| + |s.queued| == |s.written|
    && (forall i :: 0 <= i < |s.logs| ==> s.logs[i].data == s.written[i])
    && (forall i :: 0 <= i < |s.queued| ==> s.queued[i] == NewFrame(s.written[|s.logs| + i]))
    && (forall i :: 0 <= i < |s.written| ==> s.written[i] != [])
    && (s.handler.Sampling? || s.handler.Accepted? ==> s.handler.data != [])
  }

  function Failures(s: State): nat {
    s.failed + s.notMade
  }

  ghost predicate Preserved(s: State) {
    && QueueOk(s)
    && LogsOk(s.logs, s.pending, Failures(s))
    && (Failures(s) == 0 && s.sending.Some? ==> s.sending.value.Ok?)
    && (s.sending.Some? ==> s.pending.Some?)
  }

  lemma ChunksAppend(sent: seq<Sent>, e: Sent)
    ensures Chunks(sent + [e]) == Chunks(sent) + if e.Chunk? then [e.bytes] else []
  {
    assert (sent + [e])[..|sent|] == sent;
  }

  lemma BeginFrame(data: seq<Byte>, failures: nat)
    requires data != []
    ensures Contents(NewFrame(data)) == data
    ensures Partial(Log(data, [], 0), NewFrame(data), failures)
  {
    assert Announces(0, |data|) == [];
    assert Lengths([]) + ChunkSizes(|data|) == ChunkSizes(|data|);
  }

  lemma GrabPreserves(s: State)
    requires Preserved(s) && s.sending.None?
    ensures Preserved(Grab(s))
  {
    hide Complete, Partial, NewFrame, Contents;
    if s.pending.None? && s.queued != [] {
      BeginFrame(s.written[|s.logs|], Failures(s));
    }
  }

  lemma FlatPush(chunks: seq<seq<Byte>>, chunk: seq<Byte>)
    ensures R.Flat(chunks + [chunk]) == R.Flat(chunks) + chunk
    ensures Lengths(chunks + [chunk]) == Lengths(chunks) + [|chunk|]
  {
    R.FlatAppend(chunks, [chunk]);
    R.FlatOne(chunk);
  }

  lemma SentNowShape(l: Log, f: OFrame, outcome: Outcome)
    ensures Chunks(Extended(l, f, outcome).sent)
      == Chunks(l.sent) + if outcome.Ok? then [NextChunk(f)] else []
  {
    var c := if outcome.Ok? then [Chunk(NextChunk(f))] else [];
    var a := if f.length == f.size then [Announce(f.size)] else [];
    Regroup(l.sent, c, a);
    if outcome.Ok? { ChunksAppend(l.sent, Chunk(NextChunk(f))); }
    if f.length == f.size { ChunksAppend(l.sent + c, Announce(f.size)); }
    assert l.sent + [] == l.sent && l.sent + c + [] == l.sent + c;
  }

  /** The announcement comes with each attempt up to the first that succeeds, and not after it. */
  lemma ScriptGrows(l: Log, f: OFrame, outcome: Outcome, failures: nat)
    requires Partial(l, f, failures)
    ensures AsScripted(Extended(l, f, outcome))
  {
    hide Chunks, NextChunk, StaleEnd, ChunkSizes, Contents, R.Flat, Lengths;
    var chunks, size := Chunks(l.sent), |l.data|;
    var before := Announces(l.early, size);
    if chunks != [] { FirstChunkGone(l, f, failures); }
    SentNowShape(l, f, outcome);
    if outcome.Ok? {
      var chunk := NextChunk(f);
      Regroup(before, Script(chunks, size), SentNow(f, Ok));
      ScriptAppend(chunks, chunk, size);
      if chunks == [] {
        assert [Chunk(chunk)] + [Announce(f.size)] == [Chunk(chunk), Announce(size)];
      } else {
        assert [Chunk(chunk)] + [] == [Chunk(chunk)];
      }
    } else if chunks == [] {
      assert Announces(l.early, size) + [Announce(size)] == Announces(l.early + 1, size);
      assert [] + [Announce(size)] == [Announce(size)];
      assert before + [] == before;
    } else {
      assert l.sent + ([] + []) == l.sent;
    }
  }

  lemma ScriptAppend(chunks: seq<seq<Byte>>, chunk: seq<Byte>, size: nat)
    ensures Script(chunks + [chunk], size)
      == Script(chunks, size) + if chunks == [] then [Chunk(chunk), Announce(size)] else [Chunk(chunk)]
  {
    if chunks == [] {
      assert AsSent([]) == [];
      assert ([] + [chunk])[1..] == [];
    } else {
      assert (chunks + [chunk])[1..] == chunks[1..] + [chunk];
      assert AsSent(chunks[1..] + [chunk]) == AsSent(chunks[1..]) + [Chunk(chunk)];
    }
  }

  lemma FirstChunkGone(l: Log, f: OFrame, failures: nat)
    requires Partial(l, f, failures) && Chunks(l.sent) != []
    ensures f.length != f.size
  {
    var chunks := Chunks(l.sent);
    assert Lengths(chunks)[0] == ChunkSizes(|l.data|)[0] > 0;
    assert R.Flat(chunks) == chunks[0] + R.Flat(chunks[1..]);
  }

  lemma FinishPartial(l: Log, f: OFrame, failures: nat)
    requires Partial(l, f, failures) && f.length > FIFO_SPACE
    ensures Partial(Extended(l, f, Ok), Remove(f, ChunkLength(f.length)), failures)
  {
    var rest, chunks := Remove(f, FIFO_SPACE), Chunks(l.sent);
    ScriptGrows(l, f, Ok, failures);
    StaleAfterChunk(l, f, failures);
    SentNowShape(l, f, Ok);
    ChunkAndRest(f);
    FlatPush(chunks, NextChunk(f));
    hide StaleEnd, AsScripted, Contents, NextChunk, Remove, Chunks, ChunkSizes, SentNow, NewFrame;
    Regroup(R.Flat(chunks), NextChunk(f), Contents(rest));
    Regroup(Lengths(chunks), [FIFO_SPACE], ChunkSizes(rest.length));
    assert chunks + [NextChunk(f)] != [];
    hide R.Flat, Lengths, RoundUp4, ChunkLength;
  }

  /** A full chunk is the front of the data, and what is left is the rest. */
  lemma ChunkAndRest(f: OFrame)
    requires f.length > FIFO_SPACE
    ensures ChunkLength(f.length) == |NextChunk(f)| == FIFO_SPACE
    ensures var rest := Remove(f, FIFO_SPACE);
      && Contents(f) == NextChunk(f) + Contents(rest) && rest.length == f.length - FIFO_SPACE && rest.size == f.size
      && ChunkSizes(f.length) == [FIFO_SPACE] + ChunkSizes(rest.length)
  {
  }

  lemma ShortChunk(f: OFrame)
    requires 0 < f.length <= FIFO_SPACE
    ensures ChunkSizes(f.length) == [|NextChunk(f)|]
  {
  }

  lemma FinishComplete(l: Log, f: OFrame, failures: nat)
    requires Partial(l, f, failures) && f.length <= FIFO_SPACE
    ensures Complete(Extended(l, f, Ok), failures)
  {
    hide AsScripted, StaleEnd, Chunks, R.Flat, NewFrame, NextChunk, Padding, Contents, SentNow, Lengths, RoundUp4;
    SentNowShape(l, f, Ok);
    var chunks, chunk := Chunks(l.sent), NextChunk(f);
    FlatPush(chunks, chunk);
    ShortChunk(f);
    LastChunk(l, f, failures);
    Regroup(R.Flat(chunks), Contents(f), Padding(l.data));
    ScriptGrows(l, f, Ok, failures);
  }

  /** A frame of at most one chunk is sent whole, and padded with zeros. */
  lemma SingleChunk(l: Log, f: OFrame, failures: nat)
    requires Partial(l, f, failures) && |l.data| <= FIFO_SPACE
    ensures Chunks(l.sent) == [] && NextChunk(f) == l.data + Zeros(RoundUp4(|l.data|) - |l.data|)
  {
    hide StaleEnd, AsScripted;
    assert |ChunkSizes(|l.data|)| == 1 && |ChunkSizes(f.length)| >= 1;
    assert |Lengths(Chunks(l.sent))| == 0;
  }

  lemma FinishFailed(l: Log, f: OFrame, outcome: Outcome, failures: nat)
    requires Partial(l, f, failures) && failures > 0 && !outcome.Ok?
    ensures Partial(Extended(l, f, outcome), f, failures)
  {
    hide AsScripted, StaleEnd, SentNow;
    ScriptGrows(l, f, outcome, failures);
    SentNowShape(l, f, outcome);
    assert Chunks(l.sent) + [] == Chunks(l.sent);
  }

  lemma FinishLogs(s: State)
    requires LogsOk(s.logs, s.pending, Failures(s)) && s.sending.Some? && s.pending.Some?
    requires Failures(s) == 0 ==> s.sending.value.Ok?
    ensures var t := FinishStep(s); LogsOk(t.logs, t.pending, Failures(s))
  {
    hide Complete, Partial, Remove, Extended, ChunkLength;
    var f, outcome, k := s.pending.value, s.sending.value, |s.logs| - 1;
    var l := s.logs[k];
    PartialLives(l, f, Failures(s));
    if !outcome.Ok? {
      FinishFailed(l, f, outcome, Failures(s));
    } else if f.length > FIFO_SPACE {
      FinishPartial(l, f, Failures(s));
      RestLives(f);
    } else {
      FinishComplete(l, f, Failures(s));
      RestLives(f);
    }
  }

  lemma PartialLives(l: Log, f: OFrame, failures: nat)
    requires Partial(l, f, failures)
    ensures f.length > 0
  {
  }

  lemma RestLives(f: OFrame)
    requires f.length > 0
    ensures Remove(f, ChunkLength(f.length)).length == 0 <==> f.length <= FIFO_SPACE
  {
  }

  lemma FinishPreserves(s: State)
    requires Preserved(s) && s.sending.Some? && s.pending.Some?
    ensures Preserved(FinishStep(s))
  {
    hide Complete, Partial, QueueOk, Remove, SentNow;
    FinishLogs(s);
    QueueKept(s, FinishStep(s));
    assert s.logs != [];
    hide LogsOk;
  }

  lemma QueueKept(s: State, t: State)
    requires QueueOk(s) && t.queued == s.queued && t.written == s.written && |t.logs| == |s.logs|
    requires forall i :: 0 <= i < |s.logs| ==> t.logs[i].data == s.logs[i].data
    requires t.handler == s.handler
    ensures QueueOk(t)
  {
  }

  lemma MoreFailures(s: State, t: State)
    requires Preserved(s) && t.logs == s.logs && t.pending == s.pending && Failures(s) <= Failures(t)
    ensures LogsOk(t.logs, t.pending, Failures(t))
  {
  }

  lemma SendPreserves(s: State, outcome: Outcome)
    requires Preserved(s) && s.sending.None?
    ensures Preserved(SendStep(s, outcome))
  {
    GrabPreserves(s);
    var g := Grab(s);
    hide Grab;
    MoreFailures(g, SendStep(s, outcome));
    hide LogsOk;
    QueueKept(g, SendStep(s, outcome));
    hide QueueOk;
  }

  lemma QueueSame(s: State, t: State)
    requires QueueOk(s) && t.queued == s.queued && t.written == s.written && t.logs == s.logs
    requires t.handler == s.handler || t.handler.Idle? || (t.handler.Sampling? && t.handler.data != [])
      || (t.handler.Accepted? && s.handler.Sampling? && t.handler.data == s.handler.data)
    ensures QueueOk(t)
  {
  }

  lemma EnqueuePreserves(s: State, c: Config)
    requires Preserved(s) && s.handler.Accepted?
    ensures Preserved(Step(s, Enqueue, c))
  {
    hide LogsOk, NewFrame;
  }

  lemma QuietPreserves(s: State, e: Event, c: Config)
    requires Preserved(s) && (e.WriteCall? || e.SamplePending? || e.Check? || e.Completed?)
    ensures Preserved(Step(s, e, c))
  {
    hide LogsOk;
    QueueSame(s, Step(s, e, c));
    hide QueueOk;
  }

  lemma PreservedStep(s: State, e: Event, c: Config)
    requires Preserved(s)
    ensures Preserved(Step(s, e, c))
  {
    hide Preserved;
    if Enabled(s, e, c) {
      match e
      case Send(outcome) =>
        assert s.sending.None?;
        SendPreserves(s, outcome);
      case Finish => FinishPreserves(s);
      case Enqueue => EnqueuePreserves(s, c);
      case _ => QuietPreserves(s, e, c);
    }
  }

  lemma {:induction false} PreservedRun(s: State, events: seq<Event>, c: Config)
    requires Preserved(s)
    ensures Preserved(Run(s, events, c))
    decreases |events|
  {
    if events != [] {
      PreservedStep(s, events[0], c);
      PreservedRun(Step(s, events[0], c), events[1..], c);
    }
  }

  /** Transmission preserves the data, in every interleaving and even when sends fail: the frames
      begun are the written buffers in order; all but the last begun are complete, that is, sent in
      chunks of exactly the reference lengths whose bytes, cut to the frame's length, are the
      buffer; of the last, what was sent and what its frame still holds are the buffer; the rest is
      queued. Without failures each frame is announced once, with its length, after its first chunk. */
  lemma ChunkingPreservesData(events: seq<Event>, c: Config)
    ensures var s := Run(INIT, events, c);
      && |s.logs| + |s.queued| == |s.written|
      && (forall i :: 0 <= i < |s.logs| ==> s.logs[i].data == s.written[i])
      && (forall i :: 0 <= i < |s.queued| ==> s.queued[i] == NewFrame(s.written[|s.logs| + i]))
      && LogsOk(s.logs, s.pending, Failures(s))
  {
    hide *;
    StartsWell(c);
    PreservedRun(INIT, events, c);
    PreservedMeans(Run(INIT, events, c));
  }

  lemma WrittenNotEmpty(events: seq<Event>, c: Config)
    ensures var s := Run(INIT, events, c);
      |s.logs| <= |s.written| && forall i :: 0 <= i < |s.logs| ==> s.logs[i].data != []
  {
    hide Run, LogsOk, NewFrame;
    StartsWell(c);
    PreservedRun(INIT, events, c);
  }

  lemma PreservedMeans(s: State)
    requires Preserved(s)
    ensures |s.logs| + |s.queued| == |s.written|
    ensures forall i :: 0 <= i < |s.logs| ==> s.logs[i].data == s.written[i]
    ensures forall i :: 0 <= i < |s.queued| ==> s.queued[i] == NewFrame(s.written[|s.logs| + i])
    ensures LogsOk(s.logs, s.pending, Failures(s))
  {
  }

  /** What fills the last word of a frame, in every run: behind the written bytes come zeros if the
      frame fits one chunk, and otherwise its own bytes from one chunk before its end. The padding
      is zero if and only if there was one chunk or those bytes are zero. */
  lemma LaterPaddingIsStale(events: seq<Event>, c: Config, i: nat)
    requires var s := Run(INIT, events, c); i + (if s.pending.Some? then 1 else 0) < |s.logs|
    ensures i < |Run(INIT, events, c).written|
    ensures var s := Run(INIT, events, c); var data := s.written[i];
      var sent, pad := R.Flat(Chunks(s.logs[i].sent)), RoundUp4(|data|) - |data|;
      && sent == data + Padding(data)
      && (|data| > 4092 ==> sent == data + data[|data| - 4092..][..pad])
      && (AllZero(sent[|data|..]) <==> |data| <= 4092 || AllZero(data[|data| - 4092..][..pad]))
  {
    hide Run, Chunks, R.Flat, NewFrame, AsScripted, Padding, AllZero, Partial;
    ChunkingPreservesData(events, c);
    PaddingOf(Run(INIT, events, c).written[i]);
  }

  lemma PaddingOf(data: seq<Byte>)
    ensures (data + Padding(data))[|data|..] == Padding(data)
    ensures |data| > FIFO_SPACE ==> Padding(data) == data[|data| - FIFO_SPACE..][..RoundUp4(|data|) - |data|]
    ensures |data| <= FIFO_SPACE ==> AllZero(Padding(data))
  {
  }

  function Announcements(sent: seq<Sent>): nat {
    if sent == [] then 0
    else Announcements(sent[..|sent| - 1]) + if sent[|sent| - 1].Announce? then 1 else 0
  }

  lemma {:induction false} AnnouncementsJoin(a: seq<Sent>, b: seq<Sent>)
    ensures Announcements(a + b) == Announcements(a) + Announcements(b)
  {
    if b == [] {
      assert a + b == a;
    } else {
      var front := b[..|b| - 1];
      AnnouncementsJoin(a, front);
      assert (a + b)[..|a + b| - 1] == a + front;
    }
  }

  lemma {:induction false} AnnouncementsOf(n: nat, size: nat)
    ensures Announcements(Announces(n, size)) == n
  {
    if n > 0 {
      AnnouncementsOf(n - 1, size);
      assert Announces(n, size)[..n - 1] == Announces(n - 1, size);
    }
  }

  lemma {:induction false} NoAnnouncements(chunks: seq<seq<Byte>>)
    ensures Announcements(AsSent(chunks)) == 0
  {
    if chunks != [] {
      NoAnnouncements(chunks[..|chunks| - 1]);
      assert AsSent(chunks)[..|chunks| - 1] == AsSent(chunks[..|chunks| - 1]);
    }
  }

  lemma HeadAnnounces(chunk: seq<Byte>, size: nat)
    ensures Announcements([Chunk(chunk), Announce(size)]) == 1
  {
    var head := [Chunk(chunk), Announce(size)];
    assert head[..1] == [Chunk(chunk)];
    assert Announcements(head[..1]) == Announcements(head[..1][..0]) + 0;
  }

  lemma ScriptAnnounces(l: Log)
    requires AsScripted(l)
    ensures Announcements(l.sent) == l.early + if Chunks(l.sent) == [] then 0 else 1
  {
    var chunks, size := Chunks(l.sent), |l.data|;
    hide Chunks;
    AnnouncementsJoin(Announces(l.early, size), Script(chunks, size));
    AnnouncementsOf(l.early, size);
    if chunks != [] {
      var head := [Chunk(chunks[0]), Announce(size)];
      AnnouncementsJoin(head, AsSent(chunks[1..]));
      NoAnnouncements(chunks[1..]);
      HeadAnnounces(chunks[0], size);
    }
  }

  /** How often a frame's size is announced, in every run: once for each attempt that failed before
      its first chunk, and once with that chunk. */
  lemma AnnouncedOften(events: seq<Event>, c: Config, i: nat)
    requires i < |Run(INIT, events, c).logs|
    ensures var l := Run(INIT, events, c).logs[i];
      && Announcements(l.sent) == l.early + (if Chunks(l.sent) == [] then 0 else 1)
      && l.sent == Announces(l.early, |l.data|) + Script(Chunks(l.sent), |l.data|)
  {
    hide Run, Chunks, StaleEnd;
    ChunkingPreservesData(events, c);
    ScriptAnnounces(Run(INIT, events, c).logs[i]);
  }

  // ---- when sending stops ----

  /** A round that sends a frame of one byte whole, and is not completed. */
  predicate Emptied(s: State, n: nat) {
    && s.queued == [] && s.estimate == 0 && s.pending.None? && s.handler.Idle? && s.passed == 0 && s.sending.None?
    && s.outstanding == s.writesInFlight == n && s.failed == 0
  }

  const WRITING: seq<Event> := [WriteCall([0]), SamplePending, Enqueue]

  lemma OneMore(s: State, n: nat, c: Config)
    requires Emptied(s, n) && n <= c.maxPendingWrites && c.cap > 0 && c.workers > 0
    ensures Emptied(Run(Run(s, WRITING, c), SENDING, c), n + 1)
  {
    RunThree(s, WriteCall([0]), SamplePending, Enqueue, c);
    var t := Run(s, WRITING, c);
    assert t.queued == [] + [NewFrame([0])] && t.estimate == 1;
    TurnOf(t, Ok, c);
    var f := NewFrame([0]);
    assert Grab(t).pending == Some(f) && Grab(t).estimate == 0 && f.length == 1;
    assert Remove(f, ChunkLength(f.length)).length == 0;
  }

  /** The maximum and one more writes can be outstanding: without completions, one byte at a time. */
  lemma {:induction false} MaximumIsExceeded(s: State, n: nat, c: Config) returns (events: seq<Event>)
    requires Emptied(s, n) && n <= c.maxPendingWrites + 1 && c.cap > 0 && c.workers > 0
    ensures Run(s, events, c).outstanding == c.maxPendingWrites + 1
    decreases c.maxPendingWrites + 1 - n
  {
    if n == c.maxPendingWrites + 1 {
      events := [];
    } else {
      OneMore(s, n, c);
      hide Emptied, Step;
      var t := Run(s, WRITING, c);
      var rest := MaximumIsExceeded(Run(t, SENDING, c), n + 1, c);
      RunJoin(t, SENDING, rest, c);
      RunJoin(s, WRITING, SENDING + rest, c);
      events := WRITING + (SENDING + rest);
    }
  }

  /** The bound of the throttle is reached from the beginning. */
  lemma ThrottleBoundReached(c: Config) returns (events: seq<Event>)
    requires c.cap > 0 && c.workers > 0
    ensures Run(INIT, events, c).outstanding == c.maxPendingWrites + 1
  {
    events := MaximumIsExceeded(INIT, 0, c);
  }

  lemma RunJoin(s: State, a: seq<Event>, b: seq<Event>, c: Config)
    ensures Run(s, a + b, c) == Run(Run(s, a, c), b, c)
    decreases |a|
  {
    hide Step;
    if a == [] {
      assert a + b == b;
    } else {
      assert (a + b)[1..] == a[1..] + b;
      RunJoin(Step(s, a[0], c), a[1..], b, c);
    }
  }

  lemma RunThree(s: State, x: Event, y: Event, z: Event, c: Config)
    ensures Run(s, [x, y, z], c) == Step(Step(Step(s, x, c), y, c), z, c)
  {
    hide Step;
    var e := [x, y, z];
    assert e[1..] == [y, z] && [y, z][1..] == [z] && [z][1..] == [];
    assert Run(Step(s, x, c), [y, z], c) == Run(Step(Step(s, x, c), y, c), [z], c);
    assert Run(Step(Step(Step(s, x, c), y, c), z, c), [], c) == Step(Step(Step(s, x, c), y, c), z, c);
  }

  /** No worker is past the throttle, and there is data to send. */
  predicate AtRest(s: State) {
    s.passed == 0 && s.sending.None? && PendingLength(Grab(s)) > 0
  }

  const FAILING: seq<Event> := [Check, Send(SendFailed), Finish]
  const SENDING: seq<Event> := [Check, Send(Ok), Finish]

  lemma GrabKeepsUsage(s: State)
    ensures Usage(Grab(s)) == Usage(s) && Grab(Grab(s)) == Grab(s)
  {
    if s.queued != [] { TotalTail(s.queued); }
  }

  /** A whole turn of a worker that the throttle lets through. */
  lemma TurnOf(s: State, outcome: Outcome, c: Config)
    requires AtRest(s) && s.writesInFlight <= c.maxPendingWrites && c.workers > 0
    ensures var g := Grab(s); var f := g.pending.value;
      var rest := if outcome.Ok? then Remove(f, ChunkLength(f.length)) else f;
      Run(s, [Check, Send(outcome), Finish], c) == g.(
        pending := if rest.length == 0 then None else Some(rest),
        writesInFlight := g.writesInFlight + if outcome.NotMade? then 0 else 1,
        outstanding := g.outstanding + if outcome.Ok? then 1 else 0,
        failed := g.failed + if outcome.SendFailed? then 1 else 0,
        notMade := g.notMade + if outcome.NotMade? then 1 else 0,
        logs := Record(g.logs, f, outcome))
  {
    RunThree(s, Check, Send(outcome), Finish, c);
    var checked := s.(passed := 1);
    assert Step(s, Check, c) == checked;
    assert Grab(checked) == Grab(s).(passed := 1);
    hide Grab, Remove, Record, SentNow, ChunkLength;
  }

  /** A worker's turn whose send fails only moves the count. */
  lemma FailingTurn(s: State, c: Config)
    requires AtRest(s) && s.writesInFlight <= c.maxPendingWrites && c.workers > 0
    ensures var t := Run(s, FAILING, c);
      && AtRest(t) && t.failed == s.failed + 1 && t.writesInFlight == s.writesInFlight + 1
      && t.outstanding == s.outstanding && Usage(t) == Usage(s)
  {
    TurnOf(s, SendFailed, c);
    GrabKeepsUsage(s);
  }

  lemma {:induction false} FailingTurns(s: State, c: Config) returns (events: seq<Event>)
    requires AtRest(s) && s.outstanding == 0 && s.writesInFlight == s.failed <= c.maxPendingWrites + 1
    requires c.workers > 0
    ensures var t := Run(s, events, c);
      && AtRest(t) && t.outstanding == 0 && t.failed == c.maxPendingWrites + 1 && Usage(t) == Usage(s)
    decreases c.maxPendingWrites + 1 - s.failed
  {
    if s.failed == c.maxPendingWrites + 1 {
      events := [];
    } else {
      FailingTurn(s, c);
      hide AtRest, Usage, Step;
      var rest := FailingTurns(Run(s, FAILING, c), c);
      RunJoin(s, FAILING, rest, c);
      events := FAILING + rest;
    }
  }

  /** The stall is reached: from the beginning, after one write that the cap admits, by one failing
      send more than the maximum. */
  lemma StallIsReached(data: seq<Byte>, c: Config) returns (events: seq<Event>)
    requires 0 < |data| <= c.cap && |data| <= U32 - 4 && c.workers > 0
    ensures var s := Run(INIT, events, c);
      && s.failed == c.maxPendingWrites + 1 && s.outstanding == 0 && AtRest(s) && Usage(s) == |data|
  {
    var write: seq<Event> := [WriteCall(data), SamplePending, Enqueue];
    RunThree(INIT, WriteCall(data), SamplePending, Enqueue, c);
    var s := Run(INIT, write, c);
    WrittenOnce(data, c);
    var rest := FailingTurns(s, c);
    RunJoin(INIT, write, rest, c);
    events := write + rest;
  }

  lemma WrittenOnce(data: seq<Byte>, c: Config)
    requires 0 < |data| <= c.cap && |data| <= U32 - 4
    ensures var s := Step(Step(Step(INIT, WriteCall(data), c), SamplePending, c), Enqueue, c);
      && AtRest(s) && s.outstanding == 0 && s.writesInFlight == s.failed == 0 && Usage(s) == |data|
  {
    var s := Step(Step(Step(INIT, WriteCall(data), c), SamplePending, c), Enqueue, c);
    assert s.queued == [NewFrame(data)] && s.pending.None?;
    assert TotalLength(s.queued) == TotalLength([]) + |data|;
  }

  /** With nothing outstanding, the throttle is open exactly as long as no more sends than the
      maximum have failed. */
  lemma ThrottleOpens(s: State, c: Config)
    requires Throttled(s, c) && Inside(s) == 0 && s.outstanding == 0 && c.workers > 0
    ensures Enabled(s, Check, c) <==> s.failed <= c.maxPendingWrites
  {
  }

  lemma {:induction false} AllComplete(s: State, c: Config) returns (events: seq<Event>)
    ensures Run(s, events, c) == s.(outstanding := 0, writesInFlight := s.writesInFlight - s.outstanding)
    decreases s.outstanding
  {
    if s.outstanding == 0 {
      events := [];
    } else {
      var rest := AllComplete(Step(s, Completed, c), c);
      events := [Completed] + rest;
      assert events[1..] == rest;
    }
  }

  /** A chunk of some frame has gone out between two states. */
  ghost predicate SentSince(s: State, t: State) {
    exists i :: 0 <= i < |t.logs| &&
      |Chunks(t.logs[i].sent)| > if i < |s.logs| then |Chunks(s.logs[i].sent)| else 0
  }

  ghost predicate CanStillSend(s: State, c: Config) {
    exists events :: SentSince(s, Run(s, events, c))
  }

  lemma SendingTurn(s: State, c: Config)
    requires Preserved(s) && AtRest(s) && s.writesInFlight <= c.maxPendingWrites && c.workers > 0
    ensures SentSince(s, Run(s, SENDING, c))
  {
    TurnOf(s, Ok, c);
    var g, t := Grab(s), Run(s, SENDING, c);
    var f, k := g.pending.value, |g.logs| - 1;
    GrabPreserves(s);
    assert g.logs != [];
    SentNowShape(g.logs[k], f, Ok);
    assert t.logs[k] == Extended(g.logs[k], f, Ok);
    assert k < |s.logs| ==> g.logs[k] == s.logs[k];
    assert |Chunks(t.logs[k].sent)| == |Chunks(g.logs[k].sent)| + 1;
  }

  /** Exactly when sending has stopped: in every reachable state at rest with data to send, some
      continuation sends a chunk if and only if no more sends than the maximum have failed. */
  lemma StallExactly(before: seq<Event>, c: Config)
    requires AtRest(Run(INIT, before, c)) && c.workers > 0
    ensures var s := Run(INIT, before, c);
      CanStillSend(s, c) <==> s.failed <= c.maxPendingWrites
  {
    hide *;
    var s := Run(INIT, before, c);
    StartsWell(c);
    ThrottledRun(INIT, before, c);
    PreservedRun(INIT, before, c);
    if s.failed <= c.maxPendingWrites {
      StillSends(s, c);
    } else {
      NeverSends(s, c);
    }
  }

  lemma StartsWell(c: Config)
    ensures Throttled(INIT, c) && Preserved(INIT)
  {
  }

  lemma StillSends(s: State, c: Config)
    requires AtRest(s) && Throttled(s, c) && Preserved(s) && s.failed <= c.maxPendingWrites && c.workers > 0
    ensures CanStillSend(s, c)
  {
    hide AtRest, Throttled, Preserved, Step, Grab, Run;
    var completions := AllComplete(s, c);
    var t := Run(s, completions, c);
    CompletedKeeps(s, t, c);
    SendingTurn(t, c);
    RunJoin(s, completions, SENDING, c);
    SameLogs(s, t, Run(t, SENDING, c));
    assert SentSince(s, Run(s, completions + SENDING, c));
  }

  lemma CompletedKeeps(s: State, t: State, c: Config)
    requires AtRest(s) && Throttled(s, c) && Preserved(s) && s.failed <= c.maxPendingWrites
    requires t == s.(outstanding := 0, writesInFlight := s.writesInFlight - s.outstanding)
    ensures AtRest(t) && Preserved(t) && t.writesInFlight <= c.maxPendingWrites && t.logs == s.logs
  {
    hide QueueOk, LogsOk;
    QueueSame(s, t);
    assert Grab(t) == Grab(s).(outstanding := 0, writesInFlight := t.writesInFlight);
  }

  lemma SameLogs(s: State, t: State, u: State)
    requires t.logs == s.logs && SentSince(t, u)
    ensures SentSince(s, u)
  {
  }

  lemma NeverSends(s: State, c: Config)
    requires AtRest(s) && Throttled(s, c) && s.failed > c.maxPendingWrites
    ensures !CanStillSend(s, c)
  {
    forall events ensures !SentSince(s, Run(s, events, c)) {
      FailuresStall(s, events, c);
      hide Run, Chunks;
    }
  }
}
