/** The receive path as a machine over values (`src/isr.c:400-444`, `src/isr.c:535-546`,
    `src/isr.c:595-673`).

    Packets append to one byte stream, frame sizes arrive separately, and the worker cuts
    the stream into frames. The steps interleave in any order. `ReceivePort` runs the same
    steps on the driver's own frames and lists. */
module Receive {
  import opened CTypes
  import opened Frames

  /** A frame whose size is known and whose bytes are still coming in. */
  datatype Pending = Pending(size: Unsigned, data: seq<Byte>, lost: Unsigned)

  /** History of one finished frame: announced size, bytes charged as lost, bytes queued. */
  datatype Done = Done(size: nat, lost: nat, data: seq<Byte>)

  datatype State = State(
    istream: seq<Byte>,
    pending: seq<Pending>, pendingEstimate: Unsigned, // pending_iframes
    queued: seq<seq<Byte>>, queuedEstimate: Unsigned, // queued_iframes
    accepted: seq<Byte>,    // history: every byte appended to the stream
    sizes: seq<nat>,        // history: every size turned into a pending frame
    done: seq<Done>,        // history: every frame the worker finished
    read: nat)              // history: how many of them a reader has taken

  datatype Event =
    | Append(data: seq<Byte>)                                 // add to the stream
    | Charge(lost: nat)                                       // charge lost bytes to the newest pending frame
    | Received(payload: seq<Byte>, cap: nat, streaming: bool) // a whole packet, as one step
    | Announce(size: nat)                                     // a size read completes
    | Cut                                                     // one round of the worker's loop
    | Read(count: nat)                                        // a reader takes queued frames

  const INIT := State([], [], 0, [], 0, [], [], [], 0)

  function Flat(frames: seq<seq<Byte>>): seq<Byte> {
    if frames == [] then [] else frames[0] + Flat(frames[1..])
  }

  /** The bytes held by a list of frames. */
  function Total(frames: seq<seq<Byte>>): nat {
    |Flat(frames)|
  }

  // ---- the steps ----

  function AppendStep(s: State, data: seq<Byte>): State {
    s.(istream := s.istream + data, accepted := s.accepted + data)
  }

  function ChargeStep(s: State, lost: nat): State {
    if s.pending == [] then s else
      var k := |s.pending| - 1;
      s.(pending := s.pending[k := s.pending[k].(lost := AddU32(s.pending[k].lost, lost))])
  }

  /** What the driver believes it holds (`synccom_port_get_input_memory_usage`). */
  function Usage(s: State): nat {
    AddU32(AddU32(s.queuedEstimate, |s.istream|), s.pendingEstimate)
  }

  /** How many bytes of a payload still fit under the cap. */
  function Kept(usage: nat, payload: nat, cap: nat): (kept: nat)
    ensures kept <= payload
  {
    if payload + usage <= cap then payload else if usage >= cap then 0 else cap - usage
  }

  /** What a packet that does not fit does to the newest pending frame. */
  function DropStep(s: State, lost: nat, streaming: bool): State {
    if lost > 0 && !streaming then ChargeStep(s, lost) else s
  }

  function ReceivedStep(s: State, payload: seq<Byte>, cap: nat, streaming: bool): State {
    var kept := Kept(Usage(s), |payload|, cap);
    AppendStep(DropStep(s, |payload| - kept, streaming), payload[..kept])
  }

  /** A packet is kept as far as it fits: the bytes taken are the longest prefix of the payload that
      leaves the usage within the cap, and the newest pending frame, but for streams, is charged
      with exactly the rest. Nothing else changes. */
  lemma LongestPrefixKept(s: State, payload: seq<Byte>, cap: nat, streaming: bool)
    ensures
      var t := ReceivedStep(s, payload, cap, streaming);
      var kept := |t.istream| - |s.istream|;
      && 0 <= kept <= |payload|
      && (kept > 0 ==> Usage(s) + kept <= cap)
      && (kept < |payload| ==> Usage(s) + kept >= cap)
      && t.istream == s.istream + payload[..kept] && t.accepted == s.accepted + payload[..kept]
      && t == s.(istream := t.istream, accepted := t.accepted, pending := t.pending)
      && ChargedNewest(s.pending, t.pending, if streaming then 0 else |payload| - kept)
  {
    var kept := Kept(Usage(s), |payload|, cap);
    hide Usage;
    ChargeNothing(s);
  }

  lemma ChargeNothing(s: State)
    ensures ChargeStep(s, 0) == s
  {
    if s.pending != [] {
      assert s.pending[|s.pending| - 1 := s.pending[|s.pending| - 1]] == s.pending;
    }
  }

  /** The frames after `lost` bytes were charged to the last of them, modulo 2^32. */
  ghost predicate ChargedNewest(before: seq<Pending>, after: seq<Pending>, lost: nat) {
    && |after| == |before|
    && (forall i :: 0 <= i < |before| - 1 ==> after[i] == before[i])
    && (before != [] ==>
          var k := |before| - 1;
          && after[k].size == before[k].size && after[k].data == before[k].data
          && after[k].lost == (before[k].lost + lost) % 0x1_0000_0000)
  }

  function AnnounceStep(s: State, size: Unsigned): State {
    s.(pending := s.pending + [Pending(size, [], 0)], sizes := s.sizes + [size])
  }

  predicate CanCut(s: State) {
    s.istream != [] && s.pending != []
  }

  /** What the front frame takes from the stream: up to its (wrapping) room. */
  function Taken(s: State): (amount: nat)
    requires CanCut(s)
    ensures amount <= |s.istream|
  {
    var f := s.pending[0];
    Min(|s.istream|, SubU32(f.size, |f.data| + f.lost))
  }

  /** Copies what the stream has into the front frame. */
  function FillStep(s: State): State
    requires CanCut(s)
  {
    var f, amount := s.pending[0], Taken(s);
    s.(istream := s.istream[amount..], pending := s.pending[0 := f.(data := f.data + s.istream[..amount])])
  }

  /** The front frame has all the bytes it will get. */
  predicate Full(f: Pending) {
    AddU32(|f.data|, f.lost) >= f.size
  }

  /** Moves the front frame, cut to its size, to the queue. */
  function FinishStep(s: State): State
    requires s.pending != []
  {
    var f := s.pending[0];
    var finished := f.data[..Min(|f.data|, SubU32(f.size, 0))];
    s.(pending := s.pending[1..],
       pendingEstimate := SubU32(s.pendingEstimate, |f.data| - |finished|),
       queued := s.queued + [finished],
       queuedEstimate := AddU32(s.queuedEstimate, |finished|),
       done := s.done + [Done(f.size, f.lost, finished)])
  }

  function DiscardStep(s: State): State
    requires s.pending != []
  {
    s.(pending := s.pending[1..], pendingEstimate := SubU32(s.pendingEstimate, |s.pending[0].data|))
  }

  /** One round of the loop of `iframe_worker`. */
  function CutStep(s: State): State
    requires CanCut(s)
  {
    if s.pending[0].size == 0 then DiscardStep(s)
    else
      var t := FillStep(s);
      if Full(t.pending[0]) then FinishStep(t) else t
  }

  function ReadStep(s: State, count: nat): State
    requires count <= |s.queued|
  {
    s.(queued := s.queued[count..],
       queuedEstimate := SubU32(s.queuedEstimate, Total(s.queued[..count])),
       read := s.read + count)
  }

  predicate Enabled(s: State, e: Event) {
    match e
    case Announce(size) => 0 < size < U32
    case Cut => CanCut(s)
    case Read(count) => count <= |s.queued|
    case _ => true
  }

  function Step(s: State, e: Event): State {
    if !Enabled(s, e) then s else
    match e
    case Append(data) => AppendStep(s, data)
    case Charge(lost) => ChargeStep(s, lost)
    case Received(payload, cap, streaming) => ReceivedStep(s, payload, cap, streaming)
    case Announce(size) => AnnounceStep(s, size)
    case Cut => CutStep(s)
    case Read(count) => ReadStep(s, count)
  }

  function Run(s: State, events: seq<Event>): State
    decreases |events|
  {
    if events == [] then s else Run(Step(s, events[0]), events[1..])
  }

  /** Rounds of the worker until nothing is left to cut. */
  function Worker(s: State): (t: State)
    ensures !CanCut(t)
    decreases CutRounds(s)
  {
    if CanCut(s) then CutTerminates(s); Worker(CutStep(s)) else s
  }

  /** The worker's loop runs at most this often. */
  function CutRounds(s: State): nat {
    |s.pending| + if s.istream == [] then 0 else 1
  }

  /** Every round finishes a frame or uses up the stream, even when losses exceed a frame's size. */
  lemma CutTerminates(s: State)
    requires CanCut(s)
    ensures CutRounds(CutStep(s)) < CutRounds(s)
  {
  }

  // ---- when frames fit ----

  /** The cut finishes the front frame. */
  predicate Finishes(s: State)
    requires CanCut(s)
  {
    AddU32(|s.pending[0].data| + Taken(s), s.pending[0].lost) >= s.pending[0].size
  }

  /** The bytes a round of the worker drops: what the frame has beyond its size when it is
      finished. (A frame of size 0, which is never announced, would be dropped whole.) */
  function Vanishing(s: State): nat
    requires CanCut(s)
  {
    var f := s.pending[0];
    var n := |f.data| + Taken(s);
    if f.size == 0 then |f.data| else if Finishes(s) && n > f.size then n - f.size else 0
  }

  /** How many bytes an event drops. */
  function Dropped(s: State, e: Event): nat {
    if e.Cut? && CanCut(s) then Vanishing(s) else 0
  }

  /** A round that leaves the frame unfinished leaves it below its size. Only a loss counter that
      has wrapped around makes it otherwise. */
  predicate CutTame(s: State)
    requires CanCut(s)
  {
    !Finishes(s) ==> |s.pending[0].data| + Taken(s) < s.pending[0].size
  }

  /** What the front frame takes fits its size, and is below it while the frame is unfinished. */
  predicate Fitting(s: State, e: Event) {
    Dropped(s, e) == 0 && (e.Cut? && CanCut(s) ==> CutTame(s))
  }

  predicate AllFitting(s: State, events: seq<Event>)
    decreases |events|
  {
    events != [] ==> Fitting(s, events[0]) && AllFitting(Step(s, events[0]), events[1..])
  }

  function Front(s: State): seq<Byte> {
    if s.pending == [] then [] else s.pending[0].data
  }

  function DoneData(done: seq<Done>): (r: seq<seq<Byte>>)
    ensures |r| == |done|
  {
    seq(|done|, i requires 0 <= i < |done| => done[i].data)
  }

  function DoneSizes(done: seq<Done>): (r: seq<nat>)
    ensures |r| == |done|
  {
    seq(|done|, i requires 0 <= i < |done| => done[i].size)
  }

  function PendingSizes(pending: seq<Pending>): (r: seq<nat>)
    ensures |r| == |pending|
  {
    seq(|pending|, i requires 0 <= i < |pending| => pending[i].size)
  }

  ghost predicate FrameOk(f: Pending) {
    0 < f.size < U32 && |f.data| < f.size
  }

  ghost predicate PendingOk(pending: seq<Pending>) {
    && (forall i :: 0 <= i < |pending| ==> FrameOk(pending[i]))
    && (forall i :: 1 <= i < |pending| ==> pending[i].data == [])
  }

  /** Finished frames, the partial front frame and the stream are the accepted bytes, in order. */
  ghost predicate Conserved(s: State) {
    Flat(DoneData(s.done)) + Front(s) + s.istream == s.accepted
  }

  /** Frames keep the announced order, and a finished one without losses has the announced size. */
  ghost predicate Sized(s: State) {
    && DoneSizes(s.done) + PendingSizes(s.pending) == s.sizes
    && (forall i :: 0 <= i < |s.done| && s.done[i].lost == 0 ==> |s.done[i].data| == s.done[i].size)
  }

  /** The queue holds the finished frames nobody has read yet, and the estimates are exact. */
  ghost predicate Queued(s: State) {
    && s.read <= |s.done| && s.queued == DoneData(s.done)[s.read..]
    && s.queuedEstimate == Total(s.queued) % U32
    && s.pendingEstimate == 0
  }

  ghost predicate Inv(s: State) {
    PendingOk(s.pending) && Conserved(s) && Sized(s) && Queued(s)
  }

  lemma {:induction false} FlatAppend(a: seq<seq<Byte>>, b: seq<seq<Byte>>)
    ensures Flat(a + b) == Flat(a) + Flat(b)
  {
    if a == [] {
      assert a + b == b;
    } else {
      FlatAppend(a[1..], b);
      FlatHead(a[0], a[1..] + b);
      assert a + b == [a[0]] + (a[1..] + b);
      assert a[0] + (Flat(a[1..]) + Flat(b)) == a[0] + Flat(a[1..]) + Flat(b);
    }
  }

  lemma FlatHead(frame: seq<Byte>, rest: seq<seq<Byte>>)
    ensures Flat([frame] + rest) == frame + Flat(rest)
  {
    assert ([frame] + rest)[1..] == rest;
  }

  lemma FlatOne(frame: seq<Byte>)
    ensures Flat([frame]) == frame
  {
    assert Flat([frame]) == frame + Flat([]);
  }

  lemma InvAppend(s: State, data: seq<Byte>)
    requires Inv(s)
    ensures Inv(AppendStep(s, data))
  {
    assert Flat(DoneData(s.done)) + Front(s) + (s.istream + data) == s.accepted + data;
  }

  lemma InvCharge(s: State, lost: nat)
    requires Inv(s)
    ensures Inv(ChargeStep(s, lost))
    ensures Front(ChargeStep(s, lost)) == Front(s)
  {
    assert PendingSizes(ChargeStep(s, lost).pending) == PendingSizes(s.pending);
  }

  lemma InvAnnounce(s: State, size: nat)
    requires Inv(s) && 0 < size < U32
    ensures Inv(AnnounceStep(s, size))
  {
    var f := Pending(size, [], 0);
    assert PendingSizes(s.pending + [f]) == PendingSizes(s.pending) + [size];
  }

  lemma InvRead(s: State, count: nat)
    requires Inv(s) && count <= |s.queued|
    ensures Inv(ReadStep(s, count))
  {
    var a, b := s.queued[..count], s.queued[count..];
    assert Total(s.queued) == Total(a) + Total(b) by {
      assert s.queued == a + b;
      FlatAppend(a, b);
    }
    SubMod(Total(a) + Total(b), Total(a));
    assert b == DoneData(s.done)[s.read + count..];
  }

  /** Reading twice is reading once. */
  lemma ReadJoin(s: State, a: nat, b: nat)
    requires a + b <= |s.queued|
    ensures ReadStep(ReadStep(s, a), b) == ReadStep(s, a + b)
  {
    var x, y := s.queued[..a], s.queued[a..][..b];
    assert s.queued[..a + b] == x + y && s.queued[a..][b..] == s.queued[a + b..];
    FlatAppend(x, y);
    SubTwice(s.queuedEstimate, Total(x), Total(y));
  }

  lemma ReadLeaves(s: State, count: nat)
    requires count <= |s.queued|
    ensures |ReadStep(s, count).queued| == |s.queued| - count
  {
  }

  lemma SubTwice(e: Unsigned, x: nat, y: nat)
    ensures SubU32(SubU32(e, x), y) == SubU32(e, x + y)
  {
  }

  lemma ReadNone(s: State)
    ensures ReadStep(s, 0) == s
  {
    assert s.queued[..0] == [] && s.queued[0..] == s.queued;
    assert Flat([]) == [];
  }

  lemma SubMod(x: nat, y: nat)
    requires y <= x
    ensures SubU32(x % U32, y) == (x - y) % U32
  {
  }

  lemma InvPartial(s: State)
    requires Inv(s) && CanCut(s) && Fitting(s, Cut) && !Finishes(s)
    ensures Inv(CutStep(s))
  {
    hide Flat, DoneData, DoneSizes, Queued;
    ConservedPartial(s);
    var t := CutStep(s);
    assert PendingSizes(t.pending) == PendingSizes(s.pending);
    PartialQueued(s);
  }

  lemma PartialQueued(s: State)
    requires Queued(s) && CanCut(s) && !Finishes(s) && s.pending[0].size > 0
    ensures Queued(CutStep(s))
  {
  }

  lemma FinishShape(s: State) returns (amount: nat, data: seq<Byte>)
    requires Inv(s) && CanCut(s) && Fitting(s, Cut) && Finishes(s)
    ensures amount <= |s.istream| && data == s.pending[0].data + s.istream[..amount]
    ensures s.pending[0].lost == 0 ==> |data| == s.pending[0].size
    ensures CutStep(s) ==
      s.(istream := s.istream[amount..], pending := s.pending[1..], queued := s.queued + [data],
         queuedEstimate := AddU32(s.queuedEstimate, |data|),
         done := s.done + [Done(s.pending[0].size, s.pending[0].lost, data)])
  {
    var f := s.pending[0];
    amount := Taken(s);
    data := f.data + s.istream[..amount];
    assert data[..|data|] == data;
  }

  lemma FinishSized(s: State)
    requires Inv(s) && CanCut(s) && Fitting(s, Cut) && Finishes(s)
    ensures Sized(CutStep(s))
  {
    var amount, data := FinishShape(s);
    var t := CutStep(s);
    assert DoneSizes(t.done) == DoneSizes(s.done) + [s.pending[0].size];
    assert PendingSizes(s.pending) == [s.pending[0].size] + PendingSizes(t.pending);
  }

  lemma FinishQueued(s: State)
    requires Inv(s) && CanCut(s) && Fitting(s, Cut) && Finishes(s)
    ensures Queued(CutStep(s))
  {
    hide PendingOk, Conserved, Sized, CanCut, Finishes, CutStep;
    var amount, data := FinishShape(s);
    var t := CutStep(s);
    assert t.queued == DoneData(t.done)[t.read..] by {
      assert DoneData(t.done) == DoneData(s.done) + [data];
    }
    assert Total(t.queued) == Total(s.queued) + |data| by {
      FlatAppend(s.queued, [data]);
      FlatOne(data);
    }
  }

  lemma InvCut(s: State)
    requires Inv(s) && CanCut(s) && Fitting(s, Cut)
    ensures Inv(CutStep(s))
  {
    if Finishes(s) {
      var _, _ := FinishShape(s);
      ConservedFinish(s);
      FinishSized(s);
      FinishQueued(s);
    } else {
      InvPartial(s);
    }
  }

  lemma InvDrop(s: State, lost: nat, streaming: bool)
    requires Inv(s)
    ensures Inv(DropStep(s, lost, streaming))
    ensures Front(DropStep(s, lost, streaming)) == Front(s)
  {
    if lost > 0 && !streaming { InvCharge(s, lost); }
  }

  lemma InvReceived(s: State, payload: seq<Byte>, cap: nat, streaming: bool)
    requires Inv(s)
    ensures Inv(ReceivedStep(s, payload, cap, streaming))
  {
    hide Inv;
    var kept := Kept(Usage(s), |payload|, cap);
    var t := DropStep(s, |payload| - kept, streaming);
    assert Inv(t) by { InvDrop(s, |payload| - kept, streaming); }
    assert Inv(AppendStep(t, payload[..kept])) by { InvAppend(t, payload[..kept]); }
  }

  lemma InvStep(s: State, e: Event)
    requires Inv(s) && Fitting(s, e)
    ensures Inv(Step(s, e))
  {
    if Enabled(s, e) {
      match e
      case Append(data) => InvAppend(s, data);
      case Charge(lost) => InvCharge(s, lost);
      case Received(payload, cap, streaming) => InvReceived(s, payload, cap, streaming);
      case Announce(size) => InvAnnounce(s, size);
      case Cut => InvCut(s);
      case Read(count) => InvRead(s, count);
    }
  }

  lemma StartsWell()
    ensures Inv(INIT)
  {
    assert Flat([]) == [];
  }

  lemma {:induction false} InvRun(s: State, events: seq<Event>)
    requires Inv(s) && AllFitting(s, events)
    ensures Inv(Run(s, events))
    decreases |events|
  {
    if events != [] {
      InvStep(s, events[0]);
      InvRun(Step(s, events[0]), events[1..]);
    }
  }

  // ---- the theorems ----

  /** The reference: cut `stream` at the announced sizes, frame by frame, as far as it reaches. */
  function Slices(stream: seq<Byte>, sizes: seq<nat>): seq<seq<Byte>>
    decreases |sizes|
  {
    if sizes == [] || |stream| < sizes[0] then []
    else [stream[..sizes[0]]] + Slices(stream[sizes[0]..], sizes[1..])
  }

  lemma {:induction false} SlicesOf(frames: seq<seq<Byte>>, rest: seq<Byte>, sizes: seq<nat>)
    requires |frames| <= |sizes|
    requires forall i :: 0 <= i < |frames| ==> |frames[i]| == sizes[i]
    ensures Slices(Flat(frames) + rest, sizes) == frames + Slices(rest, sizes[|frames|..])
  {
    if frames == [] {
      assert Flat(frames) + rest == rest;
    } else {
      var stream := Flat(frames) + rest;
      assert stream == frames[0] + (Flat(frames[1..]) + rest);
      assert stream[..sizes[0]] == frames[0];
      assert stream[sizes[0]..] == Flat(frames[1..]) + rest;
      SlicesOf(frames[1..], rest, sizes[1..]);
      assert sizes[1..][|frames| - 1..] == sizes[|frames|..];
    }
  }

  ghost predicate NothingLost(s: State) {
    forall i :: 0 <= i < |s.done| ==> s.done[i].lost == 0
  }

  lemma FramesAreSlices(s: State)
    requires Inv(s) && NothingLost(s)
    ensures DoneData(s.done) <= Slices(s.accepted, s.sizes)
    ensures !CanCut(s) ==> DoneData(s.done) == Slices(s.accepted, s.sizes)
  {
    var frames, rest := DoneData(s.done), Front(s) + s.istream;
    assert Flat(frames) + rest == s.accepted;
    forall i | 0 <= i < |frames| ensures |frames[i]| == s.sizes[i] {
      assert s.sizes[i] == DoneSizes(s.done)[i];
    }
    SlicesOf(frames, rest, s.sizes);
    if !CanCut(s) && s.pending != [] {
      assert s.sizes[|frames|] == PendingSizes(s.pending)[0];
    }
  }

  /** The frames a reader has taken. */
  function Delivered(s: State): seq<seq<Byte>> {
    if s.read <= |s.done| then DoneData(s.done)[..s.read] else DoneData(s.done)
  }

  /** Framing does not depend on the interleaving. Whatever the order in which packets, sizes,
      worker rounds and reads happen, the finished frames are the first slices of the accepted
      stream at the announced sizes, and all of them once the worker has nothing left to cut.
      What was read, what is queued, the partial frame and the stream make up every accepted byte. */
  lemma Framing(events: seq<Event>)
    requires AllFitting(INIT, events)
    ensures var s := Run(INIT, events);
      && Flat(Delivered(s)) + Flat(s.queued) + Front(s) + s.istream == s.accepted
      && (NothingLost(s) ==>
            && DoneData(s.done) <= Slices(s.accepted, s.sizes)
            && (!CanCut(s) ==> DoneData(s.done) == Slices(s.accepted, s.sizes)))
  {
    hide Run, AllFitting, Inv, Flat, DoneData, Slices, NothingLost, Delivered;
    StartsWell();
    InvRun(INIT, events);
    var s := Run(INIT, events);
    AcceptedParts(s);
    if NothingLost(s) { FramesAreSlices(s); }
  }

  lemma AcceptedParts(s: State)
    requires Inv(s)
    ensures Flat(Delivered(s)) + Flat(s.queued) + Front(s) + s.istream == s.accepted
  {
    hide Flat, PendingOk, Sized;
    assert DoneData(s.done) == Delivered(s) + s.queued;
    FlatAppend(Delivered(s), s.queued);
  }

  lemma SameRest(s: State, t: State)
    requires Conserved(s) && Conserved(t)
    requires s.accepted == t.accepted && DoneData(s.done) == DoneData(t.done)
    ensures Front(s) + s.istream == Front(t) + t.istream
  {
    SamePrefix(Flat(DoneData(s.done)), Front(s), s.istream, Front(t), t.istream);
  }

  lemma SamePrefix(p: seq<Byte>, a: seq<Byte>, b: seq<Byte>, c: seq<Byte>, d: seq<Byte>)
    requires p + a + b == p + c + d
    ensures a + b == c + d
  {
    assert (p + a + b)[|p|..] == a + b;
    assert (p + c + d)[|p|..] == c + d;
  }

  /** A run without losses after which the worker has nothing left to cut. */
  ghost predicate SettledRun(events: seq<Event>) {
    && AllFitting(INIT, events)
    && NothingLost(Run(INIT, events))
    && !CanCut(Run(INIT, events))
  }

  /** Two loss-free runs over the same bytes and sizes end with the same frames and the same rest. */
  lemma InterleavingIndependent(a: seq<Event>, b: seq<Event>)
    requires SettledRun(a) && SettledRun(b)
    requires Run(INIT, a).accepted == Run(INIT, b).accepted
    requires Run(INIT, a).sizes == Run(INIT, b).sizes
    ensures var s, t := Run(INIT, a), Run(INIT, b);
      DoneData(s.done) == DoneData(t.done) && Front(s) + s.istream == Front(t) + t.istream
  {
    StartsWell();
    InvRun(INIT, a);
    InvRun(INIT, b);
    var s, t := Run(INIT, a), Run(INIT, b);
    FramesAreSlices(s);
    FramesAreSlices(t);
    SameRest(s, t);
  }

  function Sum(values: seq<nat>): nat {
    if values == [] then 0 else values[0] + Sum(values[1..])
  }

  function DoneLost(done: seq<Done>): (r: seq<nat>)
    ensures |r| == |done|
  {
    seq(|done|, i requires 0 <= i < |done| => done[i].lost)
  }

  lemma {:induction false} SumsAgree(done: seq<Done>)
    requires forall i :: 0 <= i < |done| ==> |done[i].data| + done[i].lost == done[i].size
    ensures Sum(DoneSizes(done)) == Total(DoneData(done)) + Sum(DoneLost(done))
  {
    if done != [] {
      SumsAgree(done[1..]);
      assert DoneSizes(done)[1..] == DoneSizes(done[1..]);
      assert DoneData(done)[1..] == DoneData(done[1..]);
      assert DoneLost(done)[1..] == DoneLost(done[1..]);
    }
  }

  /** The losses charged to the front frame fit in the room it has. */
  predicate CutFits(s: State)
    requires CanCut(s)
  {
    |s.pending[0].data| + s.pending[0].lost <= s.pending[0].size
  }

  /** A frame finished now holds its size less its losses: they fit, or the loss counter, which is
      an `unsigned`, has wrapped around to zero. */
  predicate FinishBalances(s: State)
    requires CanCut(s)
  {
    CutFits(s) || s.pending[0].lost == 0
  }

  /** Every frame was finished with losses that fitted. */
  predicate AllFinishesFit(s: State, events: seq<Event>)
    decreases |events|
  {
    events != [] ==>
      && (events[0].Cut? && CanCut(s) && Finishes(s) ==> FinishBalances(s))
      && AllFinishesFit(Step(s, events[0]), events[1..])
  }

  ghost predicate Balanced(done: seq<Done>) {
    forall i :: 0 <= i < |done| ==> |done[i].data| + done[i].lost == done[i].size
  }

  /** Resynchronisation after losses: in every run each finished frame holds its announced size
      less the bytes charged to it, and the totals balance, if and only if every frame was finished
      with losses that fitted in its room. */
  lemma LossAccounting(events: seq<Event>)
    ensures Balanced(Run(INIT, events).done) <==> AllFinishesFit(INIT, events)
    ensures AllFinishesFit(INIT, events) ==>
      var s := Run(INIT, events);
      Sum(DoneSizes(s.done)) == Total(DoneData(s.done)) + Sum(DoneLost(s.done))
  {
    BalancedRun(INIT, events);
    if AllFinishesFit(INIT, events) {
      SumsAgree(Run(INIT, events).done);
    }
  }

  lemma {:induction false} DoneGrows(s: State, events: seq<Event>)
    ensures s.done <= Run(s, events).done
    decreases |events|
  {
    if events != [] {
      var t := Step(s, events[0]);
      assert s.done <= t.done;
      hide Step;
      DoneGrows(t, events[1..]);
    }
  }

  /** The frames of a run, with what the bytes taken say about each. */
  ghost predicate Taking(s: State) {
    forall i :: 0 <= i < |s.pending| ==> s.pending[i].size > 0
  }

  lemma StepTaking(s: State, e: Event)
    requires Taking(s)
    ensures Taking(Step(s, e))
    ensures e.Cut? && CanCut(s) && Finishes(s) ==>
      && |Step(s, e).done| == |s.done| + 1 && Step(s, e).done[..|s.done|] == s.done
      && var d := Step(s, e).done[|s.done|];
         (|d.data| + d.lost == d.size <==> FinishBalances(s))
    ensures !(e.Cut? && CanCut(s) && Finishes(s)) ==> Step(s, e).done == s.done
  {
  }

  lemma {:induction false} BalancedRun(s: State, events: seq<Event>)
    requires Taking(s) && Balanced(s.done)
    ensures Balanced(Run(s, events).done) <==> AllFinishesFit(s, events)
    decreases |events|
  {
    if events != [] {
      var t := Step(s, events[0]);
      StepTaking(s, events[0]);
      DoneGrows(t, events[1..]);
      hide Step, Finishes, FinishBalances, CanCut;
      if Balanced(t.done) {
        BalancedRun(t, events[1..]);
      }
    }
  }

  /** The bytes of a state that a reader can still get. */
  function Remaining(s: State): nat {
    Total(s.queued) + |Front(s)| + |s.istream|
  }

  /** A round that finishes a frame delivers its size less its losses exactly when the losses
      charged to it do not exceed its room. Otherwise the room wraps around, or the sum of data and
      losses does. A round keeps every byte exactly when it drops none. */
  lemma CutExact(s: State)
    requires CanCut(s) && s.pending[0].size > 0
    requires forall i :: 1 <= i < |s.pending| ==> s.pending[i].data == []
    ensures var f := s.pending[0]; var t := CutStep(s);
      Finishes(s) ==>
        && |t.done| == |s.done| + 1
        && (|t.done[|s.done|].data| + f.lost == f.size <==> FinishBalances(s))
    ensures Remaining(CutStep(s)) == Remaining(s) - Vanishing(s)
    ensures CutFits(s) ==> Fitting(s, Cut)
  {
    hide CutStep, Total, Finishes, CutFits, FinishBalances, Vanishing, Fitting;
    CutFitsKeeps(s);
    if Finishes(s) {
      var data := FinishedCut(s);
      TotalPush(s.queued, data);
      FinishedExact(s, data);
    } else {
      PartialRemains(s);
    }
  }

  lemma FinishedExact(s: State, data: seq<Byte>)
    requires CanCut(s) && Finishes(s) && s.pending[0].size > 0
    requires |data| == Min(|s.pending[0].data| + Taken(s), s.pending[0].size)
    ensures |data| + s.pending[0].lost == s.pending[0].size <==> FinishBalances(s)
    ensures Vanishing(s) == |s.pending[0].data| + Taken(s) - |data|
  {
  }

  lemma PartialRemains(s: State)
    requires CanCut(s) && !Finishes(s) && s.pending[0].size > 0
    ensures Remaining(CutStep(s)) == Remaining(s) && Vanishing(s) == 0
  {
    hide Total;
  }

  lemma CutFitsKeeps(s: State)
    requires CanCut(s) && s.pending[0].size > 0
    ensures CutFits(s) ==> Fitting(s, Cut)
  {
  }

  lemma RunCons(s: State, e: Event, rest: seq<Event>)
    ensures Run(s, [e] + rest) == Run(Step(s, e), rest)
    ensures AllFitting(s, [e] + rest) <==> Fitting(s, e) && AllFitting(Step(s, e), rest)
  {
    assert ([e] + rest)[1..] == rest;
  }

  // ---- the memory cap ----

  /** Whole packets under one cap, and no announced size above `largest`. */
  predicate Capped(e: Event, cap: nat, largest: nat) {
    match e
    case Append(_) => false
    case Charge(_) => false
    case Received(_, c, _) => c == cap
    case Announce(size) => size <= largest
    case _ => true
  }

  function Bound(cap: nat, largest: nat): nat {
    cap + if largest == 0 then 0 else largest - 1
  }

  /** The bytes accepted that are neither delivered nor held. */
  function Gone(s: State): int {
    |s.accepted| - Total(DoneData(s.done)) - |Front(s)| - |s.istream|
  }

  /** The bytes the driver's estimate is about: the queue and the stream. */
  function Held(s: State): nat {
    Total(s.queued) + |s.istream|
  }

  /** What holds in every run, whatever is charged: the queue's estimate is exact, and the pending
      list's estimate is short by the bytes that are gone. */
  ghost predicate Counted(s: State) {
    && (forall i :: 1 <= i < |s.pending| ==> s.pending[i].data == [])
    && s.read <= |s.done| && s.queued == DoneData(s.done)[s.read..]
    && s.queuedEstimate == Total(s.queued) % U32
    && Gone(s) >= 0 && s.pendingEstimate == (-Gone(s)) % U32
  }

  /** The bytes dropped in a run. */
  function Vanished(s: State, events: seq<Event>): nat
    decreases |events|
  {
    if events == [] then 0 else Dropped(s, events[0]) + Vanished(Step(s, events[0]), events[1..])
  }

  lemma NegSub(gone: int, v: nat)
    ensures SubU32((-gone) % U32, v) == (-(gone + v)) % U32
  {
    var k := (-gone) / U32;
    assert -gone == k * U32 + (-gone) % U32;
    Shift((-gone) % U32 - v, k);
  }

  lemma AddMod(x: nat, y: nat)
    ensures AddU32(x % U32, y) == (x + y) % U32
  {
  }

  lemma TotalPush(frames: seq<seq<Byte>>, data: seq<Byte>)
    ensures Total(frames + [data]) == Total(frames) + |data|
  {
    FlatAppend(frames, [data]);
    FlatOne(data);
  }

  /** The state after a round that finishes a frame, by the bytes of that frame. */
  lemma FinishedCut(s: State) returns (data: seq<Byte>)
    requires CanCut(s) && s.pending[0].size > 0 && Finishes(s)
    ensures var t := CutStep(s); var f, n := s.pending[0], |s.pending[0].data| + Taken(s);
      && |data| == Min(n, f.size) && t.done == s.done + [Done(f.size, f.lost, data)]
      && t == s.(istream := s.istream[Taken(s)..], pending := s.pending[1..], done := t.done,
                 pendingEstimate := SubU32(s.pendingEstimate, n - |data|),
                 queued := s.queued + [data], queuedEstimate := AddU32(s.queuedEstimate, |data|))
    ensures DoneData(CutStep(s).done) == DoneData(s.done) + [data]
    ensures data == (s.pending[0].data + s.istream[..Taken(s)])[..|data|]
  {
    assert s.pending[0].size < U32;
    data := CutStep(s).done[|s.done|].data;
  }

  lemma CountedFinish(s: State)
    requires Counted(s) && CanCut(s) && s.pending[0].size > 0 && Finishes(s)
    ensures Counted(CutStep(s)) && Gone(CutStep(s)) == Gone(s) + Vanishing(s)
  {
    hide SubU32, AddU32, Total, DoneData, CutStep, Finishes;
    var f := s.pending[0];
    var n := |f.data| + Taken(s);
    var data := FinishedCut(s);
    TotalPush(s.queued, data);
    TotalPush(DoneData(s.done), data);
    AddMod(Total(s.queued), |data|);
    NegSub(Gone(s), n - |data|);
  }

  lemma CountedDiscard(s: State)
    requires Counted(s) && CanCut(s) && s.pending[0].size == 0
    ensures Counted(CutStep(s)) && Gone(CutStep(s)) == Gone(s) + Vanishing(s)
  {
    hide Flat, DoneData, Finishes;
    NegSub(Gone(s), |s.pending[0].data|);
  }

  lemma CountedPartial(s: State)
    requires Counted(s) && CanCut(s) && s.pending[0].size > 0 && !Finishes(s)
    ensures Counted(CutStep(s)) && Gone(CutStep(s)) == Gone(s) + Vanishing(s)
  {
    hide Flat, DoneData;
  }

  lemma CountedCut(s: State)
    requires Counted(s) && CanCut(s)
    ensures Counted(CutStep(s)) && Gone(CutStep(s)) == Gone(s) + Vanishing(s)
  {
    hide Finishes, Counted, Gone, Vanishing, CutStep;
    if s.pending[0].size == 0 {
      CountedDiscard(s);
    } else if Finishes(s) {
      CountedFinish(s);
    } else {
      CountedPartial(s);
    }
  }

  lemma CountedRead(s: State, count: nat)
    requires Counted(s) && count <= |s.queued|
    ensures Counted(ReadStep(s, count)) && Gone(ReadStep(s, count)) == Gone(s)
    ensures Remaining(ReadStep(s, count)) <= Remaining(s) && Held(ReadStep(s, count)) <= Held(s)
  {
    var a, b := s.queued[..count], s.queued[count..];
    assert Total(s.queued) == Total(a) + Total(b) by {
      assert s.queued == a + b;
      FlatAppend(a, b);
    }
    SubMod(Total(a) + Total(b), Total(a));
    assert b == DoneData(s.done)[s.read + count..];
  }

  lemma CountedStep(s: State, e: Event)
    requires Counted(s)
    ensures Counted(Step(s, e)) && Gone(Step(s, e)) == Gone(s) + Dropped(s, e)
  {
    hide Flat, Finishes, CutStep, Vanishing, DoneData, ReadStep, Counted, Gone, Usage;
    if Enabled(s, e) {
      match e
      case Cut => CountedCut(s);
      case Read(count) => CountedRead(s, count);
      case _ => CountedQuiet(s, e);
    }
  }

  lemma CountedQuiet(s: State, e: Event)
    requires Counted(s) && !e.Cut? && !e.Read?
    ensures Counted(Step(s, e)) && Gone(Step(s, e)) == Gone(s)
  {
    hide Flat, DoneData, Usage;
  }

  lemma {:induction false} CountedRun(s: State, events: seq<Event>)
    requires Counted(s)
    ensures Counted(Run(s, events)) && Gone(Run(s, events)) == Gone(s) + Vanished(s, events)
    decreases |events|
  {
    hide Counted, Gone, Step, Dropped;
    if events != [] {
      CountedStep(s, events[0]);
      CountedRun(Step(s, events[0]), events[1..]);
    }
  }

  lemma StartsCounted()
    ensures Counted(INIT) && Gone(INIT) == 0
  {
    assert Flat([]) == [];
  }

  lemma UsageCounted(s: State)
    requires Counted(s)
    ensures Usage(s) == (Held(s) - Gone(s)) % U32
  {
    UsageMod(Total(s.queued), |s.istream|, Gone(s));
    hide AddU32, Total, Gone;
  }

  lemma UsageMod(queue: nat, stream: nat, gone: int)
    ensures AddU32(AddU32(queue % U32, stream), (-gone) % U32) == (queue + stream - gone) % U32
  {
    AddMod(queue, stream);
    var x := queue + stream;
    var q, k := x / U32, (-gone) / U32;
    assert x == q * U32 + x % U32 && -gone == k * U32 + (-gone) % U32;
    Shift(x % U32 + (-gone) % U32, q + k);
  }

  lemma Shift(n: int, k: int)
    ensures (n + k * U32) % U32 == n % U32
  {
  }

  /** The drift of the estimate, in every run: it is short by exactly the bytes that vanished in
      cuts, and these are the accepted bytes that are neither read, queued, partial nor in the
      stream. */
  lemma DriftExact(events: seq<Event>)
    ensures var s := Run(INIT, events); var v: int := Vanished(INIT, events);
      && s.pendingEstimate == (-v) % U32 && s.queuedEstimate == Total(s.queued) % U32
      && Usage(s) == (Held(s) - v) % U32
      && Total(Delivered(s)) + Remaining(s) + v == |s.accepted|
  {
    hide Run, Vanished, Usage, Counted, Total, Gone, Remaining;
    StartsCounted();
    CountedRun(INIT, events);
    UsageCounted(Run(INIT, events));
    CountedMeans(Run(INIT, events));
  }

  lemma CountedMeans(s: State)
    requires Counted(s)
    ensures s.pendingEstimate == (-Gone(s)) % U32 && s.queuedEstimate == Total(s.queued) % U32
    ensures Gone(s) >= 0 && Total(Delivered(s)) + Remaining(s) + Gone(s) == |s.accepted|
  {
    assert DoneData(s.done) == Delivered(s) + s.queued;
    FlatAppend(Delivered(s), s.queued);
    hide DoneData;
  }

  /** No cut of a run drops a byte. */
  predicate AllKept(s: State, events: seq<Event>)
    decreases |events|
  {
    events != [] ==> Dropped(s, events[0]) == 0 && AllKept(Step(s, events[0]), events[1..])
  }

  lemma WholeFrame(s: State, data: seq<Byte>)
    requires CanCut(s) && Finishes(s) && s.pending[0].size > 0 && Vanishing(s) == 0
    requires |data| == Min(|s.pending[0].data| + Taken(s), s.pending[0].size)
    requires data == (s.pending[0].data + s.istream[..Taken(s)])[..|data|]
    ensures data == s.pending[0].data + s.istream[..Taken(s)]
  {
  }

  lemma ConservedFinish(s: State)
    requires Conserved(s) && CanCut(s) && Finishes(s) && s.pending[0].size > 0 && Vanishing(s) == 0
    requires forall i :: 1 <= i < |s.pending| ==> s.pending[i].data == []
    ensures Conserved(CutStep(s))
  {
    hide CutStep, Finishes, Vanishing, DoneData, Flat;
    var data := FinishedCut(s);
    var t := CutStep(s);
    var was, front, moved := Flat(DoneData(s.done)), s.pending[0].data, s.istream[..Taken(s)];
    assert data == front + moved by { WholeFrame(s, data); }
    FlatAppend(DoneData(s.done), [data]);
    FlatOne(data);
    assert s.istream == moved + t.istream && Front(t) == [];
    Regroup(was + front, moved, t.istream);
    Regroup(was, front, moved);
    assert was + data + [] == was + data;
  }

  lemma ConservedPartial(s: State)
    requires Conserved(s) && CanCut(s) && !Finishes(s) && s.pending[0].size > 0
    ensures Conserved(CutStep(s))
  {
    var t := CutStep(s);
    var was, front, moved := Flat(DoneData(s.done)), s.pending[0].data, s.istream[..Taken(s)];
    hide DoneData, Flat, Taken, Finishes;
    assert s.istream == moved + t.istream;
    Regroup(was + front, moved, t.istream);
    Regroup(was, front, moved);
  }

  lemma ConservedStep(s: State, e: Event)
    requires Counted(s) && Conserved(s) && Dropped(s, e) == 0
    ensures Conserved(Step(s, e))
  {
    hide Flat, Usage, Finishes, CutStep;
    match e
    case Cut =>
      if CanCut(s) { ConservedCut(s); }
    case Append(data) => AppendConserves(s, data);
    case Received(payload, cap, streaming) =>
      var kept := Kept(Usage(s), |payload|, cap);
      AppendConserves(DropStep(s, |payload| - kept, streaming), payload[..kept]);
    case _ =>
  }

  lemma ConservedCut(s: State)
    requires Counted(s) && Conserved(s) && CanCut(s) && Vanishing(s) == 0
    ensures Conserved(CutStep(s))
  {
    hide Conserved, Finishes;
    if s.pending[0].size == 0 {
      DiscardConserves(s);
    } else if Finishes(s) {
      ConservedFinish(s);
    } else {
      ConservedPartial(s);
    }
  }

  lemma DiscardConserves(s: State)
    requires Counted(s) && Conserved(s) && CanCut(s) && s.pending[0].size == 0 && s.pending[0].data == []
    ensures Conserved(CutStep(s))
  {
    hide Flat, DoneData;
  }

  lemma AppendConserves(s: State, data: seq<Byte>)
    requires Conserved(s)
    ensures Conserved(AppendStep(s, data))
  {
    hide Flat, DoneData;
    Regroup(Flat(DoneData(s.done)) + Front(s), s.istream, data);
  }

  lemma {:induction false} ConservedRun(s: State, events: seq<Event>)
    requires Counted(s) && Conserved(s) && AllKept(s, events)
    ensures Conserved(Run(s, events))
    decreases |events|
  {
    hide Counted, Conserved, Step, Dropped;
    if events != [] {
      CountedStep(s, events[0]);
      ConservedStep(s, events[0]);
      ConservedRun(Step(s, events[0]), events[1..]);
    }
  }

  /** What was read, what is queued, the partial frame and the stream are all accepted bytes, in
      order, if and only if no cut dropped a byte. */
  lemma ConservedExactly(events: seq<Event>)
    ensures var s := Run(INIT, events);
      Flat(Delivered(s)) + Flat(s.queued) + Front(s) + s.istream == s.accepted <==> AllKept(INIT, events)
  {
    hide Run, Vanished, AllKept, Counted, Conserved;
    var s := Run(INIT, events);
    StartsCounted();
    StartsConserved();
    CountedRun(INIT, events);
    KeptExactly(INIT, events);
    CountedMeans(s);
    if AllKept(INIT, events) {
      ConservedRun(INIT, events);
      ConservedParts(s);
    }
  }

  lemma StartsConserved()
    ensures Conserved(INIT)
  {
    assert Flat([]) == [];
  }

  lemma ConservedParts(s: State)
    requires Counted(s) && Conserved(s)
    ensures Flat(Delivered(s)) + Flat(s.queued) + Front(s) + s.istream == s.accepted
  {
    assert DoneData(s.done) == Delivered(s) + s.queued;
    FlatAppend(Delivered(s), s.queued);
  }

  lemma {:induction false} KeptExactly(s: State, events: seq<Event>)
    ensures Vanished(s, events) == 0 <==> AllKept(s, events)
    decreases |events|
  {
    hide Step, Dropped;
    if events != [] {
      KeptExactly(Step(s, events[0]), events[1..]);
    }
  }

  /** The estimate is exact, as long as fewer than 2^32 bytes have vanished, if and only if no cut
      finished a frame that held more than its size. */
  lemma EstimateExact(events: seq<Event>)
    requires Vanished(INIT, events) < U32
    ensures Run(INIT, events).pendingEstimate == 0 <==> AllKept(INIT, events)
  {
    DriftExact(events);
    KeptExactly(INIT, events);
  }

  predicate AllTame(s: State, events: seq<Event>)
    decreases |events|
  {
    events != [] ==>
      && (events[0].Cut? && CanCut(s) ==> CutTame(s))
      && AllTame(Step(s, events[0]), events[1..])
  }

  lemma TameWithoutWrap(s: State)
    requires CanCut(s) && |s.pending[0].data| + s.pending[0].lost + |s.istream| < U32
    ensures CutTame(s)
  {
  }

  ghost predicate WithinBound(s: State, cap: nat, largest: nat) {
    && Counted(s)
    && (forall i :: 0 <= i < |s.pending| ==>
          0 < s.pending[i].size <= largest && |s.pending[i].data| < s.pending[i].size)
    && Remaining(s) <= Bound(cap, largest) + Gone(s)
  }

  lemma BoundReceived(s: State, payload: seq<Byte>, cap: nat, streaming: bool, largest: nat)
    requires WithinBound(s, cap, largest) && cap + largest < U32 && Gone(s) + cap <= U32
    ensures WithinBound(ReceivedStep(s, payload, cap, streaming), cap, largest)
  {
    hide Usage, Counted, Total, Gone, ReceivedStep, Front;
    CountedStep(s, Received(payload, cap, streaming));
    WithinCounts(s, cap, largest);
    UsageCounted(s);
    UsageAbove(Held(s), Gone(s));
    ReceivedShape(s, payload, cap, streaming);
  }

  /** A packet changes the pending frames in their losses only. */
  lemma ReceivedShape(s: State, payload: seq<Byte>, cap: nat, streaming: bool)
    ensures var t := ReceivedStep(s, payload, cap, streaming);
      && |t.pending| == |s.pending| && Front(t) == Front(s) && t.queued == s.queued
      && (forall i :: 0 <= i < |t.pending| ==>
            t.pending[i].size == s.pending[i].size && t.pending[i].data == s.pending[i].data)
      && |t.istream| == |s.istream| + Kept(Usage(s), |payload|, cap)
  {
    hide Usage, Kept;
  }

  lemma UsageAbove(held: nat, gone: nat)
    ensures gone <= held < gone + U32 ==> (held - gone) % U32 == held - gone
    ensures held < gone <= held + U32 ==> (held - gone) % U32 == held - gone + U32
  {
  }

  lemma BoundCut(s: State, cap: nat, largest: nat)
    requires WithinBound(s, cap, largest) && CanCut(s) && CutTame(s)
    ensures WithinBound(CutStep(s), cap, largest)
  {
    CountedCut(s);
    CutExact(s);
    hide Counted, Remaining, Gone;
  }

  lemma BoundStep(s: State, e: Event, cap: nat, largest: nat)
    requires WithinBound(s, cap, largest) && cap + largest < U32 && Gone(s) + cap <= U32
    requires Capped(e, cap, largest) && (e.Cut? && CanCut(s) ==> CutTame(s))
    ensures WithinBound(Step(s, e), cap, largest)
  {
    if Enabled(s, e) {
      match e
      case Received(payload, c, streaming) => BoundReceived(s, payload, c, streaming, largest);
      case Announce(size) => CountedStep(s, e);
      case Cut => BoundCut(s, cap, largest);
      case Read(count) => CountedRead(s, count);
    }
  }

  lemma {:induction false} BoundRun(s: State, events: seq<Event>, cap: nat, largest: nat)
    requires WithinBound(s, cap, largest) && cap + largest < U32
    requires Gone(s) + Vanished(s, events) + cap <= U32
    requires AllTame(s, events) && forall e | e in events :: Capped(e, cap, largest)
    ensures WithinBound(Run(s, events), cap, largest)
    decreases |events|
  {
    hide WithinBound, Gone, Step, Capped, CutTame, Dropped, Counted;
    if events != [] {
      assert events[0] in events;
      WithinCounts(s, cap, largest);
      CountedStep(s, events[0]);
      BoundStep(s, events[0], cap, largest);
      BoundRun(Step(s, events[0]), events[1..], cap, largest);
    }
  }

  lemma WithinCounts(s: State, cap: nat, largest: nat)
    requires WithinBound(s, cap, largest)
    ensures Counted(s) && Gone(s) >= 0 && Remaining(s) <= Bound(cap, largest) + Gone(s)
    ensures |Front(s)| <= Bound(0, largest)
  {
  }

  lemma StartsWithin(cap: nat, largest: nat)
    ensures WithinBound(INIT, cap, largest)
  {
    StartsCounted();
  }

  /** The input cap in every run of whole packets: the driver's estimate leaves out the partial front
      frame and, for good, every byte that ever vanished. So a run under cap `cap` retains at most
      `cap` bytes, one byte less than the largest announced frame, and as many bytes again as have
      vanished. */
  lemma InputDriftBound(events: seq<Event>, cap: nat, largest: nat)
    requires cap + largest < U32 && Vanished(INIT, events) + cap <= U32
    requires AllTame(INIT, events) && forall e | e in events :: Capped(e, cap, largest)
    ensures Remaining(Run(INIT, events)) <= Bound(cap, largest) + Vanished(INIT, events)
  {
    hide WithinBound, Run, AllTame, Vanished, Remaining, Gone, Counted;
    StartsCounted();
    StartsWithin(cap, largest);
    CountedRun(INIT, events);
    BoundRun(INIT, events, cap, largest);
    WithinCounts(Run(INIT, events), cap, largest);
  }

  /** The input cap in every run whose frames fit: at most the cap and one byte less than the largest
      announced frame. */
  lemma InputMemoryBound(events: seq<Event>, cap: nat, largest: nat)
    requires cap + largest < U32
    requires AllFitting(INIT, events) && forall e | e in events :: Capped(e, cap, largest)
    ensures Remaining(Run(INIT, events)) <= Bound(cap, largest)
  {
    FittingKeeps(INIT, events);
    KeptExactly(INIT, events);
    InputDriftBound(events, cap, largest);
  }

  lemma {:induction false} FittingKeeps(s: State, events: seq<Event>)
    ensures AllFitting(s, events) <==> AllTame(s, events) && AllKept(s, events)
    decreases |events|
  {
    if events != [] {
      hide Step, Dropped, CutTame;
      FittingKeeps(Step(s, events[0]), events[1..]);
    }
  }

  // ---- when the charges fit ----

  predicate ChargeFits(s: State, lost: nat) {
    s.pending == [] ||
    var f := s.pending[|s.pending| - 1];
    |f.data| + f.lost + lost <= f.size
  }

  /** The charge an event makes, if any, does not push the newest pending frame past its size. */
  predicate ChargesFit(s: State, e: Event) {
    match e
    case Charge(lost) => ChargeFits(s, lost)
    case Received(payload, cap, streaming) =>
      var lost := |payload| - Kept(Usage(s), |payload|, cap);
      lost == 0 || streaming || ChargeFits(s, lost)
    case _ => true
  }

  predicate AllChargesFit(s: State, events: seq<Event>)
    decreases |events|
  {
    events != [] ==> ChargesFit(s, events[0]) && AllChargesFit(Step(s, events[0]), events[1..])
  }

  ghost predicate LossesFit(s: State) {
    forall i :: 0 <= i < |s.pending| ==>
      0 < s.pending[i].size && |s.pending[i].data| + s.pending[i].lost <= s.pending[i].size
  }

  lemma ChargeKeepsFit(s: State, lost: nat)
    requires LossesFit(s) && ChargeFits(s, lost)
    ensures LossesFit(ChargeStep(s, lost))
  {
  }

  lemma ChargesFitStep(s: State, e: Event)
    requires LossesFit(s) && ChargesFit(s, e)
    ensures LossesFit(Step(s, e)) && Fitting(s, e)
  {
    match e
    case Charge(lost) => ChargeKeepsFit(s, lost);
    case Received(payload, cap, streaming) =>
      var lost := |payload| - Kept(Usage(s), |payload|, cap);
      if lost > 0 && !streaming { ChargeKeepsFit(s, lost); }
    case _ =>
  }

  /** Frames fit in every run whose charges fit when they are made. */
  lemma {:induction false} ChargesFitSuffices(s: State, events: seq<Event>)
    requires LossesFit(s) && AllChargesFit(s, events)
    ensures AllFitting(s, events)
    decreases |events|
  {
    hide LossesFit, ChargesFit, Fitting, Step;
    if events != [] {
      ChargesFitStep(s, events[0]);
      ChargesFitSuffices(Step(s, events[0]), events[1..]);
    }
  }

  // ---- the bound is attained ----

  lemma ZerosCut(a: nat, b: nat)
    requires b <= a
    ensures Zeros(a)[..b] == Zeros(b) && Zeros(a)[b..] == Zeros(a - b)
  {
  }

  lemma ZerosJoin(a: nat, b: nat)
    ensures Zeros(a) + Zeros(b) == Zeros(a + b)
  {
  }

  /** One frame of `largest` bytes was announced and has `k` of them; `n` more are in the stream. */
  function Partly(largest: nat, k: nat, n: nat): State
    requires largest < U32
  {
    INIT.(istream := Zeros(n), accepted := Zeros(k + n), sizes := [largest],
          pending := [Pending(largest, Zeros(k), 0)])
  }

  lemma PartlyReceives(largest: nat, k: nat, n: nat, cap: nat)
    requires largest < U32 && n <= cap < U32
    ensures Step(Partly(largest, k, 0), Received(Zeros(n), cap, false)) == Partly(largest, k, n)
    ensures Fitting(Partly(largest, k, 0), Received(Zeros(n), cap, false))
      <== k <= largest
  {
    var s := Partly(largest, k, 0);
    assert Usage(s) == 0 && Kept(0, n, cap) == n;
    ZerosJoin(0, n);
    ZerosJoin(k, n);
    assert Zeros(n)[..n] == Zeros(n);
  }

  lemma PartlyCuts(largest: nat, k: nat, n: nat)
    requires largest < U32 && k + n < largest && n > 0
    ensures Step(Partly(largest, k, n), Cut) == Partly(largest, k + n, 0)
  {
    ZerosJoin(k, n);
    assert Zeros(n)[..n] == Zeros(n) && Zeros(n)[n..] == Zeros(0);
  }

  /** The partial frame can be filled up to one byte less than its size without the driver's
      estimate ever noticing, and then the stream up to the cap. */
  lemma {:induction false} FillUp(largest: nat, k: nat, cap: nat) returns (events: seq<Event>)
    requires cap > 0 && cap + largest < U32 && k < largest
    ensures Run(Partly(largest, k, 0), events) == Partly(largest, largest - 1, cap)
    ensures AllFitting(Partly(largest, k, 0), events) && forall e :: e in events ==> Capped(e, cap, largest)
    decreases largest - k
  {
    var s := Partly(largest, k, 0);
    if k == largest - 1 {
      PartlyReceives(largest, k, cap, cap);
      RunCons(s, Received(Zeros(cap), cap, false), []);
      events := [Received(Zeros(cap), cap, false)] + [];
      hide Step, Fitting, Partly;
    } else {
      var n := Min(cap, largest - 1 - k);
      PartlyReceives(largest, k, n, cap);
      PartlyCuts(largest, k, n);
      hide Step, Partly;
      var rest := FillUp(largest, k + n, cap);
      RunCons(Partly(largest, k, n), Cut, rest);
      RunCons(s, Received(Zeros(n), cap, false), [Cut] + rest);
      events := [Received(Zeros(n), cap, false)] + ([Cut] + rest);
    }
  }

  /** The bound is attained for every cap and every largest frame, unless the cap lets nothing in. */
  lemma InputBoundAttained(cap: nat, largest: nat) returns (events: seq<Event>)
    requires cap + largest < U32 && cap > 0
    ensures AllFitting(INIT, events) && forall e :: e in events ==> Capped(e, cap, largest)
    ensures Remaining(Run(INIT, events)) == Bound(cap, largest)
  {
    if largest == 0 {
      events := [Received(Zeros(cap), cap, false)] + [];
      RunCons(INIT, Received(Zeros(cap), cap, false), []);
      assert Zeros(cap)[..cap] == Zeros(cap);
      assert Run(INIT, events).istream == [] + Zeros(cap);
    } else {
      var more := FillUp(largest, 0, cap);
      RunCons(INIT, Announce(largest), more);
      assert Step(INIT, Announce(largest)) == Partly(largest, 0, 0);
      events := [Announce(largest)] + more;
    }
  }

  /** Under a cap of zero no byte is ever accepted. */
  lemma {:induction false} ZeroCapAcceptsNothing(s: State, events: seq<Event>, largest: nat)
    requires forall e :: e in events ==> Capped(e, 0, largest)
    ensures Run(s, events).accepted == s.accepted
    decreases |events|
  {
    if events != [] {
      assert Capped(events[0], 0, largest);
      var t := Step(s, events[0]);
      if events[0].Received? {
        var payload := events[0].payload;
        assert Kept(Usage(s), |payload|, 0) == 0;
        assert s.accepted + payload[..0] == s.accepted;
      }
      ZeroCapAcceptsNothing(t, events[1..], largest);
    }
  }

  /** Three bytes were announced, seven are in the stream, and five were lost. */
  function Overcharged(): State {
    INIT.(istream := Zeros(7), accepted := Zeros(7), sizes := [3], pending := [Pending(3, Zeros(0), 5)])
  }

  lemma OverchargedCut()
    ensures var t := Step(Overcharged(), Cut);
      && t.accepted == Zeros(7) && t.istream == [] && t.read == 0 && Remaining(t) == 3
  {
    var t := Step(Overcharged(), Cut);
    ZerosJoin(0, 7);
    assert Zeros(7)[..7] == Zeros(7) && Zeros(7)[..3] == Zeros(3);
    assert t.queued == [] + [Zeros(3)] && t.istream == [] && t.pending == [];
    FlatOne(Zeros(3));
  }

  /** One packet that does not fit under the cap can make accepted bytes vanish: a frame of three
      bytes is announced, a packet of twelve arrives under a cap of seven, and of the seven bytes
      accepted three are left. */
  lemma OvershootDropsBytes()
    ensures var events := [Announce(3), Received(Zeros(12), 7, false), Cut];
      var s := Run(INIT, events);
      && !AllFitting(INIT, events) && |s.accepted| == 7 && Remaining(s) == 3
      && s.istream == [] && s.read == 0
  {
    hide Step, Overcharged, Remaining, Fitting, Zeros;
    var r := Received(Zeros(12), 7, false);
    var none: seq<Event> := [];
    OverchargedReceives();
    OverchargedCut();
    RunCons(Overcharged(), Cut, none);
    RunCons(Step(INIT, Announce(3)), r, [Cut]);
    RunCons(INIT, Announce(3), [r, Cut]);
    assert Run(Step(Overcharged(), Cut), none) == Step(Overcharged(), Cut);
    assert [Announce(3)] + [r, Cut] == [Announce(3), r, Cut] && [r] + [Cut] == [r, Cut] && [Cut] + none == [Cut];
  }

  lemma OverchargedReceives()
    ensures Step(Step(INIT, Announce(3)), Received(Zeros(12), 7, false)) == Overcharged()
    ensures !Fitting(Overcharged(), Cut)
  {
    var s := Partly(3, 0, 0);
    assert Step(INIT, Announce(3)) == s;
    assert Usage(s) == 0 && Kept(0, 12, 7) == 7;
    assert Zeros(12)[..7] == Zeros(7) && [] + Zeros(7) == Zeros(7);
  }

  // ---- what a vanished byte does to the cap ----

  /** Exactly when a packet gets in: some of it is kept if and only if what is held is at least what
      has vanished, and by less than the cap more. */
  lemma HearsExactly(s: State, size: nat, cap: nat)
    requires Counted(s) && size > 0 && Gone(s) + cap <= U32 && Held(s) < U32
    ensures Kept(Usage(s), size, cap) > 0 <==> Gone(s) <= Held(s) < Gone(s) + cap
  {
    UsageCounted(s);
    UsageAbove(Held(s), Gone(s));
    hide Usage, Counted, Held, Gone;
  }

  /** Less is held than has vanished, and cutting cannot change that. */
  ghost predicate Deaf(s: State, cap: nat) {
    && Counted(s) && Held(s) < Gone(s) && (s.istream == [] || Remaining(s) < Gone(s))
    && Gone(s) + Remaining(s) + cap <= U32
  }

  lemma DeafStep(s: State, e: Event, cap: nat, largest: nat)
    requires Deaf(s, cap) && Capped(e, cap, largest)
    ensures Deaf(Step(s, e), cap) && Step(s, e).accepted == s.accepted
  {
    CountedStep(s, e);
    if Enabled(s, e) {
      match e
      case Received(payload, c, streaming) => DeafReceives(s, payload, cap, streaming);
      case Cut => DeafCut(s, cap);
      case Read(count) => CountedRead(s, count);
      case Announce(size) =>
    }
  }

  lemma DeafReceives(s: State, payload: seq<Byte>, cap: nat, streaming: bool)
    requires Deaf(s, cap)
    ensures var t := ReceivedStep(s, payload, cap, streaming);
      Deaf(t, cap) && t.accepted == s.accepted
  {
    CountedStep(s, Received(payload, cap, streaming));
    if payload != [] { HearsExactly(s, |payload|, cap); }
    assert Kept(Usage(s), |payload|, cap) == 0;
    hide Usage, Counted;
    assert s.accepted + payload[..0] == s.accepted && s.istream + payload[..0] == s.istream;
  }

  lemma DeafCut(s: State, cap: nat)
    requires Deaf(s, cap) && CanCut(s)
    ensures Deaf(CutStep(s), cap) && CutStep(s).accepted == s.accepted
  {
    CountedCut(s);
    CutRemains(s);
    hide Counted, Total;
  }

  lemma CutRemains(s: State)
    requires CanCut(s) && forall i :: 1 <= i < |s.pending| ==> s.pending[i].data == []
    ensures Remaining(CutStep(s)) == Remaining(s) - Vanishing(s)
    ensures CutStep(s).accepted == s.accepted
  {
    if s.pending[0].size > 0 { CutExact(s); }
  }

  /** A port that is deaf stays deaf: under the same cap no run accepts another byte, whatever is
      announced, cut or read. It is so once fewer bytes are held than ever vanished and the stream is
      empty, for example when a reader has taken everything after a single byte vanished. */
  lemma {:induction false} DeafForEver(s: State, events: seq<Event>, cap: nat, largest: nat)
    requires Deaf(s, cap) && forall e | e in events :: Capped(e, cap, largest)
    ensures Deaf(Run(s, events), cap) && Run(s, events).accepted == s.accepted
    decreases |events|
  {
    hide Deaf, Step, Capped;
    if events != [] {
      assert events[0] in events;
      DeafStep(s, events[0], cap, largest);
      DeafForEver(Step(s, events[0]), events[1..], cap, largest);
    }
  }

  /** A reader who takes everything after some byte vanished leaves the port deaf. */
  lemma DrainedIsDeaf(s: State, cap: nat)
    requires Counted(s) && s.queued == [] && s.istream == [] && Gone(s) > 0
    requires Gone(s) + |Front(s)| + cap <= U32
    ensures Deaf(s, cap)
  {
    assert Flat([]) == [];
  }

  lemma OvershootState(s: State)
    requires Counted(s) && s.istream == [] && s.read == 0 && |s.accepted| == 7 && Remaining(s) == 3
    ensures Deaf(s, 7)
  {
    CountedMeans(s);
    assert Delivered(s) == [] && Flat([]) == [];
  }

  /** The run that drops four bytes leaves the port deaf under its cap of seven, before anything is
      read. */
  lemma OvershootDeafens(later: seq<Event>, largest: nat)
    requires forall e | e in later :: Capped(e, 7, largest)
    ensures var s := Run(INIT, [Announce(3), Received(Zeros(12), 7, false), Cut]);
      Run(s, later).accepted == s.accepted
  {
    hide Run, Counted, Gone, Remaining, Total, Deaf, Capped, Delivered;
    var events := [Announce(3), Received(Zeros(12), 7, false), Cut];
    var s := Run(INIT, events);
    OvershootDropsBytes();
    StartsCounted();
    CountedRun(INIT, events);
    CountedMeans(s);
    OvershootState(s);
    DeafForEver(s, later, 7, largest);
  }

  // ---- the drift is attained ----

  lemma {:induction false} RunSnoc(s: State, events: seq<Event>, e: Event)
    ensures Run(s, events + [e]) == Step(Run(s, events), e)
    ensures Vanished(s, events + [e]) == Vanished(s, events) + Dropped(Run(s, events), e)
    decreases |events|
  {
    hide Step, Dropped;
    if events == [] {
      assert [] + [e] == [e] && [e][1..] == [];
      assert Run(Step(s, e), []) == Step(s, e);
    } else {
      assert (events + [e])[1..] == events[1..] + [e];
      RunSnoc(Step(s, events[0]), events[1..], e);
    }
  }

  /** A state in numbers: `n` bytes in the stream, one pending frame of `size` bytes (none if 0)
      with `k` bytes and `lost` losses, `q` bytes queued and `gone` vanished. */
  ghost predicate Shape(s: State, n: nat, size: Unsigned, k: nat, lost: Unsigned, q: nat, gone: nat) {
    && Counted(s) && s.istream == Zeros(n) && Total(s.queued) == q && Gone(s) == gone
    && s.pending == if size == 0 then [] else [Pending(size, Zeros(k), lost)]
  }

  lemma ShapeAnnounces(s: State, q: nat, gone: nat, size: Unsigned)
    requires Shape(s, 0, 0, 0, 0, q, gone) && size > 0
    ensures Shape(Step(s, Announce(size)), 0, size, 0, 0, q, gone)
  {
    CountedStep(s, Announce(size));
    assert Zeros(0) == [];
    hide Counted;
  }

  lemma GoneReceives(s: State, e: Event)
    requires Counted(s) && e.Received?
    ensures Gone(Step(s, e)) == Gone(s) && Step(s, e).queued == s.queued
  {
    CountedStep(s, e);
  }

  lemma ShapeReceives(s: State, size: Unsigned, k: nat, q: nat, gone: nat, arriving: nat, cap: nat)
    requires Shape(s, 0, size, k, 0, q, gone) && size > 0 && gone <= q < U32 && cap + arriving < U32
    ensures var kept := Kept(q - gone, arriving, cap);
      Shape(Step(s, Received(Zeros(arriving), cap, false)), kept, size, k, arriving - kept, q, gone)
  {
    hide Counted, Usage, Zeros, Total, Gone;
    var e := Received(Zeros(arriving), cap, false);
    CountedStep(s, e);
    UsageCounted(s);
    UsageAbove(q, gone);
    var kept := Kept(q - gone, arriving, cap);
    ZerosCut(arriving, kept);
    ZerosJoin(0, kept);
    GoneReceives(s, e);
  }

  lemma ShapeCuts(s: State, n: nat, size: Unsigned, k: nat, lost: Unsigned, q: nat, gone: nat)
    requires Shape(s, n, size, k, lost, q, gone) && n > 0 && size > 0
    ensures CanCut(s)
    ensures Taken(s) == n && AddU32(k + n, lost) < size ==>
      Shape(Step(s, Cut), 0, size, k + n, lost, q, gone) && Dropped(s, Cut) == 0
    ensures Taken(s) == n && AddU32(k + n, lost) >= size ==>
      var done := Min(k + n, size);
      Shape(Step(s, Cut), 0, 0, 0, 0, q + done, gone + (k + n - done)) && Dropped(s, Cut) == k + n - done
  {
    hide Counted, Total, Zeros, Gone;
    CountedStep(s, Cut);
    if Taken(s) == n {
      ZerosCut(n, n);
      ZerosJoin(k, n);
      if Finishes(s) {
        ZerosCut(k + n, Min(k + n, size));
        TotalPush(s.queued, Zeros(Min(k + n, size)));
      }
    }
  }

  /** One more event, in numbers. */
  ghost predicate Reached(events: seq<Event>, n: nat, size: Unsigned, k: nat, lost: Unsigned, q: nat, gone: nat) {
    && Shape(Run(INIT, events), n, size, k, lost, q, gone)
    && forall e :: e in events ==> Capped(e, 20, 10)
  }

  lemma ReachedAnnounce(events: seq<Event>, q: nat, gone: nat, size: nat)
    requires Reached(events, 0, 0, 0, 0, q, gone) && 0 < size <= 10
    ensures Reached(events + [Announce(size)], 0, size, 0, 0, q, gone)
  {
    hide Shape, Run, Step;
    RunSnoc(INIT, events, Announce(size));
    ShapeAnnounces(Run(INIT, events), q, gone, size);
  }

  lemma ReachedReceive(events: seq<Event>, size: Unsigned, k: nat, q: nat, gone: nat, arriving: nat)
    requires Reached(events, 0, size, k, 0, q, gone) && size > 0 && gone <= q < U32 && arriving < 100
    ensures var kept := Kept(q - gone, arriving, 20);
      Reached(events + [Received(Zeros(arriving), 20, false)], kept, size, k, arriving - kept, q, gone)
  {
    hide Shape, Run, Step, Zeros;
    RunSnoc(INIT, events, Received(Zeros(arriving), 20, false));
    ShapeReceives(Run(INIT, events), size, k, q, gone, arriving, 20);
  }

  lemma ReachedCut(events: seq<Event>, n: nat, size: Unsigned, k: nat, lost: Unsigned, q: nat, gone: nat)
    requires Reached(events, n, size, k, lost, q, gone) && n > 0 && size > 0
    requires n <= SubU32(size, k + lost)
    ensures if AddU32(k + n, lost) < size then Reached(events + [Cut], 0, size, k + n, lost, q, gone)
      else Reached(events + [Cut], 0, 0, 0, 0, q + Min(k + n, size), gone + (k + n - Min(k + n, size)))
  {
    RunSnoc(INIT, events, Cut);
    var s := Run(INIT, events);
    ShapeCuts(s, n, size, k, lost, q, gone);
    assert Taken(s) == n;
    hide Shape, Run, CanCut;
  }

  /** The drift really raises the cap. Under a cap of 20, with no frame above 10 bytes, seven bytes
      vanish in one overcharged frame, and then 36 bytes are held: the bound and seven more. */
  lemma CapOvershot() returns (events: seq<Event>)
    ensures forall e :: e in events ==> Capped(e, 20, 10)
    ensures Vanished(INIT, events) == 7
    ensures Remaining(Run(INIT, events)) == 36 == Bound(20, 10) + 7
  {
    hide Reached;
    events := [];
    ReachedStart();
    ReachedAnnounce(events, 0, 0, 10);
    events := events + [Announce(10)];
    ReachedReceive(events, 10, 0, 0, 0, 10);
    events := events + [Received(Zeros(10), 20, false)];
    ReachedCut(events, 10, 10, 0, 0, 0, 0);
    events := events + [Cut];
    ReachedAnnounce(events, 10, 0, 3);
    events := events + [Announce(3)];
    ReachedReceive(events, 3, 0, 10, 0, 15);
    events := events + [Received(Zeros(15), 20, false)];
    ReachedCut(events, 10, 3, 0, 5, 10, 0);
    events := events + [Cut];
    ReachedAnnounce(events, 13, 7, 10);
    events := events + [Announce(10)];
    ReachedReceive(events, 10, 0, 13, 7, 9);
    events := events + [Received(Zeros(9), 20, false)];
    ReachedCut(events, 9, 10, 0, 0, 13, 7);
    events := events + [Cut];
    ReachedReceive(events, 10, 9, 13, 7, 14);
    events := events + [Received(Zeros(14), 20, false)];
    ReachedMeans(events, 14, 10, 9, 0, 13, 7);
  }

  lemma ReachedStart()
    ensures Reached([], 0, 0, 0, 0, 0, 0)
  {
    StartsCounted();
    assert Run(INIT, []) == INIT && Zeros(0) == [] && Flat([]) == [];
  }

  lemma ReachedMeans(events: seq<Event>, n: nat, size: Unsigned, k: nat, lost: Unsigned, q: nat, gone: nat)
    requires Reached(events, n, size, k, lost, q, gone) && size > 0
    ensures Remaining(Run(INIT, events)) == q + k + n && Vanished(INIT, events) == gone
    ensures forall e :: e in events ==> Capped(e, 20, 10)
  {
    StartsCounted();
    CountedRun(INIT, events);
    hide Run, Vanished, Counted;
  }

  // ---- a frame of no bytes ----

  /** One byte is in the stream; the frame of two announced has lost both of its bytes. */
  function AllLost(): State {
    INIT.(istream := Zeros(1), accepted := Zeros(1), sizes := [2], pending := [Pending(2, Zeros(0), 2)])
  }

  /** A frame can be queued without any byte, by one packet over the cap whose losses fit. */
  lemma EmptyFrameQueued()
    ensures var events := [Announce(2), Received(Zeros(3), 1, false), Cut];
      AllChargesFit(INIT, events) && Run(INIT, events).queued == [[]]
  {
    var r := Received(Zeros(3), 1, false);
    var s := Partly(2, 0, 0);
    assert Step(INIT, Announce(2)) == s;
    assert Usage(s) == 0 && Kept(0, 3, 1) == 1;
    assert Zeros(3)[..1] == Zeros(1) && [] + Zeros(1) == Zeros(1);
    assert Step(s, r) == AllLost();
    AllLostCut();
    var end := Step(AllLost(), Cut);
    assert ChargesFit(INIT, Announce(2)) && ChargesFit(s, r) && ChargesFit(AllLost(), Cut);
    hide Step, Partly, AllLost, ChargesFit;
    var none: seq<Event> := [];
    assert Run(end, none) == end && AllChargesFit(end, none);
    RunFits(AllLost(), Cut, none);
    RunFits(s, r, [Cut]);
    RunFits(INIT, Announce(2), [r, Cut]);
    assert [Announce(2)] + [r, Cut] == [Announce(2), r, Cut] && [r] + [Cut] == [r, Cut];
    assert [Cut] + none == [Cut];
  }

  lemma AllLostCut()
    ensures Step(AllLost(), Cut).queued == [[]]
  {
    var s := AllLost();
    assert Taken(s) == 0 && Zeros(0) == [];
    assert Step(s, Cut).queued == [] + [[]];
  }

  lemma RunFits(s: State, e: Event, rest: seq<Event>)
    ensures Run(s, [e] + rest) == Run(Step(s, e), rest)
    ensures AllChargesFit(s, [e] + rest) <==> ChargesFit(s, e) && AllChargesFit(Step(s, e), rest)
  {
    assert ([e] + rest)[1..] == rest;
  }
}
