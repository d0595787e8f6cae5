/** The frame-size handshake between the driver and the board (`src/isr.c:502-547`).

    The board holds a FIFO of frame sizes. The driver learns how many there are from
    asynchronous reads of FIFO_FC and pops one size with each asynchronous read of
    BC_FIFO_L. By the time a count arrives it is stale: sizes may have been popped and
    added since. Popping an empty size FIFO yields junk, so the driver compares the
    stale count with the number of size reads it has not yet seen completed.

    The board processes commands in order and its responses complete in order, one at
    a time. A run is any sequence of events; an event that is not possible in a state
    leaves the state as it is. */
module Handshake {
  import opened CTypes

  datatype Command = ReadCount | ReadSize

  datatype Response = Count(value: nat) | Size(value: nat)

  datatype State = State(
    sizes: seq<nat>,            // the board's size FIFO
    commands: seq<Command>,     // issued by the driver, not yet processed by the board
    responses: seq<Response>,   // processed, completion not yet handled
    pendingReads: int,          // port->pending_frame_size_reads
    announced: seq<nat>,        // history: every size the board ever queued
    framed: seq<nat>,           // history: every size turned into a pending frame
    sinceSample: nat,           // history: sizes queued since the board last sampled its count
    failures: nat)              // history: commands or responses lost to failed requests

  datatype Event =
    | HardwareSize(size: nat)                 // the board finishes a frame of `size` bytes
    | Packet                                  // a data packet arrives
    | DeviceStep(upper: nat, junk: nat)       // the board processes its next command
    | Complete                                // the next completion runs, successfully
    | FailResponse                            // the next completion reports failure
    | LoseCommand(index: nat)                 // a request fails before the board sees it

  const COUNT_MASK: nat := 0x400   // value & 0x3ff is value % COUNT_MASK

  const INIT := State([], [], [], 0, [], [], 0, 0)

  /** The largest count the register can show is 1023. */
  function Clip(count: nat): nat {
    if count < 1024 then count else 1023
  }

  /** What the board puts in FIFO_FC: the count, at most 1023, below unrelated upper bits. */
  function Sample(count: nat, upper: nat): nat {
    Clip(count) + upper * 1024
  }

  /** How many size reads the completion of a FIFO_FC read issues. */
  function NewReads(value: nat, pendingReads: int): nat {
    var count := value % COUNT_MASK;
    if count != 0 && count > pendingReads then count - pendingReads else 0
  }

  function SizeReads(n: nat): (r: seq<Command>)
    ensures |r| == n
  {
    if n == 0 then [] else SizeReads(n - 1) + [ReadSize]
  }

  function OnCount(s: State, value: nat): State {
    var n := NewReads(value, s.pendingReads);
    s.(commands := s.commands + SizeReads(n), pendingReads := s.pendingReads + n)
  }

  /** Is the size accepted as the length of a new pending frame? */
  predicate Accepts(value: nat, pendingReads: int) {
    value > 0 && pendingReads > 0
  }

  function OnSize(s: State, value: nat): State {
    s.(pendingReads := if s.pendingReads > 0 then s.pendingReads - 1 else s.pendingReads,
       framed := if Accepts(value, s.pendingReads) then s.framed + [value] else s.framed,
       commands := s.commands + [ReadCount])
  }

  /** What a count does: the pending reads rise to the count's low ten bits if they are below it, and
      as many size reads are issued as they rise. */
  lemma CountReaction(s: State, value: nat)
    requires s.pendingReads >= 0
    ensures
      var t, count := OnCount(s, value), value % 1024;
      var n := if count > s.pendingReads then count - s.pendingReads else 0;
      && t == s.(commands := t.commands, pendingReads := s.pendingReads + n)
      && |t.commands| == |s.commands| + n && t.commands[..|s.commands|] == s.commands
      && forall i :: |s.commands| <= i < |t.commands| ==> t.commands[i] == ReadSize
  {
    hide SizeReads;
    OnlySizeReads(NewReads(value, s.pendingReads));
  }

  lemma {:induction false} OnlySizeReads(n: nat)
    ensures |SizeReads(n)| == n && forall i :: 0 <= i < n ==> SizeReads(n)[i] == ReadSize
  {
    if n > 0 { OnlySizeReads(n - 1); }
  }

  function OnDevice(s: State, upper: nat, junk: nat): State
    requires s.commands != []
  {
    var rest := s.commands[1..];
    match s.commands[0]
    case ReadCount =>
      s.(commands := rest, responses := s.responses + [Count(Sample(|s.sizes|, upper))], sinceSample := 0)
    case ReadSize =>
      if s.sizes == [] then
        s.(commands := rest, responses := s.responses + [Size(junk)])
      else
        s.(commands := rest, responses := s.responses + [Size(s.sizes[0])], sizes := s.sizes[1..])
  }

  predicate Enabled(s: State, e: Event) {
    match e
    case HardwareSize(size) => 0 < size < U32
    case Packet => true
    case DeviceStep(_, _) => s.commands != []
    case Complete => s.responses != []
    case FailResponse => s.responses != []
    case LoseCommand(i) => i < |s.commands|
  }

  function Step(s: State, e: Event): State {
    if !Enabled(s, e) then s else
    match e
    case HardwareSize(size) =>
      s.(sizes := s.sizes + [size], announced := s.announced + [size], sinceSample := s.sinceSample + 1)
    case Packet =>
      s.(commands := s.commands + [ReadCount])
    case DeviceStep(upper, junk) => OnDevice(s, upper, junk)
    case Complete =>
      var t := s.(responses := s.responses[1..]);
      (match s.responses[0]
       case Count(value) => OnCount(t, value)
       case Size(value) => OnSize(t, value))
    case FailResponse =>
      s.(responses := s.responses[1..], failures := s.failures + 1)
    case LoseCommand(i) =>
      s.(commands := s.commands[..i] + s.commands[i + 1..], failures := s.failures + 1)
  }

  function Run(s: State, events: seq<Event>): State
    decreases |events|
  {
    if events == [] then s else Run(Step(s, events[0]), events[1..])
  }

  // ---- what is outstanding ----

  /** The number of size reads among `commands`. */
  function Reads(commands: seq<Command>): nat {
    multiset(commands)[ReadSize]
  }

  /** The sizes carried by `responses`, in order. */
  function Carried(responses: seq<Response>): seq<nat> {
    if responses == [] then []
    else (if responses[0].Size? then [responses[0].value] else []) + Carried(responses[1..])
  }

  /** Every stale count is corrected by the size reads the board processed after it was sampled. */
  ghost predicate CountsBounded(responses: seq<Response>, available: nat) {
    responses != [] ==>
      && (responses[0].Count? ==> responses[0].value % COUNT_MASK <= available + |Carried(responses[1..])|)
      && CountsBounded(responses[1..], available)
  }

  function Outstanding(s: State): nat {
    Reads(s.commands) + |Carried(s.responses)|
  }

  ghost predicate Inv(s: State) {
    && Reads(s.commands) <= |s.sizes|
    && Outstanding(s) <= s.pendingReads
    && CountsBounded(s.responses, |s.sizes|)
    && (s.failures == 0 ==> Outstanding(s) == s.pendingReads)
    && (forall k :: 0 <= k < |s.sizes| ==> 0 < s.sizes[k] < U32)
    && (forall k :: 0 <= k < |Carried(s.responses)| ==> 0 < Carried(s.responses)[k] < U32)
    && (s.failures == 0 ==> s.framed + Carried(s.responses) + s.sizes == s.announced)
  }

  // ---- lemmas about the two queues ----

  lemma {:induction false} CarriedAppend(a: seq<Response>, b: seq<Response>)
    ensures Carried(a + b) == Carried(a) + Carried(b)
  {
    if a == [] {
      assert a + b == b;
    } else {
      var head := if a[0].Size? then [a[0].value] else [];
      assert (a + b)[1..] == a[1..] + b;
      CarriedAppend(a[1..], b);
      Regroup(head, Carried(a[1..]), Carried(b));
    }
  }

  lemma CarriedTail(rs: seq<Response>)
    requires rs != []
    ensures Carried(rs) == (if rs[0].Size? then [rs[0].value] else []) + Carried(rs[1..])
  {
  }

  lemma {:induction false} BoundedWeaken(rs: seq<Response>, h: nat, h': nat)
    requires h <= h' && CountsBounded(rs, h)
    ensures CountsBounded(rs, h')
  {
    if rs != [] { BoundedWeaken(rs[1..], h, h'); }
  }

  /** Popping one size moves it behind every sampled count. */
  lemma {:induction false} BoundedPop(rs: seq<Response>, h: nat, v: nat)
    requires h > 0 && CountsBounded(rs, h)
    ensures CountsBounded(rs + [Size(v)], h - 1)
  {
    if rs == [] {
      assert rs + [Size(v)] == [Size(v)];
    } else {
      assert (rs + [Size(v)])[1..] == rs[1..] + [Size(v)];
      BoundedPop(rs[1..], h, v);
      CarriedAppend(rs[1..], [Size(v)]);
      assert |Carried([Size(v)])| == 1;
    }
  }

  lemma {:induction false} BoundedSample(rs: seq<Response>, h: nat, upper: nat)
    requires CountsBounded(rs, h)
    ensures CountsBounded(rs + [Count(Sample(h, upper))], h)
    ensures Carried(rs + [Count(Sample(h, upper))]) == Carried(rs)
  {
    var c := Count(Sample(h, upper));
    CarriedAppend(rs, [c]);
    if rs == [] {
      assert rs + [c] == [c];
      SampleLow(h, upper);
    } else {
      assert (rs + [c])[1..] == rs[1..] + [c];
      BoundedSample(rs[1..], h, upper);
    }
  }

  lemma SampleLow(count: nat, upper: nat)
    ensures Sample(count, upper) % COUNT_MASK == Clip(count)
  {
    assert Sample(count, upper) == Clip(count) + upper * COUNT_MASK;
  }

  lemma {:induction false} ReadsOfSizeReads(n: nat)
    ensures Reads(SizeReads(n)) == n
  {
    if n > 0 { ReadsOfSizeReads(n - 1); }
  }

  lemma ReadsTail(c: seq<Command>)
    requires c != []
    ensures Reads(c) == Reads(c[1..]) + if c[0] == ReadSize then 1 else 0
  {
    assert c == [c[0]] + c[1..];
  }

  lemma ReadsRemove(c: seq<Command>, i: nat)
    requires i < |c|
    ensures Reads(c) == Reads(c[..i] + c[i + 1..]) + if c[i] == ReadSize then 1 else 0
  {
    assert c == c[..i] + [c[i]] + c[i + 1..];
  }

  // ---- safety ----

  lemma InvCount(s: State, value: nat)
    requires s.responses != [] && s.responses[0] == Count(value) && Inv(s)
    ensures Inv(Step(s, Complete))
  {
    var n := NewReads(value, s.pendingReads);
    ReadsOfSizeReads(n);
    assert Carried(s.responses) == Carried(s.responses[1..]);
  }

  lemma InvSize(s: State, value: nat)
    requires s.responses != [] && s.responses[0] == Size(value) && Inv(s)
    ensures Inv(Step(s, Complete))
  {
    var rest := Carried(s.responses[1..]);
    assert Carried(s.responses) == [value] + rest;
    assert value == Carried(s.responses)[0] > 0;
    assert forall k :: 0 <= k < |rest| ==> rest[k] == Carried(s.responses)[k + 1];
    assert s.framed + ([value] + rest) + s.sizes == (s.framed + [value]) + rest + s.sizes;
  }

  lemma InvSample(s: State, upper: nat, junk: nat)
    requires s.commands != [] && s.commands[0].ReadCount? && Inv(s)
    ensures Inv(OnDevice(s, upper, junk))
  {
    ReadsTail(s.commands);
    BoundedSample(s.responses, |s.sizes|, upper);
  }

  lemma InvPop(s: State, upper: nat, junk: nat)
    requires s.commands != [] && s.commands[0].ReadSize? && Inv(s)
    ensures Inv(OnDevice(s, upper, junk))
  {
    ReadsTail(s.commands);
    var v, carried := s.sizes[0], Carried(s.responses);
    BoundedPop(s.responses, |s.sizes|, v);
    CarriedAppend(s.responses, [Size(v)]);
    assert Carried([Size(v)]) == [v];
    assert s.framed + carried + s.sizes == s.framed + (carried + [v]) + s.sizes[1..];
  }

  lemma InvDevice(s: State, upper: nat, junk: nat)
    requires s.commands != [] && Inv(s)
    ensures Inv(OnDevice(s, upper, junk))
  {
    if s.commands[0].ReadCount? {
      InvSample(s, upper, junk);
    } else {
      InvPop(s, upper, junk);
    }
  }

  lemma InvNewSize(s: State, size: nat)
    requires 0 < size < U32 && Inv(s)
    ensures Inv(Step(s, HardwareSize(size)))
  {
    BoundedWeaken(s.responses, |s.sizes|, |s.sizes| + 1);
    assert s.framed + Carried(s.responses) + (s.sizes + [size])
        == s.framed + Carried(s.responses) + s.sizes + [size];
  }

  lemma InvFail(s: State)
    requires s.responses != [] && Inv(s)
    ensures Inv(Step(s, FailResponse))
  {
    CarriedTail(s.responses);
    var all, rest := Carried(s.responses), Carried(s.responses[1..]);
    forall k | 0 <= k < |rest| ensures 0 < rest[k] < U32 {
      assert rest[k] == all[k + |all| - |rest|];
    }
  }

  lemma InvStep(s: State, e: Event)
    requires Inv(s)
    ensures Inv(Step(s, e))
  {
    if Enabled(s, e) {
      match e
      case HardwareSize(size) => InvNewSize(s, size);
      case Packet =>
      case DeviceStep(upper, junk) => InvDevice(s, upper, junk);
      case Complete =>
        match s.responses[0] {
          case Count(value) => InvCount(s, value);
          case Size(value) => InvSize(s, value);
        }
      case FailResponse => InvFail(s);
      case LoseCommand(i) => ReadsRemove(s.commands, i);
    }
  }

  lemma {:induction false} InvRun(s: State, events: seq<Event>)
    requires Inv(s)
    ensures Inv(Run(s, events))
    decreases |events|
  {
    if events != [] {
      InvStep(s, events[0]);
      InvRun(Step(s, events[0]), events[1..]);
    }
  }

  /** No over-read. Whatever happened before, the size reads the board has still to process
      never exceed the sizes it holds, so no read of an empty size FIFO can ever happen.
      `pending_frame_size_reads` never undercounts the outstanding size reads, and counts them
      exactly as long as no request failed. */
  lemma NoOverRead(events: seq<Event>)
    ensures var s := Run(INIT, events);
      && Reads(s.commands) <= |s.sizes|
      && (s.commands != [] && s.commands[0] == ReadSize ==> s.sizes != [])
      && Outstanding(s) <= s.pendingReads
      && (s.failures == 0 ==> s.pendingReads == Outstanding(s))
  {
    StartsWell();
    InvRun(INIT, events);
    var s := Run(INIT, events);
    if s.commands != [] { ReadsTail(s.commands); }
  }

  /** As long as no request failed, every announced size is in exactly one place and in the
      board's order: already a pending frame, carried by a response, or still on the board. */
  lemma SizesInHardwareOrder(events: seq<Event>)
    ensures var s := Run(INIT, events);
      s.failures == 0 ==> s.framed + Carried(s.responses) + s.sizes == s.announced
  {
    StartsWell();
    InvRun(INIT, events);
  }

  // ---- progress ----

  /** Events of the exchange itself: no new size and no new packet. */
  predicate Internal(e: Event) {
    e.DeviceStep? || e.Complete? || e.FailResponse? || e.LoseCommand?
  }

  ghost predicate Productive(s: State, events: seq<Event>)
    decreases |events|
  {
    events != [] ==>
      Internal(events[0]) && Enabled(s, events[0]) && Productive(Step(s, events[0]), events[1..])
  }

  /** Sizes on the board that no outstanding or lost read accounts for. */
  function Unreserved(s: State): nat {
    var u := |s.sizes| + |Carried(s.responses)| - s.pendingReads;
    if u > 0 then u else 0
  }

  function Work(s: State): nat {
    4 * Unreserved(s) + 2 * |s.commands| + 2 * Reads(s.commands)
    + |s.responses| + 2 * |Carried(s.responses)|
  }

  lemma DeviceWork(s: State, upper: nat, junk: nat)
    requires Inv(s) && s.commands != []
    ensures Work(OnDevice(s, upper, junk)) < Work(s)
  {
    ReadsTail(s.commands);
    if s.commands[0].ReadCount? {
      BoundedSample(s.responses, |s.sizes|, upper);
    } else {
      CarriedAppend(s.responses, [Size(s.sizes[0])]);
      assert |Carried([Size(s.sizes[0])])| == 1;
    }
  }

  lemma CompleteWork(s: State)
    requires Inv(s) && s.responses != []
    ensures Work(Step(s, Complete)) < Work(s)
  {
    hide Carried, SizeReads;
    CarriedTail(s.responses);
    if s.responses[0].Count? {
      CountsHead(s);
      MoreReads(s.commands, NewReads(s.responses[0].value, s.pendingReads));
    } else {
      assert Reads(s.commands + [ReadCount]) == Reads(s.commands);
    }
  }

  lemma WorkDecreases(s: State, e: Event)
    requires Inv(s) && Internal(e) && Enabled(s, e)
    ensures Work(Step(s, e)) < Work(s)
  {
    hide Carried, OnDevice, OnCount, OnSize, Inv;
    match e
    case DeviceStep(upper, junk) => DeviceWork(s, upper, junk);
    case Complete => CompleteWork(s);
    case FailResponse => CarriedTail(s.responses);
    case LoseCommand(i) => ReadsRemove(s.commands, i);
  }

  /** The exchange always drains: left alone by the board's receiver, it makes at most `Work(s)`
      more steps, whichever of the possible steps happen and whichever requests fail. */
  lemma {:induction false} Drains(s: State, events: seq<Event>)
    requires Inv(s) && Productive(s, events)
    ensures |events| <= Work(s)
    decreases |events|
  {
    if events != [] {
      WorkDecreases(s, events[0]);
      InvStep(s, events[0]);
      Drains(Step(s, events[0]), events[1..]);
    }
  }

  predicate Quiescent(s: State) {
    s.commands == [] && s.responses == []
  }

  predicate HasCount(rs: seq<Response>) {
    rs != [] && (rs[|rs| - 1].Count? || HasCount(rs[..|rs| - 1]))
  }

  /** The value of the last count among the responses. */
  function LastCount(rs: seq<Response>): nat
    requires HasCount(rs)
  {
    if rs[|rs| - 1].Count? then rs[|rs| - 1].value else LastCount(rs[..|rs| - 1])
  }

  /** The number of responses behind the last count. */
  function After(rs: seq<Response>): nat {
    if rs == [] || rs[|rs| - 1].Count? then 0 else 1 + After(rs[..|rs| - 1])
  }

  ghost predicate Busy(s: State) {
    ReadCount in s.commands || HasCount(s.responses) || Outstanding(s) > 0
  }

  /** The last sample still under way says what the board held when it was taken. While nothing is
      under way, what is on the board and not newer than the last sample is at most the `d` reads
      that are counted but do not exist. */
  ghost predicate Sampled(s: State, d: nat) {
    && (HasCount(s.responses) ==>
          && s.sinceSample <= |s.sizes| + After(s.responses)
          && LastCount(s.responses) % COUNT_MASK
             == Clip(|s.sizes| + After(s.responses) - s.sinceSample))
    && (Busy(s) || |s.sizes| <= s.sinceSample || Clip(|s.sizes| - s.sinceSample) <= d)
  }

  lemma {:induction false} DropHead(rs: seq<Response>)
    requires rs != []
    ensures HasCount(rs) <==> rs[0].Count? || HasCount(rs[1..])
    ensures HasCount(rs[1..]) ==> LastCount(rs) == LastCount(rs[1..]) && After(rs) == After(rs[1..])
    ensures !HasCount(rs[1..]) && rs[0].Count? ==>
      LastCount(rs) == rs[0].value && After(rs) == |Carried(rs[1..])|
    ensures !HasCount(rs[1..]) ==> |Carried(rs[1..])| == |rs| - 1
  {
    var init := rs[..|rs| - 1];
    if |rs| > 1 {
      DropHead(init);
      assert init[1..] == rs[1..][..|rs| - 2];
      assert rs[1..] == init[1..] + [rs[|rs| - 1]];
      CarriedAppend(init[1..], [rs[|rs| - 1]]);
      assert Carried([rs[|rs| - 1]]) == if rs[|rs| - 1].Size? then [rs[|rs| - 1].value] else [];
    }
  }

  lemma SampledDevice(s: State, d: nat, upper: nat, junk: nat)
    requires s.commands != [] && Inv(s) && Sampled(s, d)
    ensures Sampled(OnDevice(s, upper, junk), d)
  {
    ReadsTail(s.commands);
    var t := OnDevice(s, upper, junk);
    assert t.responses[..|t.responses| - 1] == s.responses;
    if s.commands[0].ReadCount? {
      SampleLow(|s.sizes|, upper);
    } else {
      CarriedAppend(s.responses, [Size(s.sizes[0])]);
      assert |Carried([Size(s.sizes[0])])| == 1;
    }
  }

  lemma SampledComplete(s: State, d: nat)
    requires s.responses != [] && Inv(s) && s.pendingReads == Outstanding(s) + d && Sampled(s, d)
    ensures Sampled(Step(s, Complete), d)
  {
    DropHead(s.responses);
    CarriedTail(s.responses);
    var t := Step(s, Complete);
    if s.responses[0].Size? {
      assert t.commands[|s.commands|] == ReadCount;
    } else {
      var n := NewReads(s.responses[0].value, s.pendingReads);
      ReadsOfSizeReads(n);
      assert Reads(t.commands) == Reads(s.commands) + n;
      assert forall c | c in s.commands :: c in t.commands;
    }
  }

  lemma SampledStep(s: State, e: Event)
    requires Inv(s) && Sampled(s, 0) && s.failures == 0 && Step(s, e).failures == 0
    ensures Sampled(Step(s, e), 0)
  {
    if Enabled(s, e) {
      match e
      case DeviceStep(upper, junk) => SampledDevice(s, 0, upper, junk);
      case Complete => SampledComplete(s, 0);
      case _ =>
    }
  }

  lemma {:induction false} SampledRun(s: State, events: seq<Event>)
    requires Inv(s) && Sampled(s, 0)
    ensures Run(s, events).failures == 0 ==> Sampled(Run(s, events), 0)
    decreases |events|
  {
    hide Inv, Sampled, Step;
    if events != [] {
      var t := Step(s, events[0]);
      FailuresGrow(s, events);
      FailuresGrow(t, events[1..]);
      InvStep(s, events[0]);
      if Run(s, events).failures == 0 {
        FailuresKept(s, events[0]);
        SampledStep(s, events[0]);
        SampledRun(t, events[1..]);
      }
    }
  }

  lemma {:induction false} FailuresGrow(s: State, events: seq<Event>)
    ensures s.failures <= Run(s, events).failures
    decreases |events|
  {
    if events != [] { FailuresGrow(Step(s, events[0]), events[1..]); }
  }

  /** When a failure-free exchange has drained, whatever is left on the board was queued after
      the last time the board sampled its count; everything older became a pending frame, in
      the board's order. */
  lemma FetchedWhenQuiescent(events: seq<Event>)
    ensures var s := Run(INIT, events);
      s.failures == 0 && Quiescent(s) ==>
        && s.framed + s.sizes == s.announced
        && |s.sizes| <= s.sinceSample
  {
    StartsWell();
    InvRun(INIT, events);
    SampledRun(INIT, events);
    var s := Run(INIT, events);
    if s.failures == 0 && Quiescent(s) { QuiescentState(s); }
  }

  lemma StartsWell()
    ensures Inv(INIT) && Sampled(INIT, 0)
  {
  }

  lemma QuiescentState(s: State)
    requires Inv(s) && Sampled(s, 0) && s.failures == 0 && Quiescent(s)
    ensures s.framed + s.sizes == s.announced && |s.sizes| <= s.sinceSample && s.pendingReads == 0
  {
    assert s.framed + [] + s.sizes == s.framed + s.sizes;
  }

  /** After a packet, an exchange that drains without a new size and without a failure has
      turned every announced size into a pending frame. */
  lemma PacketFetchesEverything(before: seq<Event>, drain: seq<Event>)
    requires forall e | e in drain :: Internal(e)
    ensures var s := Run(Step(Run(INIT, before), Packet), drain);
      s.failures == 0 && Quiescent(s) ==> s.framed == s.announced && s.pendingReads == 0
  {
    var a := Run(INIT, before);
    var b := Step(a, Packet);
    var s := Run(b, drain);
    FailuresGrow(INIT, before);
    FailuresGrow(b, drain);
    StartsWell();
    InvRun(INIT, before);
    InvStep(a, Packet);
    InvRun(b, drain);
    if s.failures == 0 && Quiescent(s) {
      SampledRun(INIT, before);
      assert b.commands[|a.commands|] == ReadCount;
      SampledRun(b, drain);
      SampleAfter(b, drain);
      QuiescentState(s);
      assert s.framed + [] == s.framed;
    }
  }

  lemma {:induction false} SampleAfter(s: State, drain: seq<Event>)
    requires forall e | e in drain :: Internal(e)
    requires ReadCount in s.commands || s.sinceSample == 0
    requires Run(s, drain).failures == s.failures
    ensures var t := Run(s, drain); ReadCount in t.commands || t.sinceSample == 0
    decreases |drain|
  {
    if drain != [] {
      var e, t := drain[0], Step(s, drain[0]);
      FailuresGrow(t, drain[1..]);
      assert Internal(e);
      if Enabled(s, e) {
        match e
        case DeviceStep(_, _) =>
          assert s.commands == [s.commands[0]] + s.commands[1..];
        case Complete =>
          assert forall c | c in s.commands :: c in t.commands;
        case _ =>
      }
      SampleAfter(t, drain[1..]);
    }
  }

  // ---- what a failed request leaves behind ----

  /** How many sizes an exchange leaves on the board when `d` reads are counted that no longer
      exist: a count up to that many issues no reads. */
  function Stranded(held: nat, d: nat): nat {
    if d >= 1023 then held else Min(held, d)
  }

  /** An exchange without new sizes and failures, `d` reads off, that began with `held` sizes on the
      board; `whole` is everything framed, carried and held. */
  ghost predicate Drifted(s: State, d: nat, whole: seq<nat>, held: nat) {
    && Inv(s) && s.pendingReads == Outstanding(s) + d
    && (Reads(s.commands) > 0 ==> Reads(s.commands) + d <= |s.sizes|)
    && (d >= COUNT_MASK - 1 ==> Outstanding(s) == 0)
    && Stranded(held, d) <= |s.sizes| <= held
    && s.framed + Carried(s.responses) + s.sizes == whole
  }

  lemma DriftedDevice(s: State, d: nat, whole: seq<nat>, held: nat, upper: nat, junk: nat)
    requires s.commands != [] && Drifted(s, d, whole, held)
    ensures Drifted(OnDevice(s, upper, junk), d, whole, held)
  {
    InvDevice(s, upper, junk);
    ReadsTail(s.commands);
    var t := OnDevice(s, upper, junk);
    if s.commands[0].ReadCount? {
      CarriedAppend(s.responses, [Count(Sample(|s.sizes|, upper))]);
      assert Carried([Count(Sample(|s.sizes|, upper))]) == [];
    } else {
      var v := s.sizes[0];
      CarriedAppend(s.responses, [Size(v)]);
      assert Carried([Size(v)]) == [v];
      assert s.framed + Carried(s.responses) + s.sizes == s.framed + (Carried(s.responses) + [v]) + s.sizes[1..];
    }
  }

  lemma DriftedCount(s: State, d: nat, whole: seq<nat>, held: nat)
    requires s.responses != [] && s.responses[0].Count? && Drifted(s, d, whole, held)
    ensures Drifted(Step(s, Complete), d, whole, held)
  {
    hide Inv, Carried, SizeReads;
    var value := s.responses[0].value;
    InvCount(s, value);
    CountsHead(s);
    CarriedTail(s.responses);
    MoreReads(s.commands, NewReads(value, s.pendingReads));
    assert [] + Carried(s.responses[1..]) == Carried(s.responses[1..]);
  }

  /** The oldest count is at most what the board holds and the sizes answered after it. */
  lemma CountsHead(s: State)
    requires Inv(s) && s.responses != [] && s.responses[0].Count?
    ensures s.responses[0].value % COUNT_MASK <= |s.sizes| + |Carried(s.responses[1..])|
  {
  }

  lemma MoreReads(commands: seq<Command>, n: nat)
    ensures Reads(commands + SizeReads(n)) == Reads(commands) + n
  {
    ReadsOfSizeReads(n);
  }

  lemma DriftedSize(s: State, d: nat, whole: seq<nat>, held: nat)
    requires s.responses != [] && s.responses[0].Size? && Drifted(s, d, whole, held)
    ensures Drifted(Step(s, Complete), d, whole, held)
  {
    var value := s.responses[0].value;
    InvSize(s, value);
    CarriedTail(s.responses);
    assert Carried(s.responses)[0] == value > 0;
    var rest := Carried(s.responses[1..]);
    assert s.framed + ([value] + rest) + s.sizes == (s.framed + [value]) + rest + s.sizes;
    assert Reads(s.commands + [ReadCount]) == Reads(s.commands);
  }

  lemma {:induction false} DriftedRun(s: State, events: seq<Event>, d: nat, whole: seq<nat>, held: nat)
    requires Drifted(s, d, whole, held) && Sampled(s, d)
    requires forall e | e in events :: Internal(e)
    requires Run(s, events).failures == s.failures
    ensures Drifted(Run(s, events), d, whole, held) && Sampled(Run(s, events), d)
    decreases |events|
  {
    hide Drifted, Sampled, OnDevice, OnCount, OnSize;
    if events != [] {
      var e, t := events[0], Step(s, events[0]);
      assert Internal(e);
      FailuresGrow(t, events[1..]);
      FailuresKept(s, e);
      DriftedMeans(s, d, whole, held);
      if Enabled(s, e) {
        match e
        case DeviceStep(upper, junk) =>
          DriftedDevice(s, d, whole, held, upper, junk);
          SampledDevice(s, d, upper, junk);
        case Complete =>
          if s.responses[0].Count? { DriftedCount(s, d, whole, held); } else { DriftedSize(s, d, whole, held); }
          SampledComplete(s, d);
        case _ =>
      }
      DriftedRun(t, events[1..], d, whole, held);
    }
  }

  lemma FailuresKept(s: State, e: Event)
    ensures Step(s, e).failures >= s.failures
    ensures Enabled(s, e) && (e.FailResponse? || e.LoseCommand?) ==> Step(s, e).failures > s.failures
  {
  }

  lemma DriftedMeans(s: State, d: nat, whole: seq<nat>, held: nat)
    requires Drifted(s, d, whole, held)
    ensures Inv(s) && s.pendingReads == Outstanding(s) + d
  {
  }

  lemma StrandedLeft(s: State, d: nat, whole: seq<nat>, held: nat)
    requires Drifted(s, d, whole, held) && Sampled(s, d) && Quiescent(s) && s.sinceSample == 0
    ensures |s.sizes| == Stranded(held, d) && s.pendingReads == d && s.framed + s.sizes == whole
  {
    assert s.framed + [] + s.sizes == s.framed + s.sizes;
    assert !HasCount([]);
  }

  lemma StartsDrifted(a: State)
    requires Inv(a) && Quiescent(a)
    ensures a.pendingReads >= 0
    ensures var b := Step(a, Packet);
      Drifted(b, a.pendingReads, a.framed + a.sizes, |a.sizes|) && Sampled(b, a.pendingReads)
  {
    var b := Step(a, Packet);
    InvStep(a, Packet);
    assert b.commands == [ReadCount] && ReadCount in b.commands;
    assert a.framed + [] + a.sizes == a.framed + a.sizes;
    assert !HasCount([]);
  }

  /** What failures leave behind, exactly. A quiet exchange has some number of reads counted that
      were lost, its pending count. After the next packet, an exchange that drains without new sizes
      and without failing again turns all sizes into pending frames, in the board's order, except the
      newest ones up to that number, and all of them stay when it is 1023 or more. */
  lemma FailuresStrand(before: seq<Event>, drain: seq<Event>)
    requires Quiescent(Run(INIT, before)) && forall e | e in drain :: Internal(e)
    ensures var a := Run(INIT, before); var t := Run(Step(a, Packet), drain);
      a.pendingReads >= 0 &&
      (t.failures == a.failures && Quiescent(t) ==>
        var left := Stranded(|a.sizes|, a.pendingReads);
        && left <= |a.sizes| && t.pendingReads == a.pendingReads
        && t.sizes == a.sizes[|a.sizes| - left..]
        && t.framed == a.framed + a.sizes[..|a.sizes| - left])
  {
    hide Drifted, Sampled, Step, Stranded, Run, Inv;
    var a := Run(INIT, before);
    var b := Step(a, Packet);
    var t := Run(b, drain);
    StartsWell();
    InvRun(INIT, before);
    StartsDrifted(a);
    PacketFails(a);
    if t.failures == a.failures && Quiescent(t) {
      DriftedRun(b, drain, a.pendingReads, a.framed + a.sizes, |a.sizes|);
      SampleAfter(b, drain);
      StrandedLeft(t, a.pendingReads, a.framed + a.sizes, |a.sizes|);
      StrandedAtMost(|a.sizes|, a.pendingReads);
      SplitAt(t.framed, t.sizes, a.framed, a.sizes);
    }
  }

  lemma PacketFails(a: State)
    ensures Step(a, Packet).failures == a.failures && ReadCount in Step(a, Packet).commands
  {
    assert Step(a, Packet).commands[|a.commands|] == ReadCount;
  }

  lemma StrandedAtMost(held: nat, d: nat)
    ensures Stranded(held, d) <= held
  {
  }

  lemma SplitAt(x: seq<nat>, y: seq<nat>, a: seq<nat>, b: seq<nat>)
    requires x + y == a + b && |y| <= |b|
    ensures y == b[|b| - |y|..] && x == a + b[..|b| - |y|]
  {
    assert (x + y)[|x|..] == y && (a + b)[|x|..] == b[|b| - |y|..];
    assert (x + y)[..|x|] == x && (a + b)[..|x|] == a + b[..|b| - |y|];
  }
}
