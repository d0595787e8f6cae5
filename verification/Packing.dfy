/** How a read packs queued frames into the user's buffer (`src/isr.c:171-223`). */
module Packing {
  import opened CTypes
  import opened Frames

  datatype Item = Item(data: seq<Byte>, stamp: Timestamp)

  datatype Options = Options(status: bool, timestamp: bool, multiple: bool)

  /** The bytes of each queued frame. */
  function Data(queue: seq<Item>): (r: seq<seq<Byte>>)
    ensures |r| == |queue|
  {
    seq(|queue|, i requires 0 <= i < |queue| => queue[i].data)
  }

  const STATUS_LENGTH := 2
  const STAMP_LENGTH := 8
  const INT_LIMIT: nat := 0x8000_0000

  /** Conversion of an integer to a C `int`. */
  function AsInt(x: int): int {
    (x + INT_LIMIT) % U32 - INT_LIMIT
  }

  /** The longest frame a read still takes, as the source computes it: the sums with the
      `unsigned` length wrap, and the result is stored in an `int`. */
  function MaxFrameLength(room: Unsigned, o: Options): int {
    if o.status && o.timestamp then AsInt(room - STAMP_LENGTH)
    else if o.status then AsInt(room)
    else if o.timestamp then AsInt(AddU32(room, STATUS_LENGTH) - STAMP_LENGTH)
    else AsInt(AddU32(room, STATUS_LENGTH))
  }

  predicate Takes(queue: seq<Item>, o: Options, room: Unsigned) {
    queue != [] && MaxFrameLength(room, o) >= 0 && |queue[0].data| <= MaxFrameLength(room, o)
  }

  /** Without the status option the last two bytes of a frame are left out, so they must exist. */
  predicate Renderable(f: Item, o: Options) {
    o.status || |f.data| >= STATUS_LENGTH
  }

  /** How many bytes of a frame the source asks for and reports, in its wrapping arithmetic. */
  function ReportedLength(f: Item, o: Options): Unsigned {
    SubU32(|f.data|, if o.status then 0 else STATUS_LENGTH)
  }

  /** The reported length is within the frame exactly for the frames that can be rendered; for a
      shorter one it wraps around. */
  lemma ShortFrame(f: Item, o: Options)
    requires |f.data| < U32
    ensures Renderable(f, o) <==> o.status || |f.data| >= 2
    ensures ReportedLength(f, o) <= |f.data| <==> Renderable(f, o)
    ensures !Renderable(f, o) ==> ReportedLength(f, o) >= U32 - 2
  {
  }

  /** What a reader gets for one frame. */
  function Rendered(f: Item, o: Options): seq<Byte>
    requires Renderable(f, o)
  {
    (if o.status then f.data else f.data[..|f.data| - STATUS_LENGTH])
    + (if o.timestamp then f.stamp else [])
  }

  /** The same for any frame; one that cannot be rendered gives nothing. */
  function Shown(f: Item, o: Options): seq<Byte> {
    if Renderable(f, o) then Rendered(f, o) else []
  }

  function FirstShown(queue: seq<Item>, o: Options): seq<Byte> {
    if queue == [] then [] else Shown(queue[0], o)
  }

  /** A rendering is a prefix of the data and, if asked for, the time. */
  lemma ShownParts(f: Item, o: Options)
    requires Renderable(f, o)
    ensures var n := |f.data| - if o.status then 0 else 2;
      && Shown(f, o) == f.data[..n] + (if o.timestamp then f.stamp else [])
      && |Shown(f, o)| == n + if o.timestamp then 8 else 0
  {
    assert f.data[..|f.data|] == f.data;
  }

  /** Buffers of this length or longer are beyond the reach of the `int` above. */
  function Limit(o: Options): nat {
    INT_LIMIT + (if o.timestamp then STAMP_LENGTH else 0) - (if o.status then 0 else STATUS_LENGTH)
  }

  lemma TakesSome(queue: seq<Item>, o: Options, room: Unsigned)
    requires Takes(queue, o, room)
    ensures queue != []
  {
  }

  /** What a frame needs in the buffer; negative when there are not even two bytes to leave out. */
  function Needed(f: Item, o: Options): int {
    |f.data| - (if o.status then 0 else STATUS_LENGTH) + if o.timestamp then STAMP_LENGTH else 0
  }

  /** The integer juggling decides exactly whether the frame fits, below the limit, and a frame that
      can be rendered is never taken at or above it. */
  lemma TakesExactly(queue: seq<Item>, o: Options, room: Unsigned)
    requires queue != []
    ensures Limit(o) == 0x8000_0000 + (if o.timestamp then 8 else 0) - (if o.status then 0 else 2)
    ensures Needed(queue[0], o) == |queue[0].data| + (if o.timestamp then 8 else 0) - (if o.status then 0 else 2)
    ensures room < Limit(o) ==> (Takes(queue, o, room) <==> Needed(queue[0], o) <= room)
    ensures Renderable(queue[0], o) ==> (Takes(queue, o, room) <==> |Shown(queue[0], o)| <= room < Limit(o))
    ensures Renderable(queue[0], o) ==> |Shown(queue[0], o)| == Needed(queue[0], o)
  {
    hide Takes, Shown;
    if room < Limit(o) { TakesBelow(queue, o, room); }
    if Renderable(queue[0], o) {
      TakesRenderable(queue, o, room);
      ShownParts(queue[0], o);
    }
  }

  lemma TakesBelow(queue: seq<Item>, o: Options, room: Unsigned)
    requires queue != [] && room < Limit(o)
    ensures Takes(queue, o, room) <==> Needed(queue[0], o) <= room
  {
  }

  lemma TakesRenderable(queue: seq<Item>, o: Options, room: Unsigned)
    requires queue != [] && Renderable(queue[0], o)
    ensures Takes(queue, o, room) <==> Needed(queue[0], o) <= room < Limit(o)
  {
  }

  /** Every frame that a read takes can be rendered. */
  predicate Safe(queue: seq<Item>, o: Options, room: Unsigned)
    decreases |queue|
  {
    Takes(queue, o, room) ==>
      && Renderable(queue[0], o)
      && (o.multiple ==> (TakesExactly(queue, o, room); Safe(queue[1..], o, room - |Shown(queue[0], o)|)))
  }

  /** What one round of the read decides, in one place. */
  lemma TakesOpened(queue: seq<Item>, o: Options, room: Unsigned)
    requires Safe(queue, o, room)
    ensures Takes(queue, o, room) <==>
      queue != [] && 0 <= MaxFrameLength(room, o) && |queue[0].data| <= MaxFrameLength(room, o)
    ensures Takes(queue, o, room) ==> Renderable(queue[0], o) && |FirstShown(queue, o)| <= room
    ensures queue != [] ==> FirstShown(queue, o) == Shown(queue[0], o)
  {
    if queue != [] { TakesExactly(queue, o, room); }
  }

  datatype Result = Result(out: seq<Byte>, left: seq<Item>)

  /** The loop of the read. */
  function Pack(queue: seq<Item>, o: Options, room: Unsigned): Result
    requires Safe(queue, o, room)
    decreases |queue|
  {
    if !Takes(queue, o, room) then Result([], queue)
    else
      TakesExactly(queue, o, room);
      var bytes := Shown(queue[0], o);
      if !o.multiple then Result(bytes, queue[1..])
      else
        var more := Pack(queue[1..], o, room - |bytes|);
        Result(bytes + more.out, more.left)
  }

  function RenderAll(queue: seq<Item>, o: Options): seq<Byte> {
    if queue == [] then [] else Shown(queue[0], o) + RenderAll(queue[1..], o)
  }

  /** A read is greedy: it returns the longest prefix of the queue that fits the buffer, each frame
      with its options, or at most the first frame when `multiple` is off. It never exceeds the
      buffer and leaves the rest of the queue in order. */
  lemma {:induction false} Greedy(queue: seq<Item>, o: Options, room: Unsigned) returns (n: nat)
    requires Safe(queue, o, room) && room < Limit(o)
    ensures n <= |queue| && (o.multiple || n <= 1)
    ensures forall i :: 0 <= i < n ==> Renderable(queue[i], o)
    ensures var r := Pack(queue, o, room);
      r.out == RenderAll(queue[..n], o) && r.left == queue[n..] && |r.out| <= room
    ensures n == |queue| || (!o.multiple && n == 1)
      || |RenderAll(queue[..n], o)| + Needed(queue[n], o) > room
  {
    hide Takes, Shown, Needed, Renderable, Limit;
    if queue != [] { TakesExactly(queue, o, room); }
    if !Takes(queue, o, room) {
      n := 0;
    } else {
      TakesSome(queue, o, room);
      var bytes := Shown(queue[0], o);
      if !o.multiple {
        n := 1;
        assert queue[..1][1..] == [];
        assert RenderAll(queue[..1], o) == bytes + RenderAll([], o);
      } else {
        var m := Greedy(queue[1..], o, room - |bytes|);
        n := m + 1;
        assert queue[..n][1..] == queue[1..][..m];
      }
    }
  }

  /** "Too small" means that only frames without any visible byte left the queue; when each frame
      has one, the queue is unchanged and its first frame does not fit. */
  lemma TooSmall(queue: seq<Item>, o: Options, room: Unsigned)
    requires Safe(queue, o, room) && room < Limit(o)
    requires forall i :: 0 <= i < |queue| ==> Shown(queue[i], o) != []
    ensures Pack(queue, o, room).out == [] ==>
      Pack(queue, o, room).left == queue && (queue == [] || |Shown(queue[0], o)| > room)
  {
    if queue != [] { TakesExactly(queue, o, room); }
  }

  /** A buffer at or above the limit gets nothing, whatever is queued; only a frame too short to be
      rendered could be taken. */
  lemma HugeBuffer(queue: seq<Item>, o: Options, room: Unsigned)
    requires room >= Limit(o)
    ensures Takes(queue, o, room) ==> !Renderable(queue[0], o)
    ensures Safe(queue, o, room) ==> Pack(queue, o, room) == Result([], queue)
  {
    if queue != [] { TakesExactly(queue, o, room); }
  }

  // ---- the loop as the source counts ----

  /** Bytes written to the buffer. */
  datatype Span = Span(at: nat, length: nat)

  /** The length reported, what was written, and how many frames were taken. */
  datatype Raw = Raw(out: nat, spans: seq<Span>, taken: nat)

  /** The length reported after one more frame. */
  function Next(f: Item, o: Options, out: nat): nat {
    out + ReportedLength(f, o) + if o.timestamp then STAMP_LENGTH else 0
  }

  /** The loop with the source's own lengths: the length of a frame without its status is an
      `unsigned` difference, `*out_length` a `size_t`, and the room left an `unsigned` again. */
  function RawRead(queue: seq<Item>, o: Options, total: Unsigned, out: nat): Raw
    decreases |queue|
  {
    if !Takes(queue, o, SubU32(total, out)) then Raw(out, [], 0)
    else
      var f := queue[0];
      var n := ReportedLength(f, o);
      var spans := [Span(out, Min(|f.data|, n))] + if o.timestamp then [Span(out + n, STAMP_LENGTH)] else [];
      var next := Next(f, o, out);
      if !o.multiple then Raw(next, spans, 1)
      else
        var more := RawRead(queue[1..], o, total, next);
        Raw(more.out, spans + more.spans, more.taken + 1)
  }

  /** Neither the length reported nor any byte written is beyond the buffer. */
  predicate InBounds(r: Raw, total: nat) {
    r.out <= total && forall s :: s in r.spans ==> s.at + s.length <= total
  }

  lemma {:induction false} RawGrows(queue: seq<Item>, o: Options, total: Unsigned, out: nat)
    ensures RawRead(queue, o, total, out).out >= out && RawRead(queue, o, total, out).taken <= |queue|
    decreases |queue|
  {
    hide Takes, ReportedLength, Min;
    if Takes(queue, o, SubU32(total, out)) && o.multiple {
      TakesSome(queue, o, SubU32(total, out));
      RawGrows(queue[1..], o, total, Next(queue[0], o, out));
    } else if Takes(queue, o, SubU32(total, out)) {
      TakesSome(queue, o, SubU32(total, out));
    }
  }

  /** One round on a frame that is taken. */
  lemma RawRound(f: Item, o: Options, total: Unsigned, out: nat)
    requires |f.data| < U32 && out <= total < Limit(o)
    ensures Renderable(f, o) ==>
      && ReportedLength(f, o) + (if o.timestamp then STAMP_LENGTH else 0) == |Shown(f, o)|
      && ReportedLength(f, o) <= |f.data|
    ensures !Renderable(f, o) ==> out + ReportedLength(f, o) > total
  {
    ShortFrame(f, o);
    if Renderable(f, o) { ShownParts(f, o); }
  }

  /** The source's loop against the packing: it stays in bounds exactly if what it takes can be
      rendered, and then it reports what is packed. */
  ghost predicate Exact(queue: seq<Item>, o: Options, total: Unsigned, out: nat) {
    var r := RawRead(queue, o, total, out);
    && out <= total && r.taken <= |queue|
    && (InBounds(r, total) <==> forall i :: 0 <= i < r.taken ==> Renderable(queue[i], o))
    && (InBounds(r, total) <==> Safe(queue, o, total - out))
    && (Safe(queue, o, total - out) ==>
          var p := Pack(queue, o, total - out);
          r.out == out + |p.out| && r.taken == |queue| - |p.left|)
  }

  lemma RoomLeft(total: Unsigned, out: nat)
    requires out <= total
    ensures SubU32(total, out) == total - out
  {
  }

  lemma ExactNone(queue: seq<Item>, o: Options, total: Unsigned, out: nat)
    requires out <= total && !Takes(queue, o, total - out)
    ensures Exact(queue, o, total, out)
  {
    hide Takes, SubU32;
    RoomLeft(total, out);
  }

  lemma ExactShort(queue: seq<Item>, o: Options, total: Unsigned, out: nat)
    requires out <= total < Limit(o) && queue != [] && |queue[0].data| < U32
    requires Takes(queue, o, total - out) && !Renderable(queue[0], o)
    ensures Exact(queue, o, total, out)
  {
    hide Takes, SubU32, Limit, Min, ReportedLength, Renderable;
    RoomLeft(total, out);
    RawRound(queue[0], o, total, out);
    RawGrows(queue, o, total, out);
    RawGrows(queue[1..], o, total, Next(queue[0], o, out));
  }

  lemma ExactOne(queue: seq<Item>, o: Options, total: Unsigned, out: nat)
    requires out <= total < Limit(o) && queue != [] && |queue[0].data| < U32 && !o.multiple
    requires Takes(queue, o, total - out) && Renderable(queue[0], o)
    ensures Exact(queue, o, total, out)
  {
    hide Takes, SubU32, ReportedLength, Renderable, Shown, Needed, Limit;
    RoomLeft(total, out);
    TakesExactly(queue, o, total - out);
    RawRound(queue[0], o, total, out);
  }

  lemma ExactMore(queue: seq<Item>, o: Options, total: Unsigned, out: nat)
    requires out <= total < Limit(o) && queue != [] && |queue[0].data| < U32 && o.multiple
    requires Takes(queue, o, total - out) && Renderable(queue[0], o)
    requires Exact(queue[1..], o, total, Next(queue[0], o, out))
    ensures Exact(queue, o, total, out)
  {
    hide Takes, SubU32, ReportedLength, Renderable, Shown, Needed, Limit;
    var f, next := queue[0], Next(queue[0], o, out);
    RoomLeft(total, out);
    TakesExactly(queue, o, total - out);
    RawRound(f, o, total, out);
    var r, more := RawRead(queue, o, total, out), RawRead(queue[1..], o, total, next);
    var spans := [Span(out, Min(|f.data|, ReportedLength(f, o)))]
      + if o.timestamp then [Span(out + ReportedLength(f, o), STAMP_LENGTH)] else [];
    assert r == Raw(more.out, spans + more.spans, more.taken + 1);
    RawGrows(queue[1..], o, total, next);
    MoreInBounds(spans, more, r, total);
    MoreRenderable(queue, o, more.taken);
  }

  lemma MoreInBounds(spans: seq<Span>, more: Raw, r: Raw, total: nat)
    requires r.out == more.out && r.spans == spans + more.spans
    requires forall s :: s in spans ==> s.at + s.length <= total
    ensures InBounds(r, total) <==> InBounds(more, total)
  {
    if InBounds(r, total) {
      forall s | s in more.spans ensures s.at + s.length <= total {
        assert s in r.spans;
      }
    }
  }

  lemma MoreRenderable(queue: seq<Item>, o: Options, taken: nat)
    requires queue != [] && taken < |queue| && Renderable(queue[0], o)
    ensures (forall i :: 0 <= i < taken + 1 ==> Renderable(queue[i], o))
      <==> forall i :: 0 <= i < taken ==> Renderable(queue[1..][i], o)
  {
    hide Renderable;
    if forall i :: 0 <= i < taken ==> Renderable(queue[1..][i], o) {
      forall i | 0 <= i < taken + 1 ensures Renderable(queue[i], o) {
        assert i > 0 ==> queue[i] == queue[1..][i - 1];
      }
    }
  }

  /** Exactly when a read stays in its buffer, for every queue and every buffer below the limit: if
      and only if each frame it takes can be rendered. Then it reports what it packs. */
  lemma {:induction false} InBoundsExactly(queue: seq<Item>, o: Options, total: Unsigned, out: nat)
    requires out <= total < Limit(o) && forall i :: 0 <= i < |queue| ==> |queue[i].data| < U32
    ensures Exact(queue, o, total, out)
    decreases |queue|
  {
    hide Exact, Takes, Renderable, ReportedLength;
    if !Takes(queue, o, total - out) {
      ExactNone(queue, o, total, out);
    } else {
      TakesSome(queue, o, total - out);
      if !Renderable(queue[0], o) {
        ExactShort(queue, o, total, out);
      } else if !o.multiple {
        ExactOne(queue, o, total, out);
      } else {
        NextWithin(queue, o, total, out);
        InBoundsExactly(queue[1..], o, total, Next(queue[0], o, out));
        ExactMore(queue, o, total, out);
      }
    }
  }

  lemma NextWithin(queue: seq<Item>, o: Options, total: Unsigned, out: nat)
    requires out <= total < Limit(o) && queue != [] && |queue[0].data| < U32
    requires Takes(queue, o, total - out) && Renderable(queue[0], o)
    ensures Next(queue[0], o, out) <= total
  {
    hide Takes, ReportedLength, Shown, Needed, Renderable, Limit;
    TakesExactly(queue, o, total - out);
    RawRound(queue[0], o, total, out);
  }

  /** A frame without any byte, read without status: the length reported is 2^32 - 2, and the time,
      if it is asked for, goes there. */
  lemma EmptyFrameRead(stamp: Timestamp, o: Options, total: Unsigned)
    requires !o.status && total < Limit(o) && (o.timestamp ==> total >= 6)
    ensures var r := RawRead([Item([], stamp)], o, total, 0);
      && !InBounds(r, total) && r.taken == 1 && r.out >= U32 - STATUS_LENGTH
      && (o.timestamp ==> Span(U32 - STATUS_LENGTH, STAMP_LENGTH) in r.spans)
  {
    var queue := [Item([], stamp)];
    TakesExactly(queue, o, total);
    assert SubU32(total, 0) == total;
    assert queue[1..] == [];
    var next := U32 - STATUS_LENGTH + if o.timestamp then STAMP_LENGTH else 0;
    assert ReportedLength(queue[0], o) == U32 - STATUS_LENGTH;
    assert RawRead([], o, total, next) == Raw(next, [], 0);
  }

  // ---- the loop, round by round ----

  /** After rounds that produced `out` and left `queue`, the whole read is what is still to come. */
  ghost predicate Progress(items: seq<Item>, o: Options, total: Unsigned, out: seq<Byte>,
                           queue: seq<Item>, again: bool)
  {
    && Safe(items, o, total) && |out| <= total && (again ==> Safe(queue, o, total - |out|))
    && var rest := if again then Pack(queue, o, total - |out|) else Result([], queue);
       Pack(items, o, total) == Result(out + rest.out, rest.left)
  }

  lemma ProgressRound(items: seq<Item>, o: Options, total: Unsigned, out: seq<Byte>, queue: seq<Item>)
    requires Progress(items, o, total, out, queue, true)
    ensures |out| <= total && Safe(queue, o, total - |out|)
    ensures !Takes(queue, o, total - |out|) ==> Progress(items, o, total, out, queue, false)
    ensures Takes(queue, o, total - |out|) ==>
      queue != [] && Progress(items, o, total, out + FirstShown(queue, o), queue[1..], o.multiple)
  {
    hide Takes, Shown, Renderable, Needed, Limit;
    var room: Unsigned := total - |out|;
    if Takes(queue, o, room) {
      TakesSome(queue, o, room);
      TakesExactly(queue, o, room);
      var bytes := FirstShown(queue, o);
      if o.multiple {
        Regroup(out, bytes, Pack(queue[1..], o, room - |bytes|).out);
      } else {
        Regroup(out, bytes, []);
      }
    }
  }

  lemma ProgressDone(items: seq<Item>, o: Options, total: Unsigned, out: seq<Byte>, queue: seq<Item>)
    requires Progress(items, o, total, out, queue, false)
    ensures Pack(items, o, total) == Result(out, queue) && |out| <= total
  {
    assert out + [] == out;
  }
}
