/** What the bus is handed over whole runs of the transmit path (`src/isr.c:237-398`). */
module TransmitBus {
  import opened CTypes
  import opened TransmitPort
  import R = Receive
  import T = Transmit

  /** The bytes given to the data pipe, one request after the other. */
  function Bytes(requests: seq<Request>): seq<Byte> {
    if requests == [] then []
    else Bytes(requests[..|requests| - 1])
         + if requests[|requests| - 1].Data? then requests[|requests| - 1].bytes else []
  }

  /** The values written to the length register at 0x04, in order. */
  function Sizes(requests: seq<Request>): seq<nat> {
    if requests == [] then []
    else Sizes(requests[..|requests| - 1])
         + match requests[|requests| - 1]
           case SetRegister(address, value) => if address == 0x04 then [value] else []
           case _ => []
  }

  /** The reference: every buffer followed by what fills up its last word. */
  function Wire(written: seq<seq<Byte>>): seq<Byte> {
    if written == [] then []
    else Wire(written[..|written| - 1]) + (written[|written| - 1] + T.Padding(written[|written| - 1]))
  }

  /** The reference: each size as often as it should be announced. */
  function Announced(logs: seq<T.Log>): seq<nat> {
    if logs == [] then []
    else Announced(logs[..|logs| - 1]) + Repeated(|logs[|logs| - 1].data|, Times(logs[|logs| - 1]))
  }

  function Repeated(size: nat, n: nat): (r: seq<nat>)
    ensures |r| == n && forall i :: 0 <= i < n ==> r[i] == size
  {
    seq(n, _ => size)
  }

  function Times(l: T.Log): nat {
    l.early + if T.Chunks(l.sent) == [] then 0 else 1
  }

  function Datas(logs: seq<T.Log>): (r: seq<seq<Byte>>)
    ensures |r| == |logs|
  {
    seq(|logs|, i requires 0 <= i < |logs| => logs[i].data)
  }

  // ---- bytes ----

  function BytesOf(sent: seq<T.Sent>): seq<Byte> {
    R.Flat(T.Chunks(sent))
  }

  lemma {:induction false} ChunksJoin(a: seq<T.Sent>, b: seq<T.Sent>)
    ensures T.Chunks(a + b) == T.Chunks(a) + T.Chunks(b)
  {
    if b == [] {
      assert a + b == a;
    } else {
      var k := |b| - 1;
      assert (a + b)[..|a + b| - 1] == a + b[..k];
      ChunksJoin(a, b[..k]);
    }
  }

  lemma BytesJoin(a: seq<T.Sent>, b: seq<T.Sent>)
    ensures BytesOf(a + b) == BytesOf(a) + BytesOf(b)
  {
    hide T.Chunks, R.Flat;
    ChunksJoin(a, b);
    R.FlatAppend(T.Chunks(a), T.Chunks(b));
  }

  lemma PartBytes(r: Request)
    ensures BytesOf(FramePart(r)) == if r.Data? then r.bytes else []
  {
    if r.SetRegister? {
      assert T.Chunks([T.Announce(r.value)][..0]) == [];
    } else if r.Data? {
      assert T.Chunks([T.Chunk(r.bytes)][..0]) == [];
      assert T.Chunks([T.Chunk(r.bytes)]) == [r.bytes];
      R.FlatOne(r.bytes);
    }
  }

  lemma {:induction false} BytesHanded(requests: seq<Request>)
    ensures Bytes(requests) == BytesOf(Handed(requests))
  {
    if requests != [] {
      var k := |requests| - 1;
      BytesHanded(requests[..k]);
      BytesJoin(Handed(requests[..k]), FramePart(requests[k]));
      PartBytes(requests[k]);
    }
  }

  lemma {:induction false} CompleteBytes(logs: seq<T.Log>, failures: nat)
    requires forall i :: 0 <= i < |logs| ==> T.Complete(logs[i], failures)
    ensures BytesOf(AllSent(logs)) == Wire(Datas(logs))
  {
    hide T.Complete, T.Padding, BytesOf;
    if logs != [] {
      var k := |logs| - 1;
      CompleteBytes(logs[..k], failures);
      BytesJoin(AllSent(logs[..k]), logs[k].sent);
      CompleteLog(logs[k], failures);
      assert Datas(logs)[..k] == Datas(logs[..k]);
    } else {
      NoBytes();
    }
  }

  lemma NoBytes()
    ensures BytesOf([]) == []
  {
  }

  lemma CompleteLog(l: T.Log, failures: nat)
    requires T.Complete(l, failures)
    ensures BytesOf(l.sent) == l.data + T.Padding(l.data)
  {
  }

  lemma PartialLog(l: T.Log, f: T.OFrame, failures: nat)
    requires T.Partial(l, f, failures)
    ensures BytesOf(l.sent) + T.Contents(f) == l.data
  {
  }

  /** All bytes on the bus in terms of the histories of a reachable state. */
  lemma BytesOfLogs(logs: seq<T.Log>, pending: Option<T.OFrame>, failures: nat)
    requires T.LogsOk(logs, pending, failures)
    ensures pending.None? ==> BytesOf(AllSent(logs)) == Wire(Datas(logs))
    ensures pending.Some? ==>
      && logs != []
      && BytesOf(AllSent(logs)) + T.Contents(pending.value) == Wire(Datas(logs[..|logs| - 1])) + logs[|logs| - 1].data
  {
    hide T.Complete, T.Partial, BytesOf, Wire, T.Contents;
    if pending.None? {
      CompleteBytes(logs, failures);
    } else {
      var k := |logs| - 1;
      CompleteBytes(logs[..k], failures);
      BytesJoin(AllSent(logs[..k]), logs[k].sent);
      PartialLog(logs[k], pending.value, failures);
      Regroup(Wire(Datas(logs[..k])), BytesOf(logs[k].sent), T.Contents(pending.value));
    }
  }

  /** What the data pipe received in every run: the buffers written so far, each followed by its
      padding, in order and without a gap; of a frame that is still being sent, the bytes that its
      frame no longer holds. */
  lemma BusCarriesData(p: Port, events: seq<T.Event>, c: T.Config)
    requires p.Valid() && p.model == T.Run(T.INIT, events, c)
    ensures var s, k := p.model, |p.model.logs|; k <= |s.written|
    ensures var s, k := p.model, |p.model.logs|;
      s.pending.None? ==> Bytes(p.requests) == Wire(s.written[..k])
    ensures var s, k := p.model, |p.model.logs|;
      s.pending.Some? ==>
        && k > 0
        && Bytes(p.requests) + T.Contents(s.pending.value) == Wire(s.written[..k - 1]) + s.written[k - 1]
  {
    hide T.Run, T.LogsOk, Wire, T.Contents, BytesOf, Bytes, Handed, AllSent, T.NewFrame;
    var s, k := p.model, |p.model.logs|;
    T.ChunkingPreservesData(events, c);
    BytesHanded(p.requests);
    BytesOfLogs(s.logs, s.pending, T.Failures(s));
    assert Datas(s.logs) == s.written[..k];
    if s.pending.Some? {
      assert Datas(s.logs[..k - 1]) == s.written[..k - 1];
    }
  }

  // ---- chunks ----

  lemma {:induction false} DataInHanded(requests: seq<Request>, i: nat)
    requires i < |requests| && requests[i].Data?
    ensures requests[i].bytes in T.Chunks(Handed(requests))
  {
    var k := |requests| - 1;
    ChunksJoin(Handed(requests[..k]), FramePart(requests[k]));
    if i < k {
      DataInHanded(requests[..k], i);
    } else {
      assert T.Chunks([T.Chunk(requests[i].bytes)][..0]) == [];
      assert T.Chunks([T.Chunk(requests[i].bytes)]) == [requests[i].bytes];
    }
  }

  ghost predicate FitsFifo(chunks: seq<seq<Byte>>) {
    forall c :: c in chunks ==> |c| % 4 == 0 && 0 < |c| <= 4092
  }

  lemma ChunksFit(l: T.Log, rest: seq<nat>)
    requires T.Lengths(T.Chunks(l.sent)) + rest == T.ChunkSizes(|l.data|) && l.data != []
    ensures FitsFifo(T.Chunks(l.sent))
  {
    hide T.ChunkSizes;
    var chunks := T.Chunks(l.sent);
    T.ChunkSizesBounded(|l.data|);
    forall c | c in chunks ensures |c| % 4 == 0 && 0 < |c| <= 4092 {
      var i :| 0 <= i < |chunks| && chunks[i] == c;
      assert T.ChunkSizes(|l.data|)[i] == T.Lengths(chunks)[i];
    }
  }

  lemma LogFits(l: T.Log, f: Option<T.OFrame>, failures: nat)
    requires if f.Some? then T.Partial(l, f.value, failures) else T.Complete(l, failures)
    requires l.data != []
    ensures FitsFifo(T.Chunks(l.sent))
  {
    hide T.ChunkSizes, FitsFifo, T.StaleEnd, T.AsScripted, R.Flat, T.Chunks;
    if f.Some? {
      ChunksFit(l, T.ChunkSizes(f.value.length));
    } else {
      assert T.Lengths(T.Chunks(l.sent)) + [] == T.ChunkSizes(|l.data|);
      ChunksFit(l, []);
    }
  }

  lemma {:induction false} AllFit(logs: seq<T.Log>)
    requires forall i :: 0 <= i < |logs| ==> FitsFifo(T.Chunks(logs[i].sent))
    ensures FitsFifo(T.Chunks(AllSent(logs)))
  {
    if logs != [] {
      var k := |logs| - 1;
      AllFit(logs[..k]);
      ChunksJoin(AllSent(logs[..k]), logs[k].sent);
    }
  }

  /** Every request to the data pipe is whole words and fits the board's FIFO, in every run. */
  lemma BusChunksFit(p: Port, events: seq<T.Event>, c: T.Config, i: nat)
    requires p.Valid() && p.model == T.Run(T.INIT, events, c)
    requires i < |p.requests| && p.requests[i].Data?
    ensures |p.requests[i].bytes| % 4 == 0 && 0 < |p.requests[i].bytes| <= 4092
  {
    hide T.Run, T.Complete, T.Partial, Handed, AllSent, T.Chunks, T.NewFrame;
    var s := p.model;
    T.ChunkingPreservesData(events, c);
    T.WrittenNotEmpty(events, c);
    forall j | 0 <= j < |s.logs| ensures FitsFifo(T.Chunks(s.logs[j].sent)) {
      LogFits(s.logs[j], if j == |s.logs| - 1 then s.pending else None, T.Failures(s));
    }
    AllFit(s.logs);
    DataInHanded(p.requests, i);
  }

  // ---- sizes ----

  function SizesOf(sent: seq<T.Sent>): seq<nat> {
    if sent == [] then []
    else SizesOf(sent[..|sent| - 1])
         + match sent[|sent| - 1] case Announce(size) => [size] case Chunk(_) => []
  }

  lemma {:induction false} SizesJoin(a: seq<T.Sent>, b: seq<T.Sent>)
    ensures SizesOf(a + b) == SizesOf(a) + SizesOf(b)
  {
    if b == [] {
      assert a + b == a;
    } else {
      var k := |b| - 1;
      assert (a + b)[..|a + b| - 1] == a + b[..k];
      SizesJoin(a, b[..k]);
    }
  }

  lemma SizesOfOne(e: T.Sent)
    ensures SizesOf([e]) == if e.Announce? then [e.size] else []
  {
    assert SizesOf([e][..0]) == [];
  }

  lemma PartSizes(r: Request)
    ensures SizesOf(FramePart(r)) ==
      match r
      case SetRegister(address, value) => if address == 0x04 then [value] else []
      case _ => []
  {
    if FramePart(r) != [] { SizesOfOne(FramePart(r)[0]); }
  }

  lemma {:induction false} SizesHanded(requests: seq<Request>)
    ensures Sizes(requests) == SizesOf(Handed(requests))
  {
    if requests != [] {
      var k := |requests| - 1;
      SizesHanded(requests[..k]);
      SizesJoin(Handed(requests[..k]), FramePart(requests[k]));
      PartSizes(requests[k]);
      hide SizesOf, FramePart;
    }
  }

  lemma {:induction false} SizesOfAnnounces(n: nat, size: nat)
    ensures SizesOf(T.Announces(n, size)) == Repeated(size, n)
  {
    if n > 0 {
      SizesOfAnnounces(n - 1, size);
      assert T.Announces(n, size)[..n - 1] == T.Announces(n - 1, size);
    }
  }

  lemma {:induction false} SizesOfChunks(chunks: seq<seq<Byte>>)
    ensures SizesOf(T.AsSent(chunks)) == []
  {
    if chunks != [] {
      SizesOfChunks(chunks[..|chunks| - 1]);
      assert T.AsSent(chunks)[..|chunks| - 1] == T.AsSent(chunks[..|chunks| - 1]);
    }
  }

  lemma SizesOfLog(l: T.Log)
    requires T.AsScripted(l)
    ensures SizesOf(l.sent) == Repeated(|l.data|, Times(l))
  {
    hide T.Chunks, SizesOf;
    var chunks, size := T.Chunks(l.sent), |l.data|;
    SizesJoin(T.Announces(l.early, size), T.Script(chunks, size));
    SizesOfAnnounces(l.early, size);
    if chunks == [] {
      SizesOfChunks([]);
      assert T.AsSent([]) == [];
    } else {
      SizesJoin([T.Chunk(chunks[0]), T.Announce(size)], T.AsSent(chunks[1..]));
      SizesJoin([T.Chunk(chunks[0])], [T.Announce(size)]);
      SizesOfOne(T.Chunk(chunks[0]));
      SizesOfOne(T.Announce(size));
      SizesOfChunks(chunks[1..]);
      assert [T.Chunk(chunks[0])] + [T.Announce(size)] == [T.Chunk(chunks[0]), T.Announce(size)];
      assert SizesOf(T.Script(chunks, size)) == [size];
      assert Repeated(size, l.early) + [size] == Repeated(size, l.early + 1);
    }
  }

  lemma {:induction false} SizesOfLogs(logs: seq<T.Log>)
    requires forall i :: 0 <= i < |logs| ==> T.AsScripted(logs[i])
    ensures SizesOf(AllSent(logs)) == Announced(logs)
  {
    hide T.AsScripted, Times, Repeated;
    if logs != [] {
      var k := |logs| - 1;
      SizesOfLogs(logs[..k]);
      SizesJoin(AllSent(logs[..k]), logs[k].sent);
      SizesOfLog(logs[k]);
    }
  }

  lemma LogScripted(l: T.Log, f: Option<T.OFrame>, failures: nat)
    requires if f.Some? then T.Partial(l, f.value, failures) else T.Complete(l, failures)
    ensures T.AsScripted(l) && (failures == 0 ==> l.early == 0) && (f.None? ==> T.Chunks(l.sent) != [])
  {
    hide T.AsScripted, T.StaleEnd, R.Flat;
    assert f.None? ==> |T.Lengths(T.Chunks(l.sent))| == |T.ChunkSizes(|l.data|)|;
  }

  lemma {:induction false} AnnouncedOnce(logs: seq<T.Log>, n: nat)
    requires n <= |logs| <= n + 1
    requires forall i :: 0 <= i < |logs| ==> Times(logs[i]) == if i < n then 1 else 0
    ensures |Announced(logs)| == n && forall i :: 0 <= i < n ==> Announced(logs)[i] == |logs[i].data|
  {
    hide Times;
    if logs != [] {
      var k := |logs| - 1;
      AnnouncedOnce(logs[..k], Min(n, k));
      assert forall i :: 0 <= i < k ==> logs[..k][i] == logs[i];
      assert Announced(logs) == Announced(logs[..k]) + Repeated(|logs[k].data|, if k < n then 1 else 0);
    }
  }

  /** The frame sizes the board is told in every run: those of the written buffers in order, each
      once per failure before its first chunk and once with that chunk. */
  lemma BusAnnounces(p: Port, events: seq<T.Event>, c: T.Config)
    requires p.Valid() && p.model == T.Run(T.INIT, events, c)
    ensures Sizes(p.requests) == Announced(p.model.logs)
  {
    hide T.Run, T.Complete, T.Partial, Handed, AllSent, T.NewFrame, Announced;
    var s := p.model;
    T.ChunkingPreservesData(events, c);
    forall j | 0 <= j < |s.logs| ensures T.AsScripted(s.logs[j]) {
      LogScripted(s.logs[j], if j == |s.logs| - 1 then s.pending else None, T.Failures(s));
    }
    SizesHanded(p.requests);
    SizesOfLogs(s.logs);
  }

  /** Without failures the board is told the length of each buffer of which a chunk was sent, in
      order and once. */
  lemma BusAnnouncesOnce(p: Port, events: seq<T.Event>, c: T.Config)
    requires p.Valid() && p.model == T.Run(T.INIT, events, c) && T.Failures(p.model) == 0
    ensures var s, k := p.model, |p.model.logs|;
      var n := if s.pending.Some? && k > 0 && T.Chunks(s.logs[k - 1].sent) == [] then k - 1 else k;
      && n <= |s.written| && |Sizes(p.requests)| == n
      && forall i :: 0 <= i < n ==> Sizes(p.requests)[i] == |s.written[i]|
  {
    hide T.Run, T.Complete, T.Partial, Handed, AllSent, T.NewFrame, Announced, Sizes;
    var s, k := p.model, |p.model.logs|;
    T.ChunkingPreservesData(events, c);
    BusAnnounces(p, events, c);
    forall j | 0 <= j < k ensures s.logs[j].early == 0 &&
      ((j < k - 1 || s.pending.None?) ==> T.Chunks(s.logs[j].sent) != [])
    {
      LogScripted(s.logs[j], if j == k - 1 then s.pending else None, 0);
    }
    var n := if s.pending.Some? && k > 0 && T.Chunks(s.logs[k - 1].sent) == [] then k - 1 else k;
    AnnouncedOnce(s.logs, n);
  }
}
