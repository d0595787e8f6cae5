/** The clock update as the driver does it (`src/port.c:411-466`): the FCR value is taken from the
    cache, and the writes of the script go out like any other register writes. */
module ClockUpdate {
  import opened CTypes
  import opened Offsets
  import opened Registers
  import opened RegisterPort
  import W = ClockWord
  import P = ClockPins

  lemma {:induction false} ValueBounded(w: bv32, k: nat)
    ensures W.Value(w, k) < W.Power(k)
    decreases k
  {
    hide W.Odd, W.Rest;
    if k > 0 {
      ValueBounded(W.Rest(w), k - 1);
    }
  }

  lemma Power32()
    ensures W.Power(32) == U32
  {
    assert W.Power(8) == 0x100;
    assert W.Power(16) == 0x1_0000;
    assert W.Power(24) == 0x100_0000;
  }

  /** The number a machine word stands for. */
  function Number(w: bv32): Unsigned {
    ValueBounded(w, 32);
    Power32();
    W.Value(w, 32)
  }

  lemma NumberOfWord(n: Unsigned)
    ensures Number(W.Word(n, 32)) == n
  {
    Power32();
    W.WordRoundTrip(n, 32);
    hide W.Power, W.Word, W.Value;
  }

  function Numbers(words: seq<bv32>): (r: seq<Unsigned>)
    ensures |r| == |words|
  {
    seq(|words|, i requires 0 <= i < |words| => Number(words[i]))
  }

  /** The values a clock update writes to FCR. */
  function Values(cached: int, w: seq<bv8>): seq<Unsigned>
    requires |w| == W.BYTES
  {
    Numbers(P.Script(W.Word(cached % U32, 32), P.WordBits(w, 20)))
  }

  /** The last of them is the cached value, as 32 bits. */
  lemma LastValue(cached: int, w: seq<bv8>)
    requires |w| == W.BYTES
    ensures |Values(cached, w)| == 323 && Values(cached, w)[322] == cached % U32
  {
    P.ScriptKeeps(W.Word(cached % U32, 32), P.WordBits(w, 20));
    NumberOfWord(cached % U32);
    hide P.Script, P.WordBits, W.Word, Number;
  }

  lemma FcrKey(values: seq<Unsigned>)
    ensures
      var other := seq(|values|, i requires 0 <= i < |values| => Write(Key(0x00, FCR_OFFSET), values[i]));
      FcrWrites(values) == other
  {
    assert KeyOf(FCR) == Key(0x00, FCR_OFFSET);
    hide KeyOf;
    var other := seq(|values|, i requires 0 <= i < |values| => Write(Key(0x00, FCR_OFFSET), values[i]));
    forall i | 0 <= i < |values| ensures FcrWrites(values)[i] == other[i] {
    }
  }

  method SetClockBits(d: Driver, clockData: array<bv8>)
    requires d.Valid() && clockData.Length == W.BYTES
    modifies clockData, d`commandPipe, d`model
    ensures d.Valid()
    ensures clockData[..] == P.WithCrystal(old(clockData[..]))
    ensures d.model == Run(old(d.model), Issues(FcrWrites(Values(d.registerStorage[FCR], clockData[..]))))
  {
    hide W.Word, Number, P.Script, P.WordBits;
    var origFcr := W.Word(d.registerStorage[FCR] % U32, 32);
    var data, dataIndex := P.SetClockBits(clockData, origFcr);
    var values := Numbers(data[..dataIndex]);
    assert data[..dataIndex] == data[..];
    FcrKey(values);
    d.SetRegisterRep(0x00, FCR_OFFSET, values);
  }

  /** A clock update with nothing outstanding: once its writes are done, FCR holds in the device
      what was cached, as 32 bits, and the cache is what it was. The two agree if and only if the
      cached value had been filled in. */
  lemma UpdateAtRest(start: Ideal, events: seq<Event>, w: seq<bv8>, later: seq<Event>)
    requires |w| == W.BYTES && (forall e :: e in events ==> Allowed(e)) && OnlyDrains(later)
    requires Quiescent(Run(Start(start), events))
    requires
      var s := Run(Start(start), events);
      Quiescent(Run(Run(s, Issues(FcrWrites(Values(s.storage[FCR], w)))), later))
    ensures
      var s := Run(Start(start), events);
      var t := Run(Run(s, Issues(FcrWrites(Values(s.storage[FCR], w)))), later);
      && t.storage[FCR] == s.storage[FCR] && Held(t.dev, KeyOf(FCR)) == s.storage[FCR] % U32
      && (t.storage[FCR] == Held(t.dev, KeyOf(FCR)) <==> 0 <= s.storage[FCR] < U32)
  {
    var s := Run(Start(start), events);
    var values := Values(s.storage[FCR], w);
    LastValue(s.storage[FCR], w);
    assert NoFcrRead(s);
    hide *;
    ClockUpdateCoherent(start, events, values, later);
    ClockUpdateChecked(start, events, values, later);
  }

  /** The driver's own first state is one where it is not filled in: every cached value is -1. A
      clock update then leaves all bits of FCR set, and the cache at -1. */
  lemma UpdateBeforeFirstRead(w: seq<bv8>) returns (later: seq<Event>)
    requires |w| == W.BYTES
    ensures
      var s := Start(Ideal(seq(SLOTS, i => -1), map[]));
      var t := Run(Run(s, Issues(FcrWrites(Values(-1, w)))), later);
      && OnlyDrains(later) && Quiescent(s) && Quiescent(t)
      && Held(t.dev, KeyOf(FCR)) == 0xffff_ffff && t.storage[FCR] == -1
  {
    var start := Ideal(seq(SLOTS, i => -1), map[]);
    var s := Start(start);
    var none: seq<Event> := [];
    assert Run(s, none) == s;
    assert s.storage[FCR] == -1;
    later := CanDrain(Run(s, Issues(FcrWrites(Values(-1, w)))));
    hide Values, Issues, FcrWrites, Held, KeyOf;
    UpdateAtRest(start, none, w, later);
  }

  /** From the driver to the chip, from any state: the writes of a clock update reach the board as
      the script, in order, behind everything issued before and with no other command between them.
      Whatever the board's FCR holds by then, the chip latches one word, and it programs what the
      caller's word programs. */
  lemma UpdateReachesChip(start: Ideal, events: seq<Event>, w: seq<bv8>, later: seq<Event>)
    requires |w| == W.BYTES && (forall e :: e in events ==> Allowed(e)) && OnlyDrains(later)
    requires
      var s := Run(Start(start), events);
      Quiescent(Run(Run(s, Issues(FcrWrites(Values(s.storage[FCR], P.WithCrystal(w))))), later))
    ensures
      var s := Run(Start(start), events);
      var t := Run(Run(s, Issues(FcrWrites(Values(s.storage[FCR], P.WithCrystal(w))))), later);
      var words := P.Script(W.Word(s.storage[FCR] % U32, 32), P.WordBits(P.WithCrystal(w), 20));
      var pins := W.Word(Held(Settled(s).dev, KeyOf(FCR)), 32);
      var chip := P.Replay(P.Idle(pins), words);
      && t.taken == s.issued + FcrWrites(Numbers(words))
      && |chip.latched| == 1 && |chip.latched[0]| == 160
      && W.Decode(P.Unpack(chip.latched[0], 20)) == W.Decode(w)
  {
    var s := Run(Start(start), events);
    var cached := s.storage[FCR];
    var commands := FcrWrites(Values(cached, P.WithCrystal(w)));
    P.ChipGetsWord(w, W.Word(Held(Settled(s).dev, KeyOf(FCR)), 32), W.Word(cached % U32, 32));
    assert AllRegular(commands) by {
      FcrRegular(Values(cached, P.WithCrystal(w)));
    }
    AfterCall(start, events, commands, later);
    TakenInOrder(start, events + Issues(commands) + later);
    hide Run, FcrWrites, Issues, Numbers, P.Script, P.Replay, P.WordBits, P.Unpack, P.Idle, P.WithCrystal,
      W.Word, W.Decode, AllRegular, Start, Settled, Held, KeyOf;
  }

  lemma FcrRegular(values: seq<Unsigned>)
    ensures AllRegular(FcrWrites(values))
  {
    KeysDiffer(FCR, FCR);
  }
}
