/** Writing the clock word to the chip: a script of register writes that toggles three pins
    (`src/port.c:411-466`). */
module ClockPins {
  import W = ClockWord

  // ---- the pins in the FCR register ----

  function SetBits(value: bv32, bits: bv32): bv32 {
    value | bits
  }

  function ClearBits(value: bv32, bits: bv32): bv32 {
    value & !bits
  }

  predicate Has(value: bv32, bits: bv32) {
    value & bits != 0
  }

  const STRB: bv32 := 8
  const DTA: bv32 := 1
  const CLK: bv32 := 2
  const KEPT: bv32 := 0xfffff0f0

  // ---- the word as bits, in the order sent ----

  /** Bit `j` of a byte. */
  predicate BitAt(b: bv8, j: nat) {
    if j == 0 then b & 1 == 1
    else if j == 1 then (b >> 1) & 1 == 1
    else if j == 2 then (b >> 2) & 1 == 1
    else if j == 3 then (b >> 3) & 1 == 1
    else if j == 4 then (b >> 4) & 1 == 1
    else if j == 5 then (b >> 5) & 1 == 1
    else if j == 6 then (b >> 6) & 1 == 1
    else (b >> 7) & 1 == 1
  }

  /** The low `j` bits of a byte, the highest first. */
  function ByteBits(b: bv8, j: nat): (bits: seq<bool>)
    ensures |bits| == j
  {
    if j == 0 then [] else [BitAt(b, j - 1)] + ByteBits(b, j - 1)
  }

  /** The bits of the low `n` bytes of a word, the last byte first. */
  function WordBits(w: seq<bv8>, n: nat): (bits: seq<bool>)
    requires n <= |w|
    ensures |bits| == 8 * n
  {
    if n == 0 then [] else ByteBits(w[n - 1], 8) + WordBits(w, n - 1)
  }

  function Place(bit: bool, value: bv8): bv8 {
    if bit then value else 0
  }

  /** The byte a shift register holds after eight bits, the highest first. */
  function ByteOf(bits: seq<bool>): bv8
    requires |bits| == 8
  {
    Place(bits[0], 0x80) | Place(bits[1], 0x40) | Place(bits[2], 0x20) | Place(bits[3], 0x10)
    | Place(bits[4], 0x08) | Place(bits[5], 0x04) | Place(bits[6], 0x02) | Place(bits[7], 0x01)
  }

  /** The `n` bytes a shift register holds after their bits. */
  function Unpack(bits: seq<bool>, n: nat): (w: seq<bv8>)
    requires |bits| == 8 * n
    ensures |w| == n
  {
    if n == 0 then [] else Unpack(bits[8..], n - 1) + [ByteOf(bits[..8])]
  }

  lemma ByteAssembled(b: bv8)
    ensures Place(BitAt(b, 7), 0x80) | Place(BitAt(b, 6), 0x40) | Place(BitAt(b, 5), 0x20)
      | Place(BitAt(b, 4), 0x10) | Place(BitAt(b, 3), 0x08) | Place(BitAt(b, 2), 0x04)
      | Place(BitAt(b, 1), 0x02) | Place(BitAt(b, 0), 0x01) == b
  {
  }

  lemma {:induction false} ByteBitsAt(b: bv8, j: nat, k: nat)
    requires k < j
    ensures ByteBits(b, j)[k] == BitAt(b, j - 1 - k)
  {
    if k > 0 {
      ByteBitsAt(b, j - 1, k - 1);
    }
  }

  lemma ByteRoundTrip(b: bv8)
    ensures ByteOf(ByteBits(b, 8)) == b
  {
    var s := ByteBits(b, 8);
    hide BitAt, Place, ByteBits;
    ByteBitsAt(b, 8, 0);
    ByteBitsAt(b, 8, 1);
    ByteBitsAt(b, 8, 2);
    ByteBitsAt(b, 8, 3);
    ByteBitsAt(b, 8, 4);
    ByteBitsAt(b, 8, 5);
    ByteBitsAt(b, 8, 6);
    ByteBitsAt(b, 8, 7);
    ByteAssembled(b);
  }

  /** The bits sent, shifted in again, are the word. */
  lemma {:induction false} WordRoundTrip(w: seq<bv8>, n: nat)
    requires n <= |w|
    ensures Unpack(WordBits(w, n), n) == w[..n]
  {
    hide ByteOf, ByteBits;
    if n > 0 {
      var head := ByteBits(w[n - 1], 8);
      assert WordBits(w, n)[..8] == head;
      assert WordBits(w, n)[8..] == WordBits(w, n - 1);
      ByteRoundTrip(w[n - 1]);
      WordRoundTrip(w, n - 1);
    }
  }

  // ---- what the chip sees ----

  /** The pins as last written, the data pin at each rising and each falling clock edge, and what
      had been clocked in at each rising strobe edge. */
  datatype Chip = Chip(fcr: bv32, rising: seq<bool>, falling: seq<bool>, latched: seq<seq<bool>>)

  /** The chip's side of the pins: data is bit 0, clock bit 1 and strobe bit 3. */
  function Observe(c: Chip, fcr: bv32): Chip {
    var rising := if !Has(c.fcr, 2) && Has(fcr, 2) then c.rising + [Has(fcr, 1)] else c.rising;
    var falling := if Has(c.fcr, 2) && !Has(fcr, 2) then c.falling + [Has(fcr, 1)] else c.falling;
    var latched := if !Has(c.fcr, 8) && Has(fcr, 8) then c.latched + [rising] else c.latched;
    Chip(fcr, rising, falling, latched)
  }

  function Replay(c: Chip, writes: seq<bv32>): Chip {
    if writes == [] then c
    else Observe(Replay(c, writes[..|writes| - 1]), writes[|writes| - 1])
  }

  // ---- the script ----

  function Level(base: bv32, bit: bool): bv32 {
    if bit then SetBits(base, DTA) else ClearBits(base, DTA)
  }

  /** A word of the script: the FCR value found, except for the pins. */
  predicate Keeps(value: bv32, fcr: bv32) {
    value & KEPT == fcr & KEPT
  }

  function Base(fcr: bv32): bv32 {
    fcr & KEPT
  }

  function High(fcr: bv32, bit: bool): bv32 {
    SetBits(Level(Base(fcr), bit), CLK)
  }

  function Low(fcr: bv32, bit: bool): bv32 {
    ClearBits(High(fcr, bit), CLK)
  }

  function Strobe(fcr: bv32): bv32 {
    ClearBits(SetBits(Base(fcr), STRB), CLK)
  }

  lemma BasePins(fcr: bv32)
    ensures !Has(Base(fcr), CLK) && !Has(Base(fcr), STRB) && !Has(Base(fcr), DTA) && Keeps(Base(fcr), fcr)
  {
  }

  lemma HighPins(fcr: bv32, bit: bool)
    ensures Has(High(fcr, bit), CLK) && !Has(High(fcr, bit), STRB) && (Has(High(fcr, bit), DTA) <==> bit)
    ensures Keeps(High(fcr, bit), fcr)
  {
  }

  lemma ClearClock(value: bv32)
    ensures !Has(ClearBits(value, CLK), CLK)
    ensures ClearBits(value, CLK) & KEPT == value & KEPT
  {
  }

  lemma ClearClockOthers(value: bv32)
    ensures Has(ClearBits(value, CLK), STRB) <==> Has(value, STRB)
    ensures Has(ClearBits(value, CLK), DTA) <==> Has(value, DTA)
  {
  }

  lemma LowPins(fcr: bv32, bit: bool)
    ensures !Has(Low(fcr, bit), CLK) && !Has(Low(fcr, bit), STRB) && (Has(Low(fcr, bit), DTA) <==> bit)
    ensures Keeps(Low(fcr, bit), fcr)
  {
    hide High, Has, ClearBits;
    HighPins(fcr, bit);
    ClearClock(High(fcr, bit));
    ClearClockOthers(High(fcr, bit));
  }

  lemma StrobePins(fcr: bv32)
    ensures !Has(Strobe(fcr), CLK) && Has(Strobe(fcr), STRB) && Keeps(Strobe(fcr), fcr)
  {
  }

  /** The two writes that clock in each bit. */
  function Pulses(fcr: bv32, bits: seq<bool>): (p: seq<bv32>)
    ensures |p| == 2 * |bits|
  {
    if bits == [] then []
    else
      var bit := bits[|bits| - 1];
      Pulses(fcr, bits[..|bits| - 1]) + [High(fcr, bit)] + [Low(fcr, bit)]
  }

  /** All the writes for a word, from the FCR value found. */
  function Script(fcr: bv32, bits: seq<bool>): (p: seq<bv32>)
    ensures |p| == 2 * |bits| + 3
  {
    [Base(fcr)] + Pulses(fcr, bits) + [Strobe(fcr)] + [fcr]
  }

  /** Between two states the chip saw these bits at both edges of the clock, and no strobe. */
  predicate Clocked(start: Chip, end: Chip, bits: seq<bool>) {
    && !Has(end.fcr, CLK) && !Has(end.fcr, STRB)
    && end.rising == start.rising + bits && end.falling == start.falling + bits
    && end.latched == start.latched
  }

  lemma PulsesGrow(fcr: bv32, front: seq<bool>, bit: bool)
    ensures [Base(fcr)] + Pulses(fcr, front + [bit])
      == [Base(fcr)] + Pulses(fcr, front) + [High(fcr, bit)] + [Low(fcr, bit)]
  {
    hide Base, High, Low;
    assert (front + [bit])[..|front|] == front;
  }

  lemma {:induction false} PulsesSeen(c: Chip, fcr: bv32, bits: seq<bool>)
    ensures Clocked(Observe(c, Base(fcr)), Replay(c, [Base(fcr)] + Pulses(fcr, bits)), bits)
  {
    if bits == [] {
      BasePins(fcr);
      ReplayOne(c, [], Base(fcr));
      assert [Base(fcr)] + Pulses(fcr, bits) == [] + [Base(fcr)];
      hide Has;
    } else {
      var bit, front := bits[|bits| - 1], bits[..|bits| - 1];
      var p := [Base(fcr)] + Pulses(fcr, front);
      hide *;
      PulsesGrow(fcr, front, bit);
      assert front + [bit] == bits;
      PulsesSeen(c, fcr, front);
      ReplayOne(c, p, High(fcr, bit));
      ReplayOne(c, p + [High(fcr, bit)], Low(fcr, bit));
      PulseSeen(Observe(c, Base(fcr)), Replay(c, p), fcr, front, bit);
    }
  }

  lemma PulseSeen(start: Chip, c: Chip, fcr: bv32, front: seq<bool>, bit: bool)
    requires Clocked(start, c, front)
    ensures Clocked(start, Observe(Observe(c, High(fcr, bit)), Low(fcr, bit)), front + [bit])
  {
    hide Has, High, Low;
    HighPins(fcr, bit);
    LowPins(fcr, bit);
    assert start.rising + front + [bit] == start.rising + (front + [bit]);
    assert start.falling + front + [bit] == start.falling + (front + [bit]);
  }

  lemma ReplayOne(c: Chip, writes: seq<bv32>, fcr: bv32)
    ensures Replay(c, writes + [fcr]) == Observe(Replay(c, writes), fcr)
  {
    assert (writes + [fcr])[..|writes|] == writes;
  }

  function Idle(fcr: bv32): Chip {
    Chip(fcr, [], [], [])
  }

  /** The whole script, whatever the pins are before it: the chip latches exactly the bits, once.
      The rising edges of the clock are exactly as many as the bits if and only if the FCR value
      given has the clock pin low; otherwise there is one more after the strobe. A clock pin that was
      high before the script gives one falling edge more, before the bits. */
  lemma ScriptSeen(pins: bv32, fcr: bv32, bits: seq<bool>)
    ensures
      var end := Replay(Idle(pins), Script(fcr, bits));
      && end.fcr == fcr
      && end.latched == [bits]
      && end.rising == bits + (if Has(fcr, CLK) then [Has(fcr, DTA)] else [])
      && end.falling == (if Has(pins, CLK) then [false] else []) + bits
      && (|end.rising| == |bits| <==> !Has(fcr, CLK))
      && (|end.falling| == |bits| <==> !Has(pins, CLK))
  {
    var c := Idle(pins);
    var p := [Base(fcr)] + Pulses(fcr, bits);
    var before := Replay(c, p);
    BasePins(fcr);
    StrobePins(fcr);
    hide Pulses, Has, Replay, Base, Strobe;
    PulsesSeen(c, fcr, bits);
    ReplayOne(c, p, Strobe(fcr));
    ReplayOne(c, p + [Strobe(fcr)], fcr);
    assert before.rising == [] + bits == bits;
  }

  /** No write of the script touches a bit outside the pins, and the last one restores the value
      found. */
  lemma ScriptKeeps(fcr: bv32, bits: seq<bool>)
    ensures forall value :: value in Script(fcr, bits) ==> Keeps(value, fcr)
    ensures Script(fcr, bits)[2 * |bits| + 2] == fcr
  {
    PulsesKeep(fcr, bits);
    BasePins(fcr);
    StrobePins(fcr);
    assert Keeps(fcr, fcr);
    hide Keeps, Base, Strobe;
  }

  lemma {:induction false} PulsesKeep(fcr: bv32, bits: seq<bool>)
    ensures forall value :: value in Pulses(fcr, bits) ==> Keeps(value, fcr)
  {
    hide Keeps, High, Low;
    if bits != [] {
      PulsesKeep(fcr, bits[..|bits| - 1]);
      HighPins(fcr, bits[|bits| - 1]);
      LowPins(fcr, bits[|bits| - 1]);
    }
  }

  /** The bit sent as number `k`: the last byte first, the highest bit of each byte first. */
  predicate BitSent(w: seq<bv8>, k: nat)
    requires |w| == 20 && k < 160
  {
    var masks: seq<bv8> := [0x80, 0x40, 0x20, 0x10, 0x08, 0x04, 0x02, 0x01];
    w[19 - k / 8] & masks[k % 8] != 0
  }

  lemma {:induction false} WordBitsAt(w: seq<bv8>, n: nat, k: nat)
    requires n <= |w| && k < 8 * n
    ensures WordBits(w, n)[k] == BitAt(w[n - 1 - k / 8], 7 - k % 8)
  {
    hide BitAt, ByteBits;
    if k < 8 {
      ByteBitsAt(w[n - 1], 8, k);
    } else {
      WordBitsAt(w, n - 1, k - 8);
      assert WordBits(w, n)[k] == WordBits(w, n - 1)[k - 8];
    }
  }

  lemma BitMasks(b: bv8, j: nat)
    requires j < 8
    ensures var masks: seq<bv8> := [0x80, 0x40, 0x20, 0x10, 0x08, 0x04, 0x02, 0x01];
      BitAt(b, 7 - j) <==> b & masks[j] != 0
  {
  }

  lemma {:induction false} PulsesAt(fcr: bv32, bits: seq<bool>, k: nat)
    requires k < |bits|
    ensures Pulses(fcr, bits)[2 * k] == High(fcr, bits[k]) && Pulses(fcr, bits)[2 * k + 1] == Low(fcr, bits[k])
  {
    hide High, Low;
    if k < |bits| - 1 { PulsesAt(fcr, bits[..|bits| - 1], k); }
  }

  lemma HighValue(fcr: bv32, bit: bool)
    ensures bit ==> High(fcr, bit) == (fcr & 0xfffff0f0) | 3
    ensures !bit ==> High(fcr, bit) == (fcr & 0xfffff0f0) | 2
  {
  }

  lemma LowOne(fcr: bv32)
    ensures Low(fcr, true) == (fcr & 0xfffff0f0) | 1
  {
  }

  lemma LowZero(fcr: bv32)
    ensures Low(fcr, false) == fcr & 0xfffff0f0
  {
  }

  lemma EndValues(fcr: bv32)
    ensures Base(fcr) == fcr & 0xfffff0f0 && Strobe(fcr) == (fcr & 0xfffff0f0) | 8
  {
  }

  lemma ScriptAt(fcr: bv32, bits: seq<bool>, k: nat)
    requires |bits| == 160 && k < 160
    ensures
      var data := Script(fcr, bits);
      && |data| == 323 && data[0] == Base(fcr)
      && data[1 + 2 * k] == High(fcr, bits[k]) && data[2 + 2 * k] == Low(fcr, bits[k])
      && data[321] == Strobe(fcr) && data[322] == fcr
  {
    hide Base, High, Low, Strobe;
    PulsesAt(fcr, bits, k);
    hide Pulses;
  }

  lemma SentBits(w: seq<bv8>, k: nat)
    requires |w| == 20 && k < 160
    ensures WordBits(w, 20)[k] == BitSent(w, k)
  {
    hide WordBits, BitAt;
    WordBitsAt(w, 20, k);
    BitMasks(w[19 - k / 8], k % 8);
  }

  /** The 323 values, one by one: the FCR value without its pins, for each bit of the word that value
      with clock and data and then with the data alone, then the strobe, then the FCR value found. */
  lemma ScriptValues(w: seq<bv8>, fcr: bv32, k: nat)
    requires |w| == 20 && k < 160
    ensures
      var data, bit := Script(fcr, WordBits(w, 20)), BitSent(w, k);
      && |data| == 323 && data[0] == fcr & 0xfffff0f0
      && (bit ==> data[1 + 2 * k] == (fcr & 0xfffff0f0) | 3 && data[2 + 2 * k] == (fcr & 0xfffff0f0) | 1)
      && (!bit ==> data[1 + 2 * k] == (fcr & 0xfffff0f0) | 2 && data[2 + 2 * k] == fcr & 0xfffff0f0)
      && data[321] == (fcr & 0xfffff0f0) | 8 && data[322] == fcr
  {
    hide Base, High, Low, Strobe, Script, WordBits, BitSent;
    ScriptAt(fcr, WordBits(w, 20), k);
    SentBits(w, k);
    HighValue(fcr, BitSent(w, k));
    LowOne(fcr);
    LowZero(fcr);
    EndValues(fcr);
  }

  // ---- the method that writes it ----

  const WRITES: nat := 323

  predicate Free(base: bv32) {
    base & 3 == 0
  }

  lemma BaseFree(fcr: bv32)
    ensures Free(Base(fcr))
  {
  }

  lemma FreeData(base: bv32)
    requires Free(base)
    ensures ClearBits(base, DTA) == base
  {
  }

  lemma DataOverwritten(base: bv32, value: bv32)
    requires ClearBits(value, DTA) == base
    ensures SetBits(value, DTA) == SetBits(base, DTA)
  {
  }

  lemma DataRemoved(base: bv32)
    requires Free(base)
    ensures ClearBits(ClearBits(SetBits(base, CLK), CLK), DTA) == base
    ensures ClearBits(ClearBits(SetBits(SetBits(base, DTA), CLK), CLK), DTA) == base
  {
  }

  /** The data pin is written on top of whatever bit came before. */
  lemma DataWritten(fcr: bv32, value: bv32, bit: bool)
    requires ClearBits(value, DTA) == Base(fcr)
    ensures SetBits(Level(value, bit), CLK) == High(fcr, bit)
    ensures ClearBits(Low(fcr, bit), DTA) == Base(fcr)
  {
    hide Base, SetBits, ClearBits, Free;
    BaseFree(fcr);
    FreeData(Base(fcr));
    DataOverwritten(Base(fcr), value);
    DataRemoved(Base(fcr));
  }

  /** `data[data_index++] = value`. */
  method Put(data: array<bv32>, index: nat, value: bv32) returns (next: nat)
    requires index < data.Length
    modifies data
    ensures next == index + 1 && data[..next] == old(data[..index]) + [value]
  {
    data[index] := value;
    next := index + 1;
  }

  /** What has been written so far: the first word and the pulses of some bits. */
  ghost predicate Written(data: seq<bv32>, fcr: bv32, done: seq<bool>, value: bv32) {
    data == [Base(fcr)] + Pulses(fcr, done) && ClearBits(value, DTA) == Base(fcr)
  }

  lemma WrittenMore(data: seq<bv32>, fcr: bv32, done: seq<bool>, value: bv32, bit: bool)
    requires Written(data, fcr, done, value)
    ensures
      var high := SetBits(Level(value, bit), CLK);
      Written(data + [high] + [ClearBits(high, CLK)], fcr, done + [bit], ClearBits(high, CLK))
  {
    hide Base, Level, SetBits, ClearBits, Pulses, High;
    DataWritten(fcr, value, bit);
    PulsesGrow(fcr, done, bit);
    assert Low(fcr, bit) == ClearBits(SetBits(Level(value, bit), CLK), CLK);
  }

  /** The inner loop: the two writes for each bit of one byte. */
  method ClockByte(data: array<bv32>, index: nat, b: bv8, fcr: bv32, value: bv32, ghost done: seq<bool>)
    returns (next: nat, newFcr: bv32)
    requires index + 16 <= data.Length && Written(data[..index], fcr, done, value)
    modifies data
    ensures next == index + 16
    ensures Written(data[..next], fcr, done + ByteBits(b, 8), newFcr)
  {
    hide Written, SetBits, ClearBits, BitAt;
    next, newFcr := index, value;
    ghost var sent := done;
    for j := 8 downto 0
      invariant sent + ByteBits(b, j) == done + ByteBits(b, 8)
      invariant next == index + 2 * (8 - j)
      invariant Written(data[..next], fcr, sent, newFcr)
    {
      var bit := BitAt(b, j);
      WrittenMore(data[..next], fcr, sent, newFcr, bit);
      if bit {
        newFcr := SetBits(newFcr, DTA);
      } else {
        newFcr := ClearBits(newFcr, DTA);
      }
      newFcr := SetBits(newFcr, CLK);
      next := Put(data, next, newFcr);
      newFcr := ClearBits(newFcr, CLK);
      next := Put(data, next, newFcr);
      sent := sent + [bit];
    }
    assert sent == sent + ByteBits(b, 0);
  }

  /** The outer loop, from the last byte down. */
  method ClockBytes(data: array<bv32>, index: nat, clockData: array<bv8>, fcr: bv32, value: bv32)
    returns (next: nat, newFcr: bv32)
    requires clockData.Length == W.BYTES && index + 320 <= data.Length && Written(data[..index], fcr, [], value)
    modifies data
    ensures next == index + 320 && Written(data[..next], fcr, WordBits(clockData[..], 20), newFcr)
  {
    ghost var w := clockData[..];
    ghost var done: seq<bool> := [];
    next, newFcr := index, value;
    hide Written, WordBits, ByteBits;
    for i := 20 downto 0
      invariant done + WordBits(w, i) == WordBits(w, 20)
      invariant next == index + 16 * (20 - i)
      invariant Written(data[..next], fcr, done, newFcr)
    {
      WordBitsStep(w, i, done);
      next, newFcr := ClockByte(data, next, clockData[i], fcr, newFcr, done);
      done := done + ByteBits(w[i], 8);
    }
    NoBits(w);
    assert done == done + WordBits(w, 0);
  }

  /** Selects the crystal in the caller's word, then builds the 323 writes. */
  method SetClockBits(clockData: array<bv8>, origFcr: bv32) returns (data: array<bv32>, dataIndex: nat)
    requires clockData.Length == W.BYTES
    modifies clockData
    ensures clockData[..] == old(clockData[..])[15 := old(clockData[15]) | 0x04]
    ensures fresh(data) && data.Length == dataIndex == WRITES
    ensures data[..] == Script(origFcr, WordBits(clockData[..], 20))
  {
    clockData[15] := clockData[15] | 0x04;
    data := new bv32[WRITES];
    dataIndex := 0;
    var newFcr := origFcr & KEPT;
    dataIndex := Put(data, dataIndex, newFcr);
    WrittenFirst(data[..dataIndex], origFcr);
    assert dataIndex == 1 && data.Length == 323 && clockData.Length == 20;
    hide Written, WordBits;
    dataIndex, newFcr := ClockBytes(data, dataIndex, clockData, origFcr, newFcr);
    ScriptOf(data[..dataIndex], origFcr, WordBits(clockData[..], 20), newFcr);
    newFcr := origFcr & KEPT;
    newFcr := SetBits(newFcr, STRB);
    newFcr := ClearBits(newFcr, CLK);
    assert newFcr == Strobe(origFcr);
    hide *;
    dataIndex := Put(data, dataIndex, newFcr);
    dataIndex := Put(data, dataIndex, origFcr);
    assert data[..dataIndex] == data[..];
  }

  lemma WrittenFirst(data: seq<bv32>, fcr: bv32)
    requires data == [fcr & KEPT]
    ensures Written(data, fcr, [], fcr & KEPT)
  {
    BaseFree(fcr);
    FreeData(Base(fcr));
    hide ClearBits;
  }

  lemma WordBitsStep(w: seq<bv8>, i: nat, done: seq<bool>)
    requires i < |w|
    ensures done + WordBits(w, i + 1) == done + ByteBits(w[i], 8) + WordBits(w, i)
  {
  }

  lemma NoBits(w: seq<bv8>)
    ensures WordBits(w, 0) == []
  {
  }

  lemma ScriptOf(data: seq<bv32>, fcr: bv32, done: seq<bool>, value: bv32)
    requires Written(data, fcr, done, value)
    ensures data + [Strobe(fcr)] + [fcr] == Script(fcr, done)
  {
    hide Base, Strobe, ClearBits;
  }

  /** The word with the crystal selected. */
  function WithCrystal(w: seq<bv8>): (r: seq<bv8>)
    requires |w| == W.BYTES
    ensures |r| == W.BYTES
  {
    w[15 := w[15] | 0x04]
  }

  lemma CrystalByte(b11: bv8, b15: bv8, b16: bv8)
    ensures W.PumpCurrent(b11, b15 | 0x04, b16) == W.PumpCurrent(b11, b15, b16)
  {
    assert W.Bit(b15 | 0x04, 0x80) == W.Bit(b15, 0x80);
    hide W.PumpCode;
  }

  /** For every word, every FCR value and every state of the pins, the chip latches one word, and
      that word programs what the caller's word programs. */
  lemma ChipGetsWord(w: seq<bv8>, pins: bv32, fcr: bv32)
    requires |w| == W.BYTES
    ensures
      var chip := Replay(Idle(pins), Script(fcr, WordBits(WithCrystal(w), 20)));
      && |chip.latched| == 1 && |chip.latched[0]| == 160
      && Unpack(chip.latched[0], 20) == WithCrystal(w)
      && W.Decode(Unpack(chip.latched[0], 20)) == W.Decode(w)
  {
    var v := WithCrystal(w);
    ScriptSeen(pins, fcr, WordBits(v, 20));
    WordRoundTrip(v, 20);
    CrystalByte(w[11], w[15], w[16]);
    hide WordBits, Unpack, Script, Replay, Idle;
    hide W.RefDivider, W.VcoDivider, W.LoopResistor, W.PumpCurrent, W.OutDivider;
    assert v[..20] == v;
  }
}
