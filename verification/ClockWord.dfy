/** The 20-byte word the clock chip is programmed with (`lib/raw/calculate-clock-bits.c:496-949`). */
module ClockWord {
  import opened OutputDivider

  const BYTES: nat := 20
  const MIN_V: int := 12
  const MAX_V: int := 2055

  // ---- numbers as machine words ----

  function Push(x: bv32, bit: bool): bv32 {
    (x << 1) | (if bit then 1 else 0)
  }

  function Rest(x: bv32): bv32 {
    x >> 1
  }

  predicate Odd(x: bv32) {
    x & 1 == 1
  }

  /** The machine word (an `unsigned long`) that holds `n`, of at most `k` bits. */
  function Word(n: nat, k: nat): bv32 {
    if k == 0 then 0 else Push(Word(n / 2, k - 1), n % 2 == 1)
  }

  /** The number in the low `k` bits of a word. */
  function Value(w: bv32, k: nat): nat {
    if k == 0 then 0 else (if Odd(w) then 1 else 0) + 2 * Value(Rest(w), k - 1)
  }

  function Power(k: nat): nat {
    if k == 0 then 1 else 2 * Power(k - 1)
  }

  function Mask(k: nat): bv32
    requires k <= 32
  {
    if k == 0 then 0 else if k == 1 then 0x1 else if k == 2 then 0x3 else if k == 3 then 0x7
    else if k == 4 then 0xf else if k == 5 then 0x1f else if k == 6 then 0x3f else if k == 7 then 0x7f
    else if k == 8 then 0xff else if k == 9 then 0x1ff else if k == 10 then 0x3ff else if k == 11 then 0x7ff
    else if k == 12 then 0xfff else if k == 13 then 0x1fff else if k == 14 then 0x3fff
    else if k == 15 then 0x7fff else if k == 16 then 0xffff else if k == 17 then 0x1ffff
    else if k == 18 then 0x3ffff else if k == 19 then 0x7ffff else if k == 20 then 0xfffff
    else if k == 21 then 0x1fffff else if k == 22 then 0x3fffff else if k == 23 then 0x7fffff
    else if k == 24 then 0xffffff else if k == 25 then 0x1ffffff else if k == 26 then 0x3ffffff
    else if k == 27 then 0x7ffffff
    else if k == 28 then 0xfffffff else if k == 29 then 0x1fffffff else if k == 30 then 0x3fffffff
    else if k == 31 then 0x7fffffff
    else 0xffffffff
  }

  predicate Within(x: bv32, m: bv32) {
    x & !m == 0
  }

  lemma MaskStep(k: nat)
    requires 1 <= k <= 32
    ensures Mask(k) == Push(Mask(k - 1), true) && Within(Mask(k - 1), 0x7fffffff)
  {
  }

  lemma PushBit(x: bv32, bit: bool, m: bv32)
    requires Within(m, 0x7fffffff) && Within(x, m)
    ensures Rest(Push(x, bit)) == x && (Odd(Push(x, bit)) <==> bit)
    ensures Within(Push(x, bit), Push(m, true))
  {
  }

  lemma NoBits(n: nat)
    ensures Within(Word(n, 0), Mask(0))
  {
  }

  lemma {:induction false} WordFits(n: nat, k: nat)
    requires k <= 32
    ensures Within(Word(n, k), Mask(k))
  {
    hide Push, Rest, Odd, Mask, Within;
    if k == 0 {
      NoBits(n);
    } else {
      WordFits(n / 2, k - 1);
      MaskStep(k);
      PushBit(Word(n / 2, k - 1), n % 2 == 1, Mask(k - 1));
    }
  }

  lemma {:induction false} WordRoundTrip(n: nat, k: nat)
    requires k <= 32 && n < Power(k)
    ensures Value(Word(n, k), k) == n
  {
    hide Push, Rest, Odd, Mask, Within;
    if k > 0 {
      WordFits(n / 2, k - 1);
      MaskStep(k);
      PushBit(Word(n / 2, k - 1), n % 2 == 1, Mask(k - 1));
      WordRoundTrip(n / 2, k - 1);
    }
  }

  /** Words that differ in each of their low bits, as many as the mask has. */
  predicate Opposite(a: bv32, b: bv32, m: bv32) {
    (a ^ b) & m == m
  }

  lemma OppositeStep(a: bv32, b: bv32, m: bv32)
    requires Opposite(a, b, Push(m, true))
    ensures Odd(a) <==> !Odd(b)
  {
  }

  lemma OppositeRest(a: bv32, b: bv32, m: bv32)
    requires Within(m, 0x7fffffff) && Opposite(a, b, Push(m, true))
    ensures Opposite(Rest(a), Rest(b), m)
  {
  }

  predicate OppositeBits(a: bv32, b: bv32, k: nat)
    requires k <= 32
  {
    Opposite(a, b, Mask(k))
  }

  lemma OppositeBitsStep(a: bv32, b: bv32, k: nat)
    requires 1 <= k <= 32 && OppositeBits(a, b, k)
    ensures OppositeBits(Rest(a), Rest(b), k - 1)
    ensures Odd(a) <==> !Odd(b)
  {
    hide Push, Rest, Odd, Mask, Within, Opposite;
    MaskStep(k);
    OppositeStep(a, b, Mask(k - 1));
    OppositeRest(a, b, Mask(k - 1));
  }

  lemma {:induction false} OppositeValue(a: bv32, b: bv32, k: nat)
    requires k <= 32 && OppositeBits(a, b, k)
    ensures Value(a, k) + Value(b, k) == Power(k) - 1
    decreases k
  {
    hide OppositeBits, Rest, Odd;
    if k > 0 {
      OppositeBitsStep(a, b, k);
      OppositeValue(Rest(a), Rest(b), k - 1);
    }
  }

  // ---- the layout of the word, read back ----

  /** What a word programs: the three dividers, the loop filter resistor in ohms and the charge
      pump current in units of 10 nA. */
  datatype Setting = Setting(r: int, v: int, resistor: int, current: int, od: int)

  function Bit(b: bv8, mask: bv8): nat {
    if b & mask == 0 then 0 else 1
  }

  /** Bits 2 to 12 of the word. */
  function RefField(b0: bv8, b1: bv8): bv32 {
    ((b0 as bv32) >> 2) | (((b1 & 0x1f) as bv32) << 6)
  }

  /** Bits 13 to 23. */
  function VcoField(b1: bv8, b2: bv8): bv32 {
    ((b1 as bv32) >> 5) | ((b2 as bv32) << 3)
  }

  /** Bits 98 to 102. */
  function ShortField(b12: bv8): bv32 {
    ((b12 & 0x7f) as bv32) >> 2
  }

  /** Bits 101 to 109. */
  function LongField(b12: bv8, b13: bv8): bv32 {
    ((b12 as bv32) >> 5) | (((b13 & 0x3f) as bv32) << 3)
  }

  function Kind(b: bv8): nat {
    Bit(b, 1) + 2 * Bit(b, 2)
  }

  function RefDivider(b0: bv8, b1: bv8): int {
    if Kind(b0) == 0 then 1
    else if Kind(b0) == 1 then 2
    else if Kind(b0) == 2 then 17 - Value(RefField(b0, b1), 4)
    else Value(RefField(b0, b1), 11) + 8
  }

  function VcoDivider(b1: bv8, b2: bv8): int {
    Value(VcoField(b1, b2), 11) + 8
  }

  function LoopResistor(b11: bv8): int {
    if b11 & 2 == 0 then (if b11 & 4 == 0 then 64000 else 52000)
    else (if b11 & 4 == 0 then 16000 else 4000)
  }

  /** Three bits choose the current in eight steps. */
  function PumpCode(b11: bv8): nat {
    Bit(b11, 0x08) + 2 * Bit(b11, 0x10) + 4 * Bit(b11, 0x20)
  }

  /** Two more bits, in two bytes, multiply the current by up to four. */
  function PumpCurrent(b11: bv8, b15: bv8, b16: bv8): int {
    var step := 125 * (8 - PumpCode(b11));
    if Bit(b16, 0x01) == 0 then (if Bit(b15, 0x80) == 0 then step else 2 * step)
    else (if Bit(b15, 0x80) == 0 then 3 * step else 4 * step)
  }

  lemma PumpFormula(b11: bv8, b15: bv8, b16: bv8)
    ensures PumpCurrent(b11, b15, b16) == 125 * (8 - PumpCode(b11)) * (1 + Bit(b15, 0x80) + 2 * Bit(b16, 0x01))
  {
    hide PumpCode;
    var step := 125 * (8 - PumpCode(b11));
    var m := Bit(b15, 0x80) + 2 * Bit(b16, 0x01);
    assert m == 0 || m == 1 || m == 2 || m == 3;
    hide Bit;
    if m == 0 {
      assert step * 1 == step;
    } else if m == 1 {
      assert step * 2 == 2 * step;
    } else if m == 2 {
      assert step * 3 == 3 * step;
    } else {
      assert step * 4 == 4 * step;
    }
  }

  /** The output divider of clock 1, in its four formats. */
  function OutDivider(b11: bv8, b12: bv8, b13: bv8): int {
    var q := Bit(b11, 0x80);
    if Kind(b12) == 0 then (if Bit(b12, 0x04) == 0 then 2 + q else 4 + 2 * q)
    else if Kind(b12) == 1 then (if q == 0 then 5 else 7 + 2 * Bit(b12, 0x04) + 4 * Bit(b12, 0x08))
    else if q == 0 then 37 - Value(ShortField(b12), 5)
    else ((Value(LongField(b12, b13), 9) + 3) * 2 + 1 - Bit(b12, 0x04)) * Scale(Bit(b12, 0x08) + 2 * Bit(b12, 0x10))
  }

  function Decode(w: seq<bv8>): Setting
    requires |w| == BYTES
  {
    Setting(RefDivider(w[0], w[1]), VcoDivider(w[1], w[2]), LoopResistor(w[11]),
            PumpCurrent(w[11], w[15], w[16]), OutDivider(w[11], w[12], w[13]))
  }

  // ---- the tables ----

  /** The low eight bits. */
  function Low(t: bv32): bv8 {
    (t & 0xff) as bv8
  }

  predicate Same(a: bv8, b: bv8, mask: bv8) {
    a & mask == b & mask
  }

  twostate predicate OnlyChanged(p: array<bv8>, at: set<nat>)
    reads p
  {
    forall k: nat :: k < p.Length && k !in at ==> p[k] == old(p[k])
  }

  predicate Clear(b: bv8, mask: bv8) {
    b & mask == 0
  }

  function ShortRefByte(t: bv32): bv8 {
    (Low(!t << 2) & 0x3e) | 0x02
  }

  function LongRefByte0(t: bv32): bv8 {
    Low(t << 2) | 0x03
  }

  function LongRefByte1(t: bv32): bv8 {
    Low((t << 2) >> 8)
  }

  lemma ShortRef(t: bv32, b1: bv8)
    ensures Kind(ShortRefByte(t)) == 2
    ensures OppositeBits(RefField(ShortRefByte(t), b1), t, 4)
  {
  }

  lemma LongRef(t: bv32)
    requires Within(t, 0x7ff)
    ensures Kind(LongRefByte0(t)) == 3
    ensures RefField(LongRefByte0(t), LongRefByte1(t)) == t
    ensures Clear(LongRefByte1(t), 0xe0)
  {
  }

  lemma ShortRefDivider(r: int, b1: bv8)
    requires 3 <= r <= 17
    ensures RefDivider(ShortRefByte(Word(r - 2, 4)), b1) == r
  {
    hide Push, Rest, Odd, RefField, ShortRefByte, OppositeBits, Kind;
    var t := Word(r - 2, 4);
    ShortRef(t, b1);
    assert Power(4) == 16;
    WordRoundTrip(r - 2, 4);
    OppositeValue(RefField(ShortRefByte(t), b1), t, 4);
  }

  lemma LongRefDivider(r: int)
    requires 18 <= r <= 2055
    ensures RefDivider(LongRefByte0(Word(r - 8, 11)), LongRefByte1(Word(r - 8, 11))) == r
    ensures Clear(LongRefByte1(Word(r - 8, 11)), 0xe0)
  {
    hide Push, Rest, Odd, RefField, LongRefByte0, LongRefByte1, Kind, Clear, Within;
    assert Power(11) == 2048;
    WordRoundTrip(r - 8, 11);
    WordFits(r - 8, 11);
    LongRef(Word(r - 8, 11));
  }

  /** Table 1, the input divider. */
  method SetRefDivider(p: array<bv8>, r: int) returns (code: int)
    requires p.Length == BYTES && p[0] == 0 && p[1] == 0
    modifies p
    ensures OnlyChanged(p, {0, 1}) && Clear(p[1], 0xe0)
    ensures code == if 1 <= r <= 2055 then 0 else 3
    ensures code == 0 ==> RefDivider(p[0], p[1]) == r
  {
    hide Word, RefField, Value;
    code := 0;
    if r == 1 || r == 2 {
      if r == 1 {
        p[0] := p[0] & 0xfc;
        p[1] := p[1] & 0xf0;
      } else {
        p[0] := p[0] & 0xfc;
        p[0] := p[0] | 0x01;
        p[1] := p[1] & 0xf0;
      }
    } else if 3 <= r <= 17 {
      var temp := !Word(r - 2, 4);
      temp := temp << 2;
      p[0] := Low(temp);
      p[0] := p[0] & 0x3e;
      p[0] := p[0] | 0x02;
      ShortRefDivider(r, p[1]);
    } else if 18 <= r <= 2055 {
      var temp := Word(r - 8, 11);
      temp := temp << 2;
      p[0] := Low(temp);
      p[1] := Low(temp >> 8);
      p[0] := p[0] | 0x03;
      LongRefDivider(r);
    } else {
      code := 3;
    }
  }

  function VcoByte1(t: bv32): bv8 {
    Low(t << 5)
  }

  function VcoByte2(t: bv32): bv8 {
    Low((t << 5) >> 8)
  }

  lemma EncodedFits(n: nat)
    requires n < 2048
    ensures Value(Word(n, 11), 11) == n && Within(Word(n, 11), Mask(11))
  {
    assert Power(11) == 2048;
    hide Power, Word, Value, Within, Mask;
    WordRoundTrip(n, 11);
    WordFits(n, 11);
  }

  lemma VcoBytes(t: bv32, b1: bv8)
    requires Within(t, Mask(11)) && Clear(b1, 0xe0)
    ensures VcoField(b1 | VcoByte1(t), VcoByte2(t)) == t && 0 | VcoByte2(t) == VcoByte2(t)
    ensures Same(b1 | VcoByte1(t), b1, 0x1f)
  {
  }

  lemma VcoDividers(v: int, b1: bv8)
    requires MIN_V <= v <= MAX_V && Clear(b1, 0xe0)
    ensures
      var t := Word(v - 8, 11);
      && VcoDivider(b1 | VcoByte1(t), VcoByte2(t)) == v && 0 | VcoByte2(t) == VcoByte2(t)
      && Same(b1 | VcoByte1(t), b1, 0x1f)
  {
    hide Word, Value, VcoField, VcoByte1, VcoByte2, Within, Clear, Same, Mask;
    EncodedFits(v - 8);
    VcoBytes(Word(v - 8, 11), b1);
  }

  /** Table 2, the VCO divider. It shares byte 1 with the input divider. */
  method SetVcoDivider(p: array<bv8>, v: int) returns (code: int)
    requires p.Length == BYTES && Clear(p[1], 0xe0) && p[2] == 0
    modifies p
    ensures OnlyChanged(p, {1, 2}) && Same(p[1], old(p[1]), 0x1f)
    ensures code == if MIN_V <= v <= MAX_V then 0 else 4
    ensures code == 0 ==> VcoDivider(p[1], p[2]) == v
  {
    hide Word, VcoField, Value;
    code := 0;
    if MIN_V <= v <= MAX_V {
      VcoDividers(v, p[1]);
      hide Same;
      var temp := Word(v - 8, 11);
      temp := temp << 5;
      p[1] := p[1] | Low(temp);
      p[2] := p[2] | Low(temp >> 8);
    } else {
      code := 4;
    }
  }

  predicate HasResistor(resistor: int) {
    resistor in {64000, 52000, 16000, 4000}
  }

  /** Table 4, the loop filter resistor. */
  method SetLoopResistor(p: array<bv8>, resistor: int) returns (code: int)
    requires p.Length == BYTES
    modifies p
    ensures OnlyChanged(p, {11}) && Same(p[11], old(p[11]), 0xf9)
    ensures code == if HasResistor(resistor) then 0 else 5
    ensures code == 0 ==> LoopResistor(p[11]) == resistor
  {
    code := 0;
    match resistor
    case 64000 =>
      p[11] := p[11] & 0xf9;
    case 52000 =>
      p[11] := p[11] & 0xf9;
      p[11] := p[11] | 0x04;
    case 16000 =>
      p[11] := p[11] & 0xf9;
      p[11] := p[11] | 0x02;
    case 4000 =>
      p[11] := p[11] | 0x06;
    case _ =>
      code := 5;
  }

  /** The twenty currents that have a code. */
  predicate HasCode(current: int) {
    || (125 <= current <= 1250 && current % 125 == 0)
    || current in {1500, 1750, 1875, 2000, 2250, 2500, 2625, 3000, 3500, 4000}
  }

  function Set(b: bv8, mask: bv8): bv8 {
    b | mask
  }

  function Keep(b: bv8, mask: bv8): bv8 {
    b & mask
  }

  lemma PumpCodes(b: bv8)
    requires Clear(b, 0x38)
    ensures PumpCode(Keep(b, 0xc7)) == 0 && Same(Keep(b, 0xc7), b, 0xc7)
    ensures PumpCode(Keep(Set(b, 0x08), 0xcf)) == 1 && Same(Keep(Set(b, 0x08), 0xcf), b, 0xc7)
    ensures PumpCode(Set(b, 0x10)) == 2 && Same(Set(b, 0x10), b, 0xc7)
    ensures PumpCode(Keep(Set(b, 0x10), 0xd7)) == 2 && Same(Keep(Set(b, 0x10), 0xd7), b, 0xc7)
    ensures PumpCode(Keep(Set(b, 0x18), 0xdf)) == 3 && Same(Keep(Set(b, 0x18), 0xdf), b, 0xc7)
    ensures PumpCode(Keep(Set(b, 0x28), 0xef)) == 5 && Same(Keep(Set(b, 0x28), 0xef), b, 0xc7)
    ensures PumpCode(Set(b, 0x38)) == 7 && Same(Set(b, 0x38), b, 0xc7)
    ensures Same(b, b, 0xc7)
  {
  }

  lemma PumpFactors(b15: bv8, b16: bv8)
    ensures forall x :: PumpCurrent(x, Keep(b15, 0x7f), Keep(b16, 0xfe)) == 125 * (8 - PumpCode(x))
    ensures forall x :: PumpCurrent(x, Set(b15, 0x80), Keep(b16, 0xfe)) == 250 * (8 - PumpCode(x))
    ensures forall x :: PumpCurrent(x, Keep(b15, 0x7f), Set(b16, 0x01)) == 375 * (8 - PumpCode(x))
    ensures forall x :: PumpCurrent(x, Set(b15, 0x80), Set(b16, 0x01)) == 500 * (8 - PumpCode(x))
    ensures Same(Keep(b15, 0x7f), b15, 0x7f) && Same(Set(b15, 0x80), b15, 0x7f) && Same(b15, b15, 0x7f)
    ensures Same(Keep(b16, 0xfe), b16, 0xfe) && Same(Set(b16, 0x01), b16, 0xfe) && Same(b16, b16, 0xfe)
  {
    assert Bit(Keep(b15, 0x7f), 0x80) == 0 && Bit(Set(b15, 0x80), 0x80) == 1;
    assert Bit(Keep(b16, 0xfe), 0x01) == 0 && Bit(Set(b16, 0x01), 0x01) == 1;
  }

  /** Table 3, the charge pump current, spread over three bytes of the word. */
  method PumpBytes(current: int, c11: bv8, c15: bv8, c16: bv8) returns (code: int, b11: bv8, b15: bv8, b16: bv8)
    requires Clear(c11, 0x38)
    ensures Same(b11, c11, 0xc7)
    ensures Same(b15, c15, 0x7f) && Same(b16, c16, 0xfe)
    ensures code == if HasCode(current) then 0 else 6
    ensures code == 0 ==> PumpCurrent(b11, b15, b16) == current
  {
    code, b11, b15, b16 := 0, c11, c15, c16;
    hide Clear, Set, Keep, Same, Bit, PumpCode, PumpCurrent;
    PumpCodes(c11);
    PumpFactors(c15, c16);
    match current
    case 125 =>
      b11 := Set(b11, 0x38);
      b15 := Keep(b15, 0x7f);
      b16 := Keep(b16, 0xfe);
    case 250 =>
      b11 := Set(b11, 0x38);
      b15 := Set(b15, 0x80);
      b16 := Keep(b16, 0xfe);
    case 375 =>
      b11 := Set(b11, 0x38);
      b15 := Keep(b15, 0x7f);
      b16 := Set(b16, 0x01);
    case 500 =>
      b11 := Set(b11, 0x38);
      b15 := Set(b15, 0x80);
      b16 := Set(b16, 0x01);
    case 625 =>
      b11 := Set(b11, 0x18);
      b11 := Keep(b11, 0xdf);
      b15 := Keep(b15, 0x7f);
      b16 := Keep(b16, 0xfe);
    case 750 =>
      b11 := Set(b11, 0x10);
      b11 := Keep(b11, 0xd7);
      b15 := Keep(b15, 0x7f);
      b16 := Keep(b16, 0xfe);
    case 875 =>
      b11 := Set(b11, 0x08);
      b11 := Keep(b11, 0xcf);
      b15 := Keep(b15, 0x7f);
      b16 := Keep(b16, 0xfe);
    case 1000 =>
      b11 := Keep(b11, 0xc7);
      b15 := Keep(b15, 0x7f);
      b16 := Keep(b16, 0xfe);
    case 1125 =>
      b11 := Set(b11, 0x28);
      b11 := Keep(b11, 0xef);
      b15 := Keep(b15, 0x7f);
      b16 := Set(b16, 0x01);
    case 1250 =>
      b11 := Set(b11, 0x18);
      b11 := Keep(b11, 0xdf);
      b15 := Set(b15, 0x80);
      b16 := Keep(b16, 0xfe);
    case 1500 =>
      b11 := Set(b11, 0x28);
      b11 := Keep(b11, 0xef);
      b15 := Set(b15, 0x80);
      b16 := Set(b16, 0x01);
    case 1750 =>
      b11 := Set(b11, 0x08);
      b11 := Keep(b11, 0xcf);
      b15 := Set(b15, 0x80);
      b16 := Keep(b16, 0xfe);
    case 1875 =>
      b11 := Set(b11, 0x18);
      b11 := Keep(b11, 0xdf);
      b15 := Keep(b15, 0x7f);
      b16 := Set(b16, 0x01);
    case 2000 =>
      b11 := Keep(b11, 0xc7);
      b15 := Set(b15, 0x80);
      b16 := Keep(b16, 0xfe);
    case 2250 =>
      b11 := Set(b11, 0x10);
      b15 := Keep(b15, 0x7f);
      b16 := Set(b16, 0x01);
    case 2500 =>
      b11 := Set(b11, 0x18);
      b11 := Keep(b11, 0xdf);
      b15 := Set(b15, 0x80);
      b16 := Set(b16, 0x01);
    case 2625 =>
      b11 := Set(b11, 0x08);
      b11 := Keep(b11, 0xcf);
      b15 := Keep(b15, 0x7f);
      b16 := Set(b16, 0x01);
    case 3000 =>
      b11 := Keep(b11, 0xc7);
      b15 := Keep(b15, 0x7f);
      b16 := Set(b16, 0x01);
    case 3500 =>
      b11 := Set(b11, 0x08);
      b11 := Keep(b11, 0xcf);
      b15 := Set(b15, 0x80);
      b16 := Set(b16, 0x01);
    case 4000 =>
      b11 := Keep(b11, 0xc7);
      b15 := Set(b15, 0x80);
      b16 := Set(b16, 0x01);
    case _ =>
      code := 6;
  }

  method SetPumpCurrent(p: array<bv8>, current: int) returns (code: int)
    requires p.Length == BYTES && Clear(p[11], 0x38)
    modifies p
    ensures OnlyChanged(p, {11, 15, 16}) && Same(p[11], old(p[11]), 0xc7)
    ensures Same(p[15], old(p[15]), 0x7f) && Same(p[16], old(p[16]), 0xfe)
    ensures code == if HasCode(current) then 0 else 6
    ensures code == 0 ==> PumpCurrent(p[11], p[15], p[16]) == current
  {
    hide PumpCurrent, Same, Clear;
    var b11, b15, b16;
    code, b11, b15, b16 := PumpBytes(current, p[11], p[15], p[16]);
    p[11], p[15], p[16] := b11, b15, b16;
  }

  /** The mantissa's low bit `y` and the power of two `z` of a divider `((x + 3) * 2 + y) * 2^z`,
      as bits 2 to 4 of byte 12. */
  function LongCode(y: nat, z: nat): bv8 {
    if y == 0 then (if z == 0 then 0x04 else if z == 1 then 0x0c else if z == 2 then 0x14 else 0x1c)
    else (if z == 0 then 0x00 else if z == 1 then 0x08 else if z == 2 then 0x10 else 0x18)
  }

  predicate LongForm(b12: bv8, b13: bv8, x: bv32, code: bv8) {
    LongField(b12, b13) == x && b12 & 0x1c == code & 0x1c
  }

  predicate Masks(y: nat, z: nat, keep: bv8, mark: bv8) {
    keep & 0xe3 == 0xe3 && mark & 0xe3 == 0 && mark == LongCode(y, z)
  }

  /** The index of a match, where byte 12 and the low part of byte 13 hold it. */
  function Placed(x: bv32): bv32 {
    x << 5
  }

  function NextByte(t: bv32): bv8 {
    Low(t >> 8)
  }

  /** The bytes that table 5 starts from. */
  predicate Blank(c12: bv8, c13: bv8) {
    c12 == 0 && Clear(c13, 0x3f)
  }

  lemma LongBits(x: bv32, y: nat, z: nat, keep: bv8, mark: bv8, c12: bv8, c13: bv8)
    requires Within(x, Mask(9)) && Blank(c12, c13) && Masks(y, z, keep, mark)
    ensures LongForm(Set(Keep(Set(c12, Low(Placed(x))), keep), mark), Set(c13, NextByte(Placed(x))), x, LongCode(y, z))
    ensures Same(Set(c13, NextByte(Placed(x))), c13, 0xc0)
  {
    hide LongCode;
  }

  lemma LongKind(c11: bv8, b12: bv8, b13: bv8, x: bv32, y: nat, z: nat)
    requires y <= 1 && z <= 3 && LongForm(b12, b13, x, LongCode(y, z))
    ensures
      var b := Set(Keep(b12, 0xfe), 0x02);
      && LongField(b, b13) == x && Kind(b) == 2
      && Bit(b, 0x04) == 1 - y && Bit(b, 0x08) + 2 * Bit(b, 0x10) == z
    ensures Bit(Set(c11, 0x80), 0x80) == 1
  {
  }

  /** Once the format bits are set, the bytes hold the divider, or 7 in place of one that cannot be
      programmed. */
  ghost predicate Codes(od: nat, b12: bv8, b13: bv8, c13: bv8) {
    && Same(b13, c13, 0xc0)
    && forall c11 :: OutDivider(Set(c11, 0x80), Set(Keep(b12, 0xfe), 0x02), b13) == if OnGrid(od) then od else 7
  }

  lemma NoMatch(od: nat, c12: bv8, c13: bv8)
    requires od > 37 && c12 == 0 && Clear(c13, 0x3f)
    requires forall j: nat, y, z :: j < 512 ==> !Matches(od, j, y, z)
    ensures Codes(od, c12, c13, c13)
  {
    if OnGrid(od) {
      var i, y, z := EncoderFindsMatch(od);
    }
    assert LongForm(c12, c13, 0, 0);
    assert Value(0, 9) == 0 by {
      assert Power(9) == 512;
      WordRoundTrip(0, 9);
      assert Word(0, 9) == 0;
    }
    forall c11 ensures OutDivider(Set(c11, 0x80), Set(Keep(c12, 0xfe), 0x02), c13) == 7 {
      LongKind(c11, c12, c13, 0, 1, 0);
    }
  }

  lemma LongCoded(od: nat, i: nat, y: nat, z: nat, b12: bv8, b13: bv8, c13: bv8)
    requires i < 512 && Matches(od, i, y, z) && LongForm(b12, b13, Word(i, 9), LongCode(y, z))
    requires Same(b13, c13, 0xc0)
    ensures Codes(od, b12, b13, c13)
  {
    hide Word, LongForm, LongField, LongCode, Set, Keep, Bit, Kind, Value;
    assert Scaled(od, (i + 3) * 2 + y, z);
    ScaledOnGrid(od, (i + 3) * 2 + y, z);
    assert Power(9) == 512;
    WordRoundTrip(i, 9);
    forall c11 ensures OutDivider(Set(c11, 0x80), Set(Keep(b12, 0xfe), 0x02), b13) == od {
      LongKind(c11, b12, b13, Word(i, 9), y, z);
    }
  }

  /** A match at `i` leaves the code of the divider. */
  lemma LongMatch(od: nat, i: nat, y: nat, z: nat, keep: bv8, mark: bv8, c12: bv8, c13: bv8)
    requires i < 512 && Matches(od, i, y, z) && Masks(y, z, keep, mark) && Blank(c12, c13)
    ensures var t := Placed(Word(i, 9));
      Codes(od, Set(Keep(Set(c12, Low(t)), keep), mark), Set(c13, NextByte(t)), c13)
  {
    hide *;
    var t := Placed(Word(i, 9));
    WordFits(i, 9);
    LongBits(Word(i, 9), y, z, keep, mark, c12, c13);
    LongCoded(od, i, y, z, Set(Keep(Set(c12, Low(t)), keep), mark), Set(c13, NextByte(t)), c13);
  }

  lemma LongMasks()
    ensures Masks(0, 0, 0xe7, 0x04) && Masks(0, 1, 0xef, 0x0c) && Masks(0, 2, 0xf7, 0x14) && Masks(0, 3, 0xff, 0x1c)
    ensures Masks(1, 0, 0xe3, 0x00) && Masks(1, 1, 0xeb, 0x08) && Masks(1, 2, 0xf7, 0x10) && Masks(1, 3, 0xfb, 0x18)
  {
  }

  /** The eight equations tried for one `i`. */
  lemma Equations(od: nat, i: nat)
    ensures Matches(od, i, 0, 0) <==> od == ((i + 3) * 2 + 0) * 1
    ensures Matches(od, i, 0, 1) <==> od == ((i + 3) * 2 + 0) * 2
    ensures Matches(od, i, 0, 2) <==> od == ((i + 3) * 2 + 0) * 4
    ensures Matches(od, i, 0, 3) <==> od == ((i + 3) * 2 + 0) * 8
    ensures Matches(od, i, 1, 0) <==> od == ((i + 3) * 2 + 1) * 1
    ensures Matches(od, i, 1, 1) <==> od == ((i + 3) * 2 + 1) * 2
    ensures Matches(od, i, 1, 2) <==> od == ((i + 3) * 2 + 1) * 4
    ensures Matches(od, i, 1, 3) <==> od == ((i + 3) * 2 + 1) * 8
    ensures forall y: nat, z: nat :: Matches(od, i, y, z) ==> y <= 1 && z <= 3
  {
  }

  lemma NoMask(b: bv8)
    ensures Keep(b, 0xff) == b && Set(b, 0) == b
  {
  }

  /** The eight equations of table 5 for one `i`, and what a match stores. */
  method LongTry(od: nat, i: nat, c12: bv8, c13: bv8) returns (found: bool, b12: bv8, b13: bv8)
    requires i < 512 && Blank(c12, c13)
    ensures found ==> Codes(od, b12, b13, c13)
    ensures !found ==> b12 == c12 && b13 == c13 && forall y, z :: !Matches(od, i, y, z)
  {
    hide *;
    LongMasks();
    Equations(od, i);
    NoMask(Set(c12, Low(Placed(Word(i, 9)))));
    NoMask(Keep(Set(c12, Low(Placed(Word(i, 9)))), 0xe3));
    found, b12, b13 := false, c12, c13;
    var temp := Placed(Word(i, 9));
    if od == ((i + 3) * 2 + 0) * 1 {
      b12 := Set(b12, Low(temp));
      b13 := Set(b13, NextByte(temp));
      b12 := Keep(b12, 0xe7);
      b12 := Set(b12, 0x04);
      LongMatch(od, i, 0, 0, 0xe7, 0x04, c12, c13);
      found := true;
    } else if od == ((i + 3) * 2 + 0) * 2 {
      b12 := Set(b12, Low(temp));
      b13 := Set(b13, NextByte(temp));
      b12 := Keep(b12, 0xef);
      b12 := Set(b12, 0x0c);
      LongMatch(od, i, 0, 1, 0xef, 0x0c, c12, c13);
      found := true;
    } else if od == ((i + 3) * 2 + 0) * 4 {
      b12 := Set(b12, Low(temp));
      b13 := Set(b13, NextByte(temp));
      b12 := Keep(b12, 0xf7);
      b12 := Set(b12, 0x14);
      LongMatch(od, i, 0, 2, 0xf7, 0x14, c12, c13);
      found := true;
    } else if od == ((i + 3) * 2 + 0) * 8 {
      b12 := Set(b12, Low(temp));
      b13 := Set(b13, NextByte(temp));
      b12 := Set(b12, 0x1c);
      LongMatch(od, i, 0, 3, 0xff, 0x1c, c12, c13);
      found := true;
    } else if od == ((i + 3) * 2 + 1) * 1 {
      b12 := Set(b12, Low(temp));
      b13 := Set(b13, NextByte(temp));
      b12 := Keep(b12, 0xe3);
      LongMatch(od, i, 1, 0, 0xe3, 0x00, c12, c13);
      found := true;
    } else if od == ((i + 3) * 2 + 1) * 2 {
      b12 := Set(b12, Low(temp));
      b13 := Set(b13, NextByte(temp));
      b12 := Keep(b12, 0xeb);
      b12 := Set(b12, 0x08);
      LongMatch(od, i, 1, 1, 0xeb, 0x08, c12, c13);
      found := true;
    } else if od == ((i + 3) * 2 + 1) * 4 {
      b12 := Set(b12, Low(temp));
      b13 := Set(b13, NextByte(temp));
      b12 := Keep(b12, 0xf7);
      b12 := Set(b12, 0x10);
      LongMatch(od, i, 1, 2, 0xf7, 0x10, c12, c13);
      found := true;
    } else if od == ((i + 3) * 2 + 1) * 8 {
      b12 := Set(b12, Low(temp));
      b13 := Set(b13, NextByte(temp));
      b12 := Keep(b12, 0xfb);
      b12 := Set(b12, 0x18);
      LongMatch(od, i, 1, 3, 0xfb, 0x18, c12, c13);
      found := true;
    }
  }

  /** The search of table 5. */
  method LongBytes(od: nat, c12: bv8, c13: bv8) returns (b12: bv8, b13: bv8)
    requires 37 < od <= FIRST && c12 == 0 && Clear(c13, 0x3f)
    ensures Codes(od, b12, b13, c13)
  {
    hide Codes, Clear, OnGrid, Matches;
    assert Blank(c12, c13);
    for i := 0 to 512
      invariant forall j: nat, y, z :: j < i ==> !Matches(od, j, y, z)
    {
      var found;
      found, b12, b13 := LongTry(od, i, c12, c13);
      if found { return; }
    }
    b12, b13 := c12, c13;
    NoMatch(od, c12, c13);
  }

  lemma SmallCodes(b11: bv8, b12: bv8, b13: bv8)
    requires b12 == 0
    ensures
      var low, high := Keep(b11, 0x7f), Set(b11, 0x80);
      && OutDivider(low, Keep(b12, 0x00), b13) == 2 && OutDivider(high, Keep(b12, 0x00), b13) == 3
      && OutDivider(low, Set(b12, 0x04), b13) == 4 && OutDivider(low, Set(b12, 0x01), b13) == 5
      && OutDivider(high, Set(b12, 0x04), b13) == 6 && OutDivider(high, Set(b12, 0x01), b13) == 7
      && OutDivider(high, Set(b12, 0x05), b13) == 9 && OutDivider(high, Set(b12, 0x09), b13) == 11
      && OutDivider(high, Set(b12, 0x0d), b13) == 13
  {
  }

  lemma OutMasks(b11: bv8, b13: bv8)
    ensures Same(Keep(b11, 0x7f), b11, 0x7f) && Same(Set(b11, 0x80), b11, 0x7f) && Same(b11, b11, 0x7f)
    ensures Same(Keep(b13, 0xc0), b13, 0xc0) && Same(b13, b13, 0xc0)
  {
  }

  function ShortByte(t: bv32): bv8 {
    Set(Keep(Keep(Low(!t << 2), 0x7f), 0xfe), 0x02)
  }

  lemma ShortBits(t: bv32, b11: bv8)
    ensures OppositeBits(ShortField(ShortByte(t)), t, 5)
    ensures Kind(ShortByte(t)) == 2 && Bit(Keep(b11, 0x7f), 0x80) == 0
  {
  }

  lemma ShortCode(od: nat, b11: bv8, b13: bv8)
    requires 8 <= od <= 37
    ensures OutDivider(Keep(b11, 0x7f), ShortByte(Word(od - 6, 5)), b13) == od
  {
    hide Word, ShortField, OppositeBits, Kind, Bit, Value, Keep, ShortByte;
    var t := Word(od - 6, 5);
    ShortBits(t, b11);
    assert Power(5) == 32;
    WordRoundTrip(od - 6, 5);
    OppositeValue(ShortField(ShortByte(t)), t, 5);
  }

  lemma UseCodes(od: nat, c11: bv8, b12: bv8, b13: bv8, c13: bv8)
    requires Codes(od, b12, b13, c13)
    ensures Same(b13, c13, 0xc0)
    ensures OutDivider(Set(c11, 0x80), Set(Keep(b12, 0xfe), 0x02), b13) == if OnGrid(od) then od else 7
  {
  }

  /** Table 5, the output divider, spread over three bytes of the word. A divider above 37 is
      searched for among the values the chip can count to; one that is not there leaves the code
      of the divider 7. */
  method OutBytes(od: int, c11: bv8, c12: bv8, c13: bv8) returns (code: int, b11: bv8, b12: bv8, b13: bv8)
    requires c12 == 0 && Clear(c13, 0x3f)
    ensures Same(b11, c11, 0x7f) && Same(b13, c13, 0xc0)
    ensures code == if 2 <= od <= FIRST then 0 else 7
    ensures code == 0 ==> OutDivider(b11, b12, b13) == if OnGrid(od) then od else 7
  {
    code, b11, b12, b13 := 0, c11, c12, c13;
    SmallCodes(c11, c12, Keep(c13, 0xc0));
    OutMasks(c11, c13);
    hide Set, Keep, Low, Same, Clear, OutDivider, Codes, Word;
    if 2 <= od <= FIRST {
      match od {
      case 2 =>
        b11 := Keep(b11, 0x7f);
        b12 := Keep(b12, 0x00);
        b13 := Keep(b13, 0xc0);
      case 3 =>
        b11 := Set(b11, 0x80);
        b12 := Keep(b12, 0x00);
        b13 := Keep(b13, 0xc0);
      case 4 =>
        b11 := Keep(b11, 0x7f);
        b12 := Set(b12, 0x04);
        b13 := Keep(b13, 0xc0);
      case 5 =>
        b11 := Keep(b11, 0x7f);
        b12 := Set(b12, 0x01);
        b13 := Keep(b13, 0xc0);
      case 6 =>
        b11 := Set(b11, 0x80);
        b12 := Set(b12, 0x04);
        b13 := Keep(b13, 0xc0);
      case 7 =>
        b11 := Set(b11, 0x80);
        b12 := Set(b12, 0x01);
        b13 := Keep(b13, 0xc0);
      case 11 =>
        b11 := Set(b11, 0x80);
        b12 := Set(b12, 0x09);
        b13 := Keep(b13, 0xc0);
      case 9 =>
        b11 := Set(b11, 0x80);
        b12 := Set(b12, 0x05);
        b13 := Keep(b13, 0xc0);
      case 13 =>
        b11 := Set(b11, 0x80);
        b12 := Set(b12, 0x0d);
        b13 := Keep(b13, 0xc0);
      case _ =>
        if od <= 37 {
          var temp := !Word(od - 6, 5);
          temp := temp << 2;
          b12 := Keep(Low(temp), 0x7f);
          b11 := Keep(b11, 0x7f);
          b12 := Keep(b12, 0xfe);
          b12 := Set(b12, 0x02);
          b13 := Keep(b13, 0xc0);
          ShortCode(od, c11, b13);
        } else {
          b12, b13 := LongBytes(od, b12, b13);
          UseCodes(od, c11, b12, b13, c13);
          b11 := Set(b11, 0x80);
          b12 := Keep(b12, 0xfe);
          b12 := Set(b12, 0x02);
        }
      }
    } else {
      code := 7;
    }
  }

  /** Table 5 in the word itself. */
  method SetOutDivider(p: array<bv8>, od: int) returns (code: int)
    requires p.Length == BYTES && p[12] == 0 && Clear(p[13], 0x3f)
    modifies p
    ensures OnlyChanged(p, {11, 12, 13}) && Same(p[11], old(p[11]), 0x7f) && Same(p[13], old(p[13]), 0xc0)
    ensures code == if 2 <= od <= FIRST then 0 else 7
    ensures code == 0 ==> OutDivider(p[11], p[12], p[13]) == if OnGrid(od) then od else 7
  {
    hide OutDivider, Same, Clear, OnGrid;
    var b11, b12, b13;
    code, b11, b12, b13 := OutBytes(od, p[11], p[12], p[13]);
    p[11], p[12], p[13] := b11, b12, b13;
  }

  // ---- the whole word ----

  lemma RefKept(b0: bv8, b1: bv8, c1: bv8)
    requires Same(b1, c1, 0x1f)
    ensures RefDivider(b0, b1) == RefDivider(b0, c1)
  {
    hide Value;
    assert RefField(b0, b1) == RefField(b0, c1);
  }

  lemma LoopKept(b: bv8, c: bv8)
    requires Same(b, c, 0xc7) || Same(b, c, 0x7f)
    ensures LoopResistor(b) == LoopResistor(c)
  {
  }

  lemma PumpKept(b11: bv8, c11: bv8, b15: bv8, b16: bv8)
    requires Same(b11, c11, 0x7f)
    ensures PumpCurrent(b11, b15, b16) == PumpCurrent(c11, b15, b16)
  {
    assert PumpCode(b11) == PumpCode(c11);
  }

  lemma ClearKept(b: bv8)
    requires Same(b, 0, 0xf9)
    ensures Clear(b, 0x38)
  {
  }

  /** The bits that are the same in every word: power up, only clock 1 enabled, reference from the
      crystal input. */
  predicate Controls(w: seq<bv8>)
    requires |w| == BYTES
  {
    && w[14] == 0x01 && Same(w[13], 0x40, 0xc0) && Same(w[15], 0x04, 0x7f) && Same(w[16], 0x00, 0xfe)
    && (forall k: nat :: 3 <= k < 11 ==> w[k] == 0)
    && (forall k: nat :: 17 <= k < 20 ==> w[k] == 0xff)
  }

  /** The word before the tables are applied. */
  method Initialize(p: array<bv8>)
    requires p.Length == BYTES
    modifies p
    ensures forall k: nat :: k < 13 || k == 16 ==> p[k] == 0
    ensures p[13] == 0x40 && Clear(p[13], 0x3f) && p[14] == 0x01 && p[15] == 0x04
    ensures forall k: nat :: 17 <= k < 20 ==> p[k] == 0xff
  {
    p[19] := 0xff;
    p[18] := 0xff;
    p[17] := 0xff;
    p[16] := 0x00;
    p[15] := 0x04;
    forall k | 0 <= k < 15 {
      p[k] := 0x00;
    }
    p[14] := p[14] | 0x01;
    p[13] := p[13] | 0x40;
  }

  /** Tables 4 and 3, the loop filter. They share byte 11. */
  method SetFilter(p: array<bv8>, resistor: int, current: int) returns (code: int)
    requires p.Length == BYTES && p[11] == 0
    modifies p
    ensures OnlyChanged(p, {11, 15, 16})
    ensures Same(p[15], old(p[15]), 0x7f) && Same(p[16], old(p[16]), 0xfe)
    ensures code == if !HasResistor(resistor) then 5 else if !HasCode(current) then 6 else 0
    ensures code == 0 ==> LoopResistor(p[11]) == resistor && PumpCurrent(p[11], p[15], p[16]) == current
  {
    code := SetLoopResistor(p, resistor);
    if code != 0 { return; }
    ClearKept(p[11]);
    ghost var before := p[11];
    hide LoopResistor, PumpCurrent, HasCode, HasResistor, Same, Clear;
    code := SetPumpCurrent(p, current);
    if code != 0 { return; }
    LoopKept(p[11], before);
  }

  /** Tables 1 and 2, the dividers before the output. They share byte 1. */
  method SetDividers(p: array<bv8>, r: int, v: int) returns (code: int)
    requires p.Length == BYTES && p[0] == 0 && p[1] == 0 && p[2] == 0
    modifies p
    ensures OnlyChanged(p, {0, 1, 2})
    ensures code == if !(1 <= r <= 2055) then 3 else if !(MIN_V <= v <= MAX_V) then 4 else 0
    ensures code == 0 ==> RefDivider(p[0], p[1]) == r && VcoDivider(p[1], p[2]) == v
  {
    hide RefDivider, VcoDivider, Clear, Same;
    code := SetRefDivider(p, r);
    if code != 0 { return; }
    ghost var before := p[1];
    code := SetVcoDivider(p, v);
    if code != 0 { return; }
    RefKept(p[0], p[1], before);
  }

  /** The encoder: the first table whose number is out of range is reported, and otherwise the word
      decodes to all five numbers. The one exception is an output divider the search never visits,
      which is silently coded as 7. */
  method Encode(p: array<bv8>, r: int, v: int, resistor: int, current: int, od: int) returns (code: int)
    requires p.Length == BYTES
    modifies p
    ensures code ==
      if !(1 <= r <= 2055) then 3 else if !(MIN_V <= v <= MAX_V) then 4 else if !HasResistor(resistor) then 5
      else if !HasCode(current) then 6 else if !(2 <= od <= FIRST) then 7 else 0
    ensures code == 0 ==> Decode(p[..]) == Setting(r, v, resistor, current, if OnGrid(od) then od else 7)
    ensures code == 0 ==> Controls(p[..])
  {
    hide RefDivider, VcoDivider, LoopResistor, PumpCurrent, OutDivider, HasCode, OnGrid, Clear, HasResistor, Same;
    Initialize(p);
    code := SetDividers(p, r, v);
    if code != 0 { return; }
    code := SetFilter(p, resistor, current);
    if code != 0 { return; }
    ghost var m := p[11];
    code := SetOutDivider(p, od);
    if code != 0 { return; }
    LoopKept(p[11], m);
    PumpKept(p[11], m, p[15], p[16]);
  }
}
