/** The clock word bit by bit: which of its 160 bits program what
    (`lib/raw/calculate-clock-bits.c:508-949`). */
module ClockFields {
  import opened ClockWord

  /** Bit `j` of the word, counted from the lowest bit of its first byte. */
  function At(w: seq<bv8>, j: nat): (bit: nat)
    requires j < 8 * |w|
    ensures bit <= 1
  {
    var masks: seq<bv8> := [0x01, 0x02, 0x04, 0x08, 0x10, 0x20, 0x40, 0x80];
    if w[j / 8] & masks[j % 8] == 0 then 0 else 1
  }

  /** The number in `k` bits of the word, the lowest first. */
  function Number(w: seq<bv8>, first: nat, k: nat): nat
    requires first + k <= 8 * |w|
    decreases k
  {
    if k == 0 then 0 else At(w, first) + 2 * Number(w, first + 1, k - 1)
  }

  // ---- numbers in machine words ----

  predicate Has(x: bv32, mask: bv32) {
    x & mask != 0
  }

  function MaskAt(i: nat): bv32 {
    if i == 0 then 0x1 else if i == 1 then 0x2 else if i == 2 then 0x4 else if i == 3 then 0x8
    else if i == 4 then 0x10 else if i == 5 then 0x20 else if i == 6 then 0x40 else if i == 7 then 0x80
    else if i == 8 then 0x100 else if i == 9 then 0x200 else 0x400
  }

  predicate BitOf(x: bv32, i: nat) {
    Has(x, MaskAt(i))
  }

  lemma Masks()
    ensures MaskAt(0) == 0x1 && MaskAt(1) == 0x2 && MaskAt(2) == 0x4 && MaskAt(3) == 0x8
    ensures MaskAt(4) == 0x10 && MaskAt(5) == 0x20 && MaskAt(6) == 0x40 && MaskAt(7) == 0x80
    ensures MaskAt(8) == 0x100 && MaskAt(9) == 0x200 && MaskAt(10) == 0x400
  {
  }

  lemma LowestBit(x: bv32)
    ensures BitOf(x, 0) <==> Odd(x)
  {
  }

  lemma MaskNext(i: nat)
    requires i < 10
    ensures MaskAt(i + 1) == MaskAt(i) << 1 && MaskAt(i) & 0x8000_0000 == 0
  {
  }

  lemma NextMask(x: bv32, m: bv32)
    requires m & 0x8000_0000 == 0
    ensures Has(Rest(x), m) <==> Has(x, m << 1)
  {
  }

  lemma NextBit(x: bv32, i: nat)
    requires i < 10
    ensures BitOf(Rest(x), i) <==> BitOf(x, i + 1)
  {
    hide Has, MaskAt, Rest;
    MaskNext(i);
    NextMask(x, MaskAt(i));
  }

  /** The low `k` bits of `x` are those of the word from `first` on. */
  ghost predicate Copied(x: bv32, w: seq<bv8>, first: nat, k: nat)
    requires k <= 11 && first + k <= 8 * |w|
  {
    forall i :: 0 <= i < k ==> (BitOf(x, i) <==> At(w, first + i) == 1)
  }

  lemma {:induction false} CopiedValue(x: bv32, w: seq<bv8>, first: nat, k: nat)
    requires k <= 11 && first + k <= 8 * |w| && Copied(x, w, first, k)
    ensures Value(x, k) == Number(w, first, k)
    decreases k
  {
    hide BitOf, Odd, Rest, At;
    if k > 0 {
      LowestBit(x);
      assert BitOf(x, 0) <==> At(w, first + 0) == 1;
      forall i | 0 <= i < k - 1 ensures BitOf(Rest(x), i) <==> At(w, first + 1 + i) == 1 {
        NextBit(x, i);
        assert BitOf(x, i + 1) <==> At(w, first + (i + 1)) == 1;
      }
      CopiedValue(Rest(x), w, first + 1, k - 1);
    }
  }

  // ---- the fields ----

  lemma RefBits0(b0: bv8, b1: bv8)
    ensures var x := RefField(b0, b1);
      && (Has(x, 0x1) <==> Bit(b0, 0x04) == 1) && (Has(x, 0x2) <==> Bit(b0, 0x08) == 1)
      && (Has(x, 0x4) <==> Bit(b0, 0x10) == 1) && (Has(x, 0x8) <==> Bit(b0, 0x20) == 1)
      && (Has(x, 0x10) <==> Bit(b0, 0x40) == 1) && (Has(x, 0x20) <==> Bit(b0, 0x80) == 1)
  {
  }

  lemma RefBits1(b0: bv8, b1: bv8)
    ensures var x := RefField(b0, b1);
      && (Has(x, 0x40) <==> Bit(b1, 0x01) == 1) && (Has(x, 0x80) <==> Bit(b1, 0x02) == 1)
      && (Has(x, 0x100) <==> Bit(b1, 0x04) == 1) && (Has(x, 0x200) <==> Bit(b1, 0x08) == 1)
      && (Has(x, 0x400) <==> Bit(b1, 0x10) == 1)
  {
  }

  lemma VcoBits1(b1: bv8, b2: bv8)
    ensures var x := VcoField(b1, b2);
      && (Has(x, 0x1) <==> Bit(b1, 0x20) == 1) && (Has(x, 0x2) <==> Bit(b1, 0x40) == 1)
      && (Has(x, 0x4) <==> Bit(b1, 0x80) == 1)
  {
  }

  lemma VcoBits2(b1: bv8, b2: bv8)
    ensures var x := VcoField(b1, b2);
      && (Has(x, 0x8) <==> Bit(b2, 0x01) == 1) && (Has(x, 0x10) <==> Bit(b2, 0x02) == 1)
      && (Has(x, 0x20) <==> Bit(b2, 0x04) == 1) && (Has(x, 0x40) <==> Bit(b2, 0x08) == 1)
      && (Has(x, 0x80) <==> Bit(b2, 0x10) == 1) && (Has(x, 0x100) <==> Bit(b2, 0x20) == 1)
      && (Has(x, 0x200) <==> Bit(b2, 0x40) == 1) && (Has(x, 0x400) <==> Bit(b2, 0x80) == 1)
  {
  }

  lemma ShortBits12(b12: bv8)
    ensures var x := ShortField(b12);
      && (Has(x, 0x1) <==> Bit(b12, 0x04) == 1) && (Has(x, 0x2) <==> Bit(b12, 0x08) == 1)
      && (Has(x, 0x4) <==> Bit(b12, 0x10) == 1) && (Has(x, 0x8) <==> Bit(b12, 0x20) == 1)
      && (Has(x, 0x10) <==> Bit(b12, 0x40) == 1)
  {
  }

  lemma LongBits12(b12: bv8, b13: bv8)
    ensures var x := LongField(b12, b13);
      && (Has(x, 0x1) <==> Bit(b12, 0x20) == 1) && (Has(x, 0x2) <==> Bit(b12, 0x40) == 1)
      && (Has(x, 0x4) <==> Bit(b12, 0x80) == 1)
  {
  }

  lemma LongBits13(b12: bv8, b13: bv8)
    ensures var x := LongField(b12, b13);
      && (Has(x, 0x8) <==> Bit(b13, 0x01) == 1) && (Has(x, 0x10) <==> Bit(b13, 0x02) == 1)
      && (Has(x, 0x20) <==> Bit(b13, 0x04) == 1) && (Has(x, 0x40) <==> Bit(b13, 0x08) == 1)
      && (Has(x, 0x80) <==> Bit(b13, 0x10) == 1) && (Has(x, 0x100) <==> Bit(b13, 0x20) == 1)
  {
  }

  lemma ByteAt(w: seq<bv8>, n: nat)
    requires n < |w|
    ensures At(w, 8 * n + 0) == Bit(w[n], 0x01)
    ensures At(w, 8 * n + 1) == Bit(w[n], 0x02)
    ensures At(w, 8 * n + 2) == Bit(w[n], 0x04)
    ensures At(w, 8 * n + 3) == Bit(w[n], 0x08)
    ensures At(w, 8 * n + 4) == Bit(w[n], 0x10)
    ensures At(w, 8 * n + 5) == Bit(w[n], 0x20)
    ensures At(w, 8 * n + 6) == Bit(w[n], 0x40)
    ensures At(w, 8 * n + 7) == Bit(w[n], 0x80)
  {
  }

  lemma RefCopied(w: seq<bv8>)
    requires |w| == 20
    ensures Copied(RefField(w[0], w[1]), w, 2, 11)
  {
    hide At, Bit, Has, MaskAt, RefField;
    Masks();
    RefBits0(w[0], w[1]);
    RefBits1(w[0], w[1]);
    ByteAt(w, 0);
    ByteAt(w, 1);
  }

  lemma RefNumber(w: seq<bv8>, k: nat)
    requires |w| == 20 && k <= 11
    ensures Value(RefField(w[0], w[1]), k) == Number(w, 2, k)
  {
    hide *;
    RefCopied(w);
    CopiedLess(RefField(w[0], w[1]), w, 2, 11, k);
    CopiedValue(RefField(w[0], w[1]), w, 2, k);
  }

  lemma CopiedLess(x: bv32, w: seq<bv8>, first: nat, n: nat, k: nat)
    requires k <= n <= 11 && first + n <= 8 * |w| && Copied(x, w, first, n)
    ensures Copied(x, w, first, k)
  {
  }

  lemma VcoCopied(w: seq<bv8>)
    requires |w| == 20
    ensures Copied(VcoField(w[1], w[2]), w, 13, 11)
  {
    hide At, Bit, Has, MaskAt, VcoField;
    Masks();
    VcoBits1(w[1], w[2]);
    VcoBits2(w[1], w[2]);
    ByteAt(w, 1);
    ByteAt(w, 2);
  }

  lemma VcoNumber(w: seq<bv8>)
    requires |w| == 20
    ensures Value(VcoField(w[1], w[2]), 11) == Number(w, 13, 11)
  {
    hide *;
    VcoCopied(w);
    CopiedValue(VcoField(w[1], w[2]), w, 13, 11);
  }

  lemma ShortCopied(w: seq<bv8>)
    requires |w| == 20
    ensures Copied(ShortField(w[12]), w, 98, 5)
  {
    hide At, Bit, Has, MaskAt, ShortField;
    Masks();
    ShortBits12(w[12]);
    ByteAt(w, 12);
  }

  lemma ShortNumber(w: seq<bv8>)
    requires |w| == 20
    ensures Value(ShortField(w[12]), 5) == Number(w, 98, 5)
  {
    hide *;
    ShortCopied(w);
    CopiedValue(ShortField(w[12]), w, 98, 5);
  }

  lemma LongCopied(w: seq<bv8>)
    requires |w| == 20
    ensures Copied(LongField(w[12], w[13]), w, 101, 9)
  {
    hide At, Bit, Has, MaskAt, LongField;
    Masks();
    LongBits12(w[12], w[13]);
    LongBits13(w[12], w[13]);
    ByteAt(w, 12);
    ByteAt(w, 13);
  }

  lemma LongNumber(w: seq<bv8>)
    requires |w| == 20
    ensures Value(LongField(w[12], w[13]), 9) == Number(w, 101, 9)
  {
    hide *;
    LongCopied(w);
    CopiedValue(LongField(w[12], w[13]), w, 101, 9);
  }

  /** Bits 0 and 1 choose the form of the input divider, bits 2 to 12 hold it. */
  lemma RefDividerBits(w: seq<bv8>)
    requires |w| == 20
    ensures Decode(w).r ==
      if At(w, 1) == 0 then 1 + At(w, 0)
      else if At(w, 0) == 0 then 17 - Number(w, 2, 4)
      else 8 + Number(w, 2, 11)
  {
    hide At, Bit, Value, RefField, Number, VcoDivider, LoopResistor, PumpCurrent, OutDivider;
    RefNumber(w, 4);
    RefNumber(w, 11);
    ByteAt(w, 0);
  }

  /** Bits 13 to 23 hold the VCO divider. */
  lemma VcoDividerBits(w: seq<bv8>)
    requires |w| == 20
    ensures Decode(w).v == 8 + Number(w, 13, 11)
  {
    hide Value, VcoField, Number;
    VcoNumber(w);
  }

  /** Bits 89 and 90 choose the resistor; bits 91 to 93 and 127 and 128 the current. */
  lemma FilterBits(w: seq<bv8>)
    requires |w| == 20
    ensures Decode(w).resistor ==
      if At(w, 90) == 0 then (if At(w, 89) == 0 then 64000 else 16000)
      else (if At(w, 89) == 0 then 52000 else 4000)
    ensures Decode(w).current == 125 * (8 - Number(w, 91, 3)) * (1 + Number(w, 127, 2))
  {
    hide At, Bit, Number, RefDivider, VcoDivider, LoopResistor, PumpCurrent, PumpCode, OutDivider;
    PumpFormula(w[11], w[15], w[16]);
    PumpBits(w);
    ResistorBits(w[11]);
    ByteAt(w, 11);
  }

  lemma ResistorBits(b: bv8)
    ensures LoopResistor(b) ==
      if Bit(b, 0x04) == 0 then (if Bit(b, 0x02) == 0 then 64000 else 16000)
      else (if Bit(b, 0x02) == 0 then 52000 else 4000)
  {
  }

  lemma PumpBits(w: seq<bv8>)
    requires |w| == 20
    ensures Number(w, 91, 3) == PumpCode(w[11])
    ensures Number(w, 127, 2) == Bit(w[15], 0x80) + 2 * Bit(w[16], 0x01)
  {
    hide At, Bit;
    ByteAt(w, 11);
    ByteAt(w, 15);
    ByteAt(w, 16);
    assert Number(w, 94, 0) == 0 && Number(w, 129, 0) == 0;
    assert Number(w, 93, 1) == At(w, 93) && Number(w, 128, 1) == At(w, 128);
    assert Number(w, 92, 2) == At(w, 92) + 2 * At(w, 93);
  }

  /** Bits 95 to 97 choose the form of the output divider, bits 98 to 109 hold it. */
  lemma OutDividerBits(w: seq<bv8>)
    requires |w| == 20
    ensures Decode(w).od ==
      if At(w, 97) == 0 && At(w, 96) == 0 then (2 + At(w, 95)) * (1 + At(w, 98))
      else if At(w, 97) == 0 && At(w, 95) == 0 then 5
      else if At(w, 97) == 0 then 7 + 2 * At(w, 98) + 4 * At(w, 99)
      else if At(w, 95) == 0 then 37 - Number(w, 98, 5)
      else (2 * Number(w, 101, 9) + 7 - At(w, 98))
           * (if At(w, 100) == 0 then 1 + At(w, 99) else 4 + 4 * At(w, 99))
  {
    hide At, Bit, Value, ShortField, LongField, Number, RefDivider, VcoDivider, LoopResistor, PumpCurrent;
    ShortNumber(w);
    LongNumber(w);
    ByteAt(w, 11);
    ByteAt(w, 12);
  }
}
