/** The acceptance tests of the clock search in whole numbers
    (`lib/raw/calculate-clock-bits.c:183-406`). */
module ClockLimits {
  import opened CTypes
  import opened OutputDivider
  import opened ClockSearch

  /** Loop resistors in ohms, and pump currents in units of 10 nA, in the order tried. */
  const OHMS: seq<nat> := [64000, 52000, 16000, 4000]
  const PUMP: seq<nat> := [125, 250, 375, 500, 625, 750, 875, 1000, 1125, 1250,
                           1500, 1750, 1875, 2000, 2250, 2500, 2625, 3000, 3500, 4000]

  /** The reference: phase detector at 20 kHz to 100 MHz. */
  predicate DetectorFits(r: nat) {
    20000 * r <= 24000000 <= 100000000 * r
  }

  /** The reference: VCO at 90 MHz or more, and at most what its output divider allows. */
  predicate BandFits(r: nat, od: nat, v: nat) {
    && 90000000 * r <= 24000000 * v
    && (od == 2 ==> 24000000 * v <= 540000000 * r)
    && (od == 3 ==> 24000000 * v <= 720000000 * r)
    && (38 <= od <= 1029 ==> 24000000 * v <= 570000000 * r)
    && 24000000 * v <= 730000000 * r
  }

  /** The reference: the output frequency is within `ppm` of the target, where the product of the
      two is cut to 32 bits. */
  predicate ErrorFits(desired: nat, ppm: nat, ro: nat, v: nat) {
    var cut := ppm * desired % 0x1_0000_0000;
    -(cut * ro) <= 1000000 * (24000000 * v - desired * ro) <= cut * ro
  }

  /** The reference: the ratio of detector frequency and loop bandwidth from 6.9 up to, but without,
      30, and the damping factor from 0.2 to 2; `ri` is resistor times current and `rri` once more
      times the resistor. */
  predicate LoopFits(r: nat, v: nat, ri: nat, rri: nat) {
    && 2139 * (r * ri) <= 15079632000 * v < 9300 * (r * ri)
    && 16000000000 * v <= 93 * rri <= 1600000000000 * v
  }

  /** The reference: everything a tuning must meet, in whole numbers. */
  predicate Admissible(desired: nat, ppm: nat, t: Tuning) {
    && 1 <= t.r <= 1200 && 12 <= t.v <= 2055 && t.rs < 4 && t.icp < 20 && OnGrid(t.od)
    && DetectorFits(t.r) && BandFits(t.r, t.od, t.v) && ErrorFits(desired, ppm, t.r * t.od, t.v)
    && LoopFits(t.r, t.v, OHMS[t.rs] * PUMP[t.icp], OHMS[t.rs] * OHMS[t.rs] * PUMP[t.icp])
  }

  lemma Tables(rs: nat, icp: nat)
    requires rs < 4 && icp < 20
    ensures |OHMS| == 4 && |PUMP| == 20
    ensures Resistor(rs) == OHMS[rs] && Current(icp) == PUMP[icp]
  {
  }

  lemma Quotient(x: real, y: real, c: real)
    requires y > 0.0
    ensures x / y <= c <==> x <= c * y
    ensures x / y < c <==> x < c * y
    ensures c <= x / y <==> c * y <= x
  {
    var q := x / y;
    assert q * y == x;
    Scaling(q, c, y);
  }

  lemma ScaledAssoc(a: real, b: real, c: real)
    ensures (a * b) * c == a * (b * c)
  {
  }

  lemma Scaling(a: real, b: real, c: real)
    requires c > 0.0
    ensures a <= b <==> a * c <= b * c
    ensures a < b <==> a * c < b * c
  {
    assert (b - a) * c == b * c - a * c;
    if a <= b { assert (b - a) * c >= 0.0; } else { assert (b - a) * c < 0.0; }
    if a < b { assert (b - a) * c > 0.0; } else { assert (b - a) * c <= 0.0; }
  }

  lemma DetectorExactly(r: nat)
    requires r > 0
    ensures PdfOk(r) <==> DetectorFits(r)
  {
    Quotient(INPUT, r as real, 20000.0);
    Quotient(INPUT, r as real, 100000000.0);
  }

  /** The VCO test passes exactly when 24 MHz times V over R lies in the band of the output
      divider. */
  lemma BandExactly(r: nat, od: nat, v: nat)
    requires r > 0
    ensures VcoOk(r, od, v) <==> BandFits(r, od, v)
  {
    hide Vco, VcoOk, BandFits;
    VcoTimes(r, v);
    BandMeans(r, od, v);
    BandReal(Vco(r, v), r, od, v);
  }

  lemma BandReal(vco: real, r: nat, od: nat, v: nat)
    requires r > 0 && vco * r as real == 24000000.0 * v as real
    ensures BandFits(r, od, v) <==>
      && 90000000.0 <= vco <= 730000000.0
      && (od == 2 ==> vco <= 540000000.0) && (od == 3 ==> vco <= 720000000.0)
      && (38 <= od <= 1029 ==> vco <= 570000000.0)
  {
    var x, p := r as real, vco * r as real;
    ScaledBounds(90000000.0, vco, x, 90000000.0 * x, p);
    ScaledBounds(vco, 540000000.0, x, p, 540000000.0 * x);
    ScaledBounds(vco, 720000000.0, x, p, 720000000.0 * x);
    ScaledBounds(vco, 570000000.0, x, p, 570000000.0 * x);
    ScaledBounds(vco, 730000000.0, x, p, 730000000.0 * x);
    BandCast(p, r, od, v);
    hide BandFits;
  }

  lemma BandMeans(r: nat, od: nat, v: nat)
    requires r > 0
    ensures var vco := Vco(r, v);
      VcoOk(r, od, v) <==>
        && 90000000.0 <= vco <= 730000000.0
        && (od == 2 ==> vco <= 540000000.0) && (od == 3 ==> vco <= 720000000.0)
        && (38 <= od <= 1029 ==> vco <= 570000000.0)
  {
    hide Vco;
  }

  lemma BandCast(x: real, r: nat, od: nat, v: nat)
    requires x == 24000000.0 * v as real
    ensures BandFits(r, od, v) <==>
      && 90000000.0 * r as real <= x <= 730000000.0 * r as real
      && (od == 2 ==> x <= 540000000.0 * r as real) && (od == 3 ==> x <= 720000000.0 * r as real)
      && (38 <= od <= 1029 ==> x <= 570000000.0 * r as real)
  {
  }

  lemma CastProduct(a: nat, b: nat)
    ensures (a * b) as real == a as real * b as real
  {
  }

  lemma ErrorExactly(desired: nat, ppm: nat, r: nat, od: nat, v: nat)
    requires r > 0 && od > 0
    ensures Close(desired, AllowedError(ppm, desired), r, od, v) <==> ErrorFits(desired, ppm, r * od, v)
  {
    hide Freq, ErrorFits;
    var ro, cut := r * od, ppm * desired % U32;
    CastProduct(r, od);
    FreqTimes(r, od, v);
    assert INPUT * v as real == 24000000.0 * v as real;
    WithinError(Freq(r, od, v), desired as real, cut as real, ro as real, 24000000.0 * v as real);
    ErrorCast(desired, ppm, ro, v);
  }

  lemma ErrorCast(desired: nat, ppm: nat, ro: nat, v: nat)
    ensures var cut, x := (ppm * desired % U32) as real, 24000000.0 * v as real;
      ErrorFits(desired, ppm, ro, v) <==>
        -(cut * ro as real) <= 1000000.0 * (x - desired as real * ro as real) <= cut * ro as real
  {
    CastProduct(desired, ro);
    CastProduct(ppm * desired % U32, ro);
    ErrorSides(ppm * desired % U32 * ro, desired * ro, v);
  }

  lemma ErrorSides(a: int, b: int, v: int)
    ensures -a <= 1000000 * (24000000 * v - b) <= a
      <==> -(a as real) <= 1000000.0 * (24000000.0 * v as real - b as real) <= a as real
  {
  }

  lemma WithinError(f: real, d: real, cut: real, ro: real, x: real)
    requires ro > 0.0 && f * ro == x
    ensures Abs(f - d) <= cut / 1000000.0 <==>
      -(cut * ro) <= 1000000.0 * (x - d * ro) <= cut * ro
  {
    var e := f - d;
    assert e * ro == x - d * ro;
    var p, q := 1000000.0 * (x - d * ro), cut * ro;
    ScaledBounds(1000000.0 * e, cut, ro, p, q);
    ScaledBounds(-cut, 1000000.0 * e, ro, -q, p);
  }

  lemma LoopExactly(r: nat, v: nat, rs: nat, icp: nat)
    requires r > 0 && v > 0 && rs < 4 && icp < 20
    ensures var ri := OHMS[rs] * PUMP[icp];
      6.9 <= Ratio(r, v, rs, icp) < 30.0 <==> 2139 * (r * ri) <= 15079632000 * v < 9300 * (r * ri)
  {
    hide *;
    Tables(rs, icp);
    RatioTimes(r, v, rs, icp);
    RatioReal(Ratio(r, v, rs, icp), r * (OHMS[rs] * PUMP[icp]), v);
  }

  lemma RatioReal(ratio: real, rri: nat, v: nat)
    requires rri > 0 && (ratio * rri as real) * 310.0 == 15079632000.0 * v as real
    ensures 6.9 <= ratio <==> 2139 * rri <= 15079632000 * v
    ensures ratio < 30.0 <==> 15079632000 * v < 9300 * rri
  {
    var x, p := rri as real, ratio * rri as real;
    ScaledBounds(6.9, ratio, x, 6.9 * x, p);
    ScaledBounds(ratio, 30.0, x, p, 30.0 * x);
    RatioCast(p, rri, v);
  }

  lemma RatioCast(p: real, rri: nat, v: nat)
    requires p * 310.0 == 15079632000.0 * v as real
    ensures 6.9 * rri as real <= p <==> 2139 * rri <= 15079632000 * v
    ensures p < 30.0 * rri as real <==> 15079632000 * v < 9300 * rri
  {
  }

  lemma RatioTimes(r: nat, v: nat, rs: nat, icp: nat)
    requires r > 0 && v > 0
    ensures r * (Resistor(rs) * Current(icp)) > 0
    ensures (Ratio(r, v, rs, icp) * (r * (Resistor(rs) * Current(icp))) as real) * 310.0
      == 15079632000.0 * v as real
  {
    hide Resistor, Current, Pdf, Nbw;
    Positive(rs, icp);
    NbwTimes(v, rs, icp);
    PdfTimes(r);
    CastProduct(r, Resistor(rs) * Current(icp));
    RatioOf(r, v, rs, icp);
    RatioProduct(Ratio(r, v, rs, icp), Nbw(v, rs, icp), Pdf(r), r as real,
                 (Resistor(rs) * Current(icp)) as real, v as real);
    hide Ratio;
  }

  lemma Positive(rs: nat, icp: nat)
    ensures Resistor(rs) * Current(icp) > 0
  {
  }

  lemma PdfTimes(r: nat)
    requires r > 0
    ensures Pdf(r) * r as real == 24000000.0
  {
  }

  lemma RatioOf(r: nat, v: nat, rs: nat, icp: nat)
    requires r > 0 && v > 0
    ensures Ratio(r, v, rs, icp) * Nbw(v, rs, icp) == Pdf(r)
  {
    NbwPositive(v, rs, icp);
    hide Nbw, Pdf;
  }

  lemma RatioProduct(ratio: real, nbw: real, q: real, r: real, ri: real, v: real)
    requires ratio * nbw == q && q * r == 24000000.0 && nbw * v * 6.28318 == 3.1 * ri
    ensures (ratio * (r * ri)) * 310.0 == 15079632000.0 * v
  {
    ScaledAssoc(ratio, r, ri);
    var x := nbw * v;
    assert ri * 310.0 == x * 628.318;
    assert (ratio * r) * (ri * 310.0) == (ratio * r) * (x * 628.318);
    assert (ratio * r) * x == (ratio * nbw) * (r * v);
    assert q * (r * v) == (q * r) * v;
  }

  lemma NbwTimes(v: nat, rs: nat, icp: nat)
    requires v > 0
    ensures Nbw(v, rs, icp) * v as real * 6.28318 == 3.1 * (Resistor(rs) * Current(icp)) as real
  {
    hide Resistor, Current;
    CastProduct(Resistor(rs), Current(icp));
    NbwReal(Resistor(rs) as real, Current(icp) as real, v as real);
  }

  lemma NbwReal(res: real, cur: real, v: real)
    requires v > 0.0
    ensures ((res * (cur / 100000000.0) * 310000000.0) / (2.0 * 3.14159 * v)) * v * 6.28318 == 3.1 * (res * cur)
  {
    var x, y := res * (cur / 100000000.0) * 310000000.0, 2.0 * 3.14159 * v;
    var q := x / y;
    assert q * y == x;
    assert x == 3.1 * (res * cur);
    assert y == 6.28318 * v;
    assert q * v * 6.28318 == q * (6.28318 * v);
  }

  lemma DampingExactly(v: nat, rs: nat, icp: nat)
    requires v > 0 && rs < 4 && icp < 20
    ensures var rri := OHMS[rs] * OHMS[rs] * PUMP[icp];
      0.04 <= DampingSquared(v, rs, icp) <= 4.0 <==> 16000000000 * v <= 93 * rri <= 1600000000000 * v
  {
    hide *;
    Tables(rs, icp);
    DampingTimes(v, rs, icp);
    DampingReal(DampingSquared(v, rs, icp), v, OHMS[rs] * OHMS[rs] * PUMP[icp]);
  }

  lemma DampingReal(d: real, v: nat, rri: nat)
    requires v > 0 && (d * v as real) * 4000000000000.0 == 930.0 * rri as real
    ensures 0.04 <= d <==> 16000000000 * v <= 93 * rri
    ensures d <= 4.0 <==> 93 * rri <= 1600000000000 * v
  {
    var x, p := v as real, d * v as real;
    ScaledBounds(0.04, d, x, 0.04 * x, p);
    ScaledBounds(d, 4.0, x, p, 4.0 * x);
    DampingCast(p, v, rri);
  }

  lemma ScaledBounds(a: real, b: real, c: real, ac: real, bc: real)
    requires c > 0.0 && ac == a * c && bc == b * c
    ensures a <= b <==> ac <= bc
    ensures a < b <==> ac < bc
  {
    Scaling(a, b, c);
  }

  lemma DampingTimes(v: nat, rs: nat, icp: nat)
    requires v > 0
    ensures (DampingSquared(v, rs, icp) * v as real) * 4000000000000.0
      == 930.0 * (Resistor(rs) * Resistor(rs) * Current(icp)) as real
  {
    hide Resistor, Current;
    var res, cur := Resistor(rs), Current(icp);
    CastProduct(res, res);
    CastProduct(res * res, cur);
    DampingOf(res as real, cur as real, v as real);
  }

  lemma DampingCast(d: real, v: nat, rri: nat)
    requires d * 4000000000000.0 == 930.0 * rri as real
    ensures 0.04 * v as real <= d <==> 16000000000 * v <= 93 * rri
    ensures d <= 4.0 * v as real <==> 93 * rri <= 1600000000000 * v
  {
  }

  lemma DampingOf(res: real, cur: real, v: real)
    requires v > 0.0
    ensures var half := res / 2.0;
      half * half * ((cur / 100000000.0 * 0.093) / v) * v * 4000000000000.0 == 930.0 * (res * res * cur)
  {
    var half, x := res / 2.0, cur / 100000000.0 * 0.093;
    var q := x / v;
    assert q * v == x;
    ScaledAssoc(half * half, q, v);
    assert half * half == res * res / 4.0;
  }

  /** A tuning works exactly when it meets the conditions in whole numbers. */
  lemma WorksExactly(desired: nat, ppm: nat, t: Tuning)
    ensures Works(desired, AllowedError(ppm, desired), t) <==> Admissible(desired, ppm, t)
  {
    hide OnGrid, PdfOk, VcoOk, Close, FilterOk, DetectorFits, BandFits, ErrorFits;
    if InRange(t) {
      DetectorExactly(t.r);
      BandExactly(t.r, t.od, t.v);
      GridTop(t.od);
      ErrorExactly(desired, ppm, t.r, t.od, t.v);
      FilterExactly(t.r, t.v, t.rs, t.icp);
    }
    hide LoopFits;
  }

  lemma FilterExactly(r: nat, v: nat, rs: nat, icp: nat)
    requires r > 0 && v > 0 && rs < 4 && icp < 20
    ensures FilterOk(r, v, rs, icp) <==>
      LoopFits(r, v, OHMS[rs] * PUMP[icp], OHMS[rs] * OHMS[rs] * PUMP[icp])
  {
    hide Ratio, DampingSquared, FilterOk;
    FilterLimits(r, v, rs, icp);
    LoopExactly(r, v, rs, icp);
    DampingExactly(v, rs, icp);
  }

  /** No tuning that works makes more than 270 MHz, so a target further above that than the allowed
      error is given up. */
  lemma HighestFrequency(desired: nat, ppm: nat, t: Tuning)
    requires Works(desired, AllowedError(ppm, desired), t)
    ensures 24000000 * t.v <= 270000000 * (t.r * t.od)
    ensures 1000000 * desired <= 270000000000000 + ppm * desired % U32
  {
    WorksExactly(desired, ppm, t);
    GridTop(t.od);
    BandOutput(t.r, t.od, t.v);
    WithinTop(desired, ppm * desired % U32, t.r * t.od, t.v);
    hide Works, OHMS, PUMP, OnGrid;
  }

  lemma BandOutput(r: nat, od: nat, v: nat)
    requires r > 0 && od >= 2 && BandFits(r, od, v)
    ensures r * od > 0 && 24000000 * v <= 270000000 * (r * od)
  {
    assert r * od == 2 * r + r * (od - 2);
    if od == 3 { assert r * od == 3 * r; }
    if od >= 4 { assert r * od == 4 * r + r * (od - 4); }
  }

  lemma WithinTop(desired: nat, cut: nat, ro: nat, v: nat)
    requires ro > 0 && 24000000 * v <= 270000000 * ro
    requires -(cut * ro) <= 1000000 * (24000000 * v - desired * ro)
    ensures 1000000 * desired <= 270000000000000 + cut
  {
    var k, d, e := 1000000 * desired - 270000000000000 - cut, desired * ro, cut * ro;
    Distribute(desired, cut, ro);
    assert k * ro <= 0;
    if k > 0 { PositiveProduct(k, ro); }
  }

  lemma Distribute(desired: int, cut: int, ro: int)
    ensures (1000000 * desired - 270000000000000 - cut) * ro
      == 1000000 * (desired * ro) - 270000000000000 * ro - cut * ro
  {
  }

  lemma PositiveProduct(a: int, b: int)
    requires a > 0 && b > 0
    ensures a * b > 0
  {
  }

  /** The order in which tunings are tried, as one number. */
  function Rank(t: Tuning): int {
    (((t.r * 10000 + (8232 - t.od)) * 10000 + t.v) * 4 + t.rs) * 20 + t.icp
  }

  lemma BeforeIsRank(a: Tuning, b: Tuning)
    requires InRange(a) && InRange(b)
    ensures Before(a, b) <==> Rank(a) < Rank(b)
  {
    hide OnGrid;
    assert a.od <= 8232 && b.od <= 8232 by { GridTop(a.od); GridTop(b.od); }
  }

  lemma BeforeExactly(desired: nat, ppm: nat, t: Tuning, u: Tuning)
    requires Admissible(desired, ppm, t) && Admissible(desired, ppm, u)
    ensures u == t || Before(t, u) <==> Rank(t) <= Rank(u)
  {
    hide OnGrid, DetectorFits, BandFits, ErrorFits, LoopFits;
    BeforeIsRank(t, u);
    BeforeIsRank(u, t);
    BeforeTotal(t, u);
    hide Before, Rank;
  }

  lemma BeforeTotal(t: Tuning, u: Tuning)
    ensures t == u || Before(t, u) || Before(u, t)
  {
  }

  /** The search gives up exactly when no tuning is admissible at any error it may try. */
  lemma GivesUpExactly(desired: nat, limit: nat)
    ensures Hopeless(desired, limit) <==> forall p: nat, t :: p < limit ==> !Admissible(desired, p, t)
  {
    hide Works, Admissible;
    forall p: nat, t ensures Works(desired, AllowedError(p, desired), t) <==> Admissible(desired, p, t) {
      WorksExactly(desired, p, t);
    }
    hide AllowedError;
    if Hopeless(desired, limit) {
      forall p: nat, t | p < limit ensures !Admissible(desired, p, t) {
        assert NoneWorks(desired, AllowedError(p, desired));
      }
    }
  }

  /** The tuning found is the admissible one of the lowest rank at the least error that has one. */
  lemma BestExactly(desired: nat, requestedPpm: nat, ppm: nat, t: Tuning)
    ensures Best(desired, requestedPpm, ppm, t) <==>
      && ppm <= requestedPpm && Admissible(desired, ppm, t)
      && (forall u :: Admissible(desired, ppm, u) ==> Rank(t) <= Rank(u))
      && (forall p: nat, u :: p < ppm ==> !Admissible(desired, p, u))
  {
    hide Works, Admissible, Rank, Before, Hopeless;
    GivesUpExactly(desired, ppm);
    WorksExactly(desired, ppm, t);
    forall u ensures Works(desired, AllowedError(ppm, desired), u) <==> Admissible(desired, ppm, u) {
      WorksExactly(desired, ppm, u);
    }
    forall u | Admissible(desired, ppm, t) && Admissible(desired, ppm, u)
      ensures u == t || Before(t, u) <==> Rank(t) <= Rank(u)
    {
      BeforeExactly(desired, ppm, t, u);
    }
    hide AllowedError;
  }

  /** The product of ppm and target is cut to 32 bits, so nothing is found for a target from
      270004295 Hz up, whatever error is allowed. */
  lemma NothingAbove(desired: nat, limit: nat)
    requires desired >= 270004295
    ensures Hopeless(desired, limit)
  {
    hide Works, AllowedError;
    forall p: nat, t ensures !Works(desired, AllowedError(p, desired), t) {
      if Works(desired, AllowedError(p, desired), t) { HighestFrequency(desired, p, t); }
    }
  }

  lemma GridTop(od: nat)
    requires OnGrid(od)
    ensures 2 <= od <= 8232
  {
  }
}
