/** The search for clock parameters (`lib/raw/calculate-clock-bits.c:183-430`).

    Doubles are exact reals here. The damping factor is a square root, so its two bounds are
    compared squared. */
module ClockSearch {
  import opened CTypes
  import opened OutputDivider

  const INPUT: real := 24000000.0
  const MAX_R: nat := 1200
  const MIN_V: nat := 12
  const MAX_V: nat := 2055
  const RESISTORS: nat := 4
  const CURRENTS: nat := 20

  /** Reference divider, output divider, VCO divider, and the indices of resistor and current. */
  datatype Tuning = Tuning(r: nat, od: nat, v: nat, rs: nat, icp: nat)

  function Resistor(i: nat): nat {
    if i == 0 then 64000 else if i == 1 then 52000 else if i == 2 then 16000 else 4000
  }

  /** The charge pump current in units of 10 nA (the source's `icpnum`). */
  function Current(j: nat): nat {
    if j < 10 then 125 * (j + 1)
    else if j == 10 then 1500 else if j == 11 then 1750 else if j == 12 then 1875
    else if j == 13 then 2000 else if j == 14 then 2250 else if j == 15 then 2500
    else if j == 16 then 2625 else if j == 17 then 3000 else if j == 18 then 3500 else 4000
  }

  function AllowedError(ppm: nat, desired: nat): real {
    ((ppm * desired) % U32) as real / 1000000.0
  }

  /** The phase detector frequency. */
  function Pdf(r: nat): real
    requires r > 0
  {
    INPUT / r as real
  }

  predicate PdfOk(r: nat)
    requires r > 0
  {
    !(Pdf(r) < 20000.0 || Pdf(r) > 100000000.0)
  }

  function Vco(r: nat, v: nat): real
    requires r > 0
  {
    INPUT * (v as real / r as real)
  }

  /** The largest VCO frequency allowed with an output divider. */
  function VcoLimit(od: nat): real {
    if od == 2 then 540000000.0
    else if od == 3 then 720000000.0
    else if 38 <= od <= 1029 then 570000000.0
    else 730000000.0
  }

  predicate VcoOk(r: nat, od: nat, v: nat)
    requires r > 0
  {
    !(Vco(r, v) < 90000000.0 || Vco(r, v) > VcoLimit(od))
  }

  function Freq(r: nat, od: nat, v: nat): real
    requires r > 0 && od > 0
  {
    INPUT * (v as real / (r as real * od as real))
  }

  function Abs(x: real): real {
    if x < 0.0 then -x else x
  }

  predicate Close(desired: nat, error: real, r: nat, od: nat, v: nat)
    requires r > 0 && od > 0
  {
    !(Abs(Freq(r, od, v) - desired as real) > error)
  }

  /** The loop bandwidth. */
  function Nbw(v: nat, rs: nat, icp: nat): real
    requires v > 0
  {
    (Resistor(rs) as real * (Current(icp) as real / 100000000.0) * 310000000.0)
    / (2.0 * 3.14159 * v as real)
  }

  lemma NbwPositive(v: nat, rs: nat, icp: nat)
    requires v > 0
    ensures Nbw(v, rs, icp) > 0.0
  {
    var x := Resistor(rs) as real * (Current(icp) as real / 100000000.0);
    assert x > 0.0;
    assert x * 310000000.0 > 0.0;
    assert 2.0 * 3.14159 * v as real > 0.0;
  }

  /** The ratio of phase detector frequency and bandwidth. */
  function Ratio(r: nat, v: nat, rs: nat, icp: nat): real
    requires r > 0 && v > 0
  {
    NbwPositive(v, rs, icp);
    Pdf(r) / Nbw(v, rs, icp)
  }

  /** The ratio as the source rounds it: to tenths, and always up by one. */
  function Rounded(ratio: real): real {
    var tenths := (ratio * 10.0).Floor;
    var up := if ratio * 10.0 - tenths as real >= 0.0 then tenths + 1 else tenths;
    up as real / 10.0
  }

  /** The square of the damping factor. */
  function DampingSquared(v: nat, rs: nat, icp: nat): real
    requires v > 0
  {
    var half := Resistor(rs) as real / 2.0;
    half * half * ((Current(icp) as real / 100000000.0 * 0.093) / v as real)
  }

  predicate FilterOk(r: nat, v: nat, rs: nat, icp: nat)
    requires r > 0 && v > 0
  {
    var ratio := Rounded(Ratio(r, v, rs, icp));
    !(ratio > 30.0 || ratio < 7.0
      || DampingSquared(v, rs, icp) > 2.0 * 2.0 || DampingSquared(v, rs, icp) < 0.2 * 0.2)
  }

  // ---- what the search is for ----

  predicate InRange(t: Tuning) {
    && 1 <= t.r <= MAX_R && OnGrid(t.od) && MIN_V <= t.v <= MAX_V
    && t.rs < RESISTORS && t.icp < CURRENTS
  }

  /** A tuning the chip accepts and that comes within `error` of the target. */
  predicate Works(desired: nat, error: real, t: Tuning) {
    && InRange(t)
    && PdfOk(t.r) && VcoOk(t.r, t.od, t.v) && Close(desired, error, t.r, t.od, t.v)
    && FilterOk(t.r, t.v, t.rs, t.icp)
  }

  /** The order in which tunings are tried: R up, OD down, V up, resistor up, current up. */
  predicate Before(a: Tuning, b: Tuning) {
    a.r < b.r || (a.r == b.r &&
      (a.od > b.od || (a.od == b.od &&
        (a.v < b.v || (a.v == b.v &&
          (a.rs < b.rs || (a.rs == b.rs && a.icp < b.icp)))))))
  }

  ghost predicate First(desired: nat, error: real, t: Tuning) {
    && Works(desired, error, t)
    && forall u :: Works(desired, error, u) ==> u == t || Before(t, u)
  }

  ghost predicate NoneWorks(desired: nat, error: real) {
    forall t :: !Works(desired, error, t)
  }

  // ---- pruning ----

  /** Conversion of a double to a C `int`: the fraction is dropped. */
  function Truncate(x: real): int {
    if x >= 0.0 then x.Floor else -((-x).Floor)
  }

  /** Where the lowest output frequency allowed puts the VCO divider. */
  function StartPoint(desired: nat, error: real, r: nat, od: nat): real {
    ((desired as real - error) * r as real * od as real) / INPUT
  }

  /** The first VCO divider to try, as an `unsigned`. (The conversion to `int` is in range, see
      `StartFitsInt`.) */
  function RawStart(desired: nat, error: real, r: nat, od: nat): nat {
    Truncate(StartPoint(desired, error, r, od)) % U32
  }

  function Start(desired: nat, error: real, r: nat, od: nat): nat {
    var v := RawStart(desired, error, r, od);
    if v < MIN_V then MIN_V else if v > MAX_V then MAX_V else v
  }

  /** The product of ppm and target is cut to 32 bits, so no request allows a larger error. */
  const LARGEST_ERROR: real := 4295.0

  /** The conversion to `int` is in range for every request, and for an error up to the target it
      drops the fraction. */
  lemma StartFitsInt(desired: nat, error: real, r: nat, od: nat)
    requires desired < U32 && 0.0 <= error <= LARGEST_ERROR && 1 <= r <= MAX_R && 1 <= od <= FIRST
    ensures -2147483648.0 < StartPoint(desired, error, r, od) < 2147483648.0
    ensures error <= desired as real <==> StartPoint(desired, error, r, od) >= 0.0
    ensures error <= desired as real ==>
      RawStart(desired, error, r, od) == StartPoint(desired, error, r, od).Floor
    ensures StartPoint(desired, error, r, od) <= -1.0 ==> Start(desired, error, r, od) == MAX_V
    ensures -1.0 < StartPoint(desired, error, r, od) < 0.0 ==> Start(desired, error, r, od) == MIN_V
  {
    var distance := desired as real - error;
    if error <= desired as real {
      StartPointBounds(distance, r as real, od as real);
      hide StartPoint;
      TruncateSmall(StartPoint(desired, error, r, od));
    } else {
      NegativePoint(-distance, r as real, od as real);
      assert -((-distance) * r as real * od as real) == distance * r as real * od as real;
      hide StartPoint;
      TruncateNegative(StartPoint(desired, error, r, od));
    }
  }

  lemma NegativePoint(a: real, r: real, od: real)
    requires 0.0 < a <= LARGEST_ERROR && 1.0 <= r <= 1200.0 && 1.0 <= od <= 8232.0
    ensures 0.0 < (a * r * od) / INPUT <= 2000.0
  {
    Between(a, r, 4295.0, 1200.0);
    Between(a * r, od, 5154000.0, 8232.0);
    Between(1.0, a, r, a);
    assert a * r >= a > 0.0;
    assert a * r * od > 0.0;
    DivideBounds(a * r * od, 42427728000.0);
  }

  lemma TruncateNegative(q: real)
    requires -2000.0 <= q < 0.0
    ensures if q <= -1.0 then -2000 <= Truncate(q) < 0 && Truncate(q) % U32 > MAX_V else Truncate(q) == 0
  {
  }

  lemma StartPointBounds(a: real, r: real, od: real)
    requires 0.0 <= a <= 4294967296.0 && 0.0 <= r <= 1200.0 && 0.0 <= od <= 8232.0
    ensures 0.0 <= (a * r * od) / INPUT < 2147483648.0
  {
    Between(a, r, 4294967296.0, 1200.0);
    Between(a * r, od, 5153960755200.0, 8232.0);
    DivideBounds(a * r * od, 42427404936806400.0);
  }

  lemma TruncateSmall(q: real)
    requires 0.0 <= q < 2147483648.0
    ensures Truncate(q) == q.Floor && 0 <= q.Floor < 0x8000_0000 && q.Floor % U32 == q.Floor
  {
  }

  lemma DivideBounds(x: real, y: real)
    requires 0.0 <= x <= y
    ensures 0.0 <= x / INPUT <= y / INPUT
  {
  }

  lemma Between(a: real, b: real, c: real, d: real)
    requires 0.0 <= a <= c && 0.0 <= b <= d
    ensures 0.0 <= a * b <= c * d
  {
    assert a * b <= a * d;
    assert a * d <= c * d;
  }

  /** The start skips a VCO divider that is close enough exactly when it is at most -1: as an
      `unsigned` it is then huge, and only the largest divider is tried. */
  lemma NegativeStart(desired: nat, error: real, r: nat, od: nat, v: nat)
    requires desired < U32 && 0.0 <= error <= LARGEST_ERROR && 1 <= r <= MAX_R && 1 <= od <= FIRST
    requires MIN_V <= v <= MAX_V && Close(desired, error, r, od, v)
    ensures v < Start(desired, error, r, od) <==> StartPoint(desired, error, r, od) <= -1.0 && v < MAX_V
  {
    StartFitsInt(desired, error, r, od);
    if error <= desired as real {
      StartBelow(desired, error, r, od, v);
    }
    hide Close, StartPoint, RawStart;
  }

  /** A request that makes the start skip a divider: 1 Hz to within 4000 Hz. */
  lemma StartSkips()
    ensures
      var error := AllowedError(4000000000, 1);
      && Close(1, error, 1200, 8232, 12)
      && 12 < Start(1, error, 1200, 8232) && !VcoOk(1200, 8232, 12)
  {
    var error := AllowedError(4000000000, 1);
    assert error == 4000.0;
    assert StartPoint(1, error, 1200, 8232) == (1.0 - 4000.0) * 1200.0 * 8232.0 / 24000000.0 <= -1.0;
    assert Freq(1200, 8232, 12) == 24000000.0 * (12.0 / 9878400.0);
    NegativeStart(1, error, 1200, 8232, 12);
  }

  lemma StartBelow(desired: nat, error: real, r: nat, od: nat, v: nat)
    requires r > 0 && od > 0 && Close(desired, error, r, od, v)
    requires desired < U32 && 0.0 <= error <= LARGEST_ERROR && error <= desired as real
    requires r <= MAX_R && od <= FIRST
    ensures RawStart(desired, error, r, od) <= v
  {
    StartFitsInt(desired, error, r, od);
    assert Freq(r, od, v) >= desired as real - error;
    FreqTimes(r, od, v);
    hide Freq, Close, RawStart;
    BelowProduct(desired as real - error, Freq(r, od, v), r as real, od as real, v);
  }

  lemma BelowProduct(lowest: real, f: real, r: real, od: real, v: nat)
    requires lowest <= f && r * od > 0.0 && f * (r * od) == INPUT * v as real
    ensures ((lowest * r * od) / INPUT).Floor <= v
  {
    ScaleUp(lowest, f, r * od);
    Assoc(lowest, r, od);
    DivideInput(lowest * r * od, v);
  }

  lemma Assoc(a: real, b: real, c: real)
    ensures a * b * c == a * (b * c)
  {
  }

  lemma ScaleUp(a: real, b: real, c: real)
    requires a <= b && c > 0.0
    ensures a * c <= b * c
  {
  }

  lemma DivideInput(x: real, v: nat)
    requires x <= INPUT * v as real
    ensures (x / INPUT).Floor <= v
  {
    assert x / INPUT <= v as real;
  }

  lemma FreqTimes(r: nat, od: nat, v: nat)
    requires r > 0 && od > 0
    ensures r as real * od as real > 0.0
    ensures Freq(r, od, v) * (r as real * od as real) == INPUT * v as real
  {
    var ro := r as real * od as real;
    assert ro > 0.0;
    var q := v as real / ro;
    assert q * ro == v as real;
    Assoc(INPUT, q, ro);
  }

  /** With the VCO at 90 MHz or more, no divider gets below 10 kHz. */
  lemma LowestFrequency(r: nat, od: nat, v: nat)
    requires r > 0 && 1 <= od <= FIRST && VcoOk(r, od, v)
    ensures Freq(r, od, v) >= 10000.0
  {
    FreqTimes(r, od, v);
    VcoTimes(r, v);
    FrequencyFloor(Freq(r, od, v), Vco(r, v), r as real, od as real);
  }

  lemma FrequencyFloor(f: real, vco: real, r: real, od: real)
    requires f * (r * od) == vco * r && vco >= 90000000.0 && r > 0.0 && 1.0 <= od <= 8232.0
    ensures f >= 10000.0
  {
    assert r * od == od * r;
    SameFactor(f * od, vco, r, f, od);
    if f < 10000.0 {
      SmallProduct(f, od);
    }
  }

  lemma VcoTimes(r: nat, v: nat)
    requires r > 0
    ensures Vco(r, v) * r as real == INPUT * v as real
  {
    var q := v as real / r as real;
    assert q * r as real == v as real;
    Assoc(INPUT, q, r as real);
  }

  lemma SameFactor(x: real, y: real, r: real, f: real, od: real)
    requires r > 0.0 && x == f * od && f * (od * r) == y * r
    ensures x == y
  {
    Assoc(f, od, r);
    assert (x - y) * r == 0.0;
  }

  lemma SmallProduct(f: real, od: real)
    requires f < 10000.0 && 1.0 <= od <= 8232.0
    ensures f * od < 90000000.0
  {
    if f > 0.0 {
      Between(f, od, 10000.0, 8232.0);
    } else {
      assert f * od <= 0.0;
    }
  }

  /** The pruned start skips no VCO divider that the chip accepts and that comes close enough, for
      any request: where the start could be negative, the error is larger than the target and every
      frequency the chip makes is too high. */
  lemma StartLosesNothing(desired: nat, error: real, r: nat, od: nat, v: nat)
    requires r > 0 && od > 0 && MIN_V <= v <= MAX_V && VcoOk(r, od, v) && Close(desired, error, r, od, v)
    requires desired < U32 && 0.0 <= error <= LARGEST_ERROR && r <= MAX_R && od <= FIRST
    ensures Start(desired, error, r, od) <= v
  {
    if error <= desired as real {
      StartBelow(desired, error, r, od, v);
    } else {
      LowestFrequency(r, od, v);
      assert false;
    }
  }

  // ---- the search ----

  ghost predicate FilterFree(r: nat, v: nat)
    requires r > 0 && v > 0
  {
    forall i: nat, j: nat :: i < RESISTORS && j < CURRENTS ==> !FilterOk(r, v, i, j)
  }

  /** The two inner loops: the first loop filter that works for `r` and `v`. */
  method FindFilter(r: nat, v: nat) returns (found: bool, i: nat, j: nat)
    requires r > 0 && v > 0
    ensures found ==> i < RESISTORS && j < CURRENTS && FilterOk(r, v, i, j)
    ensures found ==> forall i': nat, j': nat ::
      i' < RESISTORS && j' < CURRENTS && FilterOk(r, v, i', j') ==> i < i' || (i == i' && j <= j')
    ensures !found ==> FilterFree(r, v)
  {
    i, j, found := 0, 0, false;
    while i < RESISTORS
      invariant i <= RESISTORS
      invariant forall i': nat, j': nat :: i' < i && j' < CURRENTS ==> !FilterOk(r, v, i', j')
    {
      j := 0;
      while j < CURRENTS
        invariant j <= CURRENTS
        invariant forall j': nat :: j' < j ==> !FilterOk(r, v, i, j')
      {
        hide FilterOk;
        if FilterOk(r, v, i, j) {
          return true, i, j;
        }
        j := j + 1;
      }
      i := i + 1;
    }
  }

  /** The loop over V: the first VCO divider at which something works. */
  method FindV(desired: nat, error: real, r: nat, od: nat) returns (found: bool, t: Tuning)
    requires desired < U32 && 0.0 <= error <= LARGEST_ERROR
    requires 1 <= r <= MAX_R && OnGrid(od) && PdfOk(r)
    ensures found ==> Works(desired, error, t) && t.r == r && t.od == od
    ensures found ==> forall u :: Works(desired, error, u) && u.r == r && u.od == od ==> u == t || Before(t, u)
    ensures !found ==> forall u :: Works(desired, error, u) ==> u.r != r || u.od != od
  {
    hide FilterOk, PdfOk, VcoOk, Close;
    t := Tuning(r, od, 0, 0, 0);
    var v := Start(desired, error, r, od);
    forall u | Works(desired, error, u) && u.r == r && u.od == od ensures u.v >= v {
      StartLosesNothing(desired, error, r, od, u.v);
    }
    while v <= MAX_V
      invariant MIN_V <= v <= MAX_V + 1
      invariant forall u :: Works(desired, error, u) && u.r == r && u.od == od ==> u.v >= v
    {
      if VcoOk(r, od, v) && Close(desired, error, r, od, v) {
        var ok, i, j := FindFilter(r, v);
        if ok {
          return true, Tuning(r, od, v, i, j);
        }
        assert forall u :: Works(desired, error, u) && u.r == r && u.od == od ==> u.v != v;
      }
      v := v + 1;
    }
    found := false;
  }

  /** The loop over the output divider, downwards. */
  method FindOd(desired: nat, error: real, r: nat) returns (found: bool, t: Tuning)
    requires desired < U32 && 0.0 <= error <= LARGEST_ERROR
    requires 1 <= r <= MAX_R && PdfOk(r)
    ensures found ==> Works(desired, error, t) && t.r == r
    ensures found ==> forall u :: Works(desired, error, u) && u.r == r ==> u == t || Before(t, u)
    ensures !found ==> forall u :: Works(desired, error, u) ==> u.r != r
  {
    hide PdfOk, VcoOk, Close, FilterOk;
    var od := FIRST;
    while od > 1
      invariant od == 1 || OnGrid(od)
      invariant forall u :: Works(desired, error, u) && u.r == r ==> u.od <= od
      decreases od
    {
      found, t := FindV(desired, error, r, od);
      if found { return; }
      NextOnGrid(od);
      od := Next(od);
    }
    found, t := false, Tuning(r, 0, 0, 0, 0);
  }

  /** The loop over the reference divider. */
  method FindR(desired: nat, error: real) returns (found: bool, t: Tuning)
    requires desired < U32 && 0.0 <= error <= LARGEST_ERROR
    ensures found ==> First(desired, error, t)
    ensures !found ==> NoneWorks(desired, error)
  {
    hide PdfOk, VcoOk, Close, FilterOk, OnGrid;
    var r := 1;
    while r <= MAX_R
      invariant 1 <= r <= MAX_R + 1
      invariant forall u :: Works(desired, error, u) ==> u.r >= r
    {
      if PdfOk(r) {
        found, t := FindOd(desired, error, r);
        if found { return; }
      }
      r := r + 1;
    }
    found, t := false, Tuning(0, 0, 0, 0, 0);
  }

  lemma ErrorBounds(ppm: nat, desired: nat)
    ensures 0.0 <= AllowedError(ppm, desired) <= LARGEST_ERROR
    ensures AllowedError(ppm, desired) <= (ppm * desired) as real / 1000000.0
  {
    ErrorOf(ppm * desired);
  }

  lemma ErrorOf(product: nat)
    ensures 0.0 <= (product % U32) as real / 1000000.0 <= LARGEST_ERROR
    ensures (product % U32) as real / 1000000.0 <= product as real / 1000000.0
  {
    assert product % U32 <= product;
  }

  /** No tuning whatever works at any error below `limit` ppm. */
  ghost predicate Hopeless(desired: nat, limit: nat) {
    forall p: nat :: p < limit ==> NoneWorks(desired, AllowedError(p, desired))
  }

  /** The first tuning, in the order tried, at the least error up to the request that has one. */
  ghost predicate Best(desired: nat, requestedPpm: nat, ppm: nat, t: Tuning) {
    ppm <= requestedPpm && First(desired, AllowedError(ppm, desired), t) && Hopeless(desired, ppm)
  }

  /** The whole search. The error allowed grows by one ppm at a time up to the request. It gives up
      (code 2) exactly when no tuning whatever works at any error up to the request; otherwise
      (code 0) it returns the first tuning, in the order tried, at the least error that has one.
      For the largest request of all the counter cannot get past it, so the loop ends only if
      something works. */
  method Search(desired: nat, requestedPpm: nat) returns (code: int, ppm: nat, t: Tuning)
    requires desired < U32 && requestedPpm < U32
    requires requestedPpm == U32 - 1 ==> !Hopeless(desired, U32)
    ensures code == if Hopeless(desired, requestedPpm + 1) then 2 else 0
    ensures code == 0 ==> Best(desired, requestedPpm, ppm, t)
  {
    ppm := 0;
    while true
      invariant ppm <= requestedPpm
      invariant Hopeless(desired, ppm)
      decreases requestedPpm - ppm
    {
      var found;
      ErrorBounds(ppm, desired);
      found, t := FindR(desired, AllowedError(ppm, desired));
      if found {
        code := 0;
        FirstWorks(desired, AllowedError(ppm, desired), t);
        return;
      }
      assert ppm + 1 < U32 by {
        assert ppm == U32 - 1 ==> Hopeless(desired, U32);
      }
      ppm := AddU32(ppm, 1);
      if ppm > requestedPpm {
        code := 2;
        return;
      }
    }
  }

  /** The ratio is rounded up even when it is exact, so the limits 7 and 30 on the rounded value
      admit exactly the unrounded ratios from 6.9 up to, but without, 30. */
  lemma FilterLimits(r: nat, v: nat, rs: nat, icp: nat)
    requires r > 0 && v > 0
    ensures FilterOk(r, v, rs, icp) <==>
      6.9 <= Ratio(r, v, rs, icp) < 30.0 && 0.04 <= DampingSquared(v, rs, icp) <= 4.0
  {
    RoundedLimits(Ratio(r, v, rs, icp));
  }

  lemma RoundedLimits(x: real)
    ensures !(Rounded(x) > 30.0 || Rounded(x) < 7.0) <==> 6.9 <= x < 30.0
  {
    var tenths := (x * 10.0).Floor;
    assert Rounded(x) == (tenths + 1) as real / 10.0;
  }

  lemma FirstWorks(desired: nat, error: real, t: Tuning)
    requires First(desired, error, t)
    ensures !NoneWorks(desired, error)
  {
  }

  /** What a returned tuning guarantees, in the chip's own quantities. */
  lemma ResultValid(desired: nat, ppm: nat, t: Tuning)
    requires Works(desired, AllowedError(ppm, desired), t)
    ensures 20000.0 <= Pdf(t.r) <= 100000000.0
    ensures 90000000.0 <= 24000000.0 * (t.v as real / t.r as real)
    ensures 24000000.0 * (t.v as real / t.r as real) <=
      if t.od == 2 then 540000000.0 else if t.od == 3 then 720000000.0
      else if 38 <= t.od <= 1029 then 570000000.0 else 730000000.0
    ensures Abs(Freq(t.r, t.od, t.v) - desired as real) <= (ppm * desired) as real / 1000000.0
    ensures 6.9 <= Ratio(t.r, t.v, t.rs, t.icp) < 30.0
    ensures 0.04 <= DampingSquared(t.v, t.rs, t.icp) <= 4.0
  {
    ErrorBounds(ppm, desired);
    FilterLimits(t.r, t.v, t.rs, t.icp);
    hide FilterOk, Ratio, DampingSquared, AllowedError;
  }
}
