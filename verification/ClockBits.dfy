/** From a wanted frequency to a word for the clock chip: the search and the encoder together
    (`lib/raw/calculate-clock-bits.c:52-149` and `151-949`). */
module ClockBits {
  import opened CTypes
  import opened OutputDivider
  import opened ClockSearch
  import W = ClockWord
  import P = ClockPins

  /** What the word of a tuning programs. */
  function SettingOf(t: Tuning): W.Setting {
    W.Setting(t.r, t.v, Resistor(t.rs), Current(t.icp), t.od)
  }

  /** The encoder refuses nothing the search finds. */
  lemma SearchFitsEncoder(t: Tuning)
    requires InRange(t)
    ensures 1 <= t.r <= 2055 && W.MIN_V <= t.v <= W.MAX_V && 2 <= t.od <= FIRST && OnGrid(t.od)
    ensures W.HasResistor(Resistor(t.rs)) && W.HasCode(Current(t.icp))
  {
  }

  /** The frequency a word makes the chip produce. */
  function Produced(w: seq<bv8>): (f: real)
    requires |w| == W.BYTES && W.Decode(w).r > 0 && W.Decode(w).od > 0 && W.Decode(w).v >= 0
  {
    var s := W.Decode(w);
    Freq(s.r, s.od, s.v)
  }

  /** The word programs the tuning the search is for. */
  ghost predicate Solves(w: seq<bv8>, desired: nat, requestedPpm: nat, ppm: nat, t: Tuning)
    requires |w| == W.BYTES
  {
    Best(desired, requestedPpm, ppm, t) && W.Decode(w) == SettingOf(t) && W.Controls(w)
  }

  /** The search followed by the encoder. Of the eight codes the source knows, it returns only 0
      and 2. */
  method GetData(desired: nat, requestedPpm: nat, progdata: array<bv8>)
    returns (code: int, ghost ppm: nat, ghost t: Tuning)
    requires desired < U32 && requestedPpm < U32 && progdata.Length == W.BYTES
    requires requestedPpm == U32 - 1 ==> !Hopeless(desired, U32)
    modifies progdata
    ensures code == if Hopeless(desired, requestedPpm + 1) then 2 else 0
    ensures code == 0 ==> Solves(progdata[..], desired, requestedPpm, ppm, t)
  {
    var u, q;
    code, q, u := Search(desired, requestedPpm);
    ppm, t := q, u;
    if code == 2 { return; }
    hide AllowedError, Hopeless, PdfOk, VcoOk, Close, FilterOk, W.Decode, W.Controls;
    SearchFitsEncoder(u);
    code := W.Encode(progdata, u.r, u.v, Resistor(u.rs), Current(u.icp), u.od);
  }

  method CopyBytes(from: array<bv8>, to: array<bv8>)
    requires from != to && from.Length == to.Length == W.BYTES
    modifies to
    ensures to[..] == from[..]
  {
    for i := 0 to 20
      invariant to[..i] == from[..i]
    {
      to[i] := from[i];
    }
  }

  /** The entry point: the caller's bytes change only when there is a solution. */
  method CalculateClockBits(freq: nat, ppm: nat, progbytes: array<bv8>)
    returns (result: int, ghost used: nat, ghost t: Tuning)
    requires freq < U32 && ppm < U32 && progbytes.Length == W.BYTES
    requires ppm == U32 - 1 ==> !Hopeless(freq, U32)
    modifies progbytes
    ensures result == if Hopeless(freq, ppm + 1) then 1 else 0
    ensures result == 1 ==> progbytes[..] == old(progbytes[..])
    ensures result == 0 ==> Solves(progbytes[..], freq, ppm, used, t)
  {
    var progwords := new bv8[W.BYTES];
    var code;
    code, used, t := GetData(freq, ppm, progwords);
    hide Solves, Hopeless;
    if code == 0 {
      CopyBytes(progwords, progbytes);
      result := 0;
    } else {
      result := 1;
    }
  }

  /** A word that solves a request makes the chip produce the wanted frequency to within the
      requested error. */
  lemma ProducedWithinRequest(w: seq<bv8>, desired: nat, requestedPpm: nat, ppm: nat, t: Tuning)
    requires |w| == W.BYTES
    ensures Solves(w, desired, requestedPpm, ppm, t) ==>
      && W.Decode(w).r > 0 && W.Decode(w).od > 0 && W.Decode(w).v >= 0
      && Abs(Produced(w) - desired as real) <= (requestedPpm * desired) as real / 1000000.0
  {
    hide W.Decode, W.Controls, Best;
    if Solves(w, desired, requestedPpm, ppm, t) {
      BestError(desired, requestedPpm, ppm, t);
      hide Freq, Abs;
    }
  }

  lemma BestError(desired: nat, requestedPpm: nat, ppm: nat, t: Tuning)
    requires Best(desired, requestedPpm, ppm, t)
    ensures t.r > 0 && t.od > 0
    ensures Abs(Freq(t.r, t.od, t.v) - desired as real) <= (requestedPpm * desired) as real / 1000000.0
  {
    assert InRange(t);
    ResultValid(desired, ppm, t);
    assert ppm <= requestedPpm;
    hide *;
    Larger(ppm, requestedPpm, desired);
  }

  lemma Larger(a: nat, b: nat, c: nat)
    requires a <= b
    ensures a * c <= b * c
  {
  }

  /** From the request to the chip: after the driver's writes for a word that solves the request,
      the chip holds a word that makes it produce the wanted frequency to within the requested
      error. */
  lemma ProgrammedFrequency(w: seq<bv8>, pins: bv32, fcr: bv32, desired: nat, requestedPpm: nat, ppm: nat, t: Tuning)
    requires |w| == W.BYTES
    ensures Solves(w, desired, requestedPpm, ppm, t) ==>
      var chip := P.Replay(P.Idle(pins), P.Script(fcr, P.WordBits(P.WithCrystal(w), 20)));
      && |chip.latched| == 1 && |chip.latched[0]| == 160
      && var held := P.Unpack(chip.latched[0], 20);
      && |held| == W.BYTES && W.Decode(held) == SettingOf(t)
      && Abs(Freq(t.r, t.od, t.v) - desired as real) <= (requestedPpm * desired) as real / 1000000.0
  {
    P.ChipGetsWord(w, pins, fcr);
    hide W.Decode, W.Controls, Best, Freq, Abs, P.Replay, P.Script, P.WordBits, P.Unpack, P.Idle, P.WithCrystal;
    if Solves(w, desired, requestedPpm, ppm, t) {
      BestError(desired, requestedPpm, ppm, t);
    }
  }
}
