/** The output dividers the clock search tries (`lib/raw/calculate-clock-bits.c:197-198` and
    `410-416`), and the form the clock word needs them in (`774-949`). */
module OutputDivider {
  const FIRST: nat := 8232

  /** The divider tried after `od`. */
  function Next(od: nat): nat
    requires od > 1
  {
    if od <= 1030 then od - 1
    else if od <= 2060 then od - 2
    else if od <= 4120 then od - 4
    else od - 8
  }

  /** The values the loop `while (od > 1)` visits from `od` on. */
  function Visits(od: nat): seq<nat> {
    if od <= 1 then [] else [od] + Visits(Next(od))
  }

  function Scale(z: nat): nat
    requires z <= 3
  {
    if z == 0 then 1 else if z == 1 then 2 else if z == 2 then 4 else 8
  }

  /** `od` is a mantissa times a power of two, as the chip's divider counts. */
  predicate Scaled(od: nat, n: nat, z: nat) {
    6 <= n <= 1029 && z <= 3 && od == n * Scale(z)
  }

  /** The dividers the chip can be programmed to. */
  ghost predicate Programmable(od: nat) {
    2 <= od <= 5 || exists n, z :: Scaled(od, n, z)
  }

  /** The same set by ranges. */
  predicate OnGrid(od: nat) {
    && 2 <= od <= FIRST
    && (od > 1030 ==> od % 2 == 0)
    && (od > 2060 ==> od % 4 == 0)
    && (od > 4120 ==> od % 8 == 0)
  }

  lemma ScaledOnGrid(od: nat, n: nat, z: nat)
    requires Scaled(od, n, z)
    ensures OnGrid(od)
  {
  }

  lemma GridIsProgrammable(od: nat)
    ensures OnGrid(od) <==> Programmable(od)
  {
    if OnGrid(od) && od > 5 {
      var z := if od <= 1029 then 0 else if od <= 2058 then 1 else if od <= 4116 then 2 else 3;
      assert Scaled(od, od / Scale(z), z);
    }
    if Programmable(od) && !(2 <= od <= 5) {
      var n, z :| Scaled(od, n, z);
      ScaledOnGrid(od, n, z);
    }
  }

  /** One step goes to the next smaller divider of the grid, or leaves the loop. */
  lemma NextOnGrid(od: nat)
    requires OnGrid(od)
    ensures if od == 2 then Next(od) == 1 else OnGrid(Next(od))
    ensures forall x: nat :: Next(od) < x < od ==> !OnGrid(x)
  {
  }

  lemma {:induction false} VisitsGrid(od: nat)
    requires OnGrid(od)
    ensures forall x: nat :: x in Visits(od) <==> OnGrid(x) && x <= od
  {
    NextOnGrid(od);
    if od > 2 {
      VisitsGrid(Next(od));
    } else {
      assert Visits(2) == [2];
    }
  }

  /** The schedule: starting from 8232, the search visits exactly the programmable dividers. */
  lemma Schedule()
    ensures forall od: nat :: od in Visits(FIRST) <==> Programmable(od)
  {
    VisitsGrid(FIRST);
    forall od: nat ensures OnGrid(od) <==> Programmable(od) {
      GridIsProgrammable(od);
    }
  }

  /** The eight equations the encoder tries for one `i`. */
  predicate Matches(od: nat, i: nat, y: nat, z: nat) {
    y <= 1 && z <= 3 && od == ((i + 3) * 2 + y) * Scale(z)
  }

  /** Every divider on the schedule above 37 is found by the encoder's search over `i` below 512. */
  lemma EncoderFindsMatch(od: nat) returns (i: nat, y: nat, z: nat)
    requires OnGrid(od) && od > 37
    ensures i < 512 && Matches(od, i, y, z)
  {
    z := if od <= 1029 then 0 else if od <= 2058 then 1 else if od <= 4116 then 2 else 3;
    var n := od / Scale(z);
    i, y := n / 2 - 3, n % 2;
    assert od == n * Scale(z);
  }
}
