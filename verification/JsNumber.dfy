/** Angle arithmetic on JavaScript numbers, modelled on exact reals.

    JavaScript's `%` truncates the quotient toward zero, so the remainder keeps
    the sign of the dividend; Dafny has no such operator on `real`, so it is
    written out here, for the one modulus the source applies to real numbers
    (a full turn of 360 degrees), together with the Euclidean (floor)
    reduction it is compared against. */
module JsNumber {

  /** A full turn, in degrees. */
  const Turn: real := 360.0

  /** The quotient rounded toward zero, as JavaScript's `%` uses it. */
  function Trunc(q: real): (t: int)
    ensures q >= 0.0 ==> 0 <= t && t as real <= q < t as real + 1.0
    ensures q < 0.0 ==> t <= 0 && t as real - 1.0 < q <= t as real
  {
    if q >= 0.0 then q.Floor else -((-q).Floor)
  }

  /** `x % 360` in JavaScript: what is left after removing whole turns,
      with the sign of `x`. */
  function RemTurn(x: real): (r: real)
    ensures x >= 0.0 ==> 0.0 <= r < Turn
    ensures x < 0.0 ==> -Turn < r <= 0.0
    ensures ((x - r) / Turn).Floor as real == (x - r) / Turn
  {
    x - Turn * Trunc(x / Turn) as real
  }

  /** The Euclidean reduction of `x` into [0, 360): the angle the source's
      normalisations are meant to compute. */
  function FloorModTurn(x: real): (r: real)
    ensures 0.0 <= r < Turn
    ensures ((x - r) / Turn).Floor as real == (x - r) / Turn
  {
    x - Turn * (x / Turn).Floor as real
  }

  /** Adding whole turns does not change the reduced angle. */
  lemma FloorModTurnShift(x: real, k: int)
    ensures FloorModTurn(x + Turn * k as real) == FloorModTurn(x)
  {
    var y := x + Turn * k as real;
    assert y / Turn == x / Turn + k as real;
    assert (y / Turn).Floor == (x / Turn).Floor + k;
  }

  /** On [0, 360) the reduction is the identity. */
  lemma FloorModTurnInRange(x: real)
    requires 0.0 <= x < Turn
    ensures FloorModTurn(x) == x
  {
    assert (x / Turn).Floor == 0;
  }

  /** `((x % 360) + 360) % 360`, written in the source to bring a possibly
      negative longitude into [0, 360), is exactly the Euclidean reduction. */
  lemma DoubleRemIsFloorMod(x: real)
    ensures RemTurn(RemTurn(x) + Turn) == FloorModTurn(x)
  {
    var r := RemTurn(x);
    var t := Trunc(x / Turn);
    assert x == Turn * t as real + r;
    if r >= 0.0 {
      assert (x / Turn).Floor == t;
      assert Trunc((r + Turn) / Turn) == 1;
    } else {
      assert (x / Turn).Floor == t - 1;
      assert Trunc((r + Turn) / Turn) == 0;
    }
  }
}
