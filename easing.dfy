/** Easing curves: maps from normalised progress to eased progress.

    The source computes in single-precision floats; here every curve is over
    exact reals, so boundary values and the agreement of adjacent pieces hold
    exactly. The constants are the source's: 2.75 for the bounce period,
    7.5625 (= 2.75 * 2.75) for its parabola, and the segment offsets 0.75,
    0.9375 and 0.984375. */
module Easing {

  /** The easing selector. The source's enum has four named members; a C#
      enum variable can also hold any other integer (a cast), which the
      selector treats like `Linear`: `Unnamed` stands for those values, so
      only codes outside 0 to 3 are meant by it (0 to 3 are the named
      members). */
  datatype Easing = Linear | Quad | QuadOut | Bounce | Unnamed(code: int)

  /** Ease-in-out quadratic: accelerate over the first half of progress,
      decelerate over the second. */
  function QuadEase(step: real): (r: real)
    ensures 0.0 <= step <= 1.0 ==> 0.0 <= r <= 1.0
    ensures step < 0.5 ==> r == QuadIn(step)
    ensures step >= 0.5 ==> r == QuadOutHalf(step)
  {
    if step < 0.5 then QuadIn(step) else QuadOutHalf(step)
  }

  /** The first half of `QuadEase`: 2 * step^2. */
  function QuadIn(step: real): (r: real)
    ensures 0.0 <= step <= 0.5 ==> 0.0 <= r <= 0.5
  {
    SquareBound(step, 0.5);
    step * step * 2.0
  }

  /** The second half of `QuadEase`: -0.5 * ((2 * step - 2)^2 - 2). */
  function QuadOutHalf(step: real): (r: real)
    ensures 0.5 <= step <= 1.0 ==> 0.5 <= r <= 1.0
  {
    var s := step * 2.0;
    SquareBound(s - 2.0, 1.0);
    -0.5 * ((s - 2.0) * (s - 2.0) + -2.0)
  }

  /** Ease-out quadratic: -((step - 1)^2 - 1). */
  function QuadOutEase(step: real): (r: real)
    ensures 0.0 <= step <= 1.0 ==> 0.0 <= r <= 1.0
    ensures r <= 1.0
  {
    SquareBound(step - 1.0, 1.0);
    -1.0 * ((step - 1.0) * (step - 1.0) + -1.0)
  }

  /** The three joins between the four pieces of the bounce curve: 1/2.75,
      2/2.75 and 2.5/2.75. */
  const BounceJoin1: real := 1.0 / 2.75
  const BounceJoin2: real := 2.0 / 2.75
  const BounceJoin3: real := 2.5 / 2.75

  /** Piece `k` of the bounce curve: the parabola 7.5625 * (step - c)^2 + h
      with the centre `c` and the height `h` of that piece. */
  function BouncePiece(k: nat, step: real): (r: real)
    requires k < 4
    ensures r >= BounceFloor(k)
  {
    var c := BounceCentre(k);
    7.5625 * (step - c) * (step - c) + BounceFloor(k)
  }

  function BounceCentre(k: nat): real
    requires k < 4
  {
    if k == 0 then 0.0
    else if k == 1 then 1.5 / 2.75
    else if k == 2 then 2.25 / 2.75
    else 2.625 / 2.75
  }

  function BounceFloor(k: nat): real
    requires k < 4
  {
    if k == 0 then 0.0
    else if k == 1 then 0.75
    else if k == 2 then 0.9375
    else 0.984375
  }

  /** Which piece of the bounce curve covers `step`. */
  function BounceSegment(step: real): (k: nat)
    ensures k < 4
    ensures k == 0 <==> step < BounceJoin1
    ensures k == 1 <==> BounceJoin1 <= step < BounceJoin2
    ensures k == 2 <==> BounceJoin2 <= step < BounceJoin3
    ensures k == 3 <==> step >= BounceJoin3
  {
    if step < BounceJoin1 then 0
    else if step < BounceJoin2 then 1
    else if step < BounceJoin3 then 2
    else 3
  }

  /** The bounce curve: four parabolic pieces. It starts at 0, reaches 1 at
      each of the three joins and at the end, and falls back between joins,
      each time less. */
  function BounceEase(step: real): (r: real)
    ensures r == BouncePiece(BounceSegment(step), step)
    ensures 0.0 <= step <= 1.0 ==> 0.0 <= r <= 1.0
  {
    var k := BounceSegment(step);
    BouncePieceRange(k, step);
    BouncePiece(k, step)
  }

  /** On its own interval inside [0, 1] each bounce piece stays within [0, 1]. */
  lemma BouncePieceRange(k: nat, step: real)
    requires k < 4
    requires k == BounceSegment(step)
    ensures 0.0 <= step <= 1.0 ==> BouncePiece(k, step) <= 1.0
  {
    if 0.0 <= step <= 1.0 {
      var d := step - BounceCentre(k);
      var half := if k == 0 then 1.0 / 2.75 else if k == 1 then 0.5 / 2.75
                  else if k == 2 then 0.25 / 2.75 else 0.125 / 2.75;
      assert -half <= d <= half;
      SquareBound(d, half);
      assert BouncePiece(k, step) == 7.5625 * (d * d) + BounceFloor(k);
      assert 7.5625 * (half * half) + BounceFloor(k) == 1.0;
    }
  }

  /** A square is never negative, and |d| <= h gives d^2 <= h^2. */
  lemma SquareBound(d: real, h: real)
    ensures d * d >= 0.0
    ensures 0.0 <= h && -h <= d <= h ==> d * d <= h * h
  {
    if d < 0.0 {
      SquareMonotone(-d, -d);
    }
    if 0.0 <= h && -h <= d <= h {
      if d >= 0.0 {
        SquareMonotone(d, h);
      } else {
        SquareMonotone(-d, h);
      }
    }
  }

  /** Squaring is monotone on the non-negative reals. */
  lemma SquareMonotone(x: real, y: real)
    requires 0.0 <= x <= y
    ensures 0.0 <= x * x <= y * y
  {
    assert x * x <= x * y;
    assert x * y <= y * y;
  }

  /** The selector: `Linear` and any unnamed value return the input. */
  function EaseStep(step: real, easing: Easing): (r: real)
    ensures easing.Linear? || easing.Unnamed? ==> r == step
    ensures 0.0 <= step <= 1.0 ==> 0.0 <= r <= 1.0
  {
    match easing
    case Linear => step
    case Quad => QuadEase(step)
    case QuadOut => QuadOutEase(step)
    case Bounce => BounceEase(step)
    case Unnamed(_) => step
  }

  /** Every curve starts at 0 and ends at 1. */
  lemma EndPoints(easing: Easing)
    ensures EaseStep(0.0, easing) == 0.0
    ensures EaseStep(1.0, easing) == 1.0
  {
    match easing
    case Bounce =>
      assert BounceSegment(0.0) == 0;
      assert BounceSegment(1.0) == 3;
    case _ =>
  }

  /** The two halves of `QuadEase` agree where they meet, at 0.5. */
  lemma QuadContinuous()
    ensures QuadIn(0.5) == 0.5
    ensures QuadOutHalf(0.5) == 0.5
    ensures QuadEase(0.5) == 0.5
  {
  }

  /** Adjacent bounce pieces agree at each join, where the curve reaches 1. */
  lemma BounceContinuous()
    ensures BouncePiece(0, BounceJoin1) == BouncePiece(1, BounceJoin1) == 1.0
    ensures BouncePiece(1, BounceJoin2) == BouncePiece(2, BounceJoin2) == 1.0
    ensures BouncePiece(2, BounceJoin3) == BouncePiece(3, BounceJoin3) == 1.0
    ensures BounceEase(BounceJoin1) == BounceEase(BounceJoin2) == BounceEase(BounceJoin3) == 1.0
  {
    assert BounceSegment(BounceJoin1) == 1;
    assert BounceSegment(BounceJoin2) == 2;
    assert BounceSegment(BounceJoin3) == 3;
  }

  /** `QuadEase` never decreases on [0, 1]. */
  lemma QuadMonotone(a: real, b: real)
    requires 0.0 <= a <= b <= 1.0
    ensures QuadEase(a) <= QuadEase(b)
  {
    if b < 0.5 {
      SquareMonotone(a, b);
    } else if a >= 0.5 {
      var da, db := 2.0 - 2.0 * a, 2.0 - 2.0 * b;
      SquareMonotone(db, da);
      assert (2.0 * a - 2.0) * (2.0 * a - 2.0) == da * da;
      assert (2.0 * b - 2.0) * (2.0 * b - 2.0) == db * db;
    } else {
      assert QuadEase(a) <= 0.5 <= QuadEase(b);
    }
  }

  /** `QuadOutEase` never decreases on [0, 1]. */
  lemma QuadOutMonotone(a: real, b: real)
    requires 0.0 <= a <= b <= 1.0
    ensures QuadOutEase(a) <= QuadOutEase(b)
  {
    var da, db := 1.0 - a, 1.0 - b;
    SquareMonotone(db, da);
    assert (a - 1.0) * (a - 1.0) == da * da;
    assert (b - 1.0) * (b - 1.0) == db * db;
  }
}
