/** Easing curves of the reel and score animations (src/helper/Easing.js).

    Each factory of the original returns a closure; here the closure is the
    first-order value `Curve` and `Apply` evaluates it. Values are `real`, so
    no floating-point rounding is involved. */
module Easing {

  /** The curves the game builds: `linear()`, `backIn(k)`, `backOut(k)`. */
  datatype Curve = Linear | BackIn(amount: real) | BackOut(amount: real)

  function Square(x: real): real
  {
    x * x
  }

  /** `backIn(k)(t) = t * t * ((k + 1) * t - k)`. */
  function BackInAt(k: real, t: real): (r: real)
    ensures t == 0.0 ==> r == 0.0
    ensures t == 1.0 ==> r == 1.0
  {
    Square(t) * ((k + 1.0) * t - k)
  }

  /** `backOut(k)(t)` pre-decrements `t`, so both factors of the square and
      the linear factor read `t - 1`. */
  function BackOutAt(k: real, t: real): (r: real)
    ensures t == 0.0 ==> r == 0.0
    ensures t == 1.0 ==> r == 1.0
  {
    var u := t - 1.0;
    Square(u) * ((k + 1.0) * u + k) + 1.0
  }

  /** The value the closure built by the factory yields at `t`. */
  function Apply(c: Curve, t: real): (r: real)
    ensures c.Linear? ==> r == t
    ensures t == 0.0 ==> r == 0.0
    ensures t == 1.0 ==> r == 1.0
  {
    match c
    case Linear => t
    case BackIn(k) => BackInAt(k, t)
    case BackOut(k) => BackOutAt(k, t)
  }

  /** A copy of `x` that the arithmetic solver sees as a separate factor. */
  function Twin(x: real): (r: real)
    ensures r == x
  {
    x
  }

  lemma SquareSign(x: real)
    ensures Square(x) >= 0.0
    ensures x != 0.0 ==> Square(x) > 0.0
  {
    assert Square(x) == x * Twin(x);
  }

  lemma MulPositive(a: real, b: real)
    requires a > 0.0 && b > 0.0
    ensures a * b > 0.0
  {
  }

  /** backOut is backIn mirrored through the point (1/2, 1/2). */
  lemma BackOutMirrorsBackIn(k: real, t: real)
    ensures BackOutAt(k, t) == 1.0 - BackInAt(k, 1.0 - t)
  {
    var u := t - 1.0;
    var x := (k + 1.0) * u + k;
    var sq := Square(u);
    assert Square(1.0 - t) == sq;
    assert (k + 1.0) * (1.0 - t) - k == -x;
    NegFactor(sq, x);
  }

  lemma NegFactor(a: real, b: real)
    ensures a * -b == -(a * b)
  {
  }

  /** The settle bounce of a stopping reel: `backOut(1)` exceeds 1 on (1/2, 1). */
  lemma BackOutOvershoots(t: real)
    requires 0.5 < t < 1.0
    ensures BackOutAt(1.0, t) > 1.0
  {
    var c := (1.0 + 1.0) * (t - 1.0) + 1.0;
    SquareSign(t - 1.0);
    MulPositive(Square(t - 1.0), c);
    assert BackOutAt(1.0, t) == Square(t - 1.0) * c + 1.0;
  }

  /** The wind-up of a starting reel: `backIn(1)` is negative on (0, 1/2). */
  lemma BackInUndershoots(t: real)
    requires 0.0 < t < 0.5
    ensures BackInAt(1.0, t) < 0.0
  {
    var c := (1.0 + 1.0) * t - 1.0;
    SquareSign(t);
    MulPositive(Square(t), -c);
    assert BackInAt(1.0, t) == -(Square(t) * -c);
  }
}
