/**
 Canvas space of the simulation: points and directions as pairs of reals
 (nannou's `Vec2` with its `f32` components abstracted to exact reals), the
 fixed canvas size, translation, and the linear rescaling `map`.
 */
module Canvas {

  /** Canvas width and height in pixels (the `WIDTH` and `HEIGHT` constants). */
  const WIDTH: nat := 889
  const HEIGHT: nat := 500

  /** A point or a direction; origin at the centre of the canvas, +y up. */
  datatype Vec2 = Vec2(x: real, y: real)

  /** The point reached from `p` by moving along `v` scaled by `speed`. */
  function Translate(p: Vec2, v: Vec2, speed: real): Vec2
  {
    Vec2(p.x + v.x * speed, p.y + v.y * speed)
  }

  /**
   Linear rescaling of `i` from the range [inMin, inMax] onto [outMin, outMax]
   (the free function `map`). Dividing by `inMax - inMin` needs it to be
   non-zero on the reals; every caller in the simulation passes a range of
   width WIDTH or HEIGHT.
   */
  function Map(i: real, inMin: real, inMax: real, outMin: real, outMax: real): (o: real)
    requires inMax != inMin
    ensures i == inMin ==> o == outMin
    ensures i == inMax ==> o == outMax
  {
    var d := inMax - inMin;
    assert d / d == 1.0;
    assert i == inMax ==> i - inMin == d;
    (i - inMin) / (inMax - inMin) * (outMax - outMin) + outMin
  }

  /** `Map` is affine in `i`: equal steps in the input give equal steps in the output. */
  lemma MapAffine(i: real, j: real, inMin: real, inMax: real, outMin: real, outMax: real)
    requires inMax != inMin
    ensures Map(i, inMin, inMax, outMin, outMax) - Map(j, inMin, inMax, outMin, outMax)
         == (i - j) * ((outMax - outMin) / (inMax - inMin))
  {
    var d := inMax - inMin;
    var s := outMax - outMin;
    calc {
      Map(i, inMin, inMax, outMin, outMax) - Map(j, inMin, inMax, outMin, outMax);
      (i - inMin) / d * s - (j - inMin) / d * s;
      ((i - inMin) / d - (j - inMin) / d) * s;
      { assert (i - inMin) / d - (j - inMin) / d == (i - j) / d; }
      (i - j) / d * s;
      (i - j) * (s / d);
    }
  }

  /** Rescaling onto a range and back again is the identity. */
  lemma MapInverse(i: real, inMin: real, inMax: real, outMin: real, outMax: real)
    requires inMax != inMin && outMax != outMin
    ensures Map(Map(i, inMin, inMax, outMin, outMax), outMin, outMax, inMin, inMax) == i
  {
    var k := (i - inMin) / (inMax - inMin);
    var o := Map(i, inMin, inMax, outMin, outMax);
    assert o - outMin == k * (outMax - outMin);
    assert (o - outMin) / (outMax - outMin) == k;
    assert k * (inMax - inMin) == i - inMin;
  }

  /** An input inside an increasing range lands inside the increasing output range. */
  lemma MapWithin(i: real, inMin: real, inMax: real, outMin: real, outMax: real)
    requires inMin < inMax && outMin < outMax
    requires inMin <= i <= inMax
    ensures outMin <= Map(i, inMin, inMax, outMin, outMax) <= outMax
  {
    var d := inMax - inMin;
    var k := (i - inMin) / d;
    var s := outMax - outMin;
    assert k * d == i - inMin;
    assert 0.0 <= k;
    assert k <= 1.0;
    assert 0.0 <= k * s by { assert s > 0.0; }
    assert k * s <= 1.0 * s by { assert (1.0 - k) * s >= 0.0; }
  }
}
