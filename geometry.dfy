/** Vector helpers and axis-aligned boxes shared by every version of the game.
    Coordinates are exact reals; the rounding of the game's single-precision
    float arithmetic is not modelled. */
module Geometry {

  datatype Vec = Vec(x: real, y: real)

  const Zero: Vec := Vec(0.0, 0.0)

  function Add(a: Vec, b: Vec): Vec { Vec(a.x + b.x, a.y + b.y) }

  function Sub(a: Vec, b: Vec): Vec { Vec(a.x - b.x, a.y - b.y) }

  function Scale(a: Vec, k: real): Vec { Vec(a.x * k, a.y * k) }

  function Abs(x: real): (r: real)
    ensures r >= 0.0 && (r == x || r == -x)
  {
    if x < 0.0 then -x else x
  }

  /** getDotProduct. */
  function Dot(a: Vec, b: Vec): real { a.x * b.x + a.y * b.y }

  /** The square of getLength; the length itself needs a square root. */
  function SqLength(v: Vec): (r: real)
    ensures r >= 0.0
  {
    SquareSign(v.x);
    SquareSign(v.y);
    Dot(v, v)
  }

  lemma SquareSign(a: real)
    ensures a * a >= 0.0
  {
    if a < 0.0 {
      assert a * a == (-a) * (-a);
    }
  }

  predicate IsUnit(n: Vec) { SqLength(n) == 1.0 }

  /** getReflected: the mirror image of `v` about a surface with normal `n`. */
  function Reflected(v: Vec, n: Vec): Vec
  {
    Sub(v, Scale(n, 2.0 * Dot(v, n)))
  }

  lemma DotSymmetric(a: Vec, b: Vec)
    ensures Dot(a, b) == Dot(b, a)
  {
  }

  /** |v - k n|^2 expanded. */
  lemma SqLengthOfDifference(v: Vec, n: Vec, k: real)
    ensures SqLength(Sub(v, Scale(n, k))) == SqLength(v) - 2.0 * k * Dot(v, n) + k * k * SqLength(n)
  {
    assert (v.x - n.x * k) * (v.x - n.x * k) == v.x * v.x - 2.0 * k * (v.x * n.x) + k * k * (n.x * n.x);
    assert (v.y - n.y * k) * (v.y - n.y * k) == v.y * v.y - 2.0 * k * (v.y * n.y) + k * k * (n.y * n.y);
  }

  /** Reflection about a unit normal keeps the speed. */
  lemma ReflectedKeepsLength(v: Vec, n: Vec)
    requires IsUnit(n)
    ensures SqLength(Reflected(v, n)) == SqLength(v)
  {
    var d := Dot(v, n);
    SqLengthOfDifference(v, n, 2.0 * d);
    assert (2.0 * d) * (2.0 * d) * SqLength(n) == 2.0 * (2.0 * d) * d;
  }

  /** Reflecting twice about the same unit normal gives the vector back. */
  lemma ReflectedTwice(v: Vec, n: Vec)
    requires IsUnit(n)
    ensures Reflected(Reflected(v, n), n) == v
  {
    var d := Dot(v, n);
    var r := Reflected(v, n);
    assert Dot(r, n) == d - 2.0 * d * (n.x * n.x + n.y * n.y);
    assert Dot(r, n) == -d;
  }

  /** The reflection of `v` about the direction of a non-zero vector `c`
      (non-zero meaning SqLength(c) > 0),
      written without the square root that normalising `c` would need. */
  function ReflectedAbout(v: Vec, c: Vec): Vec
    requires SqLength(c) > 0.0
  {
    Sub(v, Scale(c, 2.0 * Dot(v, c) / SqLength(c)))
  }

  /** Whatever getNormalized returns for `c` (a unit vector that is a positive
      multiple of `c`), reflecting about it gives ReflectedAbout(v, c). */
  lemma ReflectedAboutNormalized(v: Vec, c: Vec, s: real)
    requires SqLength(c) > 0.0 && s > 0.0
    requires IsUnit(Scale(c, s))
    ensures Reflected(v, Scale(c, s)) == ReflectedAbout(v, c)
  {
    var u := Scale(c, s);
    var q := SqLength(c);
    assert s * s * q == 1.0 by {
      assert SqLength(u) == s * s * (c.x * c.x + c.y * c.y);
    }
    assert s * s == 1.0 / q;
    assert Dot(v, u) == s * Dot(v, c);
    assert 2.0 * Dot(v, u) * s == 2.0 * Dot(v, c) * (s * s);
  }

  /** ReflectedAbout keeps the speed for every non-zero direction. */
  lemma ReflectedAboutKeepsLength(v: Vec, c: Vec)
    requires SqLength(c) > 0.0
    ensures SqLength(ReflectedAbout(v, c)) == SqLength(v)
  {
    var q := SqLength(c);
    var d := Dot(v, c);
    var t := 2.0 * d / q;
    SqLengthOfDifference(v, c, t);
    DivTimes(2.0 * d, q);
    SquareTimes(t, q, 2.0 * d);
  }

  lemma DivTimes(a: real, q: real)
    requires q != 0.0
    ensures (a / q) * q == a
  {
  }

  lemma SquareTimes(t: real, q: real, e: real)
    requires t * q == e
    ensures t * t * q == t * e
  {
    assert t * t * q == t * (t * q);
  }

  /** getNormalized, exactly, for a non-zero vector on an axis: there the
      length is |x| + |y| and no square root is needed. */
  function NormalizedAxis(v: Vec): (u: Vec)
    requires v != Zero && (v.x == 0.0 || v.y == 0.0)
    ensures IsUnit(u)
    ensures Abs(v.x) + Abs(v.y) > 0.0 && u == Scale(v, 1.0 / (Abs(v.x) + Abs(v.y)))
  {
    var len := Abs(v.x) + Abs(v.y);
    Vec(v.x / len, v.y / len)
  }

  /** Bounds of an entity as its left(), right(), top() and bottom()
      accessors report them; y grows downwards. */
  datatype Box = Box(left: real, right: real, top: real, bottom: real)

  predicate WellFormed(b: Box) { b.left <= b.right && b.top <= b.bottom }

  /** isIntersecting: closed intervals on both axes. */
  predicate IsIntersecting(a: Box, b: Box)
  {
    a.right >= b.left && a.left <= b.right && a.bottom >= b.top && a.top <= b.bottom
  }

  lemma IntersectingSymmetric(a: Box, b: Box)
    ensures IsIntersecting(a, b) == IsIntersecting(b, a)
  {
  }

  lemma IntersectingReflexive(a: Box)
    requires WellFormed(a)
    ensures IsIntersecting(a, a)
  {
  }

  /** Boxes that only share a vertical edge count as intersecting. */
  lemma TouchingEdgesIntersect(a: Box, b: Box)
    requires WellFormed(a) && WellFormed(b)
    requires a.right == b.left && a.top <= b.bottom && b.top <= a.bottom
    ensures IsIntersecting(a, b)
  {
  }
}
