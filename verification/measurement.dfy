/**
 * The measurement overlay of the 3D view (getClosestPointOnAxis and
 * updateCircle in src/components/ThreeVisualization.tsx): the foot of the
 * perpendicular from a clicked point to the line through the two extreme
 * anchors, and the 64-vertex circle around that axis through the point.
 *
 * Vector lengths go through `Math.sqrt` and the circle through `Math.cos` and
 * `Math.sin`; these are the parameters `norm`, `cos` and `sin`.
 */
module Measurement {
  import opened Wrappers

  /** A THREE.Vector3 value. */
  datatype Vec3 = Vec3(x: real, y: real, z: real)

  const Zero: Vec3 := Vec3(0.0, 0.0, 0.0)

  function Add(a: Vec3, b: Vec3): Vec3 { Vec3(a.x + b.x, a.y + b.y, a.z + b.z) }
  function Sub(a: Vec3, b: Vec3): Vec3 { Vec3(a.x - b.x, a.y - b.y, a.z - b.z) }
  function Scale(a: Vec3, k: real): Vec3 { Vec3(a.x * k, a.y * k, a.z * k) }
  function Dot(a: Vec3, b: Vec3): real { a.x * b.x + a.y * b.y + a.z * b.z }
  function Cross(a: Vec3, b: Vec3): Vec3 {
    Vec3(a.y * b.z - a.z * b.y, a.z * b.x - a.x * b.z, a.x * b.y - a.y * b.x)
  }

  /** `norm` is a vector length: never negative, and its square is the vector's dot product with itself. */
  ghost predicate IsNorm(norm: Vec3 -> real) {
    forall v :: norm(v) >= 0.0 && norm(v) * norm(v) == Dot(v, v)
  }

  /** `length() || 1`: the divisor `normalize()` uses. */
  function Divisor(v: Vec3, norm: Vec3 -> real): real {
    if norm(v) == 0.0 then 1.0 else norm(v)
  }

  /** `normalize()`: the vector divided by its length, or by 1 when the length is 0. */
  function Normalize(v: Vec3, norm: Vec3 -> real): Vec3 {
    Scale(v, 1.0 / Divisor(v, norm))
  }

  // ------------------------------------------------------- vector algebra

  lemma SquareNonNegative(a: real)
    ensures a * a >= 0.0
  {
    if a < 0.0 {
      assert a * a == (-a) * (-a);
    }
  }

  lemma SquarePositive(a: real)
    requires a != 0.0
    ensures a * a > 0.0
  {
    if a < 0.0 {
      assert a * a == (-a) * (-a);
    }
  }

  lemma SumOfSquaresPositive(a: real, b: real, c: real)
    requires a != 0.0 || b != 0.0 || c != 0.0
    ensures a * a + b * b + c * c > 0.0
  {
    SquareNonNegative(a);
    SquareNonNegative(b);
    SquareNonNegative(c);
    if a != 0.0 {
      SquarePositive(a);
    } else if b != 0.0 {
      SquarePositive(b);
    } else {
      SquarePositive(c);
    }
  }

  /** A squared length is never negative, and 0 only for the zero vector. */
  lemma DotSelfZero(v: Vec3)
    ensures Dot(v, v) >= 0.0
    ensures Dot(v, v) == 0.0 <==> v == Zero
  {
    if v != Zero {
      calc {
        Dot(v, v);
        v.x * v.x + v.y * v.y + v.z * v.z;
      > { SumOfSquaresPositive(v.x, v.y, v.z); }
        0.0;
      }
    }
  }

  lemma DotScaleLeft(a: Vec3, k: real, b: Vec3)
    ensures Dot(Scale(a, k), b) == k * Dot(a, b)
  {
  }

  lemma DotSubLeft(a: Vec3, b: Vec3, c: Vec3)
    ensures Dot(Sub(a, b), c) == Dot(a, c) - Dot(b, c)
  {
  }

  lemma DotAddLeft(a: Vec3, b: Vec3, c: Vec3)
    ensures Dot(Add(a, b), c) == Dot(a, c) + Dot(b, c)
  {
  }

  /** A cross product is orthogonal to both factors, and its squared length is Lagrange's identity. */
  lemma CrossProperties(a: Vec3, b: Vec3)
    ensures Dot(Cross(a, b), a) == 0.0 && Dot(Cross(a, b), b) == 0.0
    ensures Dot(Cross(a, b), Cross(a, b)) == Dot(a, a) * Dot(b, b) - Dot(a, b) * Dot(a, b)
  {
  }

  /** A non-negative square root of s is 0 exactly when s is. */
  lemma SquareRootZero(n: real, s: real)
    requires n >= 0.0 && n * n == s
    ensures n == 0.0 <==> s == 0.0
  {
    if n != 0.0 {
      calc {
        s;
        n * n;
      > { SquarePositive(n); }
        0.0;
      }
    }
  }

  /** The only non-negative number that squares to 1 is 1. */
  lemma SquareOne(n: real)
    requires n >= 0.0 && n * n == 1.0
    ensures n == 1.0
  {
    if n > 1.0 {
      assert false;
    } else if n < 1.0 {
      SquareBelowOne(n);
    }
  }

  lemma SquareBelowOne(n: real)
    requires 0.0 <= n < 1.0
    ensures n * n < 1.0
  {
    assert n * n <= 1.0 * n;
  }

  lemma NormSquare(norm: Vec3 -> real, v: Vec3)
    requires IsNorm(norm)
    ensures norm(v) >= 0.0 && norm(v) * norm(v) == Dot(v, v)
  {
  }

  /** A length is 0 exactly for the zero vector, and 1 for a vector of squared length 1. */
  lemma NormFacts(norm: Vec3 -> real, v: Vec3)
    requires IsNorm(norm)
    ensures norm(v) == 0.0 <==> v == Zero
    ensures Dot(v, v) == 1.0 ==> norm(v) == 1.0
  {
    NormSquare(norm, v);
    SquareRootZero(norm(v), Dot(v, v));
    if Dot(v, v) == 1.0 {
      SquareOne(norm(v));
    }
    DotSelfZero(v);
  }

  /** A non-zero vector normalised has length 1; the zero vector stays zero. */
  lemma NormalizeUnit(v: Vec3, norm: Vec3 -> real)
    requires IsNorm(norm)
    ensures v == Zero ==> Normalize(v, norm) == Zero
    ensures v != Zero ==> Dot(Normalize(v, norm), Normalize(v, norm)) == 1.0
    ensures v != Zero ==> Normalize(v, norm) == Scale(v, 1.0 / norm(v)) && norm(v) > 0.0
  {
    NormFacts(norm, v);
    if v != Zero {
      var n := norm(v);
      var u := Scale(v, 1.0 / n);
      DotScaleLeft(v, 1.0 / n, u);
      DotScaleLeft(v, 1.0 / n, v);
      assert Dot(v, u) == Dot(u, v);
      assert Dot(u, u) == (1.0 / n) * ((1.0 / n) * Dot(v, v));
      assert (1.0 / n) * ((1.0 / n) * (n * n)) == 1.0;
    }
  }

  /** A unit vector is left as it is by normalize(). */
  lemma NormalizeOfUnit(v: Vec3, norm: Vec3 -> real)
    requires IsNorm(norm) && Dot(v, v) == 1.0
    ensures Normalize(v, norm) == v
  {
    NormFacts(norm, v);
    assert Scale(v, 1.0 / 1.0) == v;
  }

  /** Normalising two orthogonal vectors keeps them orthogonal. */
  lemma NormalizeOrthogonal(d: Vec3, w: Vec3, norm: Vec3 -> real)
    requires Dot(w, d) == 0.0
    ensures Dot(Normalize(d, norm), Normalize(w, norm)) == 0.0
  {
    var k, m := 1.0 / Divisor(d, norm), 1.0 / Divisor(w, norm);
    DotScaleLeft(d, k, Scale(w, m));
    DotScaleLeft(w, m, d);
    assert Dot(d, Scale(w, m)) == Dot(Scale(w, m), d);
  }

  // -------------------------------------------------------- foot on axis

  /** The extreme line: the positions of the anchors -1 and -2. */
  datatype Axis = Axis(start: Vec3, end: Vec3)

  /**
   * getClosestPointOnAxis: without the extreme line, the point itself;
   * otherwise the start plus the unit direction times the point's projection
   * on it.
   */
  function ClosestPointOnAxis(p: Vec3, axis: Option<Axis>, norm: Vec3 -> real): Vec3 {
    match axis
    case None => p
    case Some(a) =>
      var dir := Normalize(Sub(a.end, a.start), norm);
      Add(a.start, Scale(dir, Dot(Sub(p, a.start), dir)))
  }

  /**
   * For two distinct extremes the foot is exactly
   * `start + ((p−start)·d / d·d)·d` with d = end − start, so it lies on the
   * line, and p − foot is orthogonal to the axis direction.
   */
  lemma FootIsPerpendicular(p: Vec3, a: Axis, norm: Vec3 -> real)
    requires IsNorm(norm) && a.start != a.end
    ensures var d := Sub(a.end, a.start);
      && Dot(d, d) > 0.0
      && ClosestPointOnAxis(p, Some(a), norm) == Add(a.start, Scale(d, Dot(Sub(p, a.start), d) / Dot(d, d)))
      && Dot(Sub(p, ClosestPointOnAxis(p, Some(a), norm)), d) == 0.0
  {
    var d, q := Sub(a.end, a.start), Sub(p, a.start);
    FootFormula(p, a, norm);
    var t := Dot(q, d) / Dot(d, d);
    assert Sub(p, Add(a.start, Scale(d, t))) == Sub(q, Scale(d, t));
    ResidualOrthogonal(q, d, t);
  }

  /** The foot written with the unnormalised direction d: the unit direction scaled by q·d̂ is d scaled by q·d / d·d. */
  lemma FootFormula(p: Vec3, a: Axis, norm: Vec3 -> real)
    requires IsNorm(norm) && a.start != a.end
    ensures var d := Sub(a.end, a.start);
      && Dot(d, d) > 0.0
      && ClosestPointOnAxis(p, Some(a), norm) == Add(a.start, Scale(d, Dot(Sub(p, a.start), d) / Dot(d, d)))
  {
    var d := Sub(a.end, a.start);
    assert d != Zero;
    DotSelfZero(d);
    NormalizeUnit(d, norm);
    NormSquare(norm, d);
    ProjectOnUnit(Sub(p, a.start), d, norm(d));
  }

  /** Projecting q on d scaled by 1/|d| is projecting it on d with coefficient q·d / d·d. */
  lemma ProjectOnUnit(q: Vec3, d: Vec3, n: real)
    requires n > 0.0 && Dot(d, d) > 0.0 && n * n == Dot(d, d)
    ensures Scale(Scale(d, 1.0 / n), Dot(q, Scale(d, 1.0 / n))) == Scale(d, Dot(q, d) / Dot(d, d))
  {
    DotScaleRight(q, d, 1.0 / n);
    ScaleScale(d, 1.0 / n, (1.0 / n) * Dot(q, d));
    ReciprocalSquare(n, Dot(q, d), Dot(d, d));
  }

  /** q minus its projection on d is orthogonal to d. */
  lemma ResidualOrthogonal(q: Vec3, d: Vec3, t: real)
    requires Dot(d, d) != 0.0 && t == Dot(q, d) / Dot(d, d)
    ensures Dot(Sub(q, Scale(d, t)), d) == 0.0
  {
    DotSubLeft(q, Scale(d, t), d);
    DotScaleLeft(d, t, d);
  }

  lemma ScaleScale(v: Vec3, k: real, m: real)
    ensures Scale(Scale(v, k), m) == Scale(v, k * m)
  {
  }

  lemma DotScaleRight(a: Vec3, b: Vec3, k: real)
    ensures Dot(a, Scale(b, k)) == k * Dot(a, b)
  {
  }

  lemma ReciprocalSquare(n: real, b: real, s: real)
    requires n != 0.0 && s != 0.0 && s == n * n
    ensures (1.0 / n) * ((1.0 / n) * b) == b / s
  {
  }

  // ------------------------------------------------------------- circle

  /** The orthonormal frame updateCircle builds around the clicked point. */
  datatype Frame = Frame(center: Vec3, radius: real, axisDir: Vec3, tangent: Vec3, binormal: Vec3)

  /**
   * The centre is the foot on the axis, the radius the distance from it to the
   * point, the tangent points from the centre to the point, and the binormal
   * is the normalised cross product of the axis direction and the tangent.
   */
  function CircleFrame(p: Vec3, a: Axis, norm: Vec3 -> real): Frame {
    var center := ClosestPointOnAxis(p, Some(a), norm);
    var axisDir := Normalize(Sub(a.end, a.start), norm);
    var tangent := Normalize(Sub(p, center), norm);
    Frame(center, norm(Sub(p, center)), axisDir, tangent, Normalize(Cross(axisDir, tangent), norm))
  }

  /** Three unit vectors, pairwise orthogonal. */
  predicate OrthonormalDirs(a: Vec3, t: Vec3, b: Vec3) {
    && Dot(a, a) == 1.0 && Dot(t, t) == 1.0 && Dot(b, b) == 1.0
    && Dot(a, t) == 0.0 && Dot(a, b) == 0.0 && Dot(t, b) == 0.0
  }

  predicate Orthonormal(f: Frame) {
    OrthonormalDirs(f.axisDir, f.tangent, f.binormal)
  }

  /** The radius is the distance from the foot to the point: 0 exactly when the point is on the axis. */
  lemma FrameRadius(p: Vec3, a: Axis, norm: Vec3 -> real)
    requires IsNorm(norm)
    ensures var f := CircleFrame(p, a, norm);
      && f.radius >= 0.0
      && f.radius * f.radius == Dot(Sub(p, f.center), Sub(p, f.center))
      && (f.radius == 0.0 <==> p == f.center)
  {
    var f := CircleFrame(p, a, norm);
    NormSquare(norm, Sub(p, f.center));
    NormFacts(norm, Sub(p, f.center));
    assert Sub(p, f.center) == Zero <==> p == f.center;
  }

  /** The cross product of two orthogonal unit vectors is a unit vector orthogonal to both, left as it is by normalize(). */
  lemma UnitCross(a: Vec3, t: Vec3, norm: Vec3 -> real)
    requires IsNorm(norm) && Dot(a, a) == 1.0 && Dot(t, t) == 1.0 && Dot(a, t) == 0.0
    ensures Normalize(Cross(a, t), norm) == Cross(a, t)
    ensures OrthonormalDirs(a, t, Cross(a, t))
  {
    var c := Cross(a, t);
    CrossProperties(a, t);
    calc {
      Dot(c, c);
      Dot(a, a) * Dot(t, t) - Dot(a, t) * Dot(a, t);
      1.0 * 1.0 - 0.0 * 0.0;
      1.0;
    }
    NormalizeOfUnit(c, norm);
    assert Dot(t, c) == Dot(c, t) && Dot(a, c) == Dot(c, a);
  }

  /**
   * Around a non-zero direction d and a non-zero w orthogonal to it, the
   * normalised d, the normalised w and their normalised cross product are
   * orthonormal.
   */
  lemma FrameFromOrthogonal(d: Vec3, w: Vec3, norm: Vec3 -> real)
    requires IsNorm(norm) && d != Zero && w != Zero && Dot(w, d) == 0.0
    ensures OrthonormalDirs(Normalize(d, norm), Normalize(w, norm), Normalize(Cross(Normalize(d, norm), Normalize(w, norm)), norm))
  {
    NormalizeUnit(d, norm);
    NormalizeUnit(w, norm);
    NormalizeOrthogonal(d, w, norm);
    UnitCross(Normalize(d, norm), Normalize(w, norm), norm);
  }

  /** For a point off the axis (of two distinct extremes) the frame updateCircle builds is orthonormal. */
  lemma CircleFrameOrthonormal(p: Vec3, a: Axis, norm: Vec3 -> real)
    requires IsNorm(norm) && a.start != a.end
    requires p != ClosestPointOnAxis(p, Some(a), norm)
    ensures Orthonormal(CircleFrame(p, a, norm))
  {
    var center := ClosestPointOnAxis(p, Some(a), norm);
    FootIsPerpendicular(p, a, norm);
    assert Sub(a.end, a.start) != Zero;
    assert Sub(p, center) != Zero;
    FrameFromOrthogonal(Sub(a.end, a.start), Sub(p, center), norm);
  }

  lemma ScaleCancel(w: Vec3, r: real)
    requires r != 0.0
    ensures Scale(Scale(w, 1.0 / r), r) == w
  {
    assert (w.x * (1.0 / r)) * r == w.x;
    assert (w.y * (1.0 / r)) * r == w.y;
    assert (w.z * (1.0 / r)) * r == w.z;
  }

  /** The point is the centre plus the tangent times the radius. */
  lemma FrameThroughPoint(p: Vec3, a: Axis, norm: Vec3 -> real)
    requires IsNorm(norm)
    ensures var f := CircleFrame(p, a, norm);
      p == Add(f.center, Scale(f.tangent, f.radius))
  {
    var f := CircleFrame(p, a, norm);
    var w := Sub(p, f.center);
    NormFacts(norm, w);
    if w == Zero {
      assert f.tangent == Zero;
    } else {
      assert f.tangent == Scale(w, 1.0 / f.radius);
      ScaleCancel(w, f.radius);
    }
  }

  const Segments: nat := 64
  const Pi: real := 3.141592653589793

  /** `theta = (i / segments) * Math.PI * 2`. */
  function Theta(i: nat): real {
    (i as real / Segments as real) * Pi * 2.0
  }

  /** Vertex i: the centre, plus the tangent times cos θ·r, plus the binormal times sin θ·r. */
  function Vertex(f: Frame, i: nat, cos: real -> real, sin: real -> real): Vec3 {
    Add(Add(f.center, Scale(f.tangent, cos(Theta(i)) * f.radius)), Scale(f.binormal, sin(Theta(i)) * f.radius))
  }

  lemma SubCenter(c: Vec3, u: Vec3, w: Vec3)
    ensures Sub(Add(Add(c, u), w), c) == Add(u, w)
  {
  }

  /** In an orthonormal frame, x·t + y·b has squared length x² + y² and is orthogonal to the axis a. */
  lemma InPlane(t: Vec3, b: Vec3, a: Vec3, x: real, y: real)
    requires Dot(t, t) == 1.0 && Dot(b, b) == 1.0 && Dot(t, b) == 0.0 && Dot(a, t) == 0.0 && Dot(a, b) == 0.0
    ensures var v := Add(Scale(t, x), Scale(b, y));
      Dot(v, v) == x * x + y * y && Dot(v, a) == 0.0
  {
    ExpandSquare(t, b, x, y);
    ExpandAxis(t, b, x, y, a);
    assert Dot(t, a) == Dot(a, t) && Dot(b, a) == Dot(a, b);
  }

  lemma ExpandSquare(t: Vec3, b: Vec3, x: real, y: real)
    ensures var v := Add(Scale(t, x), Scale(b, y));
      Dot(v, v) == x * x * Dot(t, t) + 2.0 * x * y * Dot(t, b) + y * y * Dot(b, b)
  {
  }

  lemma ExpandAxis(t: Vec3, b: Vec3, x: real, y: real, a: Vec3)
    ensures var v := Add(Scale(t, x), Scale(b, y));
      Dot(v, a) == x * Dot(t, a) + y * Dot(b, a)
  {
  }

  lemma Radius(C: real, S: real, r: real)
    requires C * C + S * S == 1.0
    ensures (C * r) * (C * r) + (S * r) * (S * r) == r * r
  {
    assert (C * r) * (C * r) + (S * r) * (S * r) == (C * C + S * S) * (r * r);
  }

  /** In an orthonormal frame, a vertex whose angle has cos² + sin² = 1 is `radius` from the centre, orthogonal to the axis. */
  lemma OrthonormalVertex(f: Frame, i: nat, cos: real -> real, sin: real -> real)
    requires Orthonormal(f)
    requires cos(Theta(i)) * cos(Theta(i)) + sin(Theta(i)) * sin(Theta(i)) == 1.0
    ensures Dot(Sub(Vertex(f, i, cos, sin), f.center), Sub(Vertex(f, i, cos, sin), f.center)) == f.radius * f.radius
    ensures Dot(Sub(Vertex(f, i, cos, sin), f.center), f.axisDir) == 0.0
  {
    var C, S := cos(Theta(i)), sin(Theta(i));
    SubCenter(f.center, Scale(f.tangent, C * f.radius), Scale(f.binormal, S * f.radius));
    var off := Sub(Vertex(f, i, cos, sin), f.center);
    assert off == Add(Scale(f.tangent, C * f.radius), Scale(f.binormal, S * f.radius));
    InPlane(f.tangent, f.binormal, f.axisDir, C * f.radius, S * f.radius);
    calc {
      Dot(off, off);
      (C * f.radius) * (C * f.radius) + (S * f.radius) * (S * f.radius);
      { Radius(C, S, f.radius); }
      f.radius * f.radius;
    }
  }

  /** With radius 0 every vertex is the centre. */
  lemma DegenerateVertex(f: Frame, i: nat, cos: real -> real, sin: real -> real)
    requires f.radius == 0.0
    ensures Vertex(f, i, cos, sin) == f.center
  {
    assert Scale(f.tangent, cos(Theta(i)) * f.radius) == Zero;
    assert Scale(f.binormal, sin(Theta(i)) * f.radius) == Zero;
  }

  /**
   * Every vertex whose angle satisfies cos² + sin² = 1 is at distance
   * `radius` from the foot, in the plane through the foot orthogonal to the
   * axis.
   */
  lemma VertexOnCircle(p: Vec3, a: Axis, norm: Vec3 -> real, cos: real -> real, sin: real -> real, i: nat)
    requires IsNorm(norm) && a.start != a.end
    requires cos(Theta(i)) * cos(Theta(i)) + sin(Theta(i)) * sin(Theta(i)) == 1.0
    ensures var f := CircleFrame(p, a, norm);
      && Dot(Sub(Vertex(f, i, cos, sin), f.center), Sub(Vertex(f, i, cos, sin), f.center)) == f.radius * f.radius
      && Dot(Sub(Vertex(f, i, cos, sin), f.center), f.axisDir) == 0.0
  {
    var f := CircleFrame(p, a, norm);
    FrameRadius(p, a, norm);
    if p == f.center {
      DegenerateVertex(f, i, cos, sin);
      assert Sub(f.center, f.center) == Zero;
    } else {
      CircleFrameOrthonormal(p, a, norm);
      OrthonormalVertex(f, i, cos, sin);
    }
  }

  /** With cos 0 = 1 and sin 0 = 0, the first vertex is the clicked point: the circle passes through it. */
  lemma FirstVertexIsPoint(p: Vec3, a: Axis, norm: Vec3 -> real, cos: real -> real, sin: real -> real)
    requires IsNorm(norm)
    requires cos(0.0) == 1.0 && sin(0.0) == 0.0
    ensures Vertex(CircleFrame(p, a, norm), 0, cos, sin) == p
  {
    var f := CircleFrame(p, a, norm);
    FrameThroughPoint(p, a, norm);
    assert Theta(0) == 0.0;
    assert Scale(f.binormal, 0.0 * f.radius) == Zero;
    assert Scale(f.tangent, 1.0 * f.radius) == Scale(f.tangent, f.radius);
  }

  /** The coordinates of the first n vertices, x, y, z of vertex i at 3i, 3i+1, 3i+2. */
  function CirclePoints(f: Frame, cos: real -> real, sin: real -> real, n: nat): (s: seq<real>)
    ensures |s| == 3 * n
  {
    if n == 0 then []
    else
      var v := Vertex(f, n - 1, cos, sin);
      CirclePoints(f, cos, sin, n - 1) + [v.x, v.y, v.z]
  }

  /** `circlePositions`: the coordinates of the 64 vertices. */
  function CirclePositions(f: Frame, cos: real -> real, sin: real -> real): seq<real> {
    CirclePoints(f, cos, sin, Segments)
  }

  /** Vertex i sits at 3i, 3i+1 and 3i+2, whatever vertices follow it. */
  lemma {:induction false} CirclePointsAt(f: Frame, cos: real -> real, sin: real -> real, n: nat, i: nat)
    requires i < n
    ensures CirclePoints(f, cos, sin, n)[3 * i] == Vertex(f, i, cos, sin).x
    ensures CirclePoints(f, cos, sin, n)[3 * i + 1] == Vertex(f, i, cos, sin).y
    ensures CirclePoints(f, cos, sin, n)[3 * i + 2] == Vertex(f, i, cos, sin).z
  {
    if i < n - 1 {
      CirclePointsAt(f, cos, sin, n - 1, i);
    }
  }

  /** The 192 coordinates are those of the 64 vertices, in order. */
  lemma CirclePositionsLayout(f: Frame, cos: real -> real, sin: real -> real)
    ensures |CirclePositions(f, cos, sin)| == 3 * Segments
    ensures forall i :: 0 <= i < Segments ==>
      && CirclePositions(f, cos, sin)[3 * i] == Vertex(f, i, cos, sin).x
      && CirclePositions(f, cos, sin)[3 * i + 1] == Vertex(f, i, cos, sin).y
      && CirclePositions(f, cos, sin)[3 * i + 2] == Vertex(f, i, cos, sin).z
  {
    forall i | 0 <= i < Segments
      ensures CirclePositions(f, cos, sin)[3 * i] == Vertex(f, i, cos, sin).x
      ensures CirclePositions(f, cos, sin)[3 * i + 1] == Vertex(f, i, cos, sin).y
      ensures CirclePositions(f, cos, sin)[3 * i + 2] == Vertex(f, i, cos, sin).z
    {
      CirclePointsAt(f, cos, sin, Segments, i);
    }
  }

  /** The loop of updateCircle that fills the Float32Array of 64 vertices. */
  method FillCirclePositions(f: Frame, cos: real -> real, sin: real -> real) returns (positions: array<real>)
    ensures fresh(positions)
    ensures positions[..] == CirclePositions(f, cos, sin)
  {
    ghost var target := CirclePositions(f, cos, sin);
    positions := new real[3 * Segments];
    var i := 0;
    while i < Segments
      invariant 0 <= i <= Segments
      invariant forall k :: 0 <= k < 3 * i ==> positions[k] == target[k]
    {
      var pos := Vertex(f, i, cos, sin);
      CirclePointsAt(f, cos, sin, Segments, i);
      positions[i * 3] := pos.x;
      positions[i * 3 + 1] := pos.y;
      positions[i * 3 + 2] := pos.z;
      i := i + 1;
    }
    assert positions[..] == target;
  }
}
