/** Placing the icon camera so that a prefab's bounding box fills its view
    (MapEdIconsGen.CalculateCameraPosition and its helpers). */
module IconCamera {

  import opened Vectors
  import opened Boxes

  // ---------------------------------------------------------------------------
  // The outermost corner in a direction

  /** Corner k is outermost in direction dir when no other point lies
      strictly further along dir. */
  predicate Outermost(ps: seq<Vec3>, k: int, dir: Vec3)
    requires 0 <= k < |ps|
  {
    forall i :: 0 <= i < |ps| && i != k ==> Dot(dir, Sub(ps[i], ps[k])) <= 0.0
  }

  /** Equivalently, corner k maximises the dot product with dir. */
  lemma OutermostIsMaximal(ps: seq<Vec3>, k: int, dir: Vec3)
    requires 0 <= k < |ps|
    ensures Outermost(ps, k, dir) <==> forall i :: 0 <= i < |ps| ==> Dot(dir, ps[i]) <= Dot(dir, ps[k])
  {
    forall i | 0 <= i < |ps| {
      DotSub(dir, ps[i], ps[k]);
    }
  }

  /** The early-return scan over the points buffer. */
  method IsOutermostPointInDirection(points: array<Vec3>, k: int, dir: Vec3) returns (b: bool)
    requires 0 <= k < points.Length
    ensures b <==> Outermost(points[..], k, dir)
  {
    var point := points[k];
    for i := 0 to points.Length
      invariant forall j :: 0 <= j < i && j != k ==> Dot(dir, Sub(points[j], point)) <= 0.0
    {
      if i != k && Dot(dir, Sub(points[i], point)) > 0.0 {
        return false;
      }
    }
    return true;
  }

  /** The index a search loop holds after looking at the first n points:
      the first outermost index below n, or -1. */
  function FirstOutermostBelow(ps: seq<Vec3>, dir: Vec3, n: int): (r: int)
    requires 0 <= n <= |ps|
    ensures -1 <= r < n
  {
    if n == 0 then -1
    else
      var prev := FirstOutermostBelow(ps, dir, n - 1);
      if prev >= 0 then prev
      else if Outermost(ps, n - 1, dir) then n - 1
      else -1
  }

  /** The search result is -1 exactly when no index below n is outermost,
      and otherwise the lowest outermost index. */
  lemma {:induction false} FirstOutermostBelowSpec(ps: seq<Vec3>, dir: Vec3, n: int)
    requires 0 <= n <= |ps|
    ensures FirstOutermostBelow(ps, dir, n) == -1 <==>
      forall j :: 0 <= j < n ==> !Outermost(ps, j, dir)
    ensures FirstOutermostBelow(ps, dir, n) >= 0 ==>
      Outermost(ps, FirstOutermostBelow(ps, dir, n), dir)
      && forall j :: 0 <= j < FirstOutermostBelow(ps, dir, n) ==> !Outermost(ps, j, dir)
  {
    if n > 0 {
      FirstOutermostBelowSpec(ps, dir, n - 1);
    }
  }

  /** Among the first n of finitely many numbers one is largest. */
  lemma {:induction false} MaxExists(vs: seq<real>, n: int)
    requires 0 < n <= |vs|
    ensures exists k :: 0 <= k < n && forall i :: 0 <= i < n ==> vs[i] <= vs[k]
  {
    if n > 1 {
      MaxExists(vs, n - 1);
      var k :| 0 <= k < n - 1 && forall i :: 0 <= i < n - 1 ==> vs[i] <= vs[k];
      if vs[n - 1] > vs[k] {
        assert forall i :: 0 <= i < n ==> vs[i] <= vs[n - 1];
      } else {
        assert forall i :: 0 <= i < n ==> vs[i] <= vs[k];
      }
    } else {
      assert forall i :: 0 <= i < 1 ==> vs[i] <= vs[0];
    }
  }

  /** Among finitely many points some point is outermost in any direction. */
  lemma OutermostExists(ps: seq<Vec3>, dir: Vec3, n: int)
    requires 0 < n <= |ps|
    ensures exists k :: 0 <= k < n && forall i :: 0 <= i < n ==> Dot(dir, ps[i]) <= Dot(dir, ps[k])
  {
    var vs := seq(|ps|, i requires 0 <= i < |ps| => Dot(dir, ps[i]));
    MaxExists(vs, n);
    var k :| 0 <= k < n && forall i :: 0 <= i < n ==> vs[i] <= vs[k];
    assert forall i :: 0 <= i < n ==> vs[i] == Dot(dir, ps[i]);
    assert forall i :: 0 <= i < n ==> Dot(dir, ps[i]) <= Dot(dir, ps[k]);
  }

  /** Over a non-empty set of points the search always finds an index, so
      the indexing that follows it is in range. */
  lemma FirstOutermostFound(ps: seq<Vec3>, dir: Vec3)
    requires |ps| > 0
    ensures 0 <= FirstOutermostBelow(ps, dir, |ps|) < |ps|
    ensures Outermost(ps, FirstOutermostBelow(ps, dir, |ps|), dir)
  {
    OutermostExists(ps, dir, |ps|);
    var k :| 0 <= k < |ps| && forall i :: 0 <= i < |ps| ==> Dot(dir, ps[i]) <= Dot(dir, ps[k]);
    OutermostIsMaximal(ps, k, dir);
    FirstOutermostBelowSpec(ps, dir, |ps|);
  }

  /** The four extreme points of the box, one per frustum plane normal. */
  datatype Extremes = Extremes(left: int, right: int, top: int, bottom: int)

  /** The single loop that finds the leftmost, rightmost, topmost and
      bottommost corners, each the first corner outermost for its normal. */
  method FindExtremes(points: array<Vec3>, nL: Vec3, nR: Vec3, nT: Vec3, nB: Vec3)
    returns (ex: Extremes)
    ensures ex.left == FirstOutermostBelow(points[..], nL, points.Length)
    ensures ex.right == FirstOutermostBelow(points[..], nR, points.Length)
    ensures ex.top == FirstOutermostBelow(points[..], nT, points.Length)
    ensures ex.bottom == FirstOutermostBelow(points[..], nB, points.Length)
  {
    var ps := points[..];
    var left, right, top, bottom := -1, -1, -1, -1;
    for i := 0 to points.Length
      invariant left == FirstOutermostBelow(ps, nL, i)
      invariant right == FirstOutermostBelow(ps, nR, i)
      invariant top == FirstOutermostBelow(ps, nT, i)
      invariant bottom == FirstOutermostBelow(ps, nB, i)
    {
      if left < 0 {
        var b := IsOutermostPointInDirection(points, i, nL);
        if b { left := i; }
      }
      if right < 0 {
        var b := IsOutermostPointInDirection(points, i, nR);
        if b { right := i; }
      }
      if top < 0 {
        var b := IsOutermostPointInDirection(points, i, nT);
        if b { top := i; }
      }
      if bottom < 0 {
        var b := IsOutermostPointInDirection(points, i, nB);
        if b { bottom := i; }
      }
    }
    ex := Extremes(left, right, top, bottom);
  }

  // ---------------------------------------------------------------------------
  // Planes and lines

  /** A plane {x | Dot(normal, x) + distance == 0}, the engine's Plane. */
  datatype Plane = Plane(normal: Vec3, distance: real)

  /** The engine's line: a point and a direction. */
  datatype Ray = Ray(origin: Vec3, direction: Vec3)

  function SignedDistance(p: Plane, x: Vec3): real
  {
    Dot(p.normal, x) + p.distance
  }

  /** new Plane(normal, point), for a normal that is already unit length. */
  function PlaneThrough(n: Vec3, point: Vec3): (p: Plane)
    ensures p.normal == n
    ensures SignedDistance(p, point) == 0.0
    ensures forall x :: SignedDistance(p, x) == Dot(n, Sub(x, point))
  {
    var p := Plane(n, -Dot(n, point));
    assert forall x :: SignedDistance(p, x) == Dot(n, Sub(x, point)) by {
      forall x { DotSub(n, x, point); }
    }
    p
  }

  /** The intersection line of two planes whose normals are not parallel:
      its origin lies on both planes and its direction along both. */
  function GetPlanesIntersection(p1: Plane, p2: Plane): (r: Ray)
    requires SqrMagnitude(Cross(p1.normal, p2.normal)) != 0.0
    ensures SignedDistance(p1, r.origin) == 0.0
    ensures SignedDistance(p2, r.origin) == 0.0
    ensures r.direction == Cross(p1.normal, p2.normal)
    ensures Dot(p1.normal, r.direction) == 0.0 && Dot(p2.normal, r.direction) == 0.0
  {
    var n1, n2 := p1.normal, p2.normal;
    var n3 := Cross(n1, n2);
    var det := SqrMagnitude(n3);
    var v := Add(Scale(Cross(n3, n2), p1.distance), Scale(Cross(n1, n3), p2.distance));
    IntersectionOnPlanes(n1, n2, p1.distance, p2.distance);
    Ray(Div(v, det), n3)
  }

  lemma IntersectionOnPlanes(n1: Vec3, n2: Vec3, d1: real, d2: real)
    requires SqrMagnitude(Cross(n1, n2)) != 0.0
    ensures var n3 := Cross(n1, n2);
      var o := Div(Add(Scale(Cross(n3, n2), d1), Scale(Cross(n1, n3), d2)), SqrMagnitude(n3));
      Dot(n1, o) + d1 == 0.0 && Dot(n2, o) + d2 == 0.0
      && Dot(n1, n3) == 0.0 && Dot(n2, n3) == 0.0
  {
    var n3 := Cross(n1, n2);
    var det := SqrMagnitude(n3);
    var v := Add(Scale(Cross(n3, n2), d1), Scale(Cross(n1, n3), d2));
    CrossOrthogonal(n1, n2);
    // the triple products that survive: n1 . (n3 x n2) = n2 . (n1 x n3) = -det
    TripleProduct(n1, n3, n2);
    TripleProduct(n2, n1, n3);
    CrossAntiSymm(n2, n1);
    DotNeg(n3, n3);
    CrossOrthogonal(n3, n2);
    CrossOrthogonal(n1, n3);
    calc {
      Dot(n1, v);
      { DotAdd(n1, Scale(Cross(n3, n2), d1), Scale(Cross(n1, n3), d2));
        DotScale(n1, Cross(n3, n2), d1); DotScale(n1, Cross(n1, n3), d2); }
      d1 * Dot(n1, Cross(n3, n2)) + d2 * Dot(n1, Cross(n1, n3));
      d1 * -det;
    }
    calc {
      Dot(n2, v);
      { DotAdd(n2, Scale(Cross(n3, n2), d1), Scale(Cross(n1, n3), d2));
        DotScale(n2, Cross(n3, n2), d1); DotScale(n2, Cross(n1, n3), d2); }
      d1 * Dot(n2, Cross(n3, n2)) + d2 * Dot(n2, Cross(n1, n3));
      d2 * -det;
    }
    DotDiv(n1, v, det);
    DotDiv(n2, v, det);
    NegCancel(d1, det);
    NegCancel(d2, det);
  }

  lemma NegCancel(d: real, k: real)
    requires k != 0.0
    ensures (d * -k) / k == -d
  {
  }

  lemma DotDiv(a: Vec3, v: Vec3, k: real)
    requires k != 0.0
    ensures Dot(a, Div(v, k)) == Dot(a, v) / k
  {
    var w := Div(v, k);
    assert v == Scale(w, k) by {
      DivMul(v.x, k);
      DivMul(v.y, k);
      DivMul(v.z, k);
    }
    DotScale(a, w, k);
    DivMul(Dot(a, w), k);
    MulDivCancel(Dot(a, w), k);
  }

  lemma MulDivCancel(x: real, k: real)
    requires k != 0.0
    ensures (k * x) / k == x
  {
  }

  /** The closest points of two non-parallel lines (d = a e - b^2 != 0). */
  function FindClosestPointsOnTwoLines(line1: Ray, line2: Ray): (r: (Vec3, Vec3))
    requires Dot(line1.direction, line1.direction) * Dot(line2.direction, line2.direction)
      - Dot(line1.direction, line2.direction) * Dot(line1.direction, line2.direction) != 0.0
    ensures OnLine(r.0, line1) && OnLine(r.1, line2)
    ensures Dot(line1.direction, Sub(r.0, r.1)) == 0.0
    ensures Dot(line2.direction, Sub(r.0, r.1)) == 0.0
  {
    var d1, d2 := line1.direction, line2.direction;
    var w := Sub(line1.origin, line2.origin);
    var st := LineParameters(Dot(d1, d1), Dot(d1, d2), Dot(d1, w), Dot(d2, d2), Dot(d2, w));
    var p1 := Add(line1.origin, Scale(d1, st.0));
    var p2 := Add(line2.origin, Scale(d2, st.1));
    ClosestFromParameters(line1.origin, d1, line2.origin, d2, st.0, st.1);
    OnLineScaled(line1, st.0);
    OnLineScaled(line2, st.1);
    (p1, p2)
  }

  /** The line parameters s and t of the closest points, from the dot
      products a = d1.d1, b = d1.d2, c = d1.w, e = d2.d2 and f = d2.w. */
  function LineParameters(a: real, b: real, c: real, e: real, f: real): (st: (real, real))
    requires a * e - b * b != 0.0
    ensures c + a * st.0 - b * st.1 == 0.0
    ensures f + b * st.0 - e * st.1 == 0.0
  {
    var d := a * e - b * b;
    var s := (b * f - c * e) / d;
    var t := (a * f - c * b) / d;
    ClosestScalars(a, b, c, e, f, s, t);
    (s, t)
  }

  lemma ClosestFromParameters(o1: Vec3, d1: Vec3, o2: Vec3, d2: Vec3, s: real, t: real)
    requires Dot(d1, Sub(o1, o2)) + Dot(d1, d1) * s - Dot(d1, d2) * t == 0.0
    requires Dot(d2, Sub(o1, o2)) + Dot(d1, d2) * s - Dot(d2, d2) * t == 0.0
    ensures Dot(d1, Sub(Add(o1, Scale(d1, s)), Add(o2, Scale(d2, t)))) == 0.0
    ensures Dot(d2, Sub(Add(o1, Scale(d1, s)), Add(o2, Scale(d2, t)))) == 0.0
  {
    ClosestPointsOrthogonal(o1, d1, o2, d2, s, t);
  }

  /** x lies on the line. */
  ghost predicate OnLine(x: Vec3, line: Ray)
  {
    exists s :: x == Add(line.origin, Scale(line.direction, s))
  }

  lemma OnLineScaled(line: Ray, s: real)
    ensures OnLine(Add(line.origin, Scale(line.direction, s)), line)
  {
  }

  /** The dot products of the segment between two points of the lines with
      the line directions, in terms of the line parameters. */
  lemma ClosestPointsOrthogonal(o1: Vec3, d1: Vec3, o2: Vec3, d2: Vec3, s: real, t: real)
    ensures Dot(d1, Sub(Add(o1, Scale(d1, s)), Add(o2, Scale(d2, t))))
         == Dot(d1, Sub(o1, o2)) + Dot(d1, d1) * s - Dot(d1, d2) * t
    ensures Dot(d2, Sub(Add(o1, Scale(d1, s)), Add(o2, Scale(d2, t))))
         == Dot(d2, Sub(o1, o2)) + Dot(d1, d2) * s - Dot(d2, d2) * t
  {
    var w := Sub(o1, o2);
    assert Sub(Add(o1, Scale(d1, s)), Add(o2, Scale(d2, t))) == Sub(Add(w, Scale(d1, s)), Scale(d2, t));
    DotSub(d1, Add(w, Scale(d1, s)), Scale(d2, t));
    DotAdd(d1, w, Scale(d1, s));
    DotScale(d1, d1, s);
    DotScale(d1, d2, t);
    DotSub(d2, Add(w, Scale(d1, s)), Scale(d2, t));
    DotAdd(d2, w, Scale(d1, s));
    DotScale(d2, d1, s);
    DotScale(d2, d2, t);
    DotSymm(d1, d2);
  }

  lemma ClosestScalars(a: real, b: real, c: real, e: real, f: real, s: real, t: real)
    requires a * e - b * b != 0.0
    requires s == (b * f - c * e) / (a * e - b * b) && t == (a * f - c * b) / (a * e - b * b)
    ensures c + a * s - b * t == 0.0
    ensures f + b * s - e * t == 0.0
  {
    var d := a * e - b * b;
    assert s * d == b * f - c * e;
    assert t * d == a * f - c * b;
    assert (c + a * s - b * t) * d == c * d + a * (s * d) - b * (t * d);
    assert (c + a * s - b * t) * d == 0.0;
    assert (f + b * s - e * t) * d == f * d + b * (s * d) - e * (t * d);
    assert (f + b * s - e * t) * d == 0.0;
  }

  /** A plane's signed distance vanishes all along a line that starts on the
      plane and runs parallel to it. */
  lemma LineOnPlane(line: Ray, p: Plane, x: Vec3)
    requires SignedDistance(p, line.origin) == 0.0 && Dot(p.normal, line.direction) == 0.0
    requires OnLine(x, line)
    ensures SignedDistance(p, x) == 0.0
  {
    var s :| x == Add(line.origin, Scale(line.direction, s));
    DotAdd(p.normal, line.origin, Scale(line.direction, s));
    DotScale(p.normal, line.direction, s);
  }

  // ---------------------------------------------------------------------------
  // The camera's frame and its frustum planes

  /** The camera's orientation as its right, up and forward axes. */
  datatype Frame = Frame(right: Vec3, up: Vec3, forward: Vec3)

  /** The axes of a rotation: unit vectors, each the cross product of the
      other two in cyclic order. */
  predicate ValidFrame(fr: Frame)
  {
    SqrMagnitude(fr.right) == 1.0 && SqrMagnitude(fr.up) == 1.0 && SqrMagnitude(fr.forward) == 1.0
    && Cross(fr.up, fr.forward) == fr.right
    && Cross(fr.forward, fr.right) == fr.up
    && Cross(fr.right, fr.up) == fr.forward
  }

  lemma FrameOrthogonal(fr: Frame)
    requires ValidFrame(fr)
    ensures Dot(fr.right, fr.up) == 0.0 && Dot(fr.up, fr.right) == 0.0
    ensures Dot(fr.right, fr.forward) == 0.0 && Dot(fr.forward, fr.right) == 0.0
    ensures Dot(fr.up, fr.forward) == 0.0 && Dot(fr.forward, fr.up) == 0.0
  {
    CrossOrthogonal(fr.up, fr.forward);
    CrossOrthogonal(fr.forward, fr.right);
    DotSymm(fr.right, fr.up);
    DotSymm(fr.right, fr.forward);
    DotSymm(fr.up, fr.forward);
  }

  /** Sines and cosines of the vertical and horizontal half fields of view,
      which lie strictly between 0 and 90 degrees. */
  datatype HalfAngles = HalfAngles(sinV: real, cosV: real, sinH: real, cosH: real)

  predicate ValidHalfAngles(h: HalfAngles)
  {
    h.sinV > 0.0 && h.cosV > 0.0 && h.sinV * h.sinV + h.cosV * h.cosV == 1.0
    && h.sinH > 0.0 && h.cosH > 0.0 && h.sinH * h.sinH + h.cosH * h.cosH == 1.0
  }

  /** The outward normals of the four side planes of the frustum: forward
      turned by 90 degrees plus the half angle about the matching axis. */
  function TopNormal(fr: Frame, h: HalfAngles): Vec3
  {
    Add(Scale(fr.up, h.cosV), Scale(fr.forward, -h.sinV))
  }

  function BottomNormal(fr: Frame, h: HalfAngles): Vec3
  {
    Add(Scale(fr.up, -h.cosV), Scale(fr.forward, -h.sinV))
  }

  function RightNormal(fr: Frame, h: HalfAngles): Vec3
  {
    Add(Scale(fr.right, h.cosH), Scale(fr.forward, -h.sinH))
  }

  function LeftNormal(fr: Frame, h: HalfAngles): Vec3
  {
    Add(Scale(fr.right, -h.cosH), Scale(fr.forward, -h.sinH))
  }

  /** The four normals have unit length, so building a plane from them does
      not rescale them. */
  lemma NormalsUnit(fr: Frame, h: HalfAngles)
    requires ValidFrame(fr) && ValidHalfAngles(h)
    ensures SqrMagnitude(TopNormal(fr, h)) == 1.0 && SqrMagnitude(BottomNormal(fr, h)) == 1.0
    ensures SqrMagnitude(RightNormal(fr, h)) == 1.0 && SqrMagnitude(LeftNormal(fr, h)) == 1.0
  {
    FrameOrthogonal(fr);
    CombinationUnit(fr.up, fr.forward, h.cosV, -h.sinV);
    CombinationUnit(fr.up, fr.forward, -h.cosV, -h.sinV);
    CombinationUnit(fr.right, fr.forward, h.cosH, -h.sinH);
    CombinationUnit(fr.right, fr.forward, -h.cosH, -h.sinH);
  }

  lemma CombinationUnit(p: Vec3, q: Vec3, a: real, b: real)
    requires SqrMagnitude(p) == 1.0 && SqrMagnitude(q) == 1.0 && Dot(p, q) == 0.0
    ensures SqrMagnitude(Add(Scale(p, a), Scale(q, b))) == a * a + b * b
  {
    var n := Add(Scale(p, a), Scale(q, b));
    DotSymm(p, q);
    DotCombination(p, q, a, b, n);
    DotSymm(p, n);
    DotSymm(q, n);
    DotCombination(p, q, a, b, p);
    DotCombination(p, q, a, b, q);
    calc {
      SqrMagnitude(n);
      a * Dot(p, n) + b * Dot(q, n);
      a * (a * Dot(p, p) + b * Dot(q, p)) + b * (a * Dot(p, q) + b * Dot(q, q));
      a * a + b * b;
    }
  }

  /** The left and right normals meet along the camera's up axis, the top
      and bottom normals along its right axis. */
  function HorizontalScale(h: HalfAngles): real { (-h.cosH) * (-h.sinH) - (-h.sinH) * h.cosH }

  function VerticalScale(h: HalfAngles): real { h.cosV * (-h.sinV) - (-h.sinV) * (-h.cosV) }

  lemma ScalesNonZero(h: HalfAngles)
    requires ValidHalfAngles(h)
    ensures HorizontalScale(h) > 0.0 && VerticalScale(h) < 0.0
  {
    PositiveProduct(h.cosH, h.sinH);
    PositiveProduct(h.cosV, h.sinV);
    assert HorizontalScale(h) == 2.0 * (h.cosH * h.sinH);
    assert VerticalScale(h) == -2.0 * (h.cosV * h.sinV);
  }

  lemma PositiveProduct(a: real, b: real)
    requires a > 0.0 && b > 0.0
    ensures a * b > 0.0
  {
  }

  lemma FrustumEdges(fr: Frame, h: HalfAngles)
    requires ValidFrame(fr) && ValidHalfAngles(h)
    ensures Cross(LeftNormal(fr, h), RightNormal(fr, h)) == Scale(Neg(fr.up), HorizontalScale(h))
    ensures Cross(TopNormal(fr, h), BottomNormal(fr, h)) == Scale(fr.right, VerticalScale(h))
    ensures SqrMagnitude(Cross(LeftNormal(fr, h), RightNormal(fr, h))) > 0.0
    ensures SqrMagnitude(Cross(TopNormal(fr, h), BottomNormal(fr, h))) > 0.0
  {
    HorizontalEdge(fr, h);
    VerticalEdge(fr, h);
  }

  lemma HorizontalEdge(fr: Frame, h: HalfAngles)
    requires ValidFrame(fr) && ValidHalfAngles(h)
    ensures Cross(LeftNormal(fr, h), RightNormal(fr, h)) == Scale(Neg(fr.up), HorizontalScale(h))
    ensures SqrMagnitude(Cross(LeftNormal(fr, h), RightNormal(fr, h))) > 0.0
  {
    CrossCombination(fr.right, fr.forward, -h.cosH, -h.sinH, h.cosH, -h.sinH);
    CrossAntiSymm(fr.right, fr.forward);
    ScalesNonZero(h);
    assert SqrMagnitude(Neg(fr.up)) == SqrMagnitude(fr.up);
    ScaledUnit(Neg(fr.up), HorizontalScale(h));
  }

  lemma VerticalEdge(fr: Frame, h: HalfAngles)
    requires ValidFrame(fr) && ValidHalfAngles(h)
    ensures Cross(TopNormal(fr, h), BottomNormal(fr, h)) == Scale(fr.right, VerticalScale(h))
    ensures SqrMagnitude(Cross(TopNormal(fr, h), BottomNormal(fr, h))) > 0.0
  {
    CrossCombination(fr.up, fr.forward, h.cosV, -h.sinV, -h.cosV, -h.sinV);
    ScalesNonZero(h);
    ScaledUnit(fr.right, VerticalScale(h));
  }

  lemma ScaledUnit(v: Vec3, k: real)
    requires SqrMagnitude(v) == 1.0 && k != 0.0
    ensures SqrMagnitude(Scale(v, k)) == k * k
    ensures SqrMagnitude(Scale(v, k)) > 0.0
  {
    SqrMagnitudeScale(v, k);
    SquarePositive(k);
    calc {
      SqrMagnitude(Scale(v, k));
      k * k * SqrMagnitude(v);
      k * k;
      > 0.0;
    }
  }

  /** The two intersection lines of the perspective branch are never
      parallel, so their closest points are defined. */
  lemma EdgesNotParallel(fr: Frame, h: HalfAngles, d1: Vec3, d2: Vec3)
    requires ValidFrame(fr) && ValidHalfAngles(h)
    requires d1 == Scale(Neg(fr.up), HorizontalScale(h)) && d2 == Scale(fr.right, VerticalScale(h))
    ensures Dot(d1, d2) == 0.0
    ensures Dot(d1, d1) * Dot(d2, d2) - Dot(d1, d2) * Dot(d1, d2) > 0.0
  {
    FrameOrthogonal(fr);
    var kh, kv := HorizontalScale(h), VerticalScale(h);
    DotScaleBoth(Neg(fr.up), fr.right, kh, kv);
    assert Dot(Neg(fr.up), fr.right) == -Dot(fr.up, fr.right);
    ScalesNonZero(h);
    assert SqrMagnitude(Neg(fr.up)) == SqrMagnitude(fr.up);
    ScaledUnit(Neg(fr.up), kh);
    ScaledUnit(fr.right, kv);
    PositiveProduct(Dot(d1, d1), Dot(d2, d2));
  }

  // ---------------------------------------------------------------------------
  // The perspective branch

  /** q is on the inner side of all four side planes of a frustum whose apex
      is at cam. */
  predicate InFrustum(fr: Frame, h: HalfAngles, cam: Vec3, q: Vec3)
  {
    Dot(LeftNormal(fr, h), Sub(q, cam)) <= 0.0 && Dot(RightNormal(fr, h), Sub(q, cam)) <= 0.0
    && Dot(TopNormal(fr, h), Sub(q, cam)) <= 0.0 && Dot(BottomNormal(fr, h), Sub(q, cam)) <= 0.0
  }

  /** Step 1-3: the planes through the outermost corners with the frustum
      normals, intersected pairwise (left with right, top with bottom). */
  function PerspectiveLines(ps: seq<Vec3>, fr: Frame, h: HalfAngles): (r: (Ray, Ray))
    requires |ps| > 0 && ValidFrame(fr) && ValidHalfAngles(h)
    ensures r.0.direction == Scale(Neg(fr.up), HorizontalScale(h))
    ensures r.1.direction == Scale(fr.right, VerticalScale(h))
  {
    var nL, nR, nT, nB := LeftNormal(fr, h), RightNormal(fr, h), TopNormal(fr, h), BottomNormal(fr, h);
    FirstOutermostFound(ps, nL);
    FirstOutermostFound(ps, nR);
    FirstOutermostFound(ps, nT);
    FirstOutermostFound(ps, nB);
    FrustumEdges(fr, h);
    var horizontal := GetPlanesIntersection(PlaneThrough(nL, ps[FirstOutermostBelow(ps, nL, |ps|)]),
                                            PlaneThrough(nR, ps[FirstOutermostBelow(ps, nR, |ps|)]));
    var vertical := GetPlanesIntersection(PlaneThrough(nT, ps[FirstOutermostBelow(ps, nT, |ps|)]),
                                          PlaneThrough(nB, ps[FirstOutermostBelow(ps, nB, |ps|)]));
    (horizontal, vertical)
  }

  /** The camera position with the tighter fit in both directions: the
      closest point of the two lines that is further back along dir. */
  function FartherBack(p1: Vec3, p2: Vec3, dir: Vec3): (r: Vec3)
    ensures r == p1 || r == p2
    ensures Dot(r, dir) <= Dot(p1, dir) && Dot(r, dir) <= Dot(p2, dir)
    ensures r == p1 <==> Dot(Sub(p1, p2), dir) < 0.0 || p1 == p2
  {
    DotSymm(Sub(p1, p2), dir);
    DotSub(dir, p1, p2);
    DotSymm(p1, dir);
    DotSymm(p2, dir);
    if Dot(Sub(p1, p2), dir) < 0.0 then p1 else p2
  }

  /** Step 4: the camera position of the perspective branch. */
  function PerspectivePosition(ps: seq<Vec3>, fr: Frame, h: HalfAngles): Vec3
    requires |ps| > 0 && ValidFrame(fr) && ValidHalfAngles(h)
  {
    var lines := PerspectiveLines(ps, fr, h);
    EdgesNotParallel(fr, h, lines.0.direction, lines.1.direction);
    var closest := FindClosestPointsOnTwoLines(lines.0, lines.1);
    FartherBack(closest.0, closest.1, fr.forward)
  }

  /** A point on the plane through the outermost point of a normal has every
      point on the inner side of that normal. */
  lemma OutermostBoundsAll(ps: seq<Vec3>, k: int, n: Vec3, x: Vec3)
    requires 0 <= k < |ps| && Outermost(ps, k, n)
    requires Dot(n, Sub(x, ps[k])) == 0.0
    ensures forall i :: 0 <= i < |ps| ==> Dot(n, Sub(ps[i], x)) <= 0.0
  {
    forall i | 0 <= i < |ps|
      ensures Dot(n, Sub(ps[i], x)) <= 0.0
    {
      DotSub(n, ps[i], x);
      DotSub(n, x, ps[k]);
      DotSub(n, ps[i], ps[k]);
    }
  }

  /** Every camera on the horizontal line fits the box exactly between the
      left and right planes, every camera on the vertical line between the
      top and bottom planes. */
  lemma LinesFit(ps: seq<Vec3>, fr: Frame, h: HalfAngles, x: Vec3, y: Vec3)
    requires |ps| > 0 && ValidFrame(fr) && ValidHalfAngles(h)
    requires OnLine(x, PerspectiveLines(ps, fr, h).0)
    requires OnLine(y, PerspectiveLines(ps, fr, h).1)
    ensures forall i :: 0 <= i < |ps| ==>
      Dot(LeftNormal(fr, h), Sub(ps[i], x)) <= 0.0 && Dot(RightNormal(fr, h), Sub(ps[i], x)) <= 0.0
    ensures forall i :: 0 <= i < |ps| ==>
      Dot(TopNormal(fr, h), Sub(ps[i], y)) <= 0.0 && Dot(BottomNormal(fr, h), Sub(ps[i], y)) <= 0.0
  {
    var nL, nR, nT, nB := LeftNormal(fr, h), RightNormal(fr, h), TopNormal(fr, h), BottomNormal(fr, h);
    FirstOutermostFound(ps, nL);
    FirstOutermostFound(ps, nR);
    FirstOutermostFound(ps, nT);
    FirstOutermostFound(ps, nB);
    FrustumEdges(fr, h);
    var l, r, t, b := FirstOutermostBelow(ps, nL, |ps|), FirstOutermostBelow(ps, nR, |ps|),
                      FirstOutermostBelow(ps, nT, |ps|), FirstOutermostBelow(ps, nB, |ps|);
    var pl, pr, pt, pb := PlaneThrough(nL, ps[l]), PlaneThrough(nR, ps[r]),
                          PlaneThrough(nT, ps[t]), PlaneThrough(nB, ps[b]);
    var lines := PerspectiveLines(ps, fr, h);
    assert lines == (GetPlanesIntersection(pl, pr), GetPlanesIntersection(pt, pb));
    LineOnPlane(lines.0, pl, x);
    LineOnPlane(lines.0, pr, x);
    LineOnPlane(lines.1, pt, y);
    LineOnPlane(lines.1, pb, y);
    OutermostBoundsAll(ps, l, nL, x);
    OutermostBoundsAll(ps, r, nR, x);
    OutermostBoundsAll(ps, t, nT, y);
    OutermostBoundsAll(ps, b, nB, y);
  }

  /** The placement theorem of the perspective branch: from the chosen
      position every corner is inside the frustum. */
  lemma PerspectiveFits(ps: seq<Vec3>, fr: Frame, h: HalfAngles)
    requires |ps| > 0 && ValidFrame(fr) && ValidHalfAngles(h)
    ensures forall i :: 0 <= i < |ps| ==> InFrustum(fr, h, PerspectivePosition(ps, fr, h), ps[i])
  {
    var lines := PerspectiveLines(ps, fr, h);
    EdgesNotParallel(fr, h, lines.0.direction, lines.1.direction);
    var closest := FindClosestPointsOnTwoLines(lines.0, lines.1);
    var p1, p2 := closest.0, closest.1;
    LinesFit(ps, fr, h, p1, p2);
    var w := Sub(p1, p2);
    // w is orthogonal to both lines, hence to the camera's up and right axes
    ScalesNonZero(h);
    DotScale(w, Neg(fr.up), HorizontalScale(h));
    DotSymm(w, lines.0.direction);
    DotScale(w, fr.right, VerticalScale(h));
    DotSymm(w, lines.1.direction);
    DotNeg(w, fr.up);
    ZeroFactor(HorizontalScale(h), Dot(w, Neg(fr.up)));
    ZeroFactor(VerticalScale(h), Dot(w, fr.right));
    DotSymm(w, fr.up);
    DotSymm(w, fr.right);
    DotSymm(w, fr.forward);
    var cam := PerspectivePosition(ps, fr, h);
    assert cam == FartherBack(p1, p2, fr.forward);
    forall i | 0 <= i < |ps|
      ensures InFrustum(fr, h, cam, ps[i])
    {
      if Dot(w, fr.forward) < 0.0 {
        FitFromFirst(fr, h, ps[i], p1, p2);
      } else {
        FitFromSecond(fr, h, ps[i], p1, p2);
      }
    }
  }

  /** Moving back from p2 to p1, which differ along forward only, keeps the
      top and bottom fit of p2. */
  lemma FitFromFirst(fr: Frame, h: HalfAngles, q: Vec3, p1: Vec3, p2: Vec3)
    requires ValidHalfAngles(h)
    requires Dot(Sub(p1, p2), fr.up) == 0.0 && Dot(Sub(p1, p2), fr.forward) < 0.0
    requires Dot(LeftNormal(fr, h), Sub(q, p1)) <= 0.0 && Dot(RightNormal(fr, h), Sub(q, p1)) <= 0.0
    requires Dot(TopNormal(fr, h), Sub(q, p2)) <= 0.0 && Dot(BottomNormal(fr, h), Sub(q, p2)) <= 0.0
    ensures InFrustum(fr, h, p1, q)
  {
    ShiftNormal(fr.up, fr.forward, h.cosV, -h.sinV, q, p1, p2);
    ShiftNormal(fr.up, fr.forward, -h.cosV, -h.sinV, q, p1, p2);
    NegTimesNeg(h.sinV, Dot(Sub(p1, p2), fr.forward));
  }

  /** Moving back from p1 to p2 (or staying) keeps the left and right fit
      of p1. */
  lemma FitFromSecond(fr: Frame, h: HalfAngles, q: Vec3, p1: Vec3, p2: Vec3)
    requires ValidHalfAngles(h)
    requires Dot(Sub(p1, p2), fr.right) == 0.0 && Dot(Sub(p1, p2), fr.forward) >= 0.0
    requires Dot(LeftNormal(fr, h), Sub(q, p1)) <= 0.0 && Dot(RightNormal(fr, h), Sub(q, p1)) <= 0.0
    requires Dot(TopNormal(fr, h), Sub(q, p2)) <= 0.0 && Dot(BottomNormal(fr, h), Sub(q, p2)) <= 0.0
    ensures InFrustum(fr, h, p2, q)
  {
    var w := Sub(p1, p2);
    ShiftNormal(fr.right, fr.forward, h.cosH, -h.sinH, q, p2, p1);
    ShiftNormal(fr.right, fr.forward, -h.cosH, -h.sinH, q, p2, p1);
    assert Sub(p2, p1) == Neg(w);
    DotSymm(Neg(w), fr.forward);
    DotSymm(Neg(w), fr.right);
    DotNeg(fr.right, w);
    DotNeg(fr.forward, w);
    DotSymm(fr.right, w);
    DotSymm(fr.forward, w);
    NegTimesNonPos(h.sinH, Dot(Neg(w), fr.forward));
  }

  lemma ZeroFactor(k: real, x: real)
    requires k != 0.0 && k * x == 0.0
    ensures x == 0.0
  {
  }

  lemma NegTimesNeg(s: real, x: real)
    requires s > 0.0 && x < 0.0
    ensures -s * x > 0.0
  {
  }

  lemma NegTimesNonPos(s: real, x: real)
    requires s > 0.0 && x <= 0.0
    ensures -s * x >= 0.0
  {
  }

  /** Moving the apex from b to a changes a normal's side test by the normal's
      dot product with a - b. */
  lemma ShiftNormal(p: Vec3, f: Vec3, c: real, s: real, q: Vec3, a: Vec3, b: Vec3)
    ensures Dot(Add(Scale(p, c), Scale(f, s)), Sub(q, a))
         == Dot(Add(Scale(p, c), Scale(f, s)), Sub(q, b))
            - (c * Dot(Sub(a, b), p) + s * Dot(Sub(a, b), f))
  {
    var n := Add(Scale(p, c), Scale(f, s));
    assert Sub(q, a) == Sub(Sub(q, b), Sub(a, b));
    DotSub(n, Sub(q, b), Sub(a, b));
    DotCombination(p, f, c, s, Sub(a, b));
  }

  // ---------------------------------------------------------------------------
  // The orthographic branch

  /** q in the coordinates of a unit-scale camera at origin with axes fr
      (Transform.InverseTransformPoint). */
  function LocalPoint(fr: Frame, origin: Vec3, q: Vec3): Vec3
  {
    Vec3(Dot(fr.right, Sub(q, origin)), Dot(fr.up, Sub(q, origin)), Dot(fr.forward, Sub(q, origin)))
  }

  function LocalPoints(fr: Frame, origin: Vec3, ps: seq<Vec3>): (ls: seq<Vec3>)
    ensures |ls| == |ps|
    ensures forall i :: 0 <= i < |ps| ==> ls[i] == LocalPoint(fr, origin, ps[i])
  {
    seq(|ps|, i requires 0 <= i < |ps| => LocalPoint(fr, origin, ps[i]))
  }

  /** The smallest and largest camera-space x and y seen so far. */
  datatype Extent2D = Extent2D(minX: real, maxX: real, minY: real, maxY: real)

  /** One iteration of the min/max loop, strict comparisons as written. */
  function ExtentStep(ex: Extent2D, p: Vec3): Extent2D
  {
    Extent2D(if p.x < ex.minX then p.x else ex.minX, if p.x > ex.maxX then p.x else ex.maxX,
             if p.y < ex.minY then p.y else ex.minY, if p.y > ex.maxY then p.y else ex.maxY)
  }

  /** The loop's state after the first n points. The engine starts from
      +/- infinity; starting from the first point gives the same state after
      the first iteration and every one after it. */
  function ExtentsBelow(ls: seq<Vec3>, n: int): Extent2D
    requires 0 < |ls| && 0 <= n <= |ls|
  {
    if n == 0 then Extent2D(ls[0].x, ls[0].x, ls[0].y, ls[0].y)
    else ExtentStep(ExtentsBelow(ls, n - 1), ls[n - 1])
  }

  predicate Within(ex: Extent2D, p: Vec3)
  {
    ex.minX <= p.x <= ex.maxX && ex.minY <= p.y <= ex.maxY
  }

  /** The extents bound every point seen, and each of the four is the
      coordinate of one of the points. */
  lemma {:induction false} ExtentsBelowSpec(ls: seq<Vec3>, n: int)
    requires 0 < |ls| && 0 <= n <= |ls|
    ensures forall i :: 0 <= i < n ==> Within(ExtentsBelow(ls, n), ls[i])
    ensures Within(ExtentsBelow(ls, n), ls[0])
    ensures exists i :: 0 <= i < |ls| && ExtentsBelow(ls, n).minX == ls[i].x
    ensures exists i :: 0 <= i < |ls| && ExtentsBelow(ls, n).maxX == ls[i].x
    ensures exists i :: 0 <= i < |ls| && ExtentsBelow(ls, n).minY == ls[i].y
    ensures exists i :: 0 <= i < |ls| && ExtentsBelow(ls, n).maxY == ls[i].y
  {
    if n > 0 {
      ExtentsBelowSpec(ls, n - 1);
      var ex := ExtentsBelow(ls, n - 1);
      var p := ls[n - 1];
      if p.x < ex.minX { assert ExtentsBelow(ls, n).minX == ls[n - 1].x; }
      if p.x > ex.maxX { assert ExtentsBelow(ls, n).maxX == ls[n - 1].x; }
      if p.y < ex.minY { assert ExtentsBelow(ls, n).minY == ls[n - 1].y; }
      if p.y > ex.maxY { assert ExtentsBelow(ls, n).maxY == ls[n - 1].y; }
    } else {
      assert ExtentsBelow(ls, 0).minX == ls[0].x;
      assert ExtentsBelow(ls, 0).minY == ls[0].y;
    }
  }

  /** The min/max loop over the corners in camera space. */
  method LocalExtents(points: array<Vec3>, fr: Frame, origin: Vec3) returns (ex: Extent2D)
    requires points.Length > 0
    ensures ex == ExtentsBelow(LocalPoints(fr, origin, points[..]), points.Length)
  {
    ghost var ls := LocalPoints(fr, origin, points[..]);
    var p0 := LocalPoint(fr, origin, points[0]);
    var minX, maxX, minY, maxY := p0.x, p0.x, p0.y, p0.y;
    for i := 0 to points.Length
      invariant Extent2D(minX, maxX, minY, maxY) == ExtentsBelow(ls, i)
    {
      var localPoint := LocalPoint(fr, origin, points[i]);
      if localPoint.x < minX { minX := localPoint.x; }
      if localPoint.x > maxX { maxX := localPoint.x; }
      if localPoint.y < minY { minY := localPoint.y; }
      if localPoint.y > maxY { maxY := localPoint.y; }
    }
    ex := Extent2D(minX, maxX, minY, maxY);
  }

  /** Half the height of the orthographic view: enough for the height of the
      extents and for their width at the given aspect ratio. */
  function OrthographicSize(ex: Extent2D, aspect: real): (size: real)
    requires aspect > 0.0
    ensures 2.0 * size >= ex.maxY - ex.minY
    ensures 2.0 * size * aspect >= ex.maxX - ex.minX
    ensures 2.0 * size == ex.maxY - ex.minY || 2.0 * size * aspect == ex.maxX - ex.minX
  {
    var w := (ex.maxX - ex.minX) / aspect;
    var size := RMax(ex.maxY - ex.minY, w) * 0.5;
    DivMul(ex.maxX - ex.minX, aspect);
    MulMonotone(2.0 * size, w, aspect);
    size
  }

  lemma DivMul(x: real, k: real)
    requires k != 0.0
    ensures (x / k) * k == x
  {
  }

  lemma MulMonotone(a: real, b: real, k: real)
    requires a >= b && k > 0.0
    ensures a * k >= b * k
  {
    assert a * k - b * k == (a - b) * k;
  }

  /** The orthographic camera's position: the box centre moved back along
      the viewing direction by the length of the extents plus one. */
  function OrthographicPosition(center: Vec3, fr: Frame, extentsLength: real): Vec3
  {
    Sub(center, Scale(fr.forward, extentsLength + 1.0))
  }

  /** q is inside the orthographic view volume of half-height size at the
      aspect ratio, and at least one unit in front of the camera. */
  predicate InOrthographicView(fr: Frame, cam: Vec3, size: real, aspect: real, q: Vec3)
  {
    var lp := LocalPoint(fr, cam, q);
    -size * aspect <= lp.x <= size * aspect && -size <= lp.y <= size && lp.z >= 1.0
  }

  /** The placement theorem of the orthographic branch: every corner of the
      box is in the view from the chosen position with the chosen size. */
  lemma OrthographicFits(b: Bounds, fr: Frame, aspect: real, extentsLength: real)
    requires ValidFrame(fr) && aspect > 0.0
    requires extentsLength >= 0.0 && extentsLength * extentsLength == SqrMagnitude(b.extents)
    ensures var ls := LocalPoints(fr, b.center, Corners(b.center, b.extents));
      var size := OrthographicSize(ExtentsBelow(ls, 8), aspect);
      forall i :: 0 <= i < 8 ==>
        InOrthographicView(fr, OrthographicPosition(b.center, fr, extentsLength), size, aspect,
                           Corner(b.center, b.extents, i))
  {
    var c, e := b.center, b.extents;
    var ls := LocalPoints(fr, c, Corners(c, e));
    var ex := ExtentsBelow(ls, 8);
    ExtentsBelowSpec(ls, 8);
    forall i | 0 <= i < 8
      ensures InOrthographicView(fr, OrthographicPosition(c, fr, extentsLength),
                                 OrthographicSize(ex, aspect), aspect, Corner(c, e, i))
    {
      CornerFits(b, fr, aspect, extentsLength, ex, i);
    }
  }

  /** One corner of OrthographicFits: it and its opposite corner are within
      the extents, which are therefore at least twice its distance from the
      centre line in each direction. */
  lemma CornerFits(b: Bounds, fr: Frame, aspect: real, extentsLength: real, ex: Extent2D, i: int)
    requires ValidFrame(fr) && aspect > 0.0 && 0 <= i < 8
    requires extentsLength >= 0.0 && extentsLength * extentsLength == SqrMagnitude(b.extents)
    requires Within(ex, LocalPoint(fr, b.center, Corner(b.center, b.extents, i)))
    requires Within(ex, LocalPoint(fr, b.center, Corner(b.center, b.extents, Opposite(i))))
    ensures InOrthographicView(fr, OrthographicPosition(b.center, fr, extentsLength),
                               OrthographicSize(ex, aspect), aspect, Corner(b.center, b.extents, i))
  {
    var c, e := b.center, b.extents;
    var size := OrthographicSize(ex, aspect);
    var q := Corner(c, e, i);
    var u := LocalPoint(fr, c, q);
    LocalShiftBack(fr, c, q, extentsLength + 1.0);
    LocalOpposite(fr, c, e, i);
    CornerInFront(fr, e, i, extentsLength);
    assert Sub(q, c) == Vec3(SignX[i] * e.x, SignY[i] * e.y, SignZ[i] * e.z);
    SizeAspect(size, aspect, ex.maxX - ex.minX);
  }

  /** Backing the camera off by t along forward leaves a point's camera x
      and y alone and adds t to its depth. */
  lemma LocalShiftBack(fr: Frame, c: Vec3, q: Vec3, t: real)
    requires ValidFrame(fr)
    ensures var u := LocalPoint(fr, c, q);
      LocalPoint(fr, Sub(c, Scale(fr.forward, t)), q) == Vec3(u.x, u.y, u.z + t)
  {
    FrameOrthogonal(fr);
    ShiftBack(fr.right, fr.forward, c, q, t);
    ShiftBack(fr.up, fr.forward, c, q, t);
    ShiftBack(fr.forward, fr.forward, c, q, t);
  }

  /** The opposite corner has the opposite camera coordinates about the
      centre. */
  lemma LocalOpposite(fr: Frame, c: Vec3, e: Vec3, i: int)
    requires 0 <= i < 8
    ensures LocalPoint(fr, c, Corner(c, e, Opposite(i))) == Neg(LocalPoint(fr, c, Corner(c, e, i)))
  {
    var q, qj := Corner(c, e, i), Corner(c, e, Opposite(i));
    CornerOpposite(c, e, i);
    assert Sub(qj, c) == Neg(Sub(q, c));
    DotNeg(fr.right, Sub(q, c));
    DotNeg(fr.up, Sub(q, c));
    DotNeg(fr.forward, Sub(q, c));
  }

  lemma SizeAspect(size: real, aspect: real, width: real)
    requires aspect > 0.0 && 2.0 * size * aspect >= width
    ensures width / 2.0 <= size * aspect
  {
  }

  /** Moving the camera back along forward leaves the coordinates along the
      other axes alone and adds the distance to the depth. */
  lemma ShiftBack(v: Vec3, f: Vec3, c: Vec3, q: Vec3, t: real)
    ensures Dot(v, Sub(q, Sub(c, Scale(f, t)))) == Dot(v, Sub(q, c)) + t * Dot(v, f)
  {
    assert Sub(q, Sub(c, Scale(f, t))) == Add(Sub(q, c), Scale(f, t));
    DotAdd(v, Sub(q, c), Scale(f, t));
    DotScale(v, f, t);
  }

  /** A corner is never further behind the centre than the length of the
      extents (Cauchy-Schwarz). */
  lemma CornerInFront(fr: Frame, e: Vec3, i: int, extentsLength: real)
    requires ValidFrame(fr) && 0 <= i < 8
    requires extentsLength >= 0.0 && extentsLength * extentsLength == SqrMagnitude(e)
    ensures Dot(fr.forward, Vec3(SignX[i] * e.x, SignY[i] * e.y, SignZ[i] * e.z)) >= -extentsLength
  {
    var v := Vec3(SignX[i] * e.x, SignY[i] * e.y, SignZ[i] * e.z);
    SignedSqrMagnitude(e, i);
    UnitCauchySchwarz(fr.forward, v);
    BoundedBySquare(Dot(fr.forward, v), extentsLength);
  }

  lemma SignedSqrMagnitude(e: Vec3, i: int)
    requires 0 <= i < 8
    ensures SqrMagnitude(Vec3(SignX[i] * e.x, SignY[i] * e.y, SignZ[i] * e.z)) == SqrMagnitude(e)
  {
    SignedSquare(SignX[i], e.x);
    SignedSquare(SignY[i], e.y);
    SignedSquare(SignZ[i], e.z);
  }

  lemma UnitCauchySchwarz(a: Vec3, b: Vec3)
    requires SqrMagnitude(a) == 1.0
    ensures Dot(a, b) * Dot(a, b) <= SqrMagnitude(b)
  {
    CauchySchwarz(a, b);
  }

  lemma SignedSquare(s: real, x: real)
    requires s == 1.0 || s == -1.0
    ensures (s * x) * (s * x) == x * x
  {
  }

  lemma BoundedBySquare(d: real, m: real)
    requires m >= 0.0 && d * d <= m * m
    ensures d >= -m
  {
    if d < -m {
      NegSquareGreater(d, m);
    }
  }

  lemma NegSquareGreater(d: real, m: real)
    requires -d > m >= 0.0
    ensures d * d > m * m
  {
    PositiveProduct(-d - m, -d + m);
    assert d * d - m * m == (-d - m) * (-d + m);
  }

  // ---------------------------------------------------------------------------
  // CalculateCameraPosition

  /** The icon render camera: the state the placement writes (position and
      orthographic size) and the settings it reads. */
  class RenderCamera {
    var position: Vec3
    var orthographicSize: real
    const frame: Frame
    const halfAngles: HalfAngles
    const aspect: real
    const orthographic: bool

    constructor (frame: Frame, halfAngles: HalfAngles, aspect: real, orthographic: bool,
                 position: Vec3, orthographicSize: real)
      ensures this.frame == frame && this.halfAngles == halfAngles
      ensures this.aspect == aspect && this.orthographic == orthographic
      ensures this.position == position && this.orthographicSize == orthographicSize
    {
      this.frame := frame;
      this.halfAngles := halfAngles;
      this.aspect := aspect;
      this.orthographic := orthographic;
      this.position := position;
      this.orthographicSize := orthographicSize;
    }

    /** A rotation for the axes, a field of view strictly between 0 and 180
        degrees and a positive aspect ratio; the horizontal half angle is
        atan(tan(vertical half angle) * aspect), that is tan H == aspect * tan V. */
    predicate Valid()
    {
      ValidFrame(frame) && ValidHalfAngles(halfAngles) && aspect > 0.0
      && halfAngles.sinH * halfAngles.cosV == aspect * halfAngles.sinV * halfAngles.cosH
    }
  }

  /** Pads the box, writes its corners into the points buffer and moves the
      camera so that the padded box fills its view. extentsLength is the
      length of the padded extents. */
  method CalculateCameraPosition(cam: RenderCamera, points: array<Vec3>, bounds: Bounds,
                                 padding: real, extentsLength: real)
    requires points.Length == 8 && cam.Valid()
    requires extentsLength >= 0.0
    requires extentsLength * extentsLength == SqrMagnitude(Pad(bounds, padding).extents)
    modifies cam, points
    ensures var b := Pad(bounds, padding); points[..] == Corners(b.center, b.extents)
    ensures cam.orthographic ==>
      var b := Pad(bounds, padding);
      && cam.position == OrthographicPosition(b.center, cam.frame, extentsLength)
      && cam.orthographicSize
         == OrthographicSize(ExtentsBelow(LocalPoints(cam.frame, b.center, points[..]), 8), cam.aspect)
      && forall i :: 0 <= i < 8 ==>
           InOrthographicView(cam.frame, cam.position, cam.orthographicSize, cam.aspect, points[i])
    ensures !cam.orthographic ==>
      && cam.position == PerspectivePosition(points[..], cam.frame, cam.halfAngles)
      && cam.orthographicSize == old(cam.orthographicSize)
      && forall i :: 0 <= i < 8 ==> InFrustum(cam.frame, cam.halfAngles, cam.position, points[i])
  {
    var b := Pad(bounds, padding);
    FillCorners(points, b);
    if cam.orthographic {
      PlaceOrthographic(cam, points, b, extentsLength);
    } else {
      PlacePerspective(cam, points);
    }
  }

  /** The orthographic branch: the view is sized from the corners' extents
      seen from the box centre, and the camera backs off along forward. */
  method PlaceOrthographic(cam: RenderCamera, points: array<Vec3>, b: Bounds, extentsLength: real)
    requires points.Length == 8 && cam.Valid() && points[..] == Corners(b.center, b.extents)
    requires extentsLength >= 0.0 && extentsLength * extentsLength == SqrMagnitude(b.extents)
    modifies cam
    ensures cam.position == OrthographicPosition(b.center, cam.frame, extentsLength)
    ensures cam.orthographicSize
         == OrthographicSize(ExtentsBelow(LocalPoints(cam.frame, b.center, points[..]), 8), cam.aspect)
    ensures forall i :: 0 <= i < 8 ==>
      InOrthographicView(cam.frame, cam.position, cam.orthographicSize, cam.aspect, points[i])
  {
    var fr := cam.frame;
    cam.position := b.center;
    var ex := LocalExtents(points, fr, cam.position);
    cam.orthographicSize := OrthographicSize(ex, cam.aspect);
    cam.position := OrthographicPosition(b.center, fr, extentsLength);
    OrthographicFits(b, fr, cam.aspect, extentsLength);
  }

  /** The perspective branch: the outermost corners for the four frustum
      normals, the two plane intersections and their closest points. */
  method PlacePerspective(cam: RenderCamera, points: array<Vec3>)
    requires points.Length > 0 && cam.Valid()
    modifies cam
    ensures cam.position == PerspectivePosition(points[..], cam.frame, cam.halfAngles)
    ensures cam.orthographicSize == old(cam.orthographicSize)
    ensures forall i :: 0 <= i < points.Length ==> InFrustum(cam.frame, cam.halfAngles, cam.position, points[i])
  {
    var fr, h := cam.frame, cam.halfAngles;
    var horizontal, vertical := FindPerspectiveLines(points, fr, h);
    ghost var ps := points[..];
    EdgesNotParallel(fr, h, horizontal.direction, vertical.direction);
    var closest := FindClosestPointsOnTwoLines(horizontal, vertical);
    cam.position := FartherBack(closest.0, closest.1, fr.forward);
    PerspectiveFits(ps, fr, h);
  }

  /** Steps 1-3 over the points buffer. */
  method FindPerspectiveLines(points: array<Vec3>, fr: Frame, h: HalfAngles) returns (horizontal: Ray, vertical: Ray)
    requires points.Length > 0 && ValidFrame(fr) && ValidHalfAngles(h)
    ensures (horizontal, vertical) == PerspectiveLines(points[..], fr, h)
  {
    var nL, nR, nT, nB := LeftNormal(fr, h), RightNormal(fr, h), TopNormal(fr, h), BottomNormal(fr, h);
    var ex := FindExtremes(points, nL, nR, nT, nB);
    ghost var ps := points[..];
    FirstOutermostFound(ps, nL);
    FirstOutermostFound(ps, nR);
    FirstOutermostFound(ps, nT);
    FirstOutermostFound(ps, nB);
    FrustumEdges(fr, h);
    horizontal := GetPlanesIntersection(PlaneThrough(nL, points[ex.left]), PlaneThrough(nR, points[ex.right]));
    vertical := GetPlanesIntersection(PlaneThrough(nT, points[ex.top]), PlaneThrough(nB, points[ex.bottom]));
  }
}
