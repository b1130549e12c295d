/** Axis-aligned bounding boxes as the icon generator uses them: the engine's
    Bounds value (a centre and half-extents), padding, the eight corners and
    the union of the boxes of a prefab's enabled renderers. */
module Boxes {

  import opened Vectors
  import opened Options

  datatype Bounds = Bounds(center: Vec3, extents: Vec3)

  function Min(b: Bounds): Vec3 { Sub(b.center, b.extents) }

  function Max(b: Bounds): Vec3 { Add(b.center, b.extents) }

  /** Componentwise a <= b. */
  predicate Le(a: Vec3, b: Vec3)
  {
    a.x <= b.x && a.y <= b.y && a.z <= b.z
  }

  /** A box whose minimum corner is not above its maximum corner, as every
      renderer's box is. */
  predicate WellFormed(b: Bounds)
  {
    Le(Min(b), Max(b))
  }

  function RMin(a: real, b: real): real { if a <= b then a else b }

  function RMax(a: real, b: real): real { if a >= b then a else b }

  function MinV(a: Vec3, b: Vec3): Vec3 { Vec3(RMin(a.x, b.x), RMin(a.y, b.y), RMin(a.z, b.z)) }

  function MaxV(a: Vec3, b: Vec3): Vec3 { Vec3(RMax(a.x, b.x), RMax(a.y, b.y), RMax(a.z, b.z)) }

  /** The box with the given minimum and maximum corners (Bounds.SetMinMax). */
  function FromMinMax(mn: Vec3, mx: Vec3): (b: Bounds)
    ensures Min(b) == mn && Max(b) == mx
  {
    Bounds(Scale(Add(mn, mx), 0.5), Scale(Sub(mx, mn), 0.5))
  }

  /** Bounds.Encapsulate(point): grow the box so that it contains p. */
  function EncapsulatePoint(b: Bounds, p: Vec3): (r: Bounds)
    ensures Min(r) == MinV(Min(b), p) && Max(r) == MaxV(Max(b), p)
  {
    FromMinMax(MinV(Min(b), p), MaxV(Max(b), p))
  }

  /** Bounds.Encapsulate(bounds): grow the box by the other box's minimum
      corner, then by its maximum corner. */
  function Encapsulate(b: Bounds, o: Bounds): (r: Bounds)
    ensures Le(Min(r), Min(b)) && Le(Max(b), Max(r))
    ensures Le(Min(r), Min(o)) && Le(Max(o), Max(r))
  {
    EncapsulatePoint(EncapsulatePoint(b, Min(o)), Max(o))
  }

  /** For boxes that are well formed, Encapsulate is the componentwise
      min/max union, and the union is well formed again. */
  lemma EncapsulateIsUnion(b: Bounds, o: Bounds)
    requires WellFormed(b) && WellFormed(o)
    ensures Min(Encapsulate(b, o)) == MinV(Min(b), Min(o))
    ensures Max(Encapsulate(b, o)) == MaxV(Max(b), Max(o))
    ensures WellFormed(Encapsulate(b, o))
  {
  }

  // ---------------------------------------------------------------------------
  // Padding (MapEdIconsGen.CalculateCameraPosition, before the corners)

  /** Setting Bounds.size to size * k scales the extents by k; the icon
      generator does this with k = 1 + 2 * padding when padding is not 0. */
  function Pad(b: Bounds, padding: real): (r: Bounds)
    ensures r.center == b.center
    ensures r.extents == Scale(b.extents, 1.0 + 2.0 * padding)
    ensures padding == 0.0 ==> r == b
  {
    if padding != 0.0 then
      var size := Scale(b.extents, 2.0);
      Bounds(b.center, Scale(Scale(size, 1.0 + padding * 2.0), 0.5))
    else
      b
  }

  /** A non-negative padding only grows a well-formed box. */
  lemma PadContains(b: Bounds, padding: real)
    requires WellFormed(b) && padding >= 0.0
    ensures WellFormed(Pad(b, padding))
    ensures Le(Min(Pad(b, padding)), Min(b)) && Le(Max(b), Max(Pad(b, padding)))
  {
    var k := 1.0 + 2.0 * padding;
    assert b.extents.x >= 0.0 && b.extents.y >= 0.0 && b.extents.z >= 0.0;
    ScaleGrows(b.extents.x, k);
    ScaleGrows(b.extents.y, k);
    ScaleGrows(b.extents.z, k);
  }

  lemma ScaleGrows(e: real, k: real)
    requires e >= 0.0 && k >= 1.0
    ensures e * k >= e
  {
    assert e * k - e == e * (k - 1.0);
  }

  // ---------------------------------------------------------------------------
  // The eight corners

  /** The sign pattern of corner i: corner 0 is centre + extents, and each
      following corner flips one coordinate of the one before. */
  const SignX: seq<real> := [1.0, -1.0, -1.0, 1.0, 1.0, -1.0, -1.0, 1.0]
  const SignY: seq<real> := [1.0, 1.0, -1.0, -1.0, -1.0, -1.0, 1.0, 1.0]
  const SignZ: seq<real> := [1.0, 1.0, 1.0, 1.0, -1.0, -1.0, -1.0, -1.0]

  function Corner(c: Vec3, e: Vec3, i: int): Vec3
    requires 0 <= i < 8
  {
    Vec3(c.x + SignX[i] * e.x, c.y + SignY[i] * e.y, c.z + SignZ[i] * e.z)
  }

  function Corners(c: Vec3, e: Vec3): (s: seq<Vec3>)
    ensures |s| == 8
    ensures forall i :: 0 <= i < 8 ==> s[i] == Corner(c, e, i)
  {
    seq(8, i requires 0 <= i < 8 => Corner(c, e, i))
  }

  /** Every corner takes each coordinate from centre +/- extents, and no two
      corners share a sign pattern: the eight corners are exactly the eight
      sign combinations. */
  lemma CornerSigns()
    ensures forall i :: 0 <= i < 8 ==>
      (SignX[i] == 1.0 || SignX[i] == -1.0) && (SignY[i] == 1.0 || SignY[i] == -1.0)
      && (SignZ[i] == 1.0 || SignZ[i] == -1.0)
    ensures forall i, j :: 0 <= i < j < 8 ==>
      SignX[i] != SignX[j] || SignY[i] != SignY[j] || SignZ[i] != SignZ[j]
  {
  }

  /** The corner opposite corner i through the centre (the pairs 0-5, 1-4,
      2-7 and 3-6): every sign flipped, and opposite of opposite is i. */
  function Opposite(i: int): (j: int)
    requires 0 <= i < 8
    ensures 0 <= j < 8 && [5, 4, 7, 6, 1, 0, 3, 2][j] == i
    ensures SignX[j] == -SignX[i] && SignY[j] == -SignY[i] && SignZ[j] == -SignZ[i]
  {
    [5, 4, 7, 6, 1, 0, 3, 2][i]
  }

  lemma CornerOpposite(c: Vec3, e: Vec3, i: int)
    requires 0 <= i < 8
    ensures Add(Corner(c, e, i), Corner(c, e, Opposite(i))) == Scale(c, 2.0)
  {
    var j := Opposite(i);
    assert SignX[j] * e.x == -(SignX[i] * e.x);
    assert SignY[j] * e.y == -(SignY[i] * e.y);
    assert SignZ[j] * e.z == -(SignZ[i] * e.z);
  }

  /** All corners lie on the surface of the box they come from. */
  lemma CornersInside(b: Bounds)
    requires WellFormed(b)
    ensures forall i :: 0 <= i < 8 ==>
      Le(Min(b), Corner(b.center, b.extents, i)) && Le(Corner(b.center, b.extents, i), Max(b))
  {
    forall i | 0 <= i < 8
      ensures Le(Min(b), Corner(b.center, b.extents, i)) && Le(Corner(b.center, b.extents, i), Max(b))
    {
      SignedWithin(SignX[i], b.extents.x);
      SignedWithin(SignY[i], b.extents.y);
      SignedWithin(SignZ[i], b.extents.z);
    }
  }

  lemma SignedWithin(s: real, e: real)
    requires s == 1.0 || s == -1.0
    requires e >= 0.0
    ensures -e <= s * e <= e
  {
  }

  /** Fills the first eight slots of the points buffer with the corners of the
      box, stepping from one corner to the next by one box size along one axis,
      as the camera placement does. */
  method FillCorners(points: array<Vec3>, b: Bounds)
    requires points.Length == 8
    modifies points
    ensures points[..] == Corners(b.center, b.extents)
  {
    var size := Scale(b.extents, 2.0);
    var point := Add(b.center, b.extents);
    points[0] := point;
    point := point.(x := point.x - size.x);
    points[1] := point;
    point := point.(y := point.y - size.y);
    points[2] := point;
    point := point.(x := point.x + size.x);
    points[3] := point;
    point := point.(z := point.z - size.z);
    points[4] := point;
    point := point.(x := point.x - size.x);
    points[5] := point;
    point := point.(y := point.y + size.y);
    points[6] := point;
    point := point.(x := point.x + size.x);
    points[7] := point;
    var c, e := b.center, b.extents;
    assert points[0] == Corner(c, e, 0);
    assert points[1] == Corner(c, e, 1);
    assert points[2] == Corner(c, e, 2);
    assert points[3] == Corner(c, e, 3);
    assert points[4] == Corner(c, e, 4);
    assert points[5] == Corner(c, e, 5);
    assert points[6] == Corner(c, e, 6);
    assert points[7] == Corner(c, e, 7);
  }

  // ---------------------------------------------------------------------------
  // CalculateBounds

  /** A renderer below the target object: whether it is enabled and its
      world-space box. */
  datatype Renderer = Renderer(enabled: bool, bounds: Bounds)

  /** The box accumulated over the renderers, left to right: the first
      enabled renderer's box, encapsulating each later enabled one. */
  function Combined(rs: seq<Renderer>): Option<Bounds>
  {
    if |rs| == 0 then None
    else
      var acc := Combined(rs[..|rs| - 1]);
      var last := rs[|rs| - 1];
      if !last.enabled then acc
      else if acc.None? then Some(last.bounds)
      else Some(Encapsulate(acc.value, last.bounds))
  }

  /** Computes whether any renderer is enabled and, if so, the combined box;
      the box is the default (zero) box otherwise. */
  method CalculateBounds(renderers: seq<Renderer>) returns (hasBounds: bool, bounds: Bounds)
    ensures hasBounds <==> exists i :: 0 <= i < |renderers| && renderers[i].enabled
    ensures hasBounds ==> Combined(renderers) == Some(bounds)
    ensures !hasBounds ==> bounds == Bounds(Zero, Zero)
  {
    bounds := Bounds(Zero, Zero);
    hasBounds := false;
    for i := 0 to |renderers|
      invariant hasBounds <==> Combined(renderers[..i]).Some?
      invariant hasBounds ==> Combined(renderers[..i]) == Some(bounds)
      invariant !hasBounds ==> bounds == Bounds(Zero, Zero)
    {
      assert renderers[..i + 1][..i] == renderers[..i];
      if !renderers[i].enabled {
        continue;
      }
      if !hasBounds {
        bounds := renderers[i].bounds;
        hasBounds := true;
      } else {
        bounds := Encapsulate(bounds, renderers[i].bounds);
      }
    }
    assert renderers[..|renderers|] == renderers;
    CombinedNone(renderers);
  }

  /** No box comes out exactly when no renderer is enabled. */
  lemma {:induction false} CombinedNone(rs: seq<Renderer>)
    ensures Combined(rs).None? <==> forall i :: 0 <= i < |rs| ==> !rs[i].enabled
  {
    if |rs| > 0 {
      var init := rs[..|rs| - 1];
      CombinedNone(init);
      assert forall i :: 0 <= i < |init| ==> init[i] == rs[i];
    }
  }

  predicate AllWellFormed(rs: seq<Renderer>)
  {
    forall i :: 0 <= i < |rs| ==> WellFormed(rs[i].bounds)
  }

  /** The combined box contains the box of every enabled renderer, and each
      of its six faces is a face of some enabled renderer's box: it is the
      componentwise min/max union of exactly the enabled boxes. */
  lemma {:induction false} CombinedIsUnion(rs: seq<Renderer>)
    requires AllWellFormed(rs)
    requires Combined(rs).Some?
    ensures WellFormed(Combined(rs).value)
    ensures forall i :: 0 <= i < |rs| && rs[i].enabled ==> Contains(Combined(rs).value, rs[i].bounds)
    ensures Attained(Combined(rs).value, rs)
  {
    var init := rs[..|rs| - 1];
    var last := rs[|rs| - 1];
    assert forall i :: 0 <= i < |init| ==> init[i] == rs[i];
    assert AllWellFormed(init);
    var acc := Combined(init);
    if !last.enabled {
      CombinedIsUnion(init);
      AttainedExtend(acc.value, init, rs);
    } else if acc.None? {
      CombinedNone(init);
      AttainedLast(rs);
    } else {
      CombinedIsUnion(init);
      AttainedExtend(acc.value, init, rs);
      AttainedLast(rs);
      UnionStep(acc.value, last.bounds, rs);
    }
  }

  /** b contains o. */
  predicate Contains(b: Bounds, o: Bounds)
  {
    Le(Min(b), Min(o)) && Le(Max(o), Max(b))
  }

  /** Face k of a box: its minimum x, y, z and its maximum x, y, z. */
  function Face(b: Bounds, k: int): real
    requires 0 <= k < 6
  {
    match k
    case 0 => Min(b).x
    case 1 => Min(b).y
    case 2 => Min(b).z
    case 3 => Max(b).x
    case 4 => Max(b).y
    case _ => Max(b).z
  }

  /** Each face of b is the same face of some enabled renderer's box. */
  predicate Attained(b: Bounds, rs: seq<Renderer>)
  {
    forall k :: 0 <= k < 6 ==>
      exists i :: 0 <= i < |rs| && rs[i].enabled && Face(b, k) == Face(rs[i].bounds, k)
  }

  lemma AttainedExtend(b: Bounds, init: seq<Renderer>, rs: seq<Renderer>)
    requires |rs| > 0 && init == rs[..|rs| - 1]
    requires Attained(b, init)
    ensures Attained(b, rs)
  {
    forall k | 0 <= k < 6
      ensures exists i :: 0 <= i < |rs| && rs[i].enabled && Face(b, k) == Face(rs[i].bounds, k)
    {
      var i :| 0 <= i < |init| && init[i].enabled && Face(b, k) == Face(init[i].bounds, k);
      assert rs[i] == init[i];
      assert 0 <= i < |rs| && rs[i].enabled && Face(b, k) == Face(rs[i].bounds, k);
    }
    assert forall k :: 0 <= k < 6 ==>
      exists i :: 0 <= i < |rs| && rs[i].enabled && Face(b, k) == Face(rs[i].bounds, k);
  }

  lemma AttainedLast(rs: seq<Renderer>)
    requires |rs| > 0 && rs[|rs| - 1].enabled
    ensures Attained(rs[|rs| - 1].bounds, rs)
  {
    var n := |rs| - 1;
    forall k | 0 <= k < 6
      ensures exists i :: 0 <= i < |rs| && rs[i].enabled && Face(rs[n].bounds, k) == Face(rs[i].bounds, k)
    {
      assert Face(rs[n].bounds, k) == Face(rs[n].bounds, k);
    }
  }

  /** Encapsulating a renderer's box keeps both properties of the union. */
  lemma UnionStep(a: Bounds, o: Bounds, rs: seq<Renderer>)
    requires Attained(a, rs) && Attained(o, rs)
    requires WellFormed(a) && WellFormed(o)
    ensures Attained(Encapsulate(a, o), rs)
    ensures Contains(Encapsulate(a, o), a) && Contains(Encapsulate(a, o), o)
  {
    EncapsulateIsUnion(a, o);
    var u := Encapsulate(a, o);
    forall k | 0 <= k < 6
      ensures exists i :: 0 <= i < |rs| && rs[i].enabled && Face(u, k) == Face(rs[i].bounds, k)
    {
      if Face(u, k) == Face(a, k) {
        var i :| 0 <= i < |rs| && rs[i].enabled && Face(a, k) == Face(rs[i].bounds, k);
        assert Face(u, k) == Face(rs[i].bounds, k);
      } else {
        assert Face(u, k) == Face(o, k);
        var i :| 0 <= i < |rs| && rs[i].enabled && Face(o, k) == Face(rs[i].bounds, k);
        assert Face(u, k) == Face(rs[i].bounds, k);
      }
    }
    assert forall k :: 0 <= k < 6 ==>
      exists i :: 0 <= i < |rs| && rs[i].enabled && Face(u, k) == Face(rs[i].bounds, k);
  }
}
