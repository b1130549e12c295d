/** Three-component vectors over the reals, standing in for the engine's
    single-precision Vector3, with the algebra the camera-fitting proofs use. */
module Vectors {

  datatype Vec3 = Vec3(x: real, y: real, z: real)

  const Zero := Vec3(0.0, 0.0, 0.0)

  function Add(a: Vec3, b: Vec3): Vec3 { Vec3(a.x + b.x, a.y + b.y, a.z + b.z) }

  function Sub(a: Vec3, b: Vec3): Vec3 { Vec3(a.x - b.x, a.y - b.y, a.z - b.z) }

  function Neg(a: Vec3): Vec3 { Vec3(-a.x, -a.y, -a.z) }

  function Scale(a: Vec3, k: real): Vec3 { Vec3(a.x * k, a.y * k, a.z * k) }

  /** Componentwise division by a scalar (the engine's Vector3 / float). */
  function Div(a: Vec3, k: real): Vec3
    requires k != 0.0
  {
    Vec3(a.x / k, a.y / k, a.z / k)
  }

  function Dot(a: Vec3, b: Vec3): real { a.x * b.x + a.y * b.y + a.z * b.z }

  function Cross(a: Vec3, b: Vec3): Vec3
  {
    Vec3(a.y * b.z - a.z * b.y, a.z * b.x - a.x * b.z, a.x * b.y - a.y * b.x)
  }

  /** Squared length (the engine's sqrMagnitude). */
  function SqrMagnitude(a: Vec3): real { Dot(a, a) }

  // ---------------------------------------------------------------------------
  // Linearity of the dot product

  lemma DotAdd(a: Vec3, b: Vec3, c: Vec3)
    ensures Dot(a, Add(b, c)) == Dot(a, b) + Dot(a, c)
  {
  }

  lemma DotSub(a: Vec3, b: Vec3, c: Vec3)
    ensures Dot(a, Sub(b, c)) == Dot(a, b) - Dot(a, c)
  {
  }

  lemma DotScale(a: Vec3, b: Vec3, k: real)
    ensures Dot(a, Scale(b, k)) == k * Dot(a, b)
    ensures Dot(Scale(b, k), a) == k * Dot(a, b)
  {
  }

  lemma DotSymm(a: Vec3, b: Vec3)
    ensures Dot(a, b) == Dot(b, a)
  {
  }

  lemma DotNeg(a: Vec3, b: Vec3)
    ensures Dot(a, Neg(b)) == -Dot(a, b)
  {
  }

  /** The dot product of a combination of two vectors with a third. */
  lemma DotCombination(p: Vec3, q: Vec3, a: real, b: real, w: Vec3)
    ensures Dot(Add(Scale(p, a), Scale(q, b)), w) == a * Dot(p, w) + b * Dot(q, w)
  {
    DotSymm(Add(Scale(p, a), Scale(q, b)), w);
    DotAdd(w, Scale(p, a), Scale(q, b));
    DotScale(w, p, a);
    DotScale(w, q, b);
    DotSymm(w, p);
    DotSymm(w, q);
  }

  lemma DotScaleBoth(u: Vec3, v: Vec3, a: real, b: real)
    ensures Dot(Scale(u, a), Scale(v, b)) == a * b * Dot(u, v)
  {
    DotScale(Scale(u, a), v, b);
    DotScale(v, u, a);
    DotSymm(Scale(u, a), v);
    DotSymm(u, v);
  }

  lemma SqrMagnitudeScale(v: Vec3, k: real)
    ensures SqrMagnitude(Scale(v, k)) == k * k * SqrMagnitude(v)
  {
    DotScaleBoth(v, v, k, k);
  }

  lemma SqrMagnitudeNonNegative(a: Vec3)
    ensures SqrMagnitude(a) >= 0.0
    ensures a != Zero ==> SqrMagnitude(a) > 0.0
  {
    if a == Zero {
      assert SqrMagnitude(a) == 0.0;
    } else {
      SqrMagnitudePositive(a);
    }
  }

  lemma SqrMagnitudePositive(a: Vec3)
    requires a != Zero
    ensures SqrMagnitude(a) > 0.0
  {
    assert a.x != 0.0 || a.y != 0.0 || a.z != 0.0;
    SumOfSquaresPositive(a.x, a.y, a.z);
    calc {
      SqrMagnitude(a);
      a.x * a.x + a.y * a.y + a.z * a.z;
      > 0.0;
    }
  }

  lemma SquareNonNegative(r: real)
    ensures r * r >= 0.0
  {
    if r < 0.0 {
      assert r * r == (-r) * (-r);
    }
  }

  lemma SquarePositive(r: real)
    requires r != 0.0
    ensures r * r > 0.0
  {
    if r < 0.0 {
      assert r * r == (-r) * (-r);
    }
  }

  lemma SumOfSquaresPositive(x: real, y: real, z: real)
    requires x != 0.0 || y != 0.0 || z != 0.0
    ensures x * x + y * y + z * z > 0.0
  {
    if x != 0.0 {
      SumOfSquaresPositiveMiddle(y, x, z);
    } else if y != 0.0 {
      SumOfSquaresPositiveMiddle(x, y, z);
    } else {
      SumOfSquaresPositiveMiddle(x, z, y);
    }
  }

  lemma SumOfSquaresPositiveMiddle(x: real, y: real, z: real)
    requires y != 0.0
    ensures x * x + y * y + z * z > 0.0
  {
    SquareNonNegative(x);
    SquarePositive(y);
    SquareNonNegative(z);
  }

  // ---------------------------------------------------------------------------
  // The cross product

  /** a x b is orthogonal to both of its arguments. */
  lemma CrossOrthogonal(a: Vec3, b: Vec3)
    ensures Dot(a, Cross(a, b)) == 0.0
    ensures Dot(b, Cross(a, b)) == 0.0
  {
  }

  lemma CrossAntiSymm(a: Vec3, b: Vec3)
    ensures Cross(a, b) == Neg(Cross(b, a))
  {
  }

  /** The scalar triple product is invariant under cyclic rotation, and
      changes sign when two arguments are swapped. */
  lemma TripleProduct(a: Vec3, b: Vec3, c: Vec3)
    ensures Dot(a, Cross(b, c)) == Dot(b, Cross(c, a))
    ensures Dot(a, Cross(b, c)) == Dot(c, Cross(a, b))
    ensures Dot(a, Cross(c, b)) == -Dot(a, Cross(b, c))
  {
    TripleDet(a, b, c);
    TripleDet(b, c, a);
    TripleDet(c, a, b);
    TripleDet(a, c, b);
  }

  /** The triple product of a, b and c is the determinant of their rows. */
  function Det(a: Vec3, b: Vec3, c: Vec3): real
  {
    a.x * b.y * c.z + a.y * b.z * c.x + a.z * b.x * c.y
    - a.x * b.z * c.y - a.y * b.x * c.z - a.z * b.y * c.x
  }

  lemma TripleDet(a: Vec3, b: Vec3, c: Vec3)
    ensures Dot(a, Cross(b, c)) == Det(a, b, c)
    ensures Det(b, c, a) == Det(a, b, c) && Det(a, c, b) == -Det(a, b, c)
  {
  }

  /** Bilinearity of the cross product, for the combinations the frustum
      normals take: (a p + b q) x (c p + d q) = (ad - bc) (p x q). */
  lemma CrossCombination(p: Vec3, q: Vec3, a: real, b: real, c: real, d: real)
    ensures Cross(Add(Scale(p, a), Scale(q, b)), Add(Scale(p, c), Scale(q, d)))
         == Scale(Cross(p, q), a * d - b * c)
  {
    CrossCombinationExpanded(p.x, p.y, p.z, q.x, q.y, q.z, a, b, c, d);
    CrossScaledExpanded(p.x, p.y, p.z, q.x, q.y, q.z, a, b, c, d);
    assert p == Vec3(p.x, p.y, p.z) && q == Vec3(q.x, q.y, q.z);
  }

  lemma CrossCombinationExpanded(px: real, py: real, pz: real, qx: real, qy: real, qz: real,
                                 a: real, b: real, c: real, d: real)
    ensures Cross(Vec3(px * a + qx * b, py * a + qy * b, pz * a + qz * b),
                  Vec3(px * c + qx * d, py * c + qy * d, pz * c + qz * d))
         == Vec3((py * qz - pz * qy) * (a * d - b * c),
                 (pz * qx - px * qz) * (a * d - b * c),
                 (px * qy - py * qx) * (a * d - b * c))
  {
    Bilinear(py, qy, pz, qz, a, b, c, d);
    Bilinear(pz, qz, px, qx, a, b, c, d);
    Bilinear(px, qx, py, qy, a, b, c, d);
  }

  lemma CrossScaledExpanded(px: real, py: real, pz: real, qx: real, qy: real, qz: real,
                            a: real, b: real, c: real, d: real)
    ensures Scale(Cross(Vec3(px, py, pz), Vec3(qx, qy, qz)), a * d - b * c)
         == Vec3((py * qz - pz * qy) * (a * d - b * c),
                 (pz * qx - px * qz) * (a * d - b * c),
                 (px * qy - py * qx) * (a * d - b * c))
  {
  }

  /** One component of CrossCombination. */
  lemma Bilinear(p1: real, q1: real, p2: real, q2: real, a: real, b: real, c: real, d: real)
    ensures (p1 * a + q1 * b) * (p2 * c + q2 * d) - (p2 * a + q2 * b) * (p1 * c + q1 * d)
         == (p1 * q2 - p2 * q1) * (a * d - b * c)
  {
    calc {
      (p1 * a + q1 * b) * (p2 * c + q2 * d) - (p2 * a + q2 * b) * (p1 * c + q1 * d);
      (p1 * a * p2 * c + p1 * a * q2 * d + q1 * b * p2 * c + q1 * b * q2 * d)
        - (p2 * a * p1 * c + p2 * a * q1 * d + q2 * b * p1 * c + q2 * b * q1 * d);
      p1 * q2 * (a * d) - p1 * q2 * (b * c) - p2 * q1 * (a * d) + p2 * q1 * (b * c);
    }
  }

  /** Lagrange's identity: |a|^2 |b|^2 - (a.b)^2 = |a x b|^2, which gives
      the Cauchy-Schwarz inequality. */
  lemma Lagrange(a: Vec3, b: Vec3)
    ensures SqrMagnitude(a) * SqrMagnitude(b) - Dot(a, b) * Dot(a, b) == SqrMagnitude(Cross(a, b))
  {
  }

  lemma CauchySchwarz(a: Vec3, b: Vec3)
    ensures Dot(a, b) * Dot(a, b) <= SqrMagnitude(a) * SqrMagnitude(b)
  {
    Lagrange(a, b);
    SqrMagnitudeNonNegative(Cross(a, b));
  }
}
