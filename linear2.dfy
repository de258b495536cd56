/**
 * The 2x2 linear algebra the estimator uses: 2-vectors [SOC, Health], 2x2 matrices,
 * the products numpy's `@` computes, and the closed-form inverse that
 * numpy.linalg.inv computes for a 2x2 matrix.
 */
module Linear2 {

  datatype Vec2 = Vec2(e0: real, e1: real)

  /** Row-major: [[m00, m01], [m10, m11]]. */
  datatype Mat2 = Mat2(m00: real, m01: real, m10: real, m11: real)

  function Identity(): Mat2 { Mat2(1.0, 0.0, 0.0, 1.0) }

  /** numpy.diag([a, b]) */
  function Diag(a: real, b: real): Mat2 { Mat2(a, 0.0, 0.0, b) }

  function Add(a: Mat2, b: Mat2): Mat2 {
    Mat2(a.m00 + b.m00, a.m01 + b.m01, a.m10 + b.m10, a.m11 + b.m11)
  }

  function Sub(a: Mat2, b: Mat2): Mat2 {
    Mat2(a.m00 - b.m00, a.m01 - b.m01, a.m10 - b.m10, a.m11 - b.m11)
  }

  /** a @ b */
  function Mul(a: Mat2, b: Mat2): Mat2 {
    Mat2(a.m00 * b.m00 + a.m01 * b.m10, a.m00 * b.m01 + a.m01 * b.m11,
         a.m10 * b.m00 + a.m11 * b.m10, a.m10 * b.m01 + a.m11 * b.m11)
  }

  function Transpose(a: Mat2): Mat2 { Mat2(a.m00, a.m10, a.m01, a.m11) }

  /** m @ v */
  function Apply(m: Mat2, v: Vec2): Vec2 {
    Vec2(m.m00 * v.e0 + m.m01 * v.e1, m.m10 * v.e0 + m.m11 * v.e1)
  }

  function VAdd(u: Vec2, v: Vec2): Vec2 { Vec2(u.e0 + v.e0, u.e1 + v.e1) }

  function VSub(u: Vec2, v: Vec2): Vec2 { Vec2(u.e0 - v.e0, u.e1 - v.e1) }

  /** u.T @ v */
  function Dot(u: Vec2, v: Vec2): real { u.e0 * v.e0 + u.e1 * v.e1 }

  function Det(m: Mat2): real { m.m00 * m.m11 - m.m01 * m.m10 }

  predicate IsDiagonal(m: Mat2) { m.m01 == 0.0 && m.m10 == 0.0 }

  predicate IsSymmetric(m: Mat2) { m.m01 == m.m10 }

  /** A diagonal matrix with strictly positive diagonal: a positive-definite covariance. */
  predicate IsPositiveDiagonal(m: Mat2) {
    IsDiagonal(m) && m.m00 > 0.0 && m.m11 > 0.0
  }

  /** numpy.linalg.inv on a non-singular 2x2 matrix: the adjugate divided by the determinant. */
  function Inverse(m: Mat2): Mat2
    requires Det(m) != 0.0
  {
    var d := Det(m);
    Mat2(m.m11 / d, -m.m01 / d, -m.m10 / d, m.m00 / d)
  }

  /** Inverse(m) is a two-sided inverse of m. */
  lemma InverseIsTwoSided(m: Mat2)
    requires Det(m) != 0.0
    ensures Mul(m, Inverse(m)) == Identity()
    ensures Mul(Inverse(m), m) == Identity()
  {
    var d := Det(m);
    var r := Inverse(m);
    assert m.m00 * r.m00 + m.m01 * r.m10 == (m.m00 * m.m11 - m.m01 * m.m10) / d == 1.0;
    assert m.m00 * r.m01 + m.m01 * r.m11 == (m.m01 * m.m00 - m.m00 * m.m01) / d == 0.0;
    assert m.m10 * r.m00 + m.m11 * r.m10 == (m.m10 * m.m11 - m.m11 * m.m10) / d == 0.0;
    assert m.m10 * r.m01 + m.m11 * r.m11 == (m.m00 * m.m11 - m.m01 * m.m10) / d == 1.0;
    assert r.m00 * m.m00 + r.m01 * m.m10 == (m.m00 * m.m11 - m.m01 * m.m10) / d == 1.0;
    assert r.m00 * m.m01 + r.m01 * m.m11 == (m.m11 * m.m01 - m.m01 * m.m11) / d == 0.0;
    assert r.m10 * m.m00 + r.m11 * m.m10 == (m.m00 * m.m10 - m.m10 * m.m00) / d == 0.0;
    assert r.m10 * m.m01 + r.m11 * m.m11 == (m.m00 * m.m11 - m.m01 * m.m10) / d == 1.0;
  }

  /** The inverse of a symmetric matrix is symmetric; of a diagonal one, diagonal with reciprocals. */
  lemma InverseShape(m: Mat2)
    requires Det(m) != 0.0
    ensures IsSymmetric(m) ==> IsSymmetric(Inverse(m))
    ensures IsDiagonal(m) ==> Inverse(m) == Diag(1.0 / m.m00, 1.0 / m.m11)
  {
    if IsDiagonal(m) {
      assert Det(m) == m.m00 * m.m11;
      assert m.m11 / (m.m00 * m.m11) == 1.0 / m.m00;
      assert m.m00 / (m.m00 * m.m11) == 1.0 / m.m11;
    }
  }

  lemma IdentityNeutral(a: Mat2, v: Vec2)
    ensures Mul(a, Identity()) == a && Mul(Identity(), a) == a
    ensures Transpose(Identity()) == Identity()
    ensures Apply(Identity(), v) == v
  {
  }

  /** (I - K) @ P == P - K @ P */
  lemma ComplementMul(k: Mat2, p: Mat2)
    ensures Mul(Sub(Identity(), k), p) == Sub(p, Mul(k, p))
  {
    assert (1.0 - k.m00) * p.m00 + (0.0 - k.m01) * p.m10 == p.m00 - (k.m00 * p.m00 + k.m01 * p.m10);
    assert (1.0 - k.m00) * p.m01 + (0.0 - k.m01) * p.m11 == p.m01 - (k.m00 * p.m01 + k.m01 * p.m11);
    assert (0.0 - k.m10) * p.m00 + (1.0 - k.m11) * p.m10 == p.m10 - (k.m10 * p.m00 + k.m11 * p.m10);
    assert (0.0 - k.m10) * p.m01 + (1.0 - k.m11) * p.m11 == p.m11 - (k.m10 * p.m01 + k.m11 * p.m11);
  }

  /** Diagonal matrices multiply, and act on vectors, entry by entry. */
  lemma DiagonalProducts(a: Mat2, b: Mat2, y: Vec2)
    requires IsDiagonal(a) && IsDiagonal(b)
    ensures Mul(a, b) == Diag(a.m00 * b.m00, a.m11 * b.m11)
    ensures Apply(a, y) == Vec2(a.m00 * y.e0, a.m11 * y.e1)
  {
  }
}
