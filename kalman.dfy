/**
 * The linear Kalman filter of the main loop over the belief [SOC_est, Health_est]:
 * transition F = I and observation H = I, predict with process noise Q,
 * correct with measurement noise R, and the normalized innovation squared (NIS).
 */
module Kalman {
  import opened Numerics
  import opened Linear2
  import opened Wrappers

  /** Mean and covariance of the estimate (X_est, P). */
  datatype Belief = Belief(x: Vec2, p: Mat2)

  /** What one correction produces: the new belief, the innovation y and its covariance S. */
  datatype Correction = Correction(x: Vec2, p: Mat2, y: Vec2, s: Mat2)

  /** numpy.linalg.LinAlgError, raised when S cannot be inverted. */
  datatype LinAlgError = SingularMatrix

  /** F = np.eye(2) */
  function Transition(): Mat2 { Identity() }

  /** H_mat = np.eye(2) */
  function Observation(): Mat2 { Identity() }

  /** The gain K = P_pred @ H.T @ inv(S). */
  function Gain(pPred: Mat2, s: Mat2): Mat2
    requires Det(s) != 0.0
  {
    Mul(Mul(pPred, Transpose(Observation())), Inverse(s))
  }

  /**
   * Predict: X_pred is a copy of X_est and P_pred = F P F.T + Q.
   * With F = I the mean is unchanged and Q is added to the covariance.
   */
  function Predict(b: Belief, q: Mat2): (r: Belief)
    ensures r.x == b.x
    ensures r.p == Add(b.p, q)
  {
    var f := Transition();
    Belief(b.x, Add(Mul(Mul(f, b.p), Transpose(f)), q))
  }

  /**
   * Update: y = z - H X_pred, S = H P_pred H.T + R, K = P_pred H.T inv(S),
   * X_est = X_pred + K y, P = (I - K H) P_pred. It fails exactly when S is singular.
   * With H = I: y = z - X_pred, S = P_pred + R and P = P_pred - K P_pred.
   */
  function Update(pred: Belief, z: Vec2, r: Mat2): (res: Result<Correction, LinAlgError>)
    ensures res.Failure? <==> Det(Add(pred.p, r)) == 0.0
    ensures res.Success? ==>
      && res.value.y == VSub(z, pred.x)
      && res.value.s == Add(pred.p, r)
      && res.value.x == VAdd(pred.x, Apply(Mul(pred.p, Inverse(res.value.s)), res.value.y))
      && res.value.p == Sub(pred.p, Mul(Mul(pred.p, Inverse(res.value.s)), pred.p))
  {
    var h := Observation();
    IdentityNeutral(pred.p, pred.x);
    var y := VSub(z, Apply(h, pred.x));
    var s := Add(Mul(Mul(h, pred.p), Transpose(h)), r);
    if Det(s) == 0.0 then
      Failure(SingularMatrix)
    else
      var k := Gain(pred.p, s);
      IdentityNeutral(k, y);
      ComplementMul(k, pred.p);
      Success(Correction(VAdd(pred.x, Apply(k, y)), Mul(Sub(Identity(), Mul(k, h)), pred.p), y, s))
  }

  /** NIS = y.T @ inv(S) @ y */
  function Nis(y: Vec2, s: Mat2): real
    requires Det(s) != 0.0
  {
    Dot(y, Apply(Inverse(s), y))
  }

  /** Scenario of a measurement that equals the prediction: the update keeps the mean and NIS is 0. */
  lemma ZeroInnovation(pred: Belief, r: Mat2)
    requires Det(Add(pred.p, r)) != 0.0
    ensures Update(pred, pred.x, r).Success?
    ensures Update(pred, pred.x, r).value.x == pred.x
    ensures Update(pred, pred.x, r).value.y == Vec2(0.0, 0.0)
    ensures Nis(Update(pred, pred.x, r).value.y, Update(pred, pred.x, r).value.s) == 0.0
  {
  }

  /**
   * With a positive diagonal predicted covariance and measurement noise, the update
   * cannot fail, the covariance stays positive diagonal and shrinks, each estimate
   * lies between prediction and measurement, and S is positive diagonal.
   */
  lemma DiagonalUpdate(pred: Belief, z: Vec2, r: Mat2)
    requires IsPositiveDiagonal(pred.p) && IsPositiveDiagonal(r)
    ensures Update(pred, z, r).Success?
    ensures var c := Update(pred, z, r).value;
      && IsPositiveDiagonal(c.p)
      && c.p.m00 < pred.p.m00 && c.p.m11 < pred.p.m11
      && c.p.m00 == pred.p.m00 * r.m00 / (pred.p.m00 + r.m00)
      && c.p.m11 == pred.p.m11 * r.m11 / (pred.p.m11 + r.m11)
      && Between(c.x.e0, pred.x.e0, z.e0)
      && Between(c.x.e1, pred.x.e1, z.e1)
      && IsPositiveDiagonal(c.s)
  {
    var p := pred.p;
    DiagonalGain(p, r);
    var k := Mul(p, Inverse(Add(p, r)));
    var c := Update(pred, z, r).value;
    assert c.s == Add(p, r);
    assert c.p == Sub(p, Mul(k, p));
    DiagonalCovariance(p, r, k, c.p);
    DiagonalMean(pred.x, z, k, c.x);
  }

  /** With P and R positive diagonal, S = P + R is invertible and the gain P S^-1 is diagonal. */
  lemma DiagonalGain(p: Mat2, r: Mat2)
    requires IsPositiveDiagonal(p) && IsPositiveDiagonal(r)
    ensures IsPositiveDiagonal(Add(p, r)) && Det(Add(p, r)) != 0.0
    ensures Mul(p, Inverse(Add(p, r))) == Diag(p.m00 * (1.0 / (p.m00 + r.m00)), p.m11 * (1.0 / (p.m11 + r.m11)))
  {
    var s := Add(p, r);
    assert s == Diag(p.m00 + r.m00, p.m11 + r.m11);
    assert Det(s) == (p.m00 + r.m00) * (p.m11 + r.m11);
    PositiveProduct(p.m00 + r.m00, p.m11 + r.m11);
    InverseShape(s);
    DiagonalProducts(p, Inverse(s), Vec2(0.0, 0.0));
  }

  lemma DiagonalCovariance(p: Mat2, r: Mat2, k: Mat2, pNew: Mat2)
    requires IsPositiveDiagonal(p) && IsPositiveDiagonal(r)
    requires k == Diag(p.m00 * (1.0 / (p.m00 + r.m00)), p.m11 * (1.0 / (p.m11 + r.m11)))
    requires pNew == Sub(p, Mul(k, p))
    ensures IsPositiveDiagonal(pNew)
    ensures pNew.m00 < p.m00 && pNew.m11 < p.m11
    ensures pNew.m00 == p.m00 * r.m00 / (p.m00 + r.m00)
    ensures pNew.m11 == p.m11 * r.m11 / (p.m11 + r.m11)
  {
    DiagonalProducts(k, p, Vec2(0.0, 0.0));
    GainBounds(p.m00, r.m00);
    GainBounds(p.m11, r.m11);
  }

  lemma DiagonalMean(x: Vec2, z: Vec2, k: Mat2, xNew: Vec2)
    requires IsDiagonal(k) && 0.0 < k.m00 < 1.0 && 0.0 < k.m11 < 1.0
    requires xNew == VAdd(x, Apply(k, VSub(z, x)))
    ensures Between(xNew.e0, x.e0, z.e0) && Between(xNew.e1, x.e1, z.e1)
  {
    DiagonalProducts(k, k, VSub(z, x));
    ConvexStep(x.e0, z.e0, k.m00);
    ConvexStep(x.e1, z.e1, k.m11);
  }

  /** For a positive diagonal S, NIS is the non-negative sum of y_i^2 / S_ii. */
  lemma DiagonalNis(y: Vec2, s: Mat2)
    requires IsPositiveDiagonal(s)
    ensures Det(s) != 0.0
    ensures Nis(y, s) == y.e0 * y.e0 / s.m00 + y.e1 * y.e1 / s.m11
    ensures Nis(y, s) >= 0.0
  {
    PositiveProduct(s.m00, s.m11);
    InverseShape(s);
    DiagonalProducts(Inverse(s), Inverse(s), y);
    NisTerm(y.e0, s.m00);
    NisTerm(y.e1, s.m11);
  }

  lemma PositiveProduct(a: real, b: real)
    requires a > 0.0 && b > 0.0
    ensures a * b > 0.0
  {
  }

  /** y * ((1 / s) * y) == y^2 / s >= 0 for s > 0 */
  lemma NisTerm(y: real, s: real)
    requires s > 0.0
    ensures y * ((1.0 / s) * y) == y * y / s
    ensures y * y / s >= 0.0
  {
    assert y * y >= 0.0;
  }

  /** v lies in the closed interval spanned by a and b, whichever order they come in. */
  predicate Between(v: real, a: real, b: real) {
    (a <= v <= b) || (b <= v <= a)
  }

  /** The scalar gain g = p * (1 / (p + r)) of one diagonal entry. */
  lemma GainBounds(p: real, r: real)
    requires p > 0.0 && r > 0.0
    ensures 0.0 < p * (1.0 / (p + r)) < 1.0
    ensures p - p * (1.0 / (p + r)) * p == p * r / (p + r)
    ensures 0.0 < p * r / (p + r) < p
  {
    var g := p * (1.0 / (p + r));
    assert g == p / (p + r);
    assert g * (p + r) == p;
    assert p - g * p == p * (1.0 - g);
    assert 1.0 - g == r / (p + r);
    assert p * (r / (p + r)) == p * r / (p + r);
    assert p * r / (p + r) < p by {
      assert p * r < p * (p + r);
    }
  }

  /** A gain strictly between 0 and 1 moves the estimate part of the way to the measurement. */
  lemma ConvexStep(x: real, z: real, g: real)
    requires 0.0 < g < 1.0
    ensures Between(x + g * (z - x), x, z)
  {
    Offset(x, z, z - x, g);
  }

  /** x + g d lies between x and z = x + d for any 0 <= g <= 1, whatever the sign of d. */
  lemma Offset(x: real, z: real, d: real, g: real)
    requires 0.0 <= g <= 1.0 && z == x + d
    ensures Between(x + g * d, x, z)
  {
    if d >= 0.0 {
      ScaledBounds(g, d);
    } else {
      ScaledBounds(g, -d);
      assert g * (-d) == -(g * d);
    }
  }

  /**
   * For symmetric P_pred and R the corrected covariance P_pred - P_pred inv(S) P_pred
   * is symmetric again.
   */
  lemma SymmetricUpdate(pred: Belief, z: Vec2, r: Mat2)
    requires IsSymmetric(pred.p) && IsSymmetric(r)
    requires Det(Add(pred.p, r)) != 0.0
    ensures IsSymmetric(Update(pred, z, r).value.p)
  {
    var s := Add(pred.p, r);
    InverseShape(s);
    SandwichSymmetric(pred.p, Inverse(s));
  }

  /** A B A is symmetric when A and B are. */
  lemma SandwichSymmetric(a: Mat2, b: Mat2)
    requires IsSymmetric(a) && IsSymmetric(b)
    ensures IsSymmetric(Mul(Mul(a, b), a))
  {
    var ab := Mul(a, b);
    SandwichEntries(a.m00, a.m01, a.m11, b.m00, b.m01, b.m11, ab.m00, ab.m01, ab.m10, ab.m11);
  }

  /**
   * With A = [[x, s], [s, y]], B = [[p, q], [q, r]] and A B = [[e00, e01], [e10, e11]],
   * the off-diagonal entries of A B A agree.
   */
  lemma SandwichEntries(x: real, s: real, y: real, p: real, q: real, r: real,
                        e00: real, e01: real, e10: real, e11: real)
    requires e00 == x * p + s * q && e01 == x * q + s * r
    requires e10 == s * p + y * q && e11 == s * q + y * r
    ensures e00 * s + e01 * y == e10 * x + e11 * s
  {
    assert e00 * s == x * p * s + s * q * s;
    assert e01 * y == x * q * y + s * r * y;
    assert e10 * x == s * p * x + y * q * x;
    assert e11 * s == s * q * s + y * r * s;
  }


}
