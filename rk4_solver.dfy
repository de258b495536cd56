/**
 * One classical Runge-Kutta step over a derivative function f, followed by
 * clamping the SOC and battery-health components of the result to [0, 1].
 */
module Rk4Solver {
  import opened Numerics
  import opened StateSpace

  /** The four slopes k1..k4 of one step. */
  datatype Slopes = Slopes(k1: State, k2: State, k3: State, k4: State)

  /**
   * k1 = f(t, X), k2 = f(t + dt/2, X + dt/2 k1), k3 = f(t + dt/2, X + dt/2 k2),
   * k4 = f(t + dt, X + dt k3), all with the same controls and disturbances.
   */
  function Stages<U, D>(f: (real, State, U, D) -> State, t: real, x: State, u: U, d: D, dt: real): Slopes {
    var k1 := f(t, x, u, d);
    var k2 := f(t + dt / 2.0, Plus(x, Times(dt / 2.0, k1)), u, d);
    var k3 := f(t + dt / 2.0, Plus(x, Times(dt / 2.0, k2)), u, d);
    var k4 := f(t + dt, Plus(x, Times(dt, k3)), u, d);
    Slopes(k1, k2, k3, k4)
  }

  /** The weighted slope average k1 + 2 k2 + 2 k3 + k4 of component i, scaled by dt / 6. */
  function Increment(k: Slopes, dt: real, i: nat): real
    requires i < StateSize
  {
    dt / 6.0 * (k.k1[i] + 2.0 * k.k2[i] + 2.0 * k.k3[i] + k.k4[i])
  }

  /** X_next = X + (dt/6) * (k1 + 2 k2 + 2 k3 + k4), before clamping; a new vector. */
  function Combine<U, D>(f: (real, State, U, D) -> State, t: real, x: State, u: U, d: D, dt: real): (r: State)
    ensures forall i :: 0 <= i < StateSize ==> r[i] == x[i] + Increment(Stages(f, t, x, u, d, dt), dt, i)
  {
    var k := Stages(f, t, x, u, d, dt);
    Plus(x, Times(dt / 6.0, Plus(Plus(Plus(k.k1, Times(2.0, k.k2)), Times(2.0, k.k3)), k.k4)))
  }

  /** Components 0 (SOC) and 7 (battery health) clipped to [0, 1], the rest unchanged. */
  function ClampSocAndHealth(v: State): (r: State)
    ensures 0.0 <= r[SocIndex] <= 1.0 && 0.0 <= r[HealthIndex] <= 1.0
    ensures r[SocIndex] == Clip(v[SocIndex], 0.0, 1.0)
    ensures r[HealthIndex] == Clip(v[HealthIndex], 0.0, 1.0)
    ensures forall i :: 0 <= i < StateSize && i != SocIndex && i != HealthIndex ==> r[i] == v[i]
  {
    v[SocIndex := Clip(v[SocIndex], 0.0, 1.0)][HealthIndex := Clip(v[HealthIndex], 0.0, 1.0)]
  }

  /**
   * What rk4_step returns: SOC and battery health lie in [0, 1], each as the clip of
   * its RK4 value, and every other component is exactly its RK4 value.
   */
  function Rk4Result<U, D>(f: (real, State, U, D) -> State, t: real, x: State, u: U, d: D, dt: real): (r: State)
    ensures 0.0 <= r[SocIndex] <= 1.0 && 0.0 <= r[HealthIndex] <= 1.0
    ensures r[SocIndex] == Clip(x[SocIndex] + Increment(Stages(f, t, x, u, d, dt), dt, SocIndex), 0.0, 1.0)
    ensures r[HealthIndex] == Clip(x[HealthIndex] + Increment(Stages(f, t, x, u, d, dt), dt, HealthIndex), 0.0, 1.0)
    ensures forall i :: 0 <= i < StateSize && i != SocIndex && i != HealthIndex ==>
      r[i] == x[i] + Increment(Stages(f, t, x, u, d, dt), dt, i)
  {
    ClampSocAndHealth(Combine(f, t, x, u, d, dt))
  }

  /**
   * rk4_step(f, t, X, U, D, dt): build the combination into a fresh array, then clip
   * its SOC and health entries in place. X itself is never written.
   */
  method Rk4Step<U, D>(f: (real, State, U, D) -> State, t: real, x: array<real>, u: U, d: D, dt: real)
      returns (xNext: array<real>)
    requires x.Length == StateSize
    ensures fresh(xNext)
    ensures x[..] == old(x[..])
    ensures xNext[..] == Rk4Result(f, t, old(x[..]), u, d, dt)
  {
    var combined := Combine(f, t, x[..], u, d, dt);
    xNext := new real[StateSize](i requires 0 <= i < StateSize => combined[i]);
    xNext[SocIndex] := Clip(xNext[SocIndex], 0.0, 1.0);
    xNext[HealthIndex] := Clip(xNext[HealthIndex], 0.0, 1.0);
    assert xNext[..] == ClampSocAndHealth(combined);
  }

  /** If f vanishes at X for the stage times, the step returns X with SOC and health clamped. */
  lemma ZeroDerivative<U, D>(f: (real, State, U, D) -> State, t: real, x: State, u: U, d: D, dt: real)
    requires f(t, x, u, d) == Zero()
    requires f(t + dt / 2.0, x, u, d) == Zero()
    requires f(t + dt, x, u, d) == Zero()
    ensures Rk4Result(f, t, x, u, d, dt) == ClampSocAndHealth(x)
  {
    var half := Plus(x, Times(dt / 2.0, Zero()));
    assert half == x;
    var full := Plus(x, Times(dt, Zero()));
    assert full == x;
    var k := Stages(f, t, x, u, d, dt);
    assert k == Slopes(Zero(), Zero(), Zero(), Zero());
    var c := Combine(f, t, x, u, d, dt);
    assert c == x by {
      forall i | 0 <= i < StateSize ensures c[i] == x[i] {
        assert Increment(k, dt, i) == 0.0;
      }
    }
  }

  /**
   * The step looks at f only at (t, X), twice at t + dt/2 (at X + dt/2 k1 and
   * X + dt/2 k2) and at (t + dt, X + dt k3): a g that agrees there gives the same result.
   */
  lemma StagePointsOnly<U, D>(f: (real, State, U, D) -> State, g: (real, State, U, D) -> State,
                              t: real, x: State, u: U, d: D, dt: real)
    requires
      var k := Stages(f, t, x, u, d, dt);
      && g(t, x, u, d) == k.k1
      && g(t + dt / 2.0, Plus(x, Times(dt / 2.0, k.k1)), u, d) == k.k2
      && g(t + dt / 2.0, Plus(x, Times(dt / 2.0, k.k2)), u, d) == k.k3
      && g(t + dt, Plus(x, Times(dt, k.k3)), u, d) == k.k4
    ensures Rk4Result(g, t, x, u, d, dt) == Rk4Result(f, t, x, u, d, dt)
  {
    assert Stages(g, t, x, u, d, dt) == Stages(f, t, x, u, d, dt);
  }

  /**
   * A component whose rate is the same constant c at every time and state is
   * integrated exactly: the step moves it by dt * c (then clamps it, for SOC and health).
   */
  lemma ConstantRateExact<U, D>(f: (real, State, U, D) -> State, t: real, x: State, u: U, d: D, dt: real,
                                i: nat, c: real)
    requires i < StateSize
    requires forall s: real, y: State :: f(s, y, u, d)[i] == c
    ensures var next := x[i] + dt * c;
      Rk4Result(f, t, x, u, d, dt)[i] == if i == SocIndex || i == HealthIndex then Clip(next, 0.0, 1.0) else next
  {
    var k := Stages(f, t, x, u, d, dt);
    assert k.k1[i] == c && k.k2[i] == c && k.k3[i] == c && k.k4[i] == c;
    assert Increment(k, dt, i) == dt * c;
  }
}
