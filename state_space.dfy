/**
 * The 8-component state vector shared by the general plant model and the RK4
 * integrator, its component positions, and the element-wise numpy array arithmetic
 * the integrator performs on it.
 */
module StateSpace {

  const StateSize: nat := 8
  const SocIndex: nat := 0
  const VBusIndex: nat := 1
  const TCoreIndex: nat := 2
  const TRadiatorIndex: nat := 3
  const O2Index: nat := 4
  const Co2Index: nat := 5
  const PCabinIndex: nat := 6
  const HealthIndex: nat := 7

  /** [SOC, V_bus, T_core, T_radiator, O2, CO2, P_cabin, H_battery] */
  type State = v: seq<real> | |v| == 8 witness [0.0, 0.0, 0.0, 0.0, 0.0, 0.0, 0.0, 0.0]

  function Zero(): State { [0.0, 0.0, 0.0, 0.0, 0.0, 0.0, 0.0, 0.0] }

  /** a + b */
  function Plus(a: State, b: State): (r: State)
    ensures forall i :: 0 <= i < StateSize ==> r[i] == a[i] + b[i]
  {
    seq(StateSize, i requires 0 <= i < StateSize => a[i] + b[i])
  }

  /** c * a */
  function Times(c: real, a: State): (r: State)
    ensures forall i :: 0 <= i < StateSize ==> r[i] == c * a[i]
  {
    seq(StateSize, i requires 0 <= i < StateSize => c * a[i])
  }
}
