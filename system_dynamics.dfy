/**
 * The general 8-state plant: the time derivative of
 * [SOC, V_bus, T_core, T_radiator, O2, CO2, P_cabin, H_battery]
 * under the controls and the disturbances.
 */
module Dynamics {
  import opened Numerics
  import opened StateSpace

  /** U = (P_solar_util, Pump_speed, O2_gen_rate, CO2_scrub_rate) */
  datatype Control = Control(solarUtil: real, pumpSpeed: real, o2GenRate: real, co2ScrubRate: real)

  /** D = (Sunlight, Crew_load, External_temp) */
  datatype Disturbance = Disturbance(sunlight: real, crewLoad: real, externalTemp: real)

  const CBattery: real := 50000.0
  const ChargeEff: real := 0.95
  const DischargeEff: real := 0.90
  const StefanBoltzmann: real := 5.67e-8
  const Emissivity: real := 0.85
  const RadiatorArea: real := 10.0
  const ThermalCapacity: real := 500.0

  /** P_solar - P_load */
  function NetPower(u: Control, d: Disturbance): real {
    d.sunlight * u.solarUtil - d.crewLoad * 2.0
  }

  /**
   * dSOC/dt: the battery stores 95% of a surplus, and a deficit drains it at
   * 1 / 0.90 of the deficit.
   */
  function ChargeRate(net: real): (rate: real)
    ensures rate >= 0.0 <==> net >= 0.0
    ensures net >= 0.0 ==> rate * CBattery == ChargeEff * net
    ensures net < 0.0 ==> rate * (DischargeEff * CBattery) == net
  {
    if net >= 0.0 then ChargeEff * net / CBattery else net / (DischargeEff * CBattery)
  }

  /** A deficit drains the battery faster than an equal surplus charges it. */
  lemma DischargeCostsMore(power: real)
    requires power > 0.0
    ensures ChargeRate(power) < -ChargeRate(-power)
  {
  }

  function Pow4(x: real): real { x * x * x * x }

  /** Q_rad = sigma * epsilon * A * (T_radiator^4 - External_temp^4) */
  function RadiatedHeat(tRadiator: real, externalTemp: real): real {
    StefanBoltzmann * Emissivity * RadiatorArea * (Pow4(tRadiator) - Pow4(externalTemp))
  }

  /**
   * system_dynamics(t, X, U, D). The time t is accepted and never used; the bus
   * voltage is held constant; cabin pressure follows the O2/CO2 imbalance, and the
   * crew terms cancel in the O2 + CO2 balance; health never rises and stays put
   * exactly when the charge does.
   */
  function Derivative(t: real, x: State, u: Control, d: Disturbance): (dx: State)
    ensures dx[VBusIndex] == 0.0
    ensures dx[SocIndex] == ChargeRate(NetPower(u, d))
    ensures dx[SocIndex] >= 0.0 <==> NetPower(u, d) >= 0.0
    ensures dx[HealthIndex] <= 0.0
    ensures dx[HealthIndex] == 0.0 <==> dx[SocIndex] == 0.0
    ensures dx[PCabinIndex] == 0.01 * (dx[O2Index] - dx[Co2Index])
    ensures dx[O2Index] + dx[Co2Index] == u.o2GenRate - u.co2ScrubRate
  {
    var tCore, tRadiator := x[TCoreIndex], x[TRadiatorIndex];
    var pLoad := d.crewLoad * 2.0;
    var dSoc := ChargeRate(NetPower(u, d));
    var qRad := RadiatedHeat(tRadiator, d.externalTemp);
    var dTCore := (pLoad - qRad) / ThermalCapacity;
    var dTRadiator := (u.pumpSpeed * (tCore - tRadiator) - qRad) / ThermalCapacity;
    var dO2 := u.o2GenRate - 0.1 * d.crewLoad;
    var dCo2 := 0.1 * d.crewLoad - u.co2ScrubRate;
    var dPCabin := 0.01 * (dO2 - dCo2);
    var dHealth := -0.00001 * Abs(dSoc);
    [dSoc, 0.0, dTCore, dTRadiator, dO2, dCo2, dPCabin, dHealth]
  }

  /** The same state, controls and disturbances give the same derivative at any time. */
  lemma TimeInvariant(t1: real, t2: real, x: State, u: Control, d: Disturbance)
    ensures Derivative(t1, x, u, d) == Derivative(t2, x, u, d)
  {
  }

  /**
   * Only the two temperature rates read the state, and no rate reads the time: the
   * battery, bus, life-support and health rates are the same for every state vector
   * at every time.
   */
  lemma StateIndependentRates(t1: real, t2: real, x: State, y: State, u: Control, d: Disturbance, i: nat)
    requires i < StateSize && i != TCoreIndex && i != TRadiatorIndex
    ensures Derivative(t1, x, u, d)[i] == Derivative(t2, y, u, d)[i]
  {
  }
}
