/**
 * The named 8-field state of the digital twin and its conversion to and from the
 * state array [SOC, V_bus, T_core, T_radiator, O2, CO2, P_cabin, H_battery].
 */
module StateVectors {
  import opened StateSpace

  class StateVector {
    var soc: real
    var vBus: real
    var tCore: real
    var tRadiator: real
    var o2Mass: real
    var co2Mass: real
    var pCabin: real
    var hBattery: real

    /** The nominal initial state. */
    constructor ()
      ensures soc == 0.8 && vBus == 120.0
      ensures tCore == 295.0 && tRadiator == 280.0
      ensures o2Mass == 100.0 && co2Mass == 5.0 && pCabin == 101325.0
      ensures hBattery == 1.0
    {
      soc := 0.8;
      vBus := 120.0;
      tCore := 295.0;
      tRadiator := 280.0;
      o2Mass := 100.0;
      co2Mass := 5.0;
      pCabin := 101325.0;
      hBattery := 1.0;
    }

    /** A new array holding the eight fields, each at its component position. */
    function ToArray(): (r: State)
      reads this
      ensures r[SocIndex] == soc && r[VBusIndex] == vBus
      ensures r[TCoreIndex] == tCore && r[TRadiatorIndex] == tRadiator
      ensures r[O2Index] == o2Mass && r[Co2Index] == co2Mass
      ensures r[PCabinIndex] == pCabin && r[HealthIndex] == hBattery
    {
      var r := [soc, vBus, tCore, tRadiator, o2Mass, co2Mass, pCabin, hBattery];
      assert |r| == StateSize;
      r
    }

    /**
     * Unpack arr into the eight fields. An array of any other length is a ValueError
     * that is raised before any field is assigned: false, and nothing changes.
     */
    method UpdateFromArray(arr: seq<real>) returns (ok: bool)
      modifies this
      ensures ok <==> |arr| == StateSize
      ensures ok ==> ToArray() == arr
      ensures !ok ==> unchanged(this)
    {
      if |arr| != StateSize {
        return false;
      }
      soc, vBus, tCore, tRadiator := arr[0], arr[1], arr[2], arr[3];
      o2Mass, co2Mass, pCabin, hBattery := arr[4], arr[5], arr[6], arr[7];
      ok := true;
    }

    /** Writing back what ToArray read succeeds and leaves every field as it was. */
    method UpdateFromOwnArray() returns (ok: bool)
      modifies this
      ensures ok
      ensures soc == old(soc) && vBus == old(vBus)
      ensures tCore == old(tCore) && tRadiator == old(tRadiator)
      ensures o2Mass == old(o2Mass) && co2Mass == old(co2Mass)
      ensures pCabin == old(pCabin) && hBattery == old(hBattery)
    {
      ok := UpdateFromArray(ToArray());
    }
  }

  /** Two state vectors give the same array exactly when all eight fields agree. */
  lemma SameArraySameFields(a: StateVector, b: StateVector)
    ensures a.ToArray() == b.ToArray() <==>
      && a.soc == b.soc && a.vBus == b.vBus && a.tCore == b.tCore && a.tRadiator == b.tRadiator
      && a.o2Mass == b.o2Mass && a.co2Mass == b.co2Mass && a.pCabin == b.pCabin
      && a.hBattery == b.hBattery
  {
    if a.ToArray() == b.ToArray() {
      assert a.ToArray()[SocIndex] == b.ToArray()[SocIndex];
    }
  }
}
