/**
 * The battery-only physics and decision rules that one iteration of the main loop
 * applies inline: the fault schedule, the sunlight floor, the 20-candidate grid-search
 * controller with its constraint penalty, the true-state update and the
 * remaining-useful-life (RUL) projection.
 */
module BatteryControl {
  import opened Numerics
  import opened Linear2

  const Dt: real := 1.0
  /** int(T_total / dt) with T_total = 500 */
  const Steps: nat := 500
  const SocTarget: real := 1.0
  const SocMin: real := 0.85
  const HealthMin: real := 0.75
  const CNominal: real := 50000.0
  const AlphaHealth: real := 2.0e-6
  /** The degradation fault is active for every step index t > FaultStep. */
  const FaultStep: nat := 300
  const FaultMultiplier: real := 10.0
  /** Power drawn per unit of load factor. */
  const LoadDraw: real := 5.0
  const CandidateCount: nat := 20
  const LoadLow: real := 0.2
  const LoadHigh: real := 1.0
  const Penalty: real := 1.0e6
  /** best_cost and best_load before the scan. */
  const InitialBestCost: real := 1.0e9
  const FallbackLoad: real := 1.0
  /** The health below which the battery is no longer useful, for the RUL projection. */
  const RulHealthFloor: real := 0.75
  /** Floor of the RUL divisor. */
  const RateFloor: real := 1.0e-8

  // ---------------------------------------------------------------- disturbances

  /** The degradation rate of step t: alpha_health, multiplied by 10 once the fault is injected. */
  function DegradationRate(t: nat): (alpha: real)
    ensures AlphaHealth <= alpha <= FaultMultiplier * AlphaHealth
  {
    if t > FaultStep then AlphaHealth * FaultMultiplier else AlphaHealth
  }

  /** The fault schedule: nominal up to step 300, ten times nominal from step 301 on. */
  lemma FaultSchedule(before: nat, after: nat)
    requires before <= FaultStep < after
    ensures DegradationRate(before) == AlphaHealth
    ensures DegradationRate(after) == 10.0 * DegradationRate(before)
  {
  }

  /**
   * The sunlight of a step, given the value of sin(2 pi t / 180): 80 + 80 sin,
   * floored at 0.
   */
  function Sunlight(sine: real): (s: real)
    ensures s >= 0.0
    ensures s >= 80.0 + 80.0 * sine
    ensures s == 80.0 + 80.0 * sine || s == 0.0
  {
    Max(80.0 + 80.0 * sine, 0.0)
  }

  /** For a genuine sine value the floor never engages and sunlight stays within [0, 160]. */
  lemma SunlightOverOrbit(sine: real)
    requires -1.0 <= sine <= 1.0
    ensures Sunlight(sine) == 80.0 + 80.0 * sine
    ensures 0.0 <= Sunlight(sine) <= 160.0
  {
  }

  // ---------------------------------------------------------------- controller

  /** load_candidates[i] of numpy.linspace(0.2, 1.0, 20). */
  function Candidate(i: nat): (load: real)
    requires i < CandidateCount
    ensures LoadLow <= load <= LoadHigh
  {
    LoadLow + (i as real) * ((LoadHigh - LoadLow) / ((CandidateCount - 1) as real))
  }

  /** numpy.linspace(0.2, 1.0, 20) */
  function LoadCandidates(): (loads: seq<real>)
    ensures |loads| == CandidateCount
    ensures forall i :: 0 <= i < CandidateCount ==> loads[i] == Candidate(i)
  {
    seq(CandidateCount, i requires 0 <= i < CandidateCount => Candidate(i))
  }

  /**
   * The grid spans [0.2, 1.0] with both ends included, in strictly increasing,
   * equally spaced order, and the fallback load 1.0 is its last point.
   */
  lemma CandidateGrid(i: nat, j: nat)
    requires i < j < CandidateCount
    ensures Candidate(0) == LoadLow && Candidate(CandidateCount - 1) == LoadHigh
    ensures FallbackLoad == Candidate(CandidateCount - 1)
    ensures Candidate(i) < Candidate(j)
    ensures Candidate(j) - Candidate(i) == ((j - i) as real) * (0.8 / 19.0)
  {
  }

  /** What the controller looks ahead from: true SOC and Health, sunlight and degradation rate. */
  datatype Lookahead = Lookahead(soc: real, health: real, sunlight: real, alpha: real)

  /** SOC_pred = SOC + dSOC_pred * dt */
  function PredictedSoc(c: Lookahead, load: real): real
    requires c.health != 0.0
  {
    c.soc + (c.sunlight - LoadDraw * load) / (CNominal * c.health) * Dt
  }

  /** dH_pred: from the current (not the predicted) SOC. */
  function PredictedHealthRate(c: Lookahead): real {
    -c.alpha * Abs(c.soc - SocTarget)
  }

  function PredictedHealth(c: Lookahead): real {
    c.health + PredictedHealthRate(c) * Dt
  }

  function Square(x: real): real
  {
    x * x
  }

  /** The weighted cost before the constraint penalty. */
  function TrackingCost(c: Lookahead, load: real): real
    requires c.health != 0.0
  {
    10.0 * Square(PredictedSoc(c, load) - SocTarget)
      + 50.0 * Square(PredictedHealthRate(c))
      + 5.0 * Square(1.0 - load)
  }

  predicate Violates(c: Lookahead, load: real)
    requires c.health != 0.0
  {
    PredictedSoc(c, load) < SocMin || PredictedHealth(c) < HealthMin
  }

  /** The cost of one candidate load, with the 1e6 penalty when the lookahead breaks a limit. */
  function Cost(c: Lookahead, load: real): real
    requires c.health != 0.0
  {
    var base := TrackingCost(c, load);
    if Violates(c, load) then base + Penalty else base
  }

  /**
   * The penalty is added exactly when SOC_pred < SOC_min or Health_pred < Health_min;
   * the tracking cost is a sum of weighted squares, so no cost is negative and every
   * penalised candidate costs at least 1e6.
   */
  lemma PenaltyExactlyOnViolation(c: Lookahead, load: real)
    requires c.health != 0.0
    ensures Cost(c, load) == TrackingCost(c, load) + Penalty <==> Violates(c, load)
    ensures Cost(c, load) == TrackingCost(c, load) <==> !Violates(c, load)
    ensures Cost(c, load) >= TrackingCost(c, load) >= 0.0
    ensures Violates(c, load) ==> Cost(c, load) >= Penalty
  {
    var e := PredictedSoc(c, load) - SocTarget;
    var h := PredictedHealthRate(c);
    var u := 1.0 - load;
    assert e * e >= 0.0 && h * h >= 0.0 && u * u >= 0.0;
  }

  function CandidateCost(c: Lookahead, i: nat): real
    requires c.health != 0.0 && i < CandidateCount
  {
    Cost(c, Candidate(i))
  }

  /** Candidate k has the least cost of the grid, and every earlier candidate costs strictly more. */
  ghost predicate IsFirstMinimiser(c: Lookahead, k: nat)
    requires c.health != 0.0 && k < CandidateCount
  {
    && (forall j :: 0 <= j < CandidateCount ==> CandidateCost(c, k) <= CandidateCost(c, j))
    && (forall j :: 0 <= j < k ==> CandidateCost(c, k) < CandidateCost(c, j))
  }

  /** The index the scan keeps after the first n candidates: a later one replaces it only when strictly cheaper. */
  function FirstArgMin(c: Lookahead, n: nat): (k: nat)
    requires c.health != 0.0 && 1 <= n <= CandidateCount
    ensures k < n
  {
    if n == 1 then 0
    else
      var k := FirstArgMin(c, n - 1);
      if CandidateCost(c, n - 1) < CandidateCost(c, k) then n - 1 else k
  }

  /**
   * The kept index is the first cheapest of the first n candidates: no candidate costs
   * less, and every earlier one costs strictly more.
   */
  lemma {:induction false} FirstArgMinIsFirstMinimiser(c: Lookahead, n: nat)
    requires c.health != 0.0 && 1 <= n <= CandidateCount
    ensures var k := FirstArgMin(c, n);
      && (forall j :: 0 <= j < n ==> CandidateCost(c, k) <= CandidateCost(c, j))
      && (forall j :: 0 <= j < k ==> CandidateCost(c, k) < CandidateCost(c, j))
  {
    if n > 1 {
      FirstArgMinIsFirstMinimiser(c, n - 1);
    }
  }

  /**
   * The load the grid search settles on: the first cheapest candidate, unless no
   * candidate beats the initial best cost of 1e9, in which case best_load keeps its
   * initial value 1.0.
   */
  function GridChoice(c: Lookahead): real
    requires c.health != 0.0
  {
    var k := FirstArgMin(c, CandidateCount);
    if CandidateCost(c, k) < InitialBestCost then Candidate(k) else FallbackLoad
  }

  /**
   * The controller always returns one of the 20 candidates, even when every one is
   * penalised; whenever some candidate costs less than 1e9 it returns the first
   * minimiser; otherwise it returns the fallback 1.0.
   */
  lemma ControllerPicksFirstMinimiser(c: Lookahead)
    requires c.health != 0.0
    ensures exists i :: 0 <= i < CandidateCount && GridChoice(c) == Candidate(i)
    ensures (exists i :: 0 <= i < CandidateCount && CandidateCost(c, i) < InitialBestCost) ==>
      exists k :: 0 <= k < CandidateCount && GridChoice(c) == Candidate(k) && IsFirstMinimiser(c, k)
    ensures (forall i :: 0 <= i < CandidateCount ==> CandidateCost(c, i) >= InitialBestCost) ==>
      GridChoice(c) == FallbackLoad
  {
    var k := FirstArgMin(c, CandidateCount);
    FirstArgMinIsFirstMinimiser(c, CandidateCount);
    CandidateGrid(0, CandidateCount - 1);
    if CandidateCost(c, k) < InitialBestCost {
      assert GridChoice(c) == Candidate(k) && IsFirstMinimiser(c, k);
    } else {
      assert GridChoice(c) == Candidate(CandidateCount - 1);
    }
  }

  /**
   * The grid search of one step: scan the candidates in order, keeping the first one
   * whose cost is strictly below the best so far.
   */
  method ChooseLoad(c: Lookahead) returns (bestLoad: real)
    requires c.health != 0.0
    ensures bestLoad == GridChoice(c)
  {
    var loads := LoadCandidates();
    var bestCost := InitialBestCost;
    bestLoad := FallbackLoad;
    var i := 0;
    while i < |loads|
      invariant 0 <= i <= CandidateCount
      invariant i == 0 ==> bestCost == InitialBestCost && bestLoad == FallbackLoad
      invariant i > 0 ==>
        var k := FirstArgMin(c, i);
        if CandidateCost(c, k) < InitialBestCost
        then bestCost == CandidateCost(c, k) && bestLoad == Candidate(k)
        else bestCost == InitialBestCost && bestLoad == FallbackLoad
    {
      var load := loads[i];
      var cost := Cost(c, load);
      if cost < bestCost {
        bestCost := cost;
        bestLoad := load;
      }
      i := i + 1;
    }
  }

  // ---------------------------------------------------------------- plant

  datatype Battery = Battery(soc: real, health: real)

  /**
   * The true-state update: SOC moves by the power balance over the health-scaled
   * capacity and is clamped to [0, 1]; Health then falls by alpha times the distance of
   * the new SOC from its target, without any clamp.
   */
  function Advance(b: Battery, load: real, sunlight: real, alpha: real): (r: Battery)
    requires b.health != 0.0
    ensures 0.0 <= r.soc <= 1.0
    ensures r.soc == Clip(PredictedSoc(Lookahead(b.soc, b.health, sunlight, alpha), load), 0.0, 1.0)
    ensures r.health == b.health - alpha * Abs(r.soc - SocTarget) * Dt
  {
    var dSoc := (sunlight - LoadDraw * load) / (CNominal * b.health);
    var soc := Clip(b.soc + dSoc * Dt, 0.0, 1.0);
    var dHealth := -alpha * Abs(soc - SocTarget);
    Battery(soc, b.health + dHealth * Dt)
  }

  /** With a non-negative degradation rate Health never increases, and falls by at most alpha per step. */
  lemma HealthNeverIncreases(b: Battery, load: real, sunlight: real, alpha: real)
    requires b.health != 0.0 && alpha >= 0.0
    ensures b.health - alpha * Dt <= Advance(b, load, sunlight, alpha).health <= b.health
  {
    var r := Advance(b, load, sunlight, alpha);
    var gap := Abs(r.soc - SocTarget);
    assert 0.0 <= gap <= 1.0;
    ScaledBounds(gap, alpha);
    assert alpha * gap == gap * alpha;
    assert r.health == b.health - alpha * gap;
  }

  /** Health is not clamped: a strong enough degradation rate drives it below 0. */
  lemma HealthNotClamped()
    ensures Advance(Battery(0.0, 0.5), 1.0, 0.0, 1.0) == Battery(0.0, -0.5)
  {
  }

  /** Full sun at the lightest load from half charge: SOC rises by (160 - 1) / 50000. */
  lemma ChargingScenario()
    ensures Advance(Battery(0.5, 1.0), 0.2, 160.0, AlphaHealth).soc == 0.50318
  {
  }

  /** SOC held at 0.99: Health falls by exactly 2e-6 * 0.01 = 2e-8 in one step. */
  lemma DegradationScenario()
    ensures Advance(Battery(0.99, 1.0), 1.0, 5.0, AlphaHealth) == Battery(0.99, 1.0 - 2.0e-8)
  {
  }

  // ---------------------------------------------------------------- remaining useful life

  /** The RUL divisor: the magnitude of the estimated health slope, floored at 1e-8. */
  function RulRate(alpha: real, socEst: real): (rate: real)
    ensures rate >= RateFloor
    ensures rate >= Abs(-alpha * Abs(socEst - SocTarget))
    ensures rate == RateFloor || rate == Abs(-alpha * Abs(socEst - SocTarget))
  {
    Max(Abs(-alpha * Abs(socEst - SocTarget)), RateFloor)
  }

  /** RUL as the loop computes it: max((0.75 - Health_est) / rate, 0). */
  function RulAsWritten(alpha: real, est: Vec2): (rul: real)
    ensures rul >= 0.0
  {
    Max((RulHealthFloor - est.e1) / RulRate(alpha, est.e0), 0.0)
  }

  /** As written, RUL is 0 for every battery whose estimated health is still at or above the floor. */
  lemma RulAsWrittenZeroWhileHealthy(alpha: real, est: Vec2)
    requires est.e1 >= RulHealthFloor
    ensures RulAsWritten(alpha, est) == 0.0
  {
    var rate := RulRate(alpha, est.e0);
    assert (RulHealthFloor - est.e1) / rate <= 0.0 by {
      assert (RulHealthFloor - est.e1) / rate * rate == RulHealthFloor - est.e1;
    }
  }

  /**
   * The projected number of steps until the estimated health, falling at the current
   * rate, reaches the 0.75 floor; 0 once it is at or below the floor.
   */
  function Rul(alpha: real, est: Vec2): real
  {
    Max((est.e1 - RulHealthFloor) / RulRate(alpha, est.e0), 0.0)
  }

  /**
   * RUL is never negative, is positive exactly while the estimated health is above the
   * floor, and then is the number of steps after which the health, falling at the
   * current rate, reaches the floor.
   */
  lemma RulProjection(alpha: real, est: Vec2)
    ensures Rul(alpha, est) >= 0.0
    ensures Rul(alpha, est) > 0.0 <==> est.e1 > RulHealthFloor
    ensures est.e1 >= RulHealthFloor ==> est.e1 - Rul(alpha, est) * RulRate(alpha, est.e0) == RulHealthFloor
  {
    var rate := RulRate(alpha, est.e0);
    var steps := (est.e1 - RulHealthFloor) / rate;
    assert steps * rate == est.e1 - RulHealthFloor;
    assert steps > 0.0 <==> est.e1 > RulHealthFloor;
  }

  /** A healthy battery (SOC 0.9, Health 1.0) before the fault: 0 as written, 1.25 million steps as intended. */
  lemma RulSignErrorWitness()
    ensures RulAsWritten(AlphaHealth, Vec2(0.9, 1.0)) == 0.0
    ensures Rul(AlphaHealth, Vec2(0.9, 1.0)) == 1250000.0
  {
    assert RulRate(AlphaHealth, 0.9) == 2.0e-7;
  }
}
