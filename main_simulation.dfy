/**
 * The closed loop of the digital twin: the true battery state, the Kalman belief and
 * the six append-only histories, advanced one step at a time, and the NIS
 * exceedance percentage computed from the history at the end of the run.
 */
module MainSimulation {
  import opened Numerics
  import opened Wrappers
  import opened Linear2
  import opened Kalman
  import opened BatteryControl

  /** Q_base = diag([1e-6, 1e-8]) */
  const QBase: Mat2 := Diag(1.0e-6, 1.0e-8)
  /** R = diag([1e-4, 1e-6]) */
  const R: Mat2 := Diag(1.0e-4, 1.0e-6)
  /** P = eye(2) * 1e-4 */
  const P0: Mat2 := Diag(1.0e-4, 1.0e-4)
  const NisThreshold: real := 6.0
  /** The most Health can lose in one step: the faulted rate times |SOC - 1| <= 1 times dt. */
  const MaxHealthLoss: real := 2.0e-5

  /** The number of entries of s strictly above the threshold: np.sum(s > threshold). */
  function CountAbove(s: seq<real>, threshold: real): (n: nat)
    ensures n <= |s|
  {
    if s == [] then 0
    else CountAbove(s[..|s| - 1], threshold) + (if s[|s| - 1] > threshold then 1 else 0)
  }

  /** Every entry is above the threshold exactly when all of them are counted. */
  lemma {:induction false} CountAboveAll(s: seq<real>, threshold: real)
    ensures CountAbove(s, threshold) == |s| <==> forall i :: 0 <= i < |s| ==> s[i] > threshold
    ensures CountAbove(s, threshold) == 0 <==> forall i :: 0 <= i < |s| ==> s[i] <= threshold
  {
    if s != [] {
      var front := s[..|s| - 1];
      CountAboveAll(front, threshold);
      assert forall i :: 0 <= i < |front| ==> front[i] == s[i];
      if CountAbove(s, threshold) == |s| {
        assert CountAbove(front, threshold) == |front| && s[|s| - 1] > threshold;
      }
      if CountAbove(s, threshold) == 0 {
        assert CountAbove(front, threshold) == 0 && s[|s| - 1] <= threshold;
      }
    }
  }

  /**
   * 100 * np.sum(nis > 6) / len(nis): the share of steps whose NIS exceeded the
   * threshold, in percent; None for an empty history, where numpy yields nan.
   */
  function ExceedancePercent(nis: seq<real>): (r: Option<real>)
    ensures r.Some? <==> |nis| > 0
    ensures r.Some? ==> 0.0 <= r.value <= 100.0
    ensures r.Some? ==> (r.value == 100.0 <==> forall i :: 0 <= i < |nis| ==> nis[i] > NisThreshold)
    ensures r.Some? ==> (r.value == 0.0 <==> forall i :: 0 <= i < |nis| ==> nis[i] <= NisThreshold)
  {
    if |nis| == 0 then None
    else
      var n := CountAbove(nis, NisThreshold);
      CountAboveAll(nis, NisThreshold);
      Percentage(n, |nis|);
      Some(100.0 * (n as real) / (|nis| as real))
  }

  /** 100 * n / total lies in [0, 100], reaching 0 only for n = 0 and 100 only for n = total. */
  lemma Percentage(n: nat, total: nat)
    requires 0 < total && n <= total
    ensures var pct := 100.0 * (n as real) / (total as real);
      && 0.0 <= pct <= 100.0
      && (pct == 0.0 <==> n == 0)
      && (pct == 100.0 <==> n == total)
  {
    var a, b := n as real, total as real;
    var pct := 100.0 * a / b;
    assert pct * b == 100.0 * a;
    Share(pct, a, b);
  }

  /** A pct with pct * b == 100 a, for 0 <= a <= b and b > 0, is the share of a in b in percent. */
  lemma Share(pct: real, a: real, b: real)
    requires b > 0.0 && 0.0 <= a <= b && pct * b == 100.0 * a
    ensures 0.0 <= pct <= 100.0
    ensures pct == 0.0 <==> a == 0.0
    ensures pct == 100.0 <==> a == b
  {
    ShareBounds(pct, a, b);
    ShareOfNone(pct, a, b);
    ShareOfAll(pct, a, b);
  }

  /** The share lies in [0, 100]. */
  lemma ShareBounds(pct: real, a: real, b: real)
    requires b > 0.0 && 0.0 <= a <= b && pct * b == 100.0 * a
    ensures 0.0 <= pct <= 100.0
  {
    CancelPositive(pct, 100.0, b);
    CancelPositive(0.0, pct, b);
  }

  /** The share is 0 exactly when a is. */
  lemma ShareOfNone(pct: real, a: real, b: real)
    requires b > 0.0 && 0.0 <= a <= b && pct * b == 100.0 * a
    ensures pct == 0.0 <==> a == 0.0
  {
    if a == 0.0 {
      CancelPositive(pct, 0.0, b);
      CancelPositive(0.0, pct, b);
    }
  }

  /** The share is 100 exactly when a is all of b. */
  lemma ShareOfAll(pct: real, a: real, b: real)
    requires b > 0.0 && 0.0 <= a <= b && pct * b == 100.0 * a
    ensures pct == 100.0 <==> a == b
  {
    if a == b {
      CancelPositive(pct, 100.0, b);
      CancelPositive(100.0, pct, b);
    }
  }

  /** A positive factor can be cancelled from both sides of an inequality. */
  lemma CancelPositive(x: real, y: real, b: real)
    requires b > 0.0 && x * b <= y * b
    ensures x <= y
  {
  }

  /** Every entry lies in [lo, hi]. */
  ghost predicate AllWithin(s: seq<real>, lo: real, hi: real) {
    forall i :: 0 <= i < |s| ==> lo <= s[i] <= hi
  }

  /** Every entry is at least lo. */
  ghost predicate AllAtLeast(s: seq<real>, lo: real) {
    forall i :: 0 <= i < |s| ==> lo <= s[i]
  }

  /** A later entry is never above an earlier one. */
  ghost predicate NonIncreasing(s: seq<real>) {
    forall i, j :: 0 <= i <= j < |s| ==> s[j] <= s[i]
  }

  lemma AppendWithin(s: seq<real>, lo: real, hi: real, x: real)
    requires AllWithin(s, lo, hi) && lo <= x <= hi
    ensures AllWithin(s + [x], lo, hi)
  {
  }

  lemma AppendAtLeast(s: seq<real>, lo: real, x: real)
    requires AllAtLeast(s, lo) && lo <= x
    ensures AllAtLeast(s + [x], lo)
  {
  }

  /** Appending an entry no greater than the last keeps the sequence non-increasing. */
  lemma AppendNonIncreasing(s: seq<real>, x: real)
    requires NonIncreasing(s) && (|s| > 0 ==> x <= s[|s| - 1])
    ensures NonIncreasing(s + [x])
  {
    var r := s + [x];
    forall i, j | 0 <= i <= j < |r| ensures r[j] <= r[i] {
      if j == |s| && i < |s| {
        assert s[|s| - 1] <= s[i];
      }
    }
  }

  /** The six recorded series of the run. */
  datatype Histories = Histories(socTrue: seq<real>, socEst: seq<real>, healthTrue: seq<real>,
                                 healthEst: seq<real>, nis: seq<real>, rul: seq<real>)

  /** The histories with one more entry in each. */
  function Append(h: Histories, socTrue: real, socEst: real, healthTrue: real, healthEst: real,
                  nis: real, rul: real): Histories
  {
    Histories(h.socTrue + [socTrue], h.socEst + [socEst], h.healthTrue + [healthTrue],
              h.healthEst + [healthEst], h.nis + [nis], h.rul + [rul])
  }

  /**
   * The loop invariant of the run after t steps: SOC in [0, 1]; Health between 1 and its
   * greatest possible loss so far (so it stays positive over the 500 steps); a positive
   * diagonal covariance; one history entry per completed step; every recorded SOC in
   * [0, 1], NIS and RUL non-negative, and the recorded true Health non-increasing and
   * ending at the current Health.
   */
  ghost predicate LoopInvariant(t: nat, soc: real, health: real, p: Mat2, h: Histories) {
    && t <= Steps
    && 0.0 <= soc <= 1.0
    && 1.0 - (t as real) * MaxHealthLoss <= health <= 1.0
    && IsPositiveDiagonal(p)
    && |h.socTrue| == t && |h.socEst| == t && |h.healthTrue| == t
    && |h.healthEst| == t && |h.nis| == t && |h.rul| == t
    && AllWithin(h.socTrue, 0.0, 1.0)
    && AllAtLeast(h.nis, 0.0) && AllAtLeast(h.rul, 0.0)
    && NonIncreasing(h.healthTrue)
    && (t > 0 ==> h.healthTrue[t - 1] == health)
  }

  /**
   * One step keeps the loop invariant: the new SOC is in [0, 1], Health fell by at most
   * the largest per-step loss, the covariance is positive diagonal, and the recorded NIS
   * and RUL are non-negative.
   */
  lemma StepKeepsInvariant(t: nat, soc: real, health: real, p: Mat2, h: Histories,
                           soc': real, health': real, p': Mat2, est: Vec2, nis: real, rul: real)
    requires LoopInvariant(t, soc, health, p, h) && t < Steps
    requires 0.0 <= soc' <= 1.0 && health - MaxHealthLoss <= health' <= health
    requires IsPositiveDiagonal(p') && nis >= 0.0 && rul >= 0.0
    ensures LoopInvariant(t + 1, soc', health', p', Append(h, soc', est.e0, health', est.e1, nis, rul))
  {
    AppendWithin(h.socTrue, 0.0, 1.0, soc');
    AppendAtLeast(h.nis, 0.0, nis);
    AppendAtLeast(h.rul, 0.0, rul);
    AppendNonIncreasing(h.healthTrue, health');
  }

  class Simulation {
    /** The loop index of the next step. */
    var t: nat
    var soc: real
    var health: real
    var xEst: Vec2
    var p: Mat2
    /** The six lists the loop appends to, one entry per completed step. */
    var hist: Histories

    /**
     * The loop invariant of the run: SOC in [0, 1]; Health between 1 and its greatest
     * possible loss so far (so it stays positive over the 500 steps); a positive diagonal
     * covariance; one history entry per completed step; every recorded SOC in [0, 1],
     * NIS and RUL non-negative, and the recorded true Health non-increasing and ending
     * at the current Health.
     */
    ghost predicate Valid()
      reads this
    {
      LoopInvariant(t, soc, health, p, hist)
    }

    /** The initial true state, belief and empty histories. */
    constructor ()
      ensures Valid()
      ensures t == 0 && soc == 0.8 && health == 1.0
      ensures xEst == Vec2(0.8, 1.0) && p == P0
      ensures hist == Histories([], [], [], [], [], [])
    {
      t := 0;
      soc := 0.8;
      health := 1.0;
      xEst := Vec2(0.8, 1.0);
      p := P0;
      hist := Histories([], [], [], [], [], []);
    }

    /**
     * One iteration of the loop, given sin(2 pi t / 180) and the two measurement-noise
     * samples: choose the load, advance the true state, measure, predict and correct
     * the belief, compute NIS and RUL, and append one entry to every history.
     */
    method Step(sine: real, noiseSoc: real, noiseHealth: real)
      requires Valid() && t < Steps
      modifies this
      ensures Valid()
      ensures t == old(t) + 1
      ensures
        var sunlight := Sunlight(sine);
        var alpha := DegradationRate(old(t));
        var load := GridChoice(Lookahead(old(soc), old(health), sunlight, alpha));
        var truth := Advance(Battery(old(soc), old(health)), load, sunlight, alpha);
        var pred := Predict(Belief(old(xEst), old(p)), QBase);
        var upd := Update(pred, Vec2(truth.soc + noiseSoc, truth.health + noiseHealth), R);
        && soc == truth.soc && health == truth.health
        && upd.Success?
        && xEst == upd.value.x && p == upd.value.p
        && hist == Append(old(hist), soc, xEst.e0, health, xEst.e1,
                          Nis(upd.value.y, upd.value.s), RulAsWritten(alpha, xEst))
    {
      // disturbance and fault schedule
      var sunlight := Sunlight(sine);
      var alpha := DegradationRate(t);
      ghost var t0, soc0, health0, p0 := t, soc, health, p;

      // grid-search control and true system update
      AdvanceTruth(sunlight, alpha);

      // measurement, predict, update and NIS
      var z := Vec2(soc + noiseSoc, health + noiseHealth);
      var nis := Correct(z);

      // RUL
      var rul := RulAsWritten(alpha, xEst);

      StepKeepsInvariant(t0, soc0, health0, p0, hist, soc, health, p, xEst, nis, rul);
      hist := Append(hist, soc, xEst.e0, health, xEst.e1, nis, rul);
      t := t + 1;
    }

    /**
     * Choose the load by grid search on the current true state, then advance SOC and
     * Health by the battery model; Health falls by at most alpha.
     */
    method AdvanceTruth(sunlight: real, alpha: real)
      requires health != 0.0 && alpha >= 0.0
      modifies `soc, `health
      ensures
        var load := GridChoice(Lookahead(old(soc), old(health), sunlight, alpha));
        Battery(soc, health) == Advance(Battery(old(soc), old(health)), load, sunlight, alpha)
      ensures 0.0 <= soc <= 1.0
      ensures old(health) - alpha * Dt <= health <= old(health)
    {
      var load := ChooseLoad(Lookahead(soc, health, sunlight, alpha));
      var before := Battery(soc, health);
      HealthNeverIncreases(before, load, sunlight, alpha);
      var truth := Advance(before, load, sunlight, alpha);
      soc, health := truth.soc, truth.health;
    }

    /**
     * Predict with Q_base, correct with the measurement z and R, and return the NIS of
     * the innovation; the covariance stays positive diagonal and the NIS non-negative.
     */
    method Correct(z: Vec2) returns (nis: real)
      requires IsPositiveDiagonal(p)
      modifies `xEst, `p
      ensures
        var upd := Update(Predict(Belief(old(xEst), old(p)), QBase), z, R);
        && upd.Success?
        && xEst == upd.value.x && p == upd.value.p
        && nis == Nis(upd.value.y, upd.value.s)
      ensures IsPositiveDiagonal(p)
      ensures nis >= 0.0
    {
      var pred := Predict(Belief(xEst, p), QBase);
      DiagonalUpdate(pred, z, R);
      var c := Update(pred, z, R).value;
      xEst, p := c.x, c.p;
      DiagonalNis(c.y, c.s);
      nis := Nis(c.y, c.s);
    }
  }

  /**
   * The whole run: 500 steps from the initial state, with the sine values and noise
   * samples of every step given, then the NIS exceedance percentage.
   */
  method Run(sines: seq<real>, noiseSoc: seq<real>, noiseHealth: seq<real>)
      returns (sim: Simulation, exceedPercent: real)
    requires |sines| == Steps && |noiseSoc| == Steps && |noiseHealth| == Steps
    ensures fresh(sim) && sim.Valid() && sim.t == Steps
    ensures |sim.hist.socTrue| == |sim.hist.socEst| == |sim.hist.healthTrue| == Steps
    ensures |sim.hist.healthEst| == |sim.hist.nis| == |sim.hist.rul| == Steps
    ensures ExceedancePercent(sim.hist.nis) == Some(exceedPercent)
    ensures 0.0 <= exceedPercent <= 100.0
  {
    sim := new Simulation();
    var i := 0;
    while i < Steps
      invariant 0 <= i <= Steps
      invariant fresh(sim) && sim.Valid() && sim.t == i
    {
      sim.Step(sines[i], noiseSoc[i], noiseHealth[i]);
      i := i + 1;
    }
    var pct := ExceedancePercent(sim.hist.nis);
    exceedPercent := pct.value;
  }
}
