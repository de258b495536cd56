# Battery digital twin: closed-loop step, plant derivative, RK4 step and state vector

This project models the core of a spacecraft battery digital twin and proves properties of
that model. The model covers four parts:

- **The closed-loop simulation step** (`main_simulation.py`). Each step does the following:
  - applies the fault schedule and the sunlight floor;
  - runs a 20-candidate grid-search controller with a constraint penalty and a
    first-wins tie-break;
  - updates the true battery state (SOC clamped to [0, 1], Health unclamped);
  - takes a noisy measurement;
  - runs a 2x2 Kalman predict and update with F = H = I;
  - computes the NIS fault statistic and the RUL projection;
  - appends one entry to each of six histories.

  After the 500 steps, the NIS exceedance percentage is computed. The loop is the class
  `MainSimulation.Simulation`: its fields are the loop's variables (t, SOC, Health, X_est,
  P and the histories), and `Step` is one iteration. The candidate scan is the method
  `BatteryControl.ChooseLoad`, which keeps `best_cost` and `best_load` in a loop and is
  proved against the recursive specification `FirstArgMin`.
- **The general 8-state plant derivative** (`system_dynamics.py`). A pure function with
  one branch: it charges at 95% efficiency and discharges at 1 / 0.90.
- **One RK4 step with post-clamping** (`rk4_solver.py`). A higher-order function over any
  derivative `f`. The method `Rk4Step` builds a fresh array and then clips entries 0 and 7
  in place.
- **The `StateVector` class** (`state_vector.py`). Eight mutable fields, with the
  conversion to the state array and back.

All quantities are Dafny `real`.

The model takes the following values as inputs instead of computing them:
- the value of `sin(2 pi t / 180)`;
- the two Gaussian measurement-noise samples of each step.

Properties proved about the model, grouped by part:

- **Covariance and estimates.**
  - P, Q and R are diagonal with positive entries, so P stays positive diagonal
    for the whole run. Therefore S is always invertible, the update never fails and NIS is
    never negative.
  - Each corrected estimate lies between its prediction and the measurement.
- **Histories.**
  - Health stays in [1 - 2e-5 t, 1] (so it never reaches 0).
  - The true-Health history is non-increasing.
  - The six histories have equal length.
  - Every recorded SOC is in [0, 1], and every recorded NIS and RUL is non-negative.
- **Controller.**
  - It always returns one of the 20 grid points.
  - When any candidate costs less than 1e9, it returns the first cheapest candidate.
- **RK4 and the plant derivative.**
  - The RK4 step clamps exactly components 0 and 7.
  - It never writes its input.
  - It integrates a constant rate exactly.
- **Round trips.** `StateVector` conversions round-trip.

## Model

| member | source | states |
|---|---|---|
| Numerics.Abs | main_simulation.py:84 | abs(x) is non-negative and is x or -x |
| Numerics.Max | main_simulation.py:64 | max(a, b) is at least both arguments and is one of them |
| Numerics.Clip | main_simulation.py:107 | np.clip(x, 0, 1) lies in [lo, hi]: x itself inside the interval, lo below it, hi above it |
| Linear2.InverseIsTwoSided | main_simulation.py:133 | the closed-form 2x2 inverse of a non-singular matrix is a left and right inverse |
| Linear2.InverseShape | main_simulation.py:133 | the inverse of a symmetric matrix is symmetric; of a diagonal matrix, the diagonal of reciprocals |
| Linear2.IdentityNeutral | main_simulation.py:123-136 | F = H = I leaves matrices and vectors unchanged under multiplication and transposition |
| Linear2.ComplementMul | main_simulation.py:136 | (I - K) @ P equals P - K @ P |
| Linear2.DiagonalProducts | main_simulation.py:133-136 | diagonal matrices multiply, and act on vectors, entry by entry |
| Kalman.Predict | main_simulation.py:123-125 | the predicted mean is a copy of the estimate and the predicted covariance is P + Q |
| Kalman.Update | main_simulation.py:130-136 | fails (LinAlgError) exactly when S = P_pred + R is singular; otherwise y = z - X_pred, S = P_pred + R, X_est = X_pred + K y, P = P_pred - K P_pred with K = P_pred S^-1 |
| Kalman.Gain | main_simulation.py:133 | K = P_pred H.T S^-1; for the loop's positive diagonal matrices, `Kalman.DiagonalGain` shows it is diag(p / (p + r)) |
| Kalman.ZeroInnovation | main_simulation.py:123-141 | a measurement equal to the prediction leaves the mean unchanged, gives y = 0 and NIS = 0 |
| Kalman.DiagonalUpdate | main_simulation.py:130-136 | with positive diagonal P_pred and R the update succeeds, P stays positive diagonal and strictly shrinks to p r / (p + r) per entry, S is positive diagonal, and each estimate lies between prediction and measurement |
| Kalman.DiagonalGain | main_simulation.py:132-133 | for positive diagonal P and R, S is invertible and the gain is diag(p / (p + r)) |
| Kalman.DiagonalCovariance | main_simulation.py:136 | the corrected covariance of a diagonal gain is p r / (p + r) per entry, positive and below p |
| Kalman.DiagonalMean | main_simulation.py:135 | a diagonal gain strictly between 0 and 1 puts every corrected estimate between prediction and measurement |
| Kalman.DiagonalNis | main_simulation.py:141 | for positive diagonal S, NIS is the sum of y_i^2 / S_ii and is non-negative |
| Kalman.Nis | main_simulation.py:141 | y.T S^-1 y; `Kalman.DiagonalNis` shows it is the non-negative sum of y_i^2 / S_ii, and `Kalman.ZeroInnovation` that it is 0 for a zero innovation |
| Kalman.GainBounds | main_simulation.py:133-136 | a scalar gain p / (p + r) lies strictly in (0, 1) and leaves covariance p r / (p + r) in (0, p) |
| Kalman.ConvexStep | main_simulation.py:135 | x + g (z - x) for 0 < g < 1 lies between x and z |
| Kalman.SymmetricUpdate | main_simulation.py:132-136 | symmetric P_pred and R give a symmetric corrected covariance |
| Kalman.SandwichSymmetric | main_simulation.py:136 | A B A is symmetric for symmetric A and B |
| BatteryControl.DegradationRate | main_simulation.py:67-70 | the rate of every step lies between alpha_health and ten times it |
| BatteryControl.FaultSchedule | main_simulation.py:67-70 | up to step 300 the rate is alpha_health, from step 301 on it is ten times that |
| BatteryControl.Sunlight | main_simulation.py:63-64 | the sunlight is never negative, never below 80 + 80 sin, and is one of those two |
| BatteryControl.SunlightOverOrbit | main_simulation.py:63-64 | for a genuine sine value the floor never engages and sunlight lies in [0, 160] |
| BatteryControl.Candidate | main_simulation.py:75 | every grid point lies in [0.2, 1.0] |
| BatteryControl.LoadCandidates | main_simulation.py:75 | linspace(0.2, 1.0, 20) has 20 entries, entry i being grid point i |
| BatteryControl.CandidateGrid | main_simulation.py:75-77 | the grid starts at 0.2, ends at 1.0, is strictly increasing with step 0.8 / 19, and the fallback load 1.0 is its last point |
| BatteryControl.PenaltyExactlyOnViolation | main_simulation.py:81-94 | the 1e6 penalty is added exactly when SOC_pred < 0.85 or Health_pred < 0.75; costs are never negative and penalised ones are at least 1e6 |
| BatteryControl.TrackingCost | main_simulation.py:81-91 | the weighted squares of the SOC error, the health rate and the shed load; `BatteryControl.PenaltyExactlyOnViolation` shows it is never negative |
| BatteryControl.Violates | main_simulation.py:93 | SOC_pred < 0.85 or Health_pred < 0.75; `BatteryControl.PenaltyExactlyOnViolation` shows the penalty applies exactly then |
| BatteryControl.Cost | main_simulation.py:87-94 | the tracking cost plus 1e6 on a violation; `BatteryControl.PenaltyExactlyOnViolation` states both cases and the bounds |
| BatteryControl.FirstArgMin | main_simulation.py:79-98 | the index kept after scanning n candidates is one of them |
| BatteryControl.FirstArgMinIsFirstMinimiser | main_simulation.py:79-98 | the kept index costs no more than any scanned candidate and strictly less than every earlier one |
| BatteryControl.ControllerPicksFirstMinimiser | main_simulation.py:75-100 | the chosen load is always one of the 20 candidates; the first cheapest whenever some cost is below 1e9; 1.0 when none is |
| BatteryControl.GridChoice | main_simulation.py:75-100 | the load the scan settles on, the specification `ChooseLoad` is proved against; `BatteryControl.ControllerPicksFirstMinimiser` shows it is a grid point, the first minimiser when some cost is below 1e9, and 1.0 otherwise |
| BatteryControl.ChooseLoad | main_simulation.py:75-100 | the scan with strict < returns the load the specification GridChoice prescribes |
| BatteryControl.Advance | main_simulation.py:105-110 | the new SOC is the clip to [0, 1] of the predicted SOC for the chosen load, and Health falls by alpha times the new SOC's distance from 1, unclamped |
| BatteryControl.HealthNeverIncreases | main_simulation.py:109-110 | with alpha >= 0 Health never increases and loses at most alpha per step |
| BatteryControl.HealthNotClamped | main_simulation.py:109-110 | Health can fall below 0: no clamp is applied |
| BatteryControl.ChargingScenario | main_simulation.py:105-107 | full sun at load 0.2 from SOC 0.5 raises SOC by 159 / 50000 |
| BatteryControl.DegradationScenario | main_simulation.py:105-110 | at SOC 0.99 Health falls by exactly 2e-8 in one step |
| BatteryControl.RulRate | main_simulation.py:147-148 | the RUL divisor is max(abs(dH_est), 1e-8): at least both and equal to one of them |
| BatteryControl.RulAsWritten | main_simulation.py:147-150 | RUL as the code computes it is never negative |
| BatteryControl.RulAsWrittenZeroWhileHealthy | main_simulation.py:149-150 | as written, RUL is 0 whenever the estimated health is at or above 0.75 |
| BatteryControl.RulProjection | main_simulation.py:147-150 | the corrected RUL is never negative, positive exactly while health is above 0.75, and then is the number of steps after which health reaches 0.75 at the current rate |
| BatteryControl.Rul | main_simulation.py:149-150 | the corrected projection (Health_est - 0.75) / rate floored at 0; `BatteryControl.RulProjection` shows it is the number of steps until health reaches 0.75 |
| BatteryControl.RulSignErrorWitness | main_simulation.py:149 | at SOC 0.9 and Health 1.0 the code yields 0 where the projection is 1.25 million steps |
| MainSimulation.CountAbove | main_simulation.py:175 | np.sum(nis > 6) never exceeds the number of entries |
| MainSimulation.CountAboveAll | main_simulation.py:175 | the count equals the length exactly when all entries exceed the threshold, and is 0 exactly when none does |
| MainSimulation.ExceedancePercent | main_simulation.py:173-175 | the percentage exists exactly for a non-empty history, lies in [0, 100], is 100 exactly when every NIS exceeds 6 and 0 exactly when none does |
| MainSimulation.Percentage | main_simulation.py:175 | 100 n / total lies in [0, 100], equal to 0 only for n = 0 and to 100 only for n = total |
| MainSimulation.StepKeepsInvariant | main_simulation.py:58-159 | one step keeps the loop invariant: equal-length histories, SOC in [0, 1], Health non-increasing within its bound, positive diagonal P, non-negative NIS and RUL |
| MainSimulation.Append | main_simulation.py:142-159 | every history gains exactly one entry; `MainSimulation.StepKeepsInvariant` shows the appended histories keep the loop invariant |
| MainSimulation.Simulation.constructor | main_simulation.py:33-53 | the initial state SOC 0.8, Health 1.0, X_est [0.8, 1.0], P = 1e-4 I and empty histories satisfy the loop invariant |
| MainSimulation.Simulation.Step | main_simulation.py:58-159 | one iteration: the new true state is the plant update under the controller's choice, the belief is the successful Kalman correction of the noisy measurement, each history gains exactly its new entry (the RUL entry as the code computes it), and the loop invariant is kept |
| MainSimulation.Simulation.AdvanceTruth | main_simulation.py:75-110 | the grid search and the true-state update: SOC in [0, 1] and Health down by at most alpha |
| MainSimulation.Simulation.Correct | main_simulation.py:120-141 | predict and update succeed, P stays positive diagonal and the NIS returned is non-negative |
| MainSimulation.Run | main_simulation.py:58-159 | after 500 steps every history has 500 entries, the invariant holds and the exceedance percentage lies in [0, 100] |
| StateSpace.Plus | rk4_solver.py:11 | element-wise sum of two 8-vectors |
| StateSpace.Times | rk4_solver.py:11 | element-wise scaling of an 8-vector |
| Dynamics.ChargeRate | system_dynamics.py:45-50 | dSOC/dt is non-negative exactly when net power is; charging stores 0.95 of the surplus, discharging drains the deficit divided by 0.90 |
| Dynamics.DischargeCostsMore | system_dynamics.py:42-50 | a deficit drains faster than an equal surplus charges |
| Dynamics.Derivative | system_dynamics.py:9-94 | the V_bus rate is 0; the SOC rate's sign follows net power; the health rate is never positive and is 0 exactly when the SOC rate is; dP_cabin = 0.01 (dO2 - dCO2); the crew terms cancel in dO2 + dCO2 |
| Dynamics.TimeInvariant | system_dynamics.py:9-94 | the derivative does not depend on t |
| Dynamics.StateIndependentRates | system_dynamics.py:37-94 | every rate except the two temperature rates is the same for every state and time |
| Rk4Solver.Combine | rk4_solver.py:6-11 | each component of X_next is X[i] + dt/6 (k1 + 2 k2 + 2 k3 + k4)[i] |
| Rk4Solver.ClampSocAndHealth | rk4_solver.py:14-15 | components 0 and 7 are clipped to [0, 1] and every other component is untouched |
| Rk4Solver.Rk4Result | rk4_solver.py:4-17 | SOC and health lie in [0, 1], each the clip of its RK4 value; every other component is exactly its RK4 value |
| Rk4Solver.Rk4Step | rk4_solver.py:4-17 | a fresh array holding the RK4 result; the input array is not modified |
| Rk4Solver.ZeroDerivative | rk4_solver.py:6-15 | if f vanishes at X, the step returns X with components 0 and 7 clamped |
| Rk4Solver.StagePointsOnly | rk4_solver.py:6-9 | f is consulted only at t, twice at t + dt/2 and at t + dt, at the four stage states, with the same U and D |
| Rk4Solver.Stages | rk4_solver.py:6-9 | the four slopes k1..k4; `Rk4Solver.StagePointsOnly` shows f is consulted only at the four stage points |
| Rk4Solver.ConstantRateExact | rk4_solver.py:6-15 | a component with a constant rate c moves by exactly dt c (then clamped for 0 and 7) |
| StateVectors.StateVector.constructor | state_vector.py:10-25 | a fresh state vector holds 0.8, 120, 295, 280, 100, 5, 101325 and 1.0 |
| StateVectors.StateVector.ToArray | state_vector.py:27-37 | the array holds the eight fields in the order SOC, V_bus, T_core, T_radiator, O2, CO2, P_cabin, H_battery |
| StateVectors.StateVector.UpdateFromArray | state_vector.py:39-49 | succeeds exactly for an 8-element array, after which ToArray returns that array; otherwise nothing changes |
| StateVectors.StateVector.UpdateFromOwnArray | state_vector.py:27-49 | writing back ToArray leaves every field unchanged |
| StateVectors.SameArraySameFields | state_vector.py:27-37 | two state vectors give equal arrays exactly when all eight fields agree |

## Left out

- Gaussian measurement noise and `np.sin` are not modelled: each step takes the noise samples and the sine value as inputs.
- Matplotlib plotting and console output are left out. They are I/O only.
- RMSE, average NIS and the consistency error are left out. They are square-root and mean arithmetic that nothing else reads.
- Floating-point rounding is not modelled: every quantity is an unbounded real, so no overflow, rounding or NaN behaviour is captured.
- The empty-history exceedance is None in the model, where numpy yields nan. The run itself always has 500 entries.
- With Health == 0, numpy yields inf or nan and raises nothing. The model requires `health != 0` instead, and the loop invariant (Health at or above 1 - 500 * 2e-5 = 0.99) discharges that requirement at every call.
- Matrix inversion is the closed-form 2x2 adjugate. General n x n inversion is not modelled.
- `Kalman.Update` has no general positive-semi-definiteness result. The result is proved for the diagonal P, Q and R the loop uses.
- The ValueError that `system_dynamics` raises for a state of the wrong length is not modelled. `Dynamics.Derivative` and the RK4 step take the 8-component `State` type, so that error cannot occur.
- `Rk4Solver.Rk4Step` is fixed to 8-component states. The numpy code accepts any length of at least 8, because it indexes 0 and 7; a shorter array raises IndexError.
- RK4 is not applied to `system_dynamics` anywhere, and the inline battery physics of the loop is not related to it, because the code does not wire them together.
- The six history lists are one `Histories` record field of the simulation. Each list is still extended by exactly one entry per step.

## Findings

| source | as written | input that shows it | evidently intended | confidence | as-written member | corrected member |
|---|---|---|---|---|---|---|
| main_simulation.py:149 | RUL = (0.75 - Health_est) / rate, floored at 0, which is 0 whenever the estimated health is at or above the 0.75 floor (that is, for the whole life of a healthy battery) | Health_est = 1.0, SOC_est = 0.9, alpha = 2e-6: rate 2e-7, RUL 0 | the remaining steps until health falls to 0.75: (Health_est - 0.75) / rate, floored at 0, here 1.25 million | not executed; the sign is inverted for every healthy state | BatteryControl.RulAsWritten, BatteryControl.RulSignErrorWitness | BatteryControl.Rul, BatteryControl.RulProjection |
