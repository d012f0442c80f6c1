# LCOH / NPV calculator: a Dafny model of its calculation core

The program is a single-page calculator for green hydrogen. It reads
seventeen parameters from a table, covering capital and operating cost,
production volume, efficiencies, electricity cost, the capital recovery and
DCF factors, selling price, carbon tax, tax credit, and storage and transport
cost. From those it computes the levelized cost of hydrogen (LCOH) and its
per-kg components, a "Money / No Money" flag, revenue, cost, profit, a
single-lump NPV and placeholder payback and ROI figures. It can also maximise
the NPV over the parameters ticked "in the optimization", and it plots the NPV
against each of those parameters over its session range.

What this project models, module by module:

- `Support` holds `Option`, `Result` (a failure-compatible type), `Distinct`
  and `Elems`.
- `Engine` is `calculate_model`. The formulas are the function `Evaluate` over
  an `Inputs` record, in exact real arithmetic. `CalculateModel` works on the
  session dictionary, read as a `map<string, real>`. A missing key, which is a
  `KeyError` in the source, is a `Failure` naming the first absent key in the
  order the source reads them.
- `Registry` holds the seventeen-entry parameter registry and the loop that
  fills the session (`user_values`, `opt_flags`) from the table's rows. The
  widget readings are a parameter. It also covers the evaluation of the
  registry defaults.
- `Overlays` is the copy-then-write overlay of candidate values on a fixed
  assignment. The source writes it out three times. Here it is the function
  `Overlaid`, three frame lemmas and the imperative loop `Overlay`.
- `Optimizer` holds:
  - the decision keys (the ticked registry keys, in registry order);
  - the start vector and bounds loop;
  - the objective (negated NPV) and the money constraint
    (selling price minus LCOH);
  - the decoding of the solver's answer into the final assignment and metrics.
  
  The SLSQP solver is not modelled. Its answer (a success flag and a point)
  is an input.
- `Sensitivity` is the sweep: twenty evenly spaced values per decision key,
  each written over that one key of the session values and evaluated.

Points where the model states what the code does, rather than what its
comments or labels suggest:

- The constraint handed to the solver is `price - LCOH >= 0`, which is not
  strict. The "Money" flag needs `LCOH < price`. A break-even point therefore
  satisfies the constraint and reads "No Money" (`BreakEvenSatisfiesConstraint`).
- Plant life, discount rate and capacity factor are read and then used by no
  formula. Plant size is never read at all. Sweeping any of these four gives a
  flat NPV series.
- The session bounds are not checked. An inverted range (`min > max`) sweeps
  downwards.

## Model

| member | source | states |
|---|---|---|
| `Engine.EngineKeys` | new.py:274-290 | The sixteen keys the engine reads, in its lookup order, as a value. `Complete`, `FirstMissing`, `CalculateModel` and `EngineKeysRegistered` are about it; no contract of its own. |
| `Engine.Evaluate` | new.py:292-321 | The formulas. It has no contract of its own; its properties are the Engine lemmas below. |
| `Engine.InputsOf` | new.py:274-290 | The sixteen lookups, with discount rate and capacity factor divided by 100. It is the definition the engine lemmas and `CalculateModel` are stated over; no contract of its own. |
| `Engine.CalculateModel` | new.py:269-338 | It succeeds exactly when every key the engine reads is present. A failure names a key the engine reads that is absent, and every key read before it is present. A success yields the metrics of the values read, with discount rate and capacity factor divided by 100. |
| `Engine.FirstMissing` | new.py:274-290 | It finds nothing exactly when every key is present. Otherwise it gives the position of an absent key with every earlier key present, which is the first lookup that raises. |
| `Engine.GuardedProduction` | new.py:292-294 | The production used as a divisor is always positive. It is the input itself, or 1e-9 when the input is not positive. |
| `Engine.NonPositiveProductionUsesFloor` | new.py:292-294 | Any non-positive production yields exactly the metrics of production 1e-9. |
| `Engine.PerKgRecoversAnnual` | new.py:299-311 | Per-kg CAPEX and OPEX times the guarded production give back the annualised CAPEX (`capex * crf`) and the OPEX. Revenue and cost are the price and the LCOH times that same production. |
| `Engine.LcohDecomposition` | new.py:302-305 | Electricity per kg is the summed efficiencies times the cost per kWh. Carbon tax per kg is the per-ton tax over 1000. LCOH is the sum of the per-kg components plus storage and transport, minus the tax credit. |
| `Engine.CostDecomposition` | new.py:299-311 | The annual cost is the annualised CAPEX plus the OPEX plus the volume-proportional per-kg costs times production. |
| `Engine.NpvIsMarginTimesVolume` | new.py:310-314 | Profit is revenue minus cost, which equals the unit margin (price minus LCOH) times production. NPV is profit times the DCF factor. |
| `Engine.MoneyIffProfitable` | new.py:306-321 | "Money" holds exactly when LCOH is below the price, and exactly when profit is positive. Payback is 5 exactly when profit is positive, and 0 otherwise. |
| `Engine.NpvPositiveIffMoney` | new.py:306-314 | With a positive DCF factor, NPV is positive exactly when the flag is "Money". |
| `Engine.RoiIsMarginOverLcoh` | new.py:316-319 | Cost is zero exactly when LCOH is zero, and then ROI is 0. Otherwise ROI times cost is 100 times profit, so ROI is the unit margin as a percentage of LCOH. |
| `Engine.UnusedInputsIgnored` | new.py:277-279 | Changing plant life, discount rate or capacity factor changes no output. |
| `Registry.Parameters` | new.py:48-185 | The registry as a value: seventeen rows of key, caption, default, minimum, maximum and default checkbox. `RegistryKeysDistinct`, `DefaultsInRange` and `EngineKeysRegistered` are about it; no contract of its own. |
| `Registry.RegistryKeysDistinct` | new.py:48-185 | No two registry rows share a key. |
| `Registry.DefaultsInRange` | new.py:48-185 | Every registry default lies within that row's minimum and maximum. |
| `Registry.EngineKeysRegistered` | new.py:274-290 | Every key the engine reads is a registry key. It is the row at the same position, or one further on past `plant_size_mw`. |
| `Registry.SessionValues` | new.py:256 | `user_values` after the table is read. It is the definition `CollectSession` and `SessionIsComplete` are about; no contract of its own. |
| `Registry.SessionFlags` | new.py:257-261 | `opt_flags` after the table is read. It is the definition `CollectSession` and `SessionIsComplete` are about; no contract of its own. |
| `Registry.CollectSession` | new.py:225-261 | The filled `user_values` and `opt_flags` are the row values and settings written under the registry keys in row order, starting from empty dictionaries. |
| `Registry.SessionIsComplete` | new.py:225-261 | After the table is read, every registry key holds its own row's value and settings. The session covers the registry and is a complete input for the engine. |
| `Registry.DefaultInputs` | new.py:48-185 | The table as first shown gives a complete session, and the engine reads the registry defaults from it. |
| `Registry.DefaultMetrics` | new.py:299-306 | The defaults give CAPEX about 0.000349 $/kg, OPEX about 0.10274 $/kg, electricity exactly 0.36 $/kg, LCOH about 1.4631 $/kg, and "Money". |
| `Registry.DefaultEvaluation` | new.py:341 | Evaluating the table as first shown succeeds with those metrics. |
| `Overlays.Overlaid` | new.py:381-383 | The copy-then-write overlay as a value. It is the definition the frame lemmas below and `Overlay` are about; no contract of its own. |
| `Overlays.OverlaidKeys` | new.py:380-383 | An overlay holds the fixed keys plus the written keys. |
| `Overlays.OverlaidUnwritten` | new.py:380-383 | A fixed key that is not written keeps its value. |
| `Overlays.OverlaidLast` | new.py:380-383 | A written key holds the value of its last write. |
| `Overlays.OverlaidFrame` | new.py:380-383 | The three facts above together: what an overlay changes and what it leaves alone. |
| `Overlays.OverlaidDistinct` | new.py:380-383 | With distinct keys, every key holds the value written at its own position. |
| `Overlays.Overlay` | new.py:381-383 | The copy-then-write loop computes the overlay and keeps its frame. With no keys it returns the fixed assignment unchanged. |
| `Optimizer.DecisionKeys` | new.py:400 | It holds exactly the registry keys whose session checkbox is ticked, in registry order, as a subsequence of the registry keys. |
| `Optimizer.SubsequenceOfDistinct` | new.py:400 | A subsequence of a list without repeats has no repeats, and its elements come from the list. |
| `Optimizer.DecisionKeysDistinct` | new.py:400 | No decision key repeats, so each solver variable is written under its own key. |
| `Optimizer.DecisionKeysFollowDefaults` | new.py:400 | With unchanged checkboxes, the decision keys are the keys the registry marks "in the optimization". |
| `Optimizer.BuildDecisionSet` | new.py:400-405 | It returns the decision keys without repeats. `x0` and `bounds` have one entry per key, in key order: the key's current value and its session (min, max). |
| `Optimizer.OverlayKeepsComplete` | new.py:380-384 | Writing candidates over a complete assignment leaves it complete. |
| `Optimizer.Objective` | new.py:380-385 | It succeeds exactly when the overlaid assignment is complete, and then returns minus that assignment's NPV. Otherwise it fails with a missing engine key. |
| `Optimizer.MoneyConstraint` | new.py:391-397 | On the overlaid assignment it returns the price minus LCOH. The value is positive exactly when the flag is "Money", and non-negative exactly when LCOH is at most the price. Its failure cases match the objective's. |
| `Optimizer.BreakEvenSatisfiesConstraint` | new.py:396-397 | At LCOH equal to the price the constraint value is 0, which is feasible. The flag reads "No Money", and NPV and payback are 0. |
| `Optimizer.DecodeAnswer` | new.py:424-439 | Without success nothing is computed. With success, the final assignment is the session values with the solver's point written over the decision keys, and the final metrics are the engine's. It succeeds whenever the session is complete, and it keeps the overlay frame. The reported flag is "Money" exactly when the final selling price minus the final LCOH, the constraint value at the solver's point, is positive. |
| `Sensitivity.Linspace` | new.py:467 | It gives twenty points, the first the minimum and the last the maximum. |
| `Sensitivity.LinspaceEvenlySpaced` | new.py:467 | Consecutive points are one nineteenth of the range apart. |
| `Sensitivity.SweepRows` | new.py:463-475 | The series as a value: twenty rows pairing each grid point with the NPV of the session values with `k` set to it. It is the definition `SweepRowsShape` and `SweepKey` are about; no contract of its own. |
| `Sensitivity.SweepRowsShape` | new.py:465-475 | A series runs from the minimum to the maximum in even steps. Every row's NPV belongs to the session values changed at the swept key only. |
| `Sensitivity.OverrideKeepsComplete` | new.py:472-474 | Writing one key over a complete assignment keeps it complete. |
| `Sensitivity.SamplePoint` | new.py:470-475 | One grid point is evaluated on a fresh copy of the session values with the swept key overridden. |
| `Sensitivity.SweepKey` | new.py:465-475 | The inner loop computes exactly the series described above. |
| `Sensitivity.Sweep` | new.py:459-475 | It takes the informational branch exactly when there are no decision keys. Otherwise it gives one series per decision key, in order, over that key's session bounds. |
| `Sensitivity.SweepOfIgnoredKeyIsFlat` | new.py:463-475 | Sweeping plant size, plant life, discount rate or capacity factor leaves the NPV unchanged. |

## Left out

- The page layout, styling, widgets and text output are left out. The table's widget readings are a parameter of `CollectSession`.
- The SLSQP solver (`scipy.optimize.minimize`) is left out. Its answer (a success flag and a point) is an input to `DecodeAnswer`.
- The `enforce_money` checkbox and the constraint list built from it are left out. `MoneyConstraint` models the constraint function itself.
- IEEE 754 floating point is replaced by exact reals. This affects rounding in `np.linspace`, division results, and comparison at break-even.
- No ordering is assumed between the bounds, and none is checked.
- The data frame and Altair chart built from each series are left out. The model stops at the list of (value, NPV) rows.
- Range enforcement by the number widgets is left out. The session values are arbitrary reals.
- `Sensitivity.Sweep`, `Sensitivity.SweepKey` and `Sensitivity.SamplePoint` require a complete session and flags for each decision key. A sweep over an incomplete session raises in the source; its failure path is not modelled here.
- `Optimizer.BuildDecisionSet` requires that the session covers the registry, as it does after `CollectSession`; a `KeyError` for an uncovered key is not modelled. It also requires the registry's keys to be distinct, which `Registry.RegistryKeysDistinct` proves for the one registry the program has.
