# Sentinel-LEWS landslide early warning: the stability engine and its pipeline scripts

This project models the computational core of the Sentinel-LEWS landslide early-warning pipeline in Dafny:

- **`compute_fos_vectorized`**: the infinite-slope Factor of Safety (FoS) with a Green–Ampt style infiltration step. It is modelled one cell at a time (`Fos.CellFos`) and lifted element-wise over a grid (`Fos.FosGrid`, `Terrain.TerrainFos`).
- **The quick demo (`run_demo_event`)**:
  - the design storm over the terrain grid;
  - the logistic FoS→risk map;
  - hotspot selection (threshold filter, descending sort, top ten);
  - one alert per hotspot;
  - the binned, averaged risk heatmap.
- **The live simulation (`run_live_simulation` and the top-level `run_live_loop`)**, a class `LiveCycle.LiveSimulation` whose `Step` runs one cycle:
  - station readings;
  - the fusion filter;
  - the inverse-distance weighted (IDW) rain field rescaled to the largest clean reading;
  - the cell-wise saturation memory update;
  - the FoS grid under the peak rain;
  - the widespread-instability alert.

  The scripts' loops, their stop condition and their responses are methods over that class.
- **The historical backtest (`backtest_event`)**:
  - the first-match dataset search;
  - the order-preserving month filter;
  - the per-month storm scenario;
  - a second logistic (steepness 5, centre 1.1);
  - the hotspot count (risk > 0.8);
  - the "ALERT TRIGGERED" rule.

Floating-point arithmetic is modelled over `real`. The transcendental functions are parameters whose required properties are predicates:

- `exp` must be positive and strictly increasing with `exp(0) = 1` (`Transcendental.IsExp`).
- `sin`, `cos` and `tan` take degrees, so the radian conversion is folded into them. `sin` and `cos` are positive, `cos <= 1` on the clamped slope range, and `tan >= 0` on [0, 90) degrees (`Transcendental.ValidTrig`).
- The live simulation's base rain uses the sine in radians, `sinRad`, as a separate parameter.

Units follow the code:

- saturation is a fraction in [0, 1]. This is the degree fos.py's docstring names and its arithmetic uses (saturation times depth). The live scripts print its mean times 100 as a percentage.
- the storm duration is in hours: fos.py multiplies `duration_hours` by 3600 to get seconds.

Everything the scripts draw at random is an input to the model: the station noise, the 10% fault injection and the fusion engine's verdict on each reading (a keep-mask). The operator's Ctrl+C is the end of the list of per-cycle draws. The file system is a predicate `pathExists`, and the loaded, soil-estimated table is the `cells` input.

## Model

| member | source | states |
|---|---|---|
| Fos.ClampedSlope | fos.py:41 | the slope handed to the trigonometry lies in [0.1, 89.9] degrees, equals the input inside that range and the nearer bound outside it |
| Fos.InfiltrationRate | fos.py:54-61 | infiltration never exceeds ksat nor the rain rate in m/s, and equals one of the two |
| Fos.WaterTableRise | fos.py:54-65 | zero rain gives zero rise; non-negative rain, ksat and duration give a non-negative rise; for a non-negative duration the rise is at most what ksat alone infiltrates over the storm, divided by porosity 0.3 |
| Fos.WaterHeight | fos.py:68-71 | the total water height never exceeds the soil depth and, for a non-negative depth, lies in [0, depth] |
| Fos.EffectiveStress | fos.py:80 | effective normal stress is never negative, is at least sigma_n - u, and equals 0 or sigma_n - u |
| Fos.DrivingStress | fos.py:83-95 | the driving stress is at least 1e-5 and at least the raw shear stress, and equals one of them, so the FoS division is always defined |
| Fos.PorePressure | fos.py:77 | a non-negative water height gives a non-negative pore pressure |
| Fos.SafetyRatio | fos.py:97-100 | resisting over driving, clamped, lies in [0, 10] |
| Fos.FosFromWater | fos.py:73-100 | the FoS for a given water height lies in [0, 10] |
| Fos.CellFos | fos.py:41-102 | the FoS of one cell lies in [0, 10] for every input |
| Fos.FosGrid | fos.py:3-102 | the vectorised result has one entry per cell, entry i is the per-cell FoS of the inputs at i, and every entry lies in [0, 10] |
| Fos.ZeroRainNoRise | fos.py:54-71 | with zero rainfall the FoS equals the FoS of the water column from antecedent saturation alone |
| Fos.WaterHeightMonotoneInSaturation | fos.py:68-71 | for a non-negative depth, more antecedent saturation never lowers the water height |
| Fos.WaterHeightMonotoneInRise | fos.py:68-71 | a larger rise never lowers the water height |
| Fos.RiseMonotoneInRain | fos.py:54-65 | heavier rain never lowers the rise of the water table |
| Fos.PorePressureMonotone | fos.py:77 | pore pressure is non-decreasing in the water height |
| Fos.ResistingMonotone | fos.py:87 | with tan(phi) >= 0, shear strength is non-decreasing in the effective stress |
| Fos.SafetyRatioMonotone | fos.py:97-100 | the clamped ratio is non-decreasing in the resisting stress |
| Fos.FosAntitoneInWater | fos.py:74-100 | more water in the column never raises the FoS (pore pressure up, effective stress down) |
| Fos.FosAntitoneInSaturation | fos.py:61-100 | raising the antecedent saturation never raises the FoS |
| Fos.FosAntitoneInRain | fos.py:54-100 | raising the rainfall intensity never raises the FoS |
| Fos.FosGridIsLocal | fos.py:41-102 | output cell i depends only on the inputs at index i |
| Terrain.TerrainFos | sentinal/src/scripts/run_live_sim.py:124-131 | the FoS grid of a terrain table is the per-cell FoS of each row with its saturation |
| Risk.Logistic | sentinal/src/scripts/run_backtest.py:101 | the logistic risk lies strictly between 0 and 1 and is 0.5 at the centre |
| Risk.LogisticStrictlyDecreasing | sentinal/src/scripts/run_backtest.py:101 | a larger FoS gives a strictly smaller risk |
| Risk.LogisticOrderReflects | sentinal/src/scripts/run_backtest.py:101 | a risk at least as large means a FoS no larger |
| QuickDemo.FosToRisk | sentinal/src/scripts/run_quick_demo.py:23-30 | `fos_to_risk` lies strictly in (0, 1) and is 0.5 at FoS 1.0 |
| QuickDemo.FosToRiskStrictlyDecreasing | sentinal/src/scripts/run_quick_demo.py:23-30 | `fos_to_risk` is strictly decreasing |
| QuickDemo.InitialSaturation | sentinal/src/scripts/run_quick_demo.py:74-77 | the initial saturation is R_30d/500 clipped to [0, 0.9] when the column exists and 0.5 otherwise, so it lies in [0, 0.9] |
| QuickDemo.InitialSaturations | sentinal/src/scripts/run_quick_demo.py:75-77 | row i's initial saturation is `InitialSaturation` of row i's R_30d value (or of its absence), so each lies in [0, 0.9] |
| QuickDemo.DemoFos | sentinal/src/scripts/run_quick_demo.py:83-102 | entry i is the FoS of row i under the design storm (50 mm/h for 12 h) at row i's initial saturation, plus residual i |
| QuickDemo.RiskOf | sentinal/src/scripts/run_quick_demo.py:103 | the risk column is `fos_to_risk` of each FoS, each in (0, 1) |
| QuickDemo.RowsAbove | sentinal/src/scripts/run_quick_demo.py:110 | the filter keeps exactly the rows whose risk exceeds the threshold, in ascending row order |
| QuickDemo.InsertByRisk | sentinal/src/scripts/run_quick_demo.py:111 | inserting a row adds exactly that row and keeps the list ordered by descending risk |
| QuickDemo.InsertKeepsTiesInRowOrder | sentinal/src/scripts/run_quick_demo.py:111 | inserting a row numbered below every listed row keeps rows of equal risk in ascending row order |
| QuickDemo.ConsKeepsDescending | sentinal/src/scripts/run_quick_demo.py:111 | a row that outranks the rest of a descending list stays in front of it after an insertion below it |
| QuickDemo.SortByRisk | sentinal/src/scripts/run_quick_demo.py:111 | the sort is a permutation of its input ordered by descending risk |
| QuickDemo.SortByRiskIsStable | sentinal/src/scripts/run_quick_demo.py:110-111 | sorting rows given in ascending row order leaves rows of equal risk in ascending row order |
| QuickDemo.Hotspots | sentinal/src/scripts/run_quick_demo.py:109-111 | the hotspots are valid row numbers |
| QuickDemo.HotspotSelection | sentinal/src/scripts/run_quick_demo.py:109-111 | at most 10 distinct hotspots, each above the threshold, ordered by non-increasing risk; an unselected row above the threshold has risk no greater than the smallest selected one, and then exactly 10 were selected |
| QuickDemo.HotspotTiesInRowOrder | sentinal/src/scripts/run_quick_demo.py:109-111 | hotspots of equal risk appear in their table order |
| QuickDemo.PermutationOfAscendingIsDistinct | sentinal/src/scripts/run_quick_demo.py:110-111 | sorting the filtered rows never duplicates a row |
| QuickDemo.PrefixKeeps | sentinal/src/scripts/run_quick_demo.py:111 | `head(10)` keeps order, distinctness and the threshold |
| QuickDemo.TopOfSortedBoundsRest | sentinal/src/scripts/run_quick_demo.py:111 | any row above the threshold left out by `head(10)` has risk at most the tenth selected one |
| QuickDemo.GenerateAlerts | sentinal/src/scripts/run_quick_demo.py:114-122 | exactly one alert per hotspot, in hotspot order, and the "no hotspots" notice iff the alert list is empty |
| QuickDemo.RunDemoEvent | sentinal/src/scripts/run_quick_demo.py:38-160 | a missing path gives the error response; otherwise the FoS, risk, hotspots, alerts, notice and every heatmap bin are those of the model functions, with the hotspots taken above the configured risk threshold or 0.75 when none is configured |
| Heatmap.Linspace | sentinal/src/scripts/run_quick_demo.py:144-145 | n points from lo to hi inclusive, sorted when lo <= hi |
| Heatmap.SearchSortedIsInsertionPoint | sentinal/src/scripts/run_quick_demo.py:150-151 | on a sorted grid, `searchsorted` is the left insertion point: everything before it is smaller, everything from it on is at least v |
| Heatmap.BinIndex | sentinal/src/scripts/run_quick_demo.py:150-153 | the clipped bin index lies in [0, n-1] |
| Heatmap.BinIndices | sentinal/src/scripts/run_quick_demo.py:140-153 | entry k is the bin of coordinate k on the 400-point grid spanning the column's minimum and maximum, so it lies in [0, 399] |
| Heatmap.BinIndicesMonotone | sentinal/src/scripts/run_quick_demo.py:140-153 | of two coordinates of the same column, the larger never gets the smaller bin |
| Heatmap.BinIndexMonotone | sentinal/src/scripts/run_quick_demo.py:150-153 | the bin index is monotone in the coordinate |
| Heatmap.BinIndexBrackets | sentinal/src/scripts/run_quick_demo.py:150-153 | inside the grid's span, bin b of v satisfies grid[b] < v <= grid[b+1] |
| Heatmap.AverageRiskGrid | sentinal/src/scripts/run_quick_demo.py:155-160 | after the accumulate-then-divide loops, every bin holds its risk sum over its count, with a count of 0 read as 1 |
| Heatmap.BinSumBounds | sentinal/src/scripts/run_quick_demo.py:155-156 | a bin's risk sum lies between 0 and its count when risks lie in [0, 1] |
| Heatmap.BinMeanIsAverage | sentinal/src/scripts/run_quick_demo.py:155-160 | each bin's value lies in [0, 1], and an empty bin stays 0 |
| Heatmap.CountsSumToRows | sentinal/src/scripts/run_quick_demo.py:155-157 | the bin counts add up to the number of rows |
| LiveCycle.BaseRain | sentinal/src/scripts/run_live_sim.py:83 | the cycle's base rain is never negative |
| LiveCycle.ReadingOf | sentinal/src/scripts/run_live_sim.py:90 | a reading keeps its station, is never negative, equals the simulated value when that is non-negative and 0 otherwise |
| LiveCycle.StationReadings | sentinal/src/scripts/run_live_sim.py:86-90 | one reading per station, in station order, from its noise or its 9999 fault |
| LiveCycle.CollectReadings | sentinal/src/scripts/run_live_sim.py:84-90 | the append loop builds exactly those readings |
| LiveCycle.Kept | sentinal/src/scripts/run_live_sim.py:92 | the clean readings are among the readings and no more numerous |
| LiveCycle.KeptMembers | sentinal/src/scripts/run_live_sim.py:92 | every kept reading is clean, and clean readings exist only if some reading was kept |
| LiveCycle.MaxReading | sentinal/src/scripts/run_live_sim.py:108 | the largest clean reading bounds every clean reading and is one of them |
| LiveCycle.CleanReadings | sentinal/src/scripts/run_live_sim.py:86-108 | the clean readings are non-negative |
| LiveCycle.Dist2 | sentinal/src/scripts/run_live_sim.py:103-104 | the squared distance to a station is floored at 1e-6 |
| LiveCycle.Contribution | sentinal/src/scripts/run_live_sim.py:105 | a station's contribution to a cell is non-negative for a non-negative value and positive for a positive one |
| LiveCycle.Weight | sentinal/src/scripts/run_live_sim.py:102-105 | a cell's accumulated weight over non-negative clean readings is non-negative |
| LiveCycle.Weights | sentinal/src/scripts/run_live_sim.py:101-105 | one accumulated weight per cell, each depending only on that cell's position |
| LiveCycle.WeightPositive | sentinal/src/scripts/run_live_sim.py:102-105 | over non-negative clean readings, one positive reading makes every cell's weight positive |
| LiveCycle.WeightsPositive | sentinal/src/scripts/run_live_sim.py:101-107 | with a positive clean reading the maximum of the weighted grid is positive, so the division at line 107 is defined |
| LiveCycle.AccumulateWeights | sentinal/src/scripts/run_live_sim.py:101-105 | the `+=` loop over clean stations computes exactly the weights |
| LiveCycle.Rescale | sentinal/src/scripts/run_live_sim.py:107-108 | the rescaled grid has one value per cell, each scaled from that cell's own weight |
| LiveCycle.ScaleWithin | sentinal/src/scripts/run_live_sim.py:107-108 | a value in [0, max] rescales into [0, peak], and the maximum rescales to the peak |
| LiveCycle.RescaleBounds | sentinal/src/scripts/run_live_sim.py:107-108 | a non-negative grid rescaled to a peak M lies in [0, M] and some cell equals M |
| LiveCycle.Normalise | sentinal/src/scripts/run_live_sim.py:107-108 | the in-place divide and multiply compute exactly the rescaled grid |
| LiveCycle.RainField | sentinal/src/scripts/run_live_sim.py:95-108 | one rain value per cell, all zero when there are no clean readings or all of them are 0 (the guard the scripts lack; see Findings) |
| LiveCycle.RainFieldBounds | sentinal/src/scripts/run_live_sim.py:95-108 | with clean readings, every cell lies in [0, M] and the field's maximum equals M, the largest clean reading, also when M is 0 |
| LiveCycle.InterpolateRain | sentinal/src/scripts/run_live_sim.py:95-108 | the branch and the loops compute exactly the rain field |
| LiveCycle.NextSaturation | sentinal/src/scripts/run_live_sim.py:115-117 | a cell's next saturation lies in [0.05, 1.0] |
| LiveCycle.DryCycleNeverWets | sentinal/src/scripts/run_live_sim.py:115-117 | with zero rain and a prior saturation in [0.05, 1], saturation never increases |
| LiveCycle.NextSaturationMonotoneInRain | sentinal/src/scripts/run_live_sim.py:115-117 | more rain never leaves a cell drier |
| LiveCycle.UpdatedSaturation | sentinal/src/scripts/run_live_sim.py:115-117 | every cell's new saturation is clip(s*0.985 + rain/100*0.08, 0.05, 1.0) of its own prior value and rain, so all lie in [0.05, 1] |
| LiveCycle.InitialSaturation | sentinal/src/scripts/run_live_sim.py:59 | saturation starts at 0.2 in every cell |
| LiveCycle.UnstableFraction | sentinal/src/scripts/run_live_sim.py:137 | the unstable fraction lies in [0, 1] |
| LiveCycle.AlertIffMoreThanOneInTwenty | sentinal/src/scripts/run_live_sim.py:137-142 | the alert fires iff more than one cell in twenty has FoS < 1, that is, the fraction exceeds 0.05 |
| LiveCycle.CycleOf | sentinal/src/scripts/run_live_sim.py:77-142 | a cycle's report carries its number, one saturation per cell, all in [0.05, 1], and one FoS per cell |
| LiveCycle.DryCycleDrains | sentinal/src/scripts/run_live_sim.py:95-117 | a cycle without clean readings has an all-zero rain field and raises no cell's saturation |
| LiveCycleAsWritten.RainFieldAsWritten | sentinal/src/scripts/run_live_sim.py:95-108 | the unguarded rain field on floats has one value per cell and is 0 everywhere without clean readings |
| LiveCycleAsWritten.ZeroReadingsZeroWeight | sentinal/src/scripts/run_live_sim.py:101-105 | clean readings that are all 0 give a weighted sum of 0 at every cell |
| LiveCycleAsWritten.CountUnstable | sentinal/src/scripts/run_live_sim.py:137 | the count of cells whose FoS compares below 1 never exceeds the number of cells |
| LiveCycleAsWritten.NextSaturationAsWritten | sentinal/src/scripts/run_live_sim.py:115-117 | the saturation update on floats is NaN exactly when the old saturation or the rain is NaN, and otherwise lies in [0.05, 1] |
| LiveCycleAsWritten.CellFosAsWritten | sentinal/src/scripts/run_live_sim.py:124-131 | a cell's FoS is NaN exactly when its saturation or the peak rain is NaN |
| LiveCycleAsWritten.AllZeroReadingsGiveNaN | sentinal/src/scripts/run_live_sim.py:98-108 | clean readings whose largest is 0 make the unguarded field NaN in every cell, where the guarded field is 0 |
| LiveCycleAsWritten.NaNGridHasNoUnstableCell | sentinal/src/scripts/run_live_sim.py:137 | a grid of NaN FoS values has no cell below 1 |
| LiveCycleAsWritten.NaNSaturationPersists | sentinal/src/scripts/run_live_sim.py:113-142 | once the saturation memory is NaN, the next cycle keeps it NaN for any rain, every FoS is NaN and the alert does not fire |
| LiveCycleAsWritten.CycleTwelveGivesNaN | sentinal/src/scripts/run_live_sim.py:83-108 | in cycle 12 (base rain at most 5 mm/h), noise -5 at every station, no fault and all readings kept give clean readings of 0 and a NaN field in every cell |
| LiveCycle.WetCycleFacts | sentinal/src/scripts/run_live_sim.py:95-142 | with clean readings, the cycle's rain lies in [0, M] with peak M, each cell's saturation follows its rain, and the alert fires iff more than one cell in twenty is unstable |
| LiveCycle.LiveSimulation.constructor | sentinal/src/scripts/run_live_sim.py:59-69 | the state starts at cycle 0 with saturation 0.2 everywhere |
| LiveCycle.LiveSimulation.Step | sentinal/src/scripts/run_live_sim.py:77-142 | one cycle: the counter rises by exactly 1, the new saturation is the cycle's report's, and the report is that of the cycle function on the prior saturation |
| LiveSimulationScript.CyclesRun | sentinal/src/scripts/run_live_sim.py:69-77 | with a limit, exactly min(limit, draws) cycles run; without one, one per draw |
| LiveSimulationScript.HistoryExtends | sentinal/src/scripts/run_live_sim.py:71-142 | appending the next cycle's report to a consistent history keeps it consistent |
| LiveSimulationScript.NumberedExtends | sentinal/src/scripts/run_live_sim.py:77-117 | appending a report numbered next, with saturation in range, keeps every report numbered k+1 with saturation in [0.05, 1] |
| LiveSimulationScript.Advance | sentinal/src/scripts/run_live_sim.py:71-142 | one loop turn adds exactly one report, the cycle counter follows, and history and saturation range are preserved |
| LiveSimulationScript.RunLiveSimulation | sentinal/src/scripts/run_live_sim.py:21-159 | a missing dataset returns the error (web mode) or nothing; an empty grid fails with the error; otherwise exactly the bounded number of cycles run, each report is the cycle function of the previous saturation, every saturation stays in [0.05, 1], and the run returns success (web mode) when the limit is reached |
| LiveSimulationScript.RunWebSimulation | sentinal/src/scripts/run_live_sim.py:21-160 | in web mode with the default limit of 5 cycles: a missing dataset gives the error status; a usable dataset and non-empty grid run min(5, draws) cycles, with success exactly when all five ran; never more than 5 reports |
| LiveSimulationScript.RunLiveLoop | sentinal/src/scripts/run_live_sim.py:161-163 | with no limit the run only ends by a missing dataset, an empty grid or the interrupt, and never reports success |
| LiveLoopScript.RunLiveLoop | run_live_sim.py:20-127 | the loop ends at a missing dataset iff the file is absent, crashes iff the grid is empty, and otherwise runs one cycle per draw, counter +1 per cycle, each report the cycle function of the previous saturation and all saturation in [0.05, 1] |
| Backtest.JoinPath | sentinal/src/scripts/run_backtest.py:30 | the joined path ends with the relative path, and an empty directory leaves it unchanged |
| Backtest.SearchOrder | sentinal/src/scripts/run_backtest.py:27-38 | each candidate is tried relative to the script directory first and then bare |
| Backtest.FirstExisting | sentinal/src/scripts/run_backtest.py:29-38 | none is found iff no path exists; otherwise the result is the first path that exists |
| Backtest.FirstExistingPair | sentinal/src/scripts/run_backtest.py:29-38 | each iteration decides on one candidate's two paths: the first existing one of the pair, else the search goes on past both |
| Backtest.SearchCandidates | sentinal/src/scripts/run_backtest.py:29-41 | the candidate loop with its breaks returns the first existing path of the search order, and nothing iff none exists |
| Backtest.LocateDataset | sentinal/src/scripts/run_backtest.py:25-41 | the lookup returns the given path if it exists, else the first existing candidate, and what it returns exists |
| Backtest.AvailableMonths | sentinal/src/scripts/run_backtest.py:48-49 | the available months are exactly the listed months that are columns, in list order, each as often as it is listed |
| Backtest.HasInfix | sentinal/src/scripts/run_backtest.py:72 | Python's `in` on strings: true iff the tag occurs at some position |
| Backtest.ScenarioFor | sentinal/src/scripts/run_backtest.py:72-79 | a month containing "07-01" gets 45 mm/h and saturation 0.8, any other month 10 mm/h and 0.4 |
| Backtest.MonthScenarios | sentinal/src/scripts/run_backtest.py:48-79 | June 2023 gets the mild scenario and July 2023 the extreme one |
| Backtest.BacktestFos | sentinal/src/scripts/run_backtest.py:91-98 | each cell's FoS is the per-cell FoS at the scenario's uniform saturation and intensity over 6 hours |
| Backtest.BacktestRisk | sentinal/src/scripts/run_backtest.py:101 | each risk is the steepness-5, centre-1.1 logistic of its FoS, in (0, 1) |
| Backtest.MonthResultFor | sentinal/src/scripts/run_backtest.py:67-110 | a month's result carries the month, its scenario's intensity, and a hotspot count at most the cell count |
| Backtest.AlertStatus | sentinal/src/scripts/run_backtest.py:117 | the status is "ALERT TRIGGERED" iff hotspots exceed 10 |
| Backtest.CountAboveMonotone | sentinal/src/scripts/run_backtest.py:102 | raising every risk never lowers the count above a threshold |
| Backtest.JulyCellRiskAtLeastJune | sentinal/src/scripts/run_backtest.py:72-101 | in every cell the July scenario's risk is at least the June one's |
| Backtest.JulyFlagsAtLeastJune | sentinal/src/scripts/run_backtest.py:72-102 | July 2023 never flags fewer hotspots than June 2023 |
| Backtest.CountHotspots | sentinal/src/scripts/run_backtest.py:102 | the counting loop returns the number of cells whose risk exceeds 0.8 |
| Backtest.AssessMonth | sentinal/src/scripts/run_backtest.py:68-110 | the scenario, FoS, risk and counted hotspots of the loop body make up exactly the month's result |
| Backtest.AssessMonths | sentinal/src/scripts/run_backtest.py:65-110 | one result per month, in month order |
| Backtest.BacktestEvent | sentinal/src/scripts/run_backtest.py:14-127 | the result is an error iff no dataset is found; otherwise success with one result per available month, in order, even when there are none |

## Left out

- Reading the CSV table, soil-parameter estimation, the sensor fusion engine and the ML residual are calls into code that is not part of this model. Their outputs are inputs: `cells`, `frame`, a per-reading keep-mask and `residual`.
- Printing, log capture, `sys.stdout` redirection, `time.time`, `time.sleep`, the 15-second performance message and the matplotlib/base64 heatmap rendering are output and timing plumbing. The heatmap is modelled up to the averaged grid.
- `generate_sms` text formatting is not modelled. An alert is its content: latitude, longitude, risk and FoS.
- The random draws (`random.uniform`, the 10% fault test) are inputs, and so is the sine of the base rain. The noise range [-5, 5] is not checked.
- IEEE-754 behaviour is modelled only for the NaN of an all-zero rain field (`LiveCycleAsWritten`, see Findings); all other arithmetic is over `real`. The rest of the model uses the guarded field `LiveCycle.RainField`.
- Saturation is stored as float32 in the live scripts; the model uses one real type for it.
- The live scripts also compute a per-cell risk (logistic, steepness 10) that nothing reads, and the backtest reads the month's rainfall column without using it. Neither is modelled.
- The elevation column is passed to the FoS engine but never used there, so it is not an input of `Fos.CellFos`.
- `sort_values` in the quick demo is not a stable sort, so the order among equal risks is unspecified. The model's insertion sort is stable (`QuickDemo.SortByRiskIsStable`): equal risks keep their row order. The other selection properties do not depend on how ties are ordered.
- Exceptions: the live simulation's catch-all is modelled for its one reachable cause, an empty grid (the rain grid of no cells has no maximum). Exceptions raised inside the loader and other foreign calls are not modelled, nor the quick demo's and backtest's catch-alls, which only such calls can trigger. The top-level live loop lets the same error escape (`Crashed`).
- An unbounded `while True` loop is modelled as a loop over the finite list of per-cycle draws, whose end stands for the operator's interrupt.
- `LiveLoopScript.RunLiveLoop`, `LiveSimulationScript.RunLiveSimulation`: the reports are stated for the cycles that ran, not for what was printed about them.
- The browser-side saturation stepper (start, stop, reset, advance with a 90% cap), its risk classification and its reasoning strings are not part of this model. The FastAPI routes and the test client are HTTP plumbing.

## Findings

| source | as written | input that shows it | evidently intended | confidence | as-written member | corrected member |
|---|---|---|---|---|---|---|
| sentinal/src/scripts/run_live_sim.py:98-117 | in both live scripts, with clean readings that are all 0, `rain_grid /= np.max(rain_grid)` divides a grid of zeros by 0: every cell becomes NaN; `np.clip` keeps NaN, so the saturation memory stays NaN in every later cycle, every FoS is NaN and `fos < 1.0` never holds, so the alert can never fire again | cycle 12, where 25 + 25 sin(4.8) is about 0.1 mm/h: no fault, noise -5 at each station, all three readings kept | an all-zero field is treated like no rain: the field is 0 everywhere and lies in [0, M] with peak M | not executed | LiveCycleAsWritten.CycleTwelveGivesNaN | LiveCycle.RainFieldBounds |
