# SIVAA thermal floorplan engine, Vedic multiplier and test bookkeeping in Dafny

This project models the computational core of the SIVAA ("Yantra chip") repository and proves properties of it. It covers five parts:

- **The HotSpot-style thermal engine** (`simulation/sivaa_hotspot_thermal.py`). It has the layer table of the radial ("yantra") floorplan and the first-match layer lookup. It also has the radial and rectangular power maps and the rectangular grid of copper cooling channels. The solver is an in-place Gauss-Seidel 5-point sweep with Dirichlet edges and an early stop. Last come the interior-window statistics and the comparison percentages. The simulator object is a class whose methods replace its `T`, `power` and `k_map` fields.
- **The vectorised thermal engine** (`Y769_Emp/Emp_2_Advanced_Thermal_Sim.py`). Its power and conductivity maps are built by sequential masked overwrites over meshgrid coordinates. Its solver is double-buffered (Jacobi): it re-pins the four edges after every sweep and tests convergence only on every hundredth sweep. The metric guards complete it.
- **The Urdhva Tiryagbhyam ("vertically and crosswise") multiplier** (`Y769_Emp/vedic_multiplier_test.py`). The 2x2, 4x4 and 8x8 blocks are written as one block function indexed by level. The bitwise variant nested in `verification/brute_force_test.py` is modelled too.
- **The brute-force verification suite** (`verification/brute_force_test.py`). This is a class with a test log: three counters and one record list per category. It also has a leaky integrate-and-fire neuron, the Fibonacci table, the fixed checks of the six test groups, and `run_all`.
- **The discrete logic of the benchmark** (`simulation/sivaa_benchmark.py`):
  - the clocking accumulator;
  - the two learning loops with their safety cap;
  - the oscillation counter of the loop detector;
  - the numbering and tagging of the 18 marma points;
  - the analytic Manhattan path length;
  - the improvement formula;
  - the suite that collects the three results.

Temperatures, powers and ratios are exact `real`s: IEEE-754 rounding is not modelled. Only structural facts are claimed: lookup rules, masks, which cells are written, loop bounds, guards and counts. Radii are never square-rooted. A test `R <= r` on a radius `R = sqrt(R2)` becomes `R2 <= r*r` for `r >= 0`, and lemmas show that this comparison of squares agrees with the source's comparison of radii. Python's `>>` and `&` with a mask are floor division and the non-negative remainder. Dafny's `/` and `%` compute the same thing for a positive divisor, also on negative numbers.

Where Python raises an exception, the model returns `None`:
- a `ZeroDivisionError` on a zero baseline;
- a `ValueError` from `math.sqrt` of a negative count;
- an `IndexError` from `states[-1]` on an empty list.

In the comparison percentages of the vectorised engine (`AdvancedThermal.RelativePct` and `AdvancedThermal.CompareLayouts`), numpy's float division gives `inf` or `nan` on a zero base instead of raising. There, too, the model returns `None`.

Python's hard failures on degenerate sizes become preconditions:
- a zero `dx` divisor when `grid_size == 0` (`self.dx = self.die_size / grid_size` raises `ZeroDivisionError` at `simulation/sivaa_hotspot_thermal.py:121`), so the simulator's constructor requires `gridSize >= 1`;
- a zero `range` step when `grid_size < 5`;
- a zero `center` when `grid_size < 2`;
- an empty interior window when `grid_size < 11`.

The solvers also carry preconditions on their inputs where numpy would go on with `inf` or `nan`, which real arithmetic cannot represent:
- both solvers require a positive conductivity at every interior cell, because the stencil divides by `k_map[i, j]`;
- `AdvancedThermal.SolveHeatEquation` requires a non-zero die size, because its stencil divides by `dx**2` with `dx = die / grid_size * 1e-3`.

Where the description of the system and the code disagree, the model follows the code:
- The hotspot-reduction guard of `sivaa_hotspot_thermal.py` is `max(1, count)`, which turns a zero baseline into `-100 * yantra_count`. It is not a "0% improvement". The peak and uniformity percentages there divide unguarded.
- `sivaa_hotspot_thermal.py` tests convergence after every sweep, not every fixed number of sweeps.
- In the vectorised engine a radius on a band boundary belongs to the outer band. Cells beyond the I/O band stay 0; they do not get a boundary density.
- In the vectorised engine the cache region excludes only the last satellite core (see Findings).

The modules follow the source files:

| file | module |
|---|---|
| `common.dfy` | `Common`: `Option`, `Abs`, decimal rendering of naturals, real powers, arithmetic helpers |
| `field_stats.dfy` | `FieldStats`: copy, max, min, sum, count-above and largest change over fields |
| `hotspot_thermal.dfy` | `HotspotThermal` |
| `advanced_thermal.dfy` | `AdvancedThermal` |
| `vedic_multiplier.dfy` | `VedicMultiplier` |
| `brute_force.dfy` | `BruteForceTest` |
| `benchmark.dfy` | `SivaaBenchmark` |

## Model

| member | source | states |
|---|---|---|
| Common.NatToStringRoundTrip | verification/brute_force_test.py:130 | reading back the decimal digits of the rendering of n gives n, so the rendering used in test names and ids loses nothing |
| Common.NatToStringInjective | simulation/sivaa_benchmark.py:165-177 | distinct numbers render as distinct strings |
| Common.PowerAtLeastOne | simulation/sivaa_benchmark.py:361 | a power of a base of at least 1 is at least 1 |
| FieldStats.SeqMax | simulation/sivaa_hotspot_thermal.py:293 | np.max: the result is one of the values and none exceeds it |
| FieldStats.SeqMin | simulation/sivaa_hotspot_thermal.py:295 | np.min: the result is one of the values and none is below it |
| FieldStats.MeanBetween | simulation/sivaa_hotspot_thermal.py:294 | np.mean of a non-empty window lies between its minimum and maximum |
| FieldStats.CopyField | simulation/sivaa_hotspot_thermal.py:258 | T.copy(): a fresh array of the same shape holding the same values |
| FieldStats.MaxAbsDiff | simulation/sivaa_hotspot_thermal.py:273 | np.max(np.abs(A - B)): every cell-wise change is at most the result and some cell attains it |
| FieldStats.GridMaxChangeIsMax | simulation/sivaa_hotspot_thermal.py:273 | the row-by-row maximum of the cell-wise changes of two fields bounds every change and is attained by some cell |
| FieldStats.IsMaxChangeIff | Y769_Emp/Emp_2_Advanced_Thermal_Sim.py:190 | a value is the largest change of two fields iff it bounds every cell-wise change and some cell attains it |
| FieldStats.MaxChangeOfSnapshots | simulation/sivaa_hotspot_thermal.py:273 | the result of MaxAbsDiff on two arrays is the largest change of their values |
| HotspotThermal.YantraPower | simulation/sivaa_hotspot_thermal.py:153-175 | the density of the first layer, in table order bindu to pdn, whose radius is at least r; past pdn the boundary density |
| HotspotThermal.YantraPowerOnBoundary | simulation/sivaa_hotspot_thermal.py:158-173 | a radius exactly on a layer boundary gets the inner layer's density |
| HotspotThermal.YantraPowerBeyondPdn | simulation/sivaa_hotspot_thermal.py:172-175 | every radius beyond 0.887 gets 0.05 |
| HotspotThermal.CoveringBySquares | simulation/sivaa_hotspot_thermal.py:142 | for non-negative bounds and radius, the first covering bound is the same when squares are compared |
| HotspotThermal.LayerPowerOfSquare | simulation/sivaa_hotspot_thermal.py:71-81 | the lookup on a squared radius yields one of the nine POWER_DENSITY entries and is positive |
| HotspotThermal.LayerPowerOfSquareAgrees | simulation/sivaa_hotspot_thermal.py:140-146 | looking up the squared radius agrees with _get_yantra_power on sqrt of it |
| HotspotThermal.YantraMapValues | simulation/sivaa_hotspot_thermal.py:132-151 | every cell of the radial map holds one of the nine layer densities and is positive |
| HotspotThermal.HitsCore | simulation/sivaa_hotspot_thermal.py:190-192 | the scan over the core list hits exactly when some listed core contains the cell |
| HotspotThermal.RectangularPower | simulation/sivaa_hotspot_thermal.py:177-199 | the value is one of 1.2, 0.5, 0.2: 1.2 iff one of the four anchors' cores contains the cell, 0.5 iff none does and the cell is strictly inside the central square of half-width n/3, 0.2 otherwise |
| HotspotThermal.CreatePowerMap | simulation/sivaa_hotspot_thermal.py:132-151 | an n x n map whose every cell holds the value of its layout's rule at that cell |
| HotspotThermal.CreateConductivityMapRectangular | simulation/sivaa_hotspot_thermal.py:225-231 | a cell is copper iff its row or its column is i or i+1 for a multiple i of n/5 below n, silicon otherwise |
| HotspotThermal.OnChannelClosedForm | simulation/sivaa_hotspot_thermal.py:227-229 | a row or column carries a channel iff its residue modulo n/5 is 0 or 1 |
| HotspotThermal.RectangularConductivityValues | simulation/sivaa_hotspot_thermal.py:225-231 | every conductivity is silicon (148) or copper (401), hence positive |
| HotspotThermal.GaussSeidelSweep | simulation/sivaa_hotspot_thermal.py:260-270 | non-interior cells keep their values; each interior cell gets the 5-point stencil of the already-updated cells above and to the left and the previous values below and to the right |
| HotspotThermal.TraceStep | simulation/sivaa_hotspot_thermal.py:257-273 | in a recorded run, field k + 1 is the in-place stencil sweep of field k, and change k is the largest cell-wise change of that sweep, for every k |
| HotspotThermal.TraceKeepsBoundary | simulation/sivaa_hotspot_thermal.py:248-270 | every field of a run that starts at ambient keeps ambient on all four edges, since the sweeps write only interior cells |
| HotspotThermal.EarlyStopMeaning | simulation/sivaa_hotspot_thermal.py:272-276 | when the run stops early, no cell moved by tolerance or more in the last sweep, and in every earlier sweep some cell did |
| HotspotThermal.RelaxOnce | simulation/sivaa_hotspot_thermal.py:258-273 | one iteration: the new field is the Gauss-Seidel sweep of the old one, and error is np.max(np.abs(T - T_old)) of the two |
| HotspotThermal.Relax | simulation/sivaa_hotspot_thermal.py:257-276 | the loop, from a given field: each field is one sweep of the previous with its largest change recorded; at most max_iter sweeps; it stops at the first sweep whose change is below tolerance, and the array holds the last field |
| HotspotThermal.AmbientField | simulation/sivaa_hotspot_thermal.py:248-254 | a fresh n x n field at ambient everywhere, edges included |
| HotspotThermal.SolveField | simulation/sivaa_hotspot_thermal.py:248-276 | the returned array is the last field of a run that starts at ambient, where each field is a Gauss-Seidel sweep of the previous and each recorded change is its largest cell-wise change; at most max_iter sweeps; the early stop fires iff the last change is below tolerance, and no earlier change was; the edges hold ambient |
| HotspotThermal.YantraThermalSimulator.constructor | simulation/sivaa_hotspot_thermal.py:107-127 | die size in metres, dx = die / grid, T at ambient, power zero and k_map silicon everywhere |
| HotspotThermal.YantraThermalSimulator.SolveSteadyState | simulation/sivaa_hotspot_thermal.py:243-282 | stores the two maps, then stores and returns the last field of a Gauss-Seidel run on them from ambient (sweep by sweep, with the early stop), whose edges all equal ambient |
| HotspotThermal.YantraThermalSimulator.SolveRectangular | simulation/sivaa_hotspot_thermal.py:233-282 | the stored maps are the rectangular power and conductivity rules cell by cell, and the stored and returned field is the last field of a Gauss-Seidel run on them, with ambient edges |
| HotspotThermal.YantraThermalSimulator.SolveYantra | simulation/sivaa_hotspot_thermal.py:233-282 | the stored power map is the radial rule (a layer density at every cell) and the given conductivity map is stored; the stored and returned field is the last field of a Gauss-Seidel run on them, with ambient edges |
| HotspotThermal.HotspotThreshold | simulation/sivaa_hotspot_thermal.py:298 | the threshold lies between min and peak and equals the peak only for a flat window |
| HotspotThermal.UniformityPct | simulation/sivaa_hotspot_thermal.py:313 | 100.0 when the range is zero or negative, and 100.0 for a zero deviation |
| HotspotThermal.AnalyzeResults | simulation/sivaa_hotspot_thermal.py:284-316 | statistics over the window [5, n-5) squared only: min and peak are attained bounds of it, the mean lies between them, the range is their difference, hotspots are at most (n-10) squared, 0 hotspots and 100% uniformity for a flat window and at least one hotspot otherwise |
| HotspotThermal.HotspotsWhenFlat | simulation/sivaa_hotspot_thermal.py:298-299 | no cell exceeds the threshold of a flat window; the peak cell exceeds that of any other |
| HotspotThermal.HotspotReductionFacts | simulation/sivaa_hotspot_thermal.py:344 | at most 100; exactly 100 iff no yantra hotspots remain of a positive count; 0 iff the counts are equal; a zero baseline gives -100 times the yantra count |
| HotspotThermal.CompareLayouts | simulation/sivaa_hotspot_thermal.py:342-344 | a report exists iff neither unguarded denominator is zero; equal peaks or equal deviations give 0% |
| HotspotThermal.RatioListAllPositive | simulation/sivaa_hotspot_thermal.py:90-96 | on positive radii there is one ratio per adjacent pair, outer over inner |
| HotspotThermal.VerifyGoldenRatio | simulation/sivaa_hotspot_thermal.py:87-96 | eight ratios, the k-th being radius k+1 over radius k of the layer table |
| AdvancedThermal.CoordEnds | Y769_Emp/Emp_2_Advanced_Thermal_Sim.py:50-52 | linspace starts at -die/2 and ends at die/2 |
| AdvancedThermal.RectangularPowerAt | Y769_Emp/Emp_2_Advanced_Thermal_Sim.py:59-81 | the value a cell ends with after the masked overwrites is one of the five densities 0.05, 0.2, 0.6, 1.0 and 0; the lemmas below say which mask decides it |
| AdvancedThermal.GeneratePowerMapRectangular | Y769_Emp/Emp_2_Advanced_Thermal_Sim.py:59-81 | the five sequential masked overwrites leave every cell at its last-mask value |
| AdvancedThermal.IoRingWins | Y769_Emp/Emp_2_Advanced_Thermal_Sim.py:77-79 | every cell farther than 8 mm from the centre ends at 0.05, whatever came before |
| AdvancedThermal.CentralCoreOverwritten | Y769_Emp/Emp_2_Advanced_Thermal_Sim.py:63-75 | every central-core cell ends at the cache value 0.2 |
| AdvancedThermal.CacheBoxValue | Y769_Emp/Emp_2_Advanced_Thermal_Sim.py:73-75 | inside the cache box, within 8 mm and outside the satellite at (5, 5), a cell ends at 0.2 |
| AdvancedThermal.LastSatelliteSurvives | Y769_Emp/Emp_2_Advanced_Thermal_Sim.py:68-75 | the satellite at (5, 5) keeps its core value 0.6 (within 8 mm) |
| AdvancedThermal.OtherSatellitesOverwritten | Y769_Emp/Emp_2_Advanced_Thermal_Sim.py:68-79 | no cell of the other three satellites ends at 0.6: within 8 mm it ends at the cache value 0.2 |
| AdvancedThermal.NoCellAtCoreValue | Y769_Emp/Emp_2_Advanced_Thermal_Sim.py:63-79 | no cell of the map as written holds the central-core value 1.0 |
| AdvancedThermal.IntendedRectangularPowerAt | Y769_Emp/Emp_2_Advanced_Thermal_Sim.py:73-75 | the corrected rule whose cache mask excludes every core; its values are the same five densities |
| AdvancedThermal.IntendedCoresKept | Y769_Emp/Emp_2_Advanced_Thermal_Sim.py:63-75 | under the corrected mask the central core keeps 1.0 and every satellite within 8 mm keeps 0.6 |
| AdvancedThermal.FirstBand | Y769_Emp/Emp_2_Advanced_Thermal_Sim.py:87-115 | the first band whose outer radius exceeds the cell's radius: no earlier band's does |
| AdvancedThermal.InBandIffFirst | Y769_Emp/Emp_2_Advanced_Thermal_Sim.py:89-115 | the k-th annulus mask selects exactly the cells whose first band is k, so the six masks are disjoint |
| AdvancedThermal.GeneratePowerMapYantra | Y769_Emp/Emp_2_Advanced_Thermal_Sim.py:83-117 | after the six overwrites each cell holds the value of the band its radius falls in, 0 outside them |
| AdvancedThermal.YantraPowerInBand | Y769_Emp/Emp_2_Advanced_Thermal_Sim.py:87-115 | a radius in the half-open band [r_(k-1), r_k) gets band k's value, so a boundary radius goes to the outer band |
| AdvancedThermal.YantraPowerOutside | Y769_Emp/Emp_2_Advanced_Thermal_Sim.py:112-117 | at or beyond the I/O band's outer radius (6.68 mm on the 20 mm die) the map stays 0 |
| AdvancedThermal.ChannelConductivity | Y769_Emp/Emp_2_Advanced_Thermal_Sim.py:119-133 | 401 iff X or Y is within 0.3 of one of -8, -4, 0, 4, 8, else 148 |
| AdvancedThermal.CreateConductivityMapRectangular | Y769_Emp/Emp_2_Advanced_Thermal_Sim.py:119-133 | after the vertical then the horizontal channel overwrites every cell holds the channel rule's value |
| AdvancedThermal.JacobiSweep | Y769_Emp/Emp_2_Advanced_Thermal_Sim.py:166-186 | each interior value is computed from the T_old copy alone; afterwards all four edges equal ambient |
| AdvancedThermal.SweepAndCheck | Y769_Emp/Emp_2_Advanced_Thermal_Sim.py:165-193 | one iteration: each interior cell becomes the explicit update of its previous value and its four previous neighbours; edges re-pinned to ambient; a check is made iff the iteration is a multiple of 100, and then its value is the largest cell-wise change of the sweep |
| AdvancedThermal.JacobiTraceStep | Y769_Emp/Emp_2_Advanced_Thermal_Sim.py:165-186 | in a recorded run, field k + 1 is the Jacobi sweep of field k with re-pinned edges, for every k |
| AdvancedThermal.ChecksOfStep | Y769_Emp/Emp_2_Advanced_Thermal_Sim.py:189-190 | check c of a run is the largest cell-wise change of sweep 100 c, from field 100 c to field 100 c + 1 |
| AdvancedThermal.ConvergedCheckMeaning | Y769_Emp/Emp_2_Advanced_Thermal_Sim.py:189-193 | a check below 0.1 means no cell moved by 0.1 K or more in the sweep it measured |
| AdvancedThermal.TracedIteration | Y769_Emp/Emp_2_Advanced_Thermal_Sim.py:165-193 | one iteration extends the run by its field, and by its largest change exactly when the iteration is a multiple of 100 |
| AdvancedThermal.Iterate | Y769_Emp/Emp_2_Advanced_Thermal_Sim.py:165-193 | the loop, from a given field: each field is a Jacobi sweep of the previous; one check per hundredth sweep, each the largest change of its sweep; at most num_iterations sweeps; it stops iff the last check is below 0.1, after a sweep numbered a multiple of 100, and every earlier check was at least 0.1 |
| AdvancedThermal.AmbientStart | Y769_Emp/Emp_2_Advanced_Thermal_Sim.py:162 | np.ones_like(T) * AMBIENT_TEMP: a fresh n x n field at ambient everywhere |
| AdvancedThermal.SolveHeatEquation | Y769_Emp/Emp_2_Advanced_Thermal_Sim.py:155-195 | the returned array is the last field of a run that starts at ambient, with dx = die / n * 1e-3, where each field is a Jacobi sweep of the previous and each check the largest change of sweep 0, 100, 200, ...; edges equal ambient; at most num_iterations sweeps; it stops early iff the last check is below 0.1, then only after a sweep numbered a multiple of 100, and no earlier check was below 0.1 |
| AdvancedThermal.CheckCount | Y769_Emp/Emp_2_Advanced_Thermal_Sim.py:189 | sweep number it adds a check exactly when it is a multiple of 100, and then exactly it / 100 checks precede it |
| AdvancedThermal.NumChecksClosed | Y769_Emp/Emp_2_Advanced_Thermal_Sim.py:165-189 | the first s sweeps make ceil(s / 100) checks |
| AdvancedThermal.AnalyzeLayout | Y769_Emp/Emp_2_Advanced_Thermal_Sim.py:199-206 | the Celsius max and min bound every cell and are each attained by some cell, the mean lies between them, the range is max minus min and non-negative, hotspots are at most n squared |
| AdvancedThermal.HotspotReductionFacts | Y769_Emp/Emp_2_Advanced_Thermal_Sim.py:227-228 | 0 for a zero baseline count; at most 100; for a positive baseline 100 iff no yantra hotspots remain and 0 iff the counts are equal |
| AdvancedThermal.RelativePct | Y769_Emp/Emp_2_Advanced_Thermal_Sim.py:221-226 | no value exactly for a zero base (numpy gives inf or nan); 0 for an unchanged value |
| AdvancedThermal.CompareLayouts | Y769_Emp/Emp_2_Advanced_Thermal_Sim.py:219-229 | the absolute reduction is the difference of the maxima; each unguarded percentage is undefined exactly at a zero base; the hotspot percentage is guarded and at most 100 |
| VedicMultiplier.DigitProduct | Y769_Emp/vedic_multiplier_test.py:15 | two-digit numbers multiply as the sum of the four digit products weighted 1, r, r and r squared |
| VedicMultiplier.SplitResidue | Y769_Emp/vedic_multiplier_test.py:19-22 | a residue modulo r squared is its low digit plus r times its next digit, as the masks and shifts extract them |
| VedicMultiplier.CrosswiseStep | Y769_Emp/vedic_multiplier_test.py:19-23 | the vertically-and-crosswise combination of a block's four partial products is the product of the arguments' residues |
| VedicMultiplier.BlockResidue | Y769_Emp/vedic_multiplier_test.py:9-31 | a block of each level multiplies the residues of its arguments modulo 2, 4, 16 and 256 |
| VedicMultiplier.Vedic2x2Correct | Y769_Emp/vedic_multiplier_test.py:9-15 | vedic_2x2(a, b) == a * b for a, b below 4 |
| VedicMultiplier.Vedic4x4Correct | Y769_Emp/vedic_multiplier_test.py:17-23 | vedic_4x4(a, b) == a * b for a, b below 16 |
| VedicMultiplier.Vedic8x8Correct | Y769_Emp/vedic_multiplier_test.py:25-31 | vedic_8x8(a, b) == a * b for a, b below 256 |
| VedicMultiplier.Vedic8x8LowBits | Y769_Emp/vedic_multiplier_test.py:27-30 | vedic_8x8 depends only on the low eight bits of each argument |
| VedicMultiplier.MatchCount | Y769_Emp/vedic_multiplier_test.py:41-45 | the number of matching cases is at most the case count and equals it iff every case matches |
| VedicMultiplier.RunCases | Y769_Emp/vedic_multiplier_test.py:40-51 | passed counts the matching cases, is at most their number, and success holds iff every case matches |
| VedicMultiplier.BytesAgree | Y769_Emp/vedic_multiplier_test.py:41-44 | on any list of byte pairs the 8x8 block agrees with multiplication |
| VedicMultiplier.RunTests | Y769_Emp/vedic_multiplier_test.py:33-51 | run_tests on its eleven listed cases returns true |
| BruteForceTest.Status | verification/brute_force_test.py:38-43 | the status is "PASS" iff the test passed, "FAIL" otherwise |
| BruteForceTest.Appended | verification/brute_force_test.py:45-53 | the category is present afterwards and no other key is added |
| BruteForceTest.AppendedEntries | verification/brute_force_test.py:45-53 | appending grows the category's list by exactly the record, creating it when absent, and leaves every other category unchanged |
| BruteForceTest.LoggedPassesStep | verification/brute_force_test.py:45-53 | one more passing record in a category extends a run of n logged passes to n + 1 |
| BruteForceTest.BruteForceVerification.constructor | verification/brute_force_test.py:25-33 | all three counters zero and no category logged |
| BruteForceTest.BruteForceVerification.LogTest | verification/brute_force_test.py:35-53 | total grows by 1 and exactly one of passed and failed by 1, passed iff the test passed; one record appended to its category; total == passed + failed is preserved |
| BruteForceTest.BruteForceVerification.TestVedicMultiplier | verification/brute_force_test.py:60-130 | seven more tests, all passed and appended to "Vedic Multiplier", no failure |
| BruteForceTest.BruteForceVerification.TestSriYantraGeometry | verification/brute_force_test.py:135-181 | twelve more tests, all passed, whatever the value of np.sqrt(PHI) |
| BruteForceTest.BruteForceVerification.TestMantraClockRatios | verification/brute_force_test.py:186-215 | twenty more tests (eleven recurrences, eight ratios, the 55/34 clock), all passed |
| BruteForceTest.BruteForceVerification.TestTantraSnn | verification/brute_force_test.py:220-272 | four more tests, all passed |
| BruteForceTest.BruteForceVerification.TestThermalPhysics | verification/brute_force_test.py:277-321 | four more tests, all passed, for any positive np.log(10) and np.pi |
| BruteForceTest.BruteForceVerification.TestMarmaRouting | verification/brute_force_test.py:326-369 | three more tests, all passed |
| BruteForceTest.SixGroupsLogged | verification/brute_force_test.py:380-385 | six groups run in turn, each appending its passes to its own category, leave each category grown by its own group's passes and every other category unchanged |
| BruteForceTest.BruteForceVerification.RunAll | verification/brute_force_test.py:374-415 | the six groups log 50 tests, all passed: 7, 12, 20, 4, 4 and 3 passing records appended to their six categories, no other category touched; the counter invariant is preserved; the result is true iff failed_tests == 0 |
| BruteForceTest.BitwiseCoreTable | verification/brute_force_test.py:69-79 | on single bits the AND/XOR/OR network computes the two-digit product |
| BruteForceTest.BitwiseVedic2x2Residue | verification/brute_force_test.py:66-79 | the bitwise vedic_2x2 multiplies the low two bits of its arguments |
| BruteForceTest.BitwiseVedic2x2Correct | verification/brute_force_test.py:66-79 | the bitwise vedic_2x2(a, b) == a * b for a, b below 4 |
| BruteForceTest.NestedBlockResidue | verification/brute_force_test.py:81-98 | the nested 4x4 and 8x8 blocks multiply residues modulo 16 and 256 |
| BruteForceTest.NestedVedic8x8Correct | verification/brute_force_test.py:91-98 | the nested vedic_8x8(a, b) == a * b for a, b below 256 |
| BruteForceTest.BruteForceErrors | verification/brute_force_test.py:100-113 | the loop over all 65536 byte pairs ends with error_count 0 and all_correct true |
| BruteForceTest.EdgeCasesAreProducts | verification/brute_force_test.py:119-126 | every listed edge case is a byte pair with its true product (255 x 255 = 65025, 123 x 45 = 5535, ...) |
| BruteForceTest.QuietMonotone | verification/brute_force_test.py:234-238 | a larger constant input charges a non-firing neuron at least as high |
| BruteForceTest.SimulateLif | verification/brute_force_test.py:230-243 | each step leaks, integrates and fires iff the charge reaches 100, with V 0 after a spike; the spikes are exactly the firing steps, strictly increasing, in [0, num_steps), at most num_steps; no spike for an input of 0 to 6.25 (so for 5), one per step for an input of 100 or more, at least one per six steps for an input of 20 or more |
| BruteForceTest.LayerRatioValid | verification/brute_force_test.py:149-156 | every adjacent-layer ratio is within 30% of PHI or below 1.5, so each layer check passes |
| BruteForceTest.FibRecurrence | verification/brute_force_test.py:193-200 | fib[i] == fib[i-1] + fib[i-2] for 2 <= i < 13 |
| BruteForceTest.FibRatioNearPhi | verification/brute_force_test.py:204-208 | from fib[5]/fib[4] on each ratio is within 5% of PHI |
| BruteForceTest.QuietTenCrossesAtSixteen | verification/brute_force_test.py:256-262 | with input 10 the potential first reaches the threshold at step 16, within the 20 allowed |
| BruteForceTest.ThresholdCrossing | verification/brute_force_test.py:256-262 | crossed iff some step from 1 to max_steps charges an idle neuron to the threshold |
| BruteForceTest.RadialDropPositive | verification/brute_force_test.py:308-313 | the radial temperature drop is positive for positive quantities, so the centre is hotter than the edge |
| BruteForceTest.Priorities | verification/brute_force_test.py:359 | list(marma_points.values()): one priority per point, in order |
| BruteForceTest.MaxOf | verification/brute_force_test.py:360 | max: an element of the list no element exceeds |
| BruteForceTest.MinOf | verification/brute_force_test.py:361 | min: an element of the list no element is below |
| BruteForceTest.PriorityOf | verification/brute_force_test.py:367 | a key lookup: no value iff no entry has the name, otherwise the priority of an entry with that name |
| BruteForceTest.MarmaTableFacts | verification/brute_force_test.py:333-352 | eighteen distinct names, priorities from 1 to 10, alu_output at 10 |
| SivaaBenchmark.Improvement | simulation/sivaa_benchmark.py:192 | undefined exactly when the standard value is zero |
| SivaaBenchmark.ImprovementMeaning | simulation/sivaa_benchmark.py:192 | the percentage gives back the SIVAA value from the standard one; for a positive standard it is positive iff the SIVAA value is smaller, and 0 iff the values are equal |
| SivaaBenchmark.IntSqrt | simulation/sivaa_benchmark.py:105 | int(math.sqrt(n)): the r with r squared <= n < (r+1) squared |
| SivaaBenchmark.IntSqrtUnique | simulation/sivaa_benchmark.py:105 | that bracket determines the integer square root |
| SivaaBenchmark.ManhattanGrid | simulation/sivaa_benchmark.py:105-114 | the analytic path is grid_side / 3 * 2 with grid_side the integer square root; undefined for a negative count; positive iff there is a node |
| SivaaBenchmark.DefaultManhattan | simulation/sivaa_benchmark.py:76 | for the default 2000 nodes the path is 88/3 |
| SivaaBenchmark.YantraBenchmark | simulation/sivaa_benchmark.py:185-204 | a result iff the node count is positive, named "Signal Path Length" in " hops", holding the Manhattan and fractal paths and their improvement |
| SivaaBenchmark.GenerateSriYantraCoordinates | simulation/sivaa_benchmark.py:138-183 | 18 points with ids 0..17 in order: bindu (critical), inner_0..inner_5 (high), outer_0..outer_10 (medium) |
| SivaaBenchmark.MarmaNamesDistinct | simulation/sivaa_benchmark.py:150-181 | no two generated points share a name |
| SivaaBenchmark.SimulateStandardClocking | simulation/sivaa_benchmark.py:223-232 | the energy is num_cycles for a positive count and 0 otherwise |
| SivaaBenchmark.MantraBenchmark | simulation/sivaa_benchmark.py:287-306 | a result iff the cycle count is positive, named "Energy Consumption" in " J", holding both energies and their improvement |
| SivaaBenchmark.StepsFromFirst | simulation/sivaa_benchmark.py:335-341 | the step count is the first step reaching the target, or the cap of 10001, and no earlier step reaches it |
| SivaaBenchmark.ConvergenceStepsBounds | simulation/sivaa_benchmark.py:326-369 | both loops return between 1 and 10001 steps for a positive target, 0 otherwise |
| SivaaBenchmark.SimulateLinearLearning | simulation/sivaa_benchmark.py:326-343 | returns the linear loop's convergence step count |
| SivaaBenchmark.SimulateTantricFeedback | simulation/sivaa_benchmark.py:345-369 | returns the tantric loop's convergence step count |
| SivaaBenchmark.TantricIncrementAtLeastLinear | simulation/sivaa_benchmark.py:361 | every tantric increment is at least the linear 0.005 |
| SivaaBenchmark.TantricAhead | simulation/sivaa_benchmark.py:358-363 | after any number of steps the tantric accuracy is at least the linear one |
| SivaaBenchmark.StepsFromAtMost | simulation/sivaa_benchmark.py:358-367 | any step that reaches the target, or the cap, bounds the returned count |
| SivaaBenchmark.TantricNeverSlower | simulation/sivaa_benchmark.py:345-369 | the tantric loop never needs more steps than the linear one |
| SivaaBenchmark.ConvergenceImprovement | simulation/sivaa_benchmark.py:404-407 | the linear count is zero iff the target is not positive, and for a positive target the speed-up lies in [0, 100) |
| SivaaBenchmark.TantraBenchmark | simulation/sivaa_benchmark.py:400-426 | a result iff the target is positive, named "Convergence Speed" in " cycles", holding both step counts and an improvement in [0, 100) |
| SivaaBenchmark.Oscillations | simulation/sivaa_benchmark.py:384-388 | a non-empty signal has fewer oscillations than states (the first state never counts) |
| SivaaBenchmark.OscillationsConstant | simulation/sivaa_benchmark.py:384-388 | a constant signal never oscillates |
| SivaaBenchmark.OscillationsAlternating | simulation/sivaa_benchmark.py:384-388 | a signal of non-empty states that changes at every step oscillates at every step after the first |
| SivaaBenchmark.DetectLoop | simulation/sivaa_benchmark.py:381-398 | no result exactly for an empty list; otherwise the count is the oscillation count, a loop is detected iff it is at least 6, and the resolved state is "UBHAYA" iff a loop is detected, otherwise the last state |
| SivaaBenchmark.SimulateLoopDetection | simulation/sivaa_benchmark.py:371-398 | on the fixed eight-state signal: 7 oscillations, a loop, resolved to "UBHAYA" |
| SivaaBenchmark.SivaaBenchmarkSuite.constructor | simulation/sivaa_benchmark.py:436-438 | the given configuration and no results |
| SivaaBenchmark.SivaaBenchmarkSuite.RunAll | simulation/sivaa_benchmark.py:440-460 | appends the path-length, energy and convergence results in that order, each the whole record its benchmark builds (name, both values, the improvement formula's percentage, unit); where a benchmark would raise, only the earlier ones are appended and the run reports failure |

## Left out

- Printing is not modelled: console output, progress lines every 1000 iterations, summaries, `matplotlib` plots, JSON writers and the HotSpot `.flp`/`.ptrace` emitters are all output only.
- The yantra branch of `_create_thermal_conductivity_map` (`simulation/sivaa_hotspot_thermal.py:206-224`) is left out. So is `create_thermal_conductivity_map_yantra` (`Y769_Emp/Emp_2_Advanced_Thermal_Sim.py:135-153`). Both are cos/sin ray rasterisations with nothing structural to state.
- HotspotThermal.YantraThermalSimulator.SolveYantra: takes the radial conductivity map as a parameter instead of building it, for the reason in the previous line.
- `run_comparison` in `sivaa_hotspot_thermal.py` is modelled only through its improvement formulas (`CompareLayouts`). Its results dictionary and map copies are bookkeeping for the output.
- HotspotThermal.SolveField: requires a positive conductivity at every interior cell. numpy would divide by a zero or negative `k_map[i, j]` and carry `inf` or `nan` through the field, and real arithmetic has no such values. The same precondition sits on `Relax`, `RelaxOnce` and the simulator's `SolveSteadyState` and `SolveYantra`.
- AdvancedThermal.SolveHeatEquation: requires a positive interior conductivity and a non-zero die size, for the same reason (`q / k_eff` and `/ dx**2`).
- HotspotThermal.YantraThermalSimulator.constructor: requires `gridSize >= 1`. The source raises `ZeroDivisionError` for a zero grid size, and the constructor raising is not modelled as a result.
- Solver numerics are not claimed: convergence rate, the fixed point, the divergence of the explicit Jacobi update, and iteration counts that depend on float rounding.
- HotspotThermal.AnalyzeResults: the standard deviation (`np.std`, a square root) is a parameter, and the Celsius copies of the Kelvin fields are not built.
- AdvancedThermal.AnalyzeLayout: the standard deviation is a parameter. The hotspot count against `mean + 2 std` is therefore bounded only by the cell count.
- SivaaBenchmark.YantraBenchmark: the fractal path length (Watts-Strogatz through networkx, or a logarithm) is a parameter. networkx itself is a foreign library.
- SivaaBenchmark.ManhattanGrid: models only the branch taken without networkx. `nx.average_shortest_path_length` is a foreign call.
- SivaaBenchmark.MantraBenchmark: the adiabatic energy (a sine-weighted loop) is a parameter. `simulate_sacred_frequencies` is left out as trigonometric numerics.
- SivaaBenchmark.GenerateSriYantraCoordinates: keeps ids, names and priorities only. The x/y coordinates are cosines and sines.
- SivaaBenchmark.ConvergenceSteps: the exact counts, such as 190 linear steps for 0.95, depend on float rounding of repeated additions. Only the bounds and the tantric-versus-linear ordering are claimed.
- SivaaBenchmark.SimulateLoopDetection: the loop-detection printout of the tantra `run_benchmark` is not modelled, since it only prints.
- The suite's `_print_summary`, `_generate_charts`, `_save_results` and `main` are left out as output.
- BruteForceTest.BruteForceVerification.TestSriYantraGeometry: the record strings built with float formatting (`{ratio:.3f}`, the tests' messages) are fixed placeholder strings. Only names, statuses and counts are modelled. This applies likewise to TestMantraClockRatios, TestTantraSnn and TestThermalPhysics.
- BruteForceTest.BruteForceVerification.TestSriYantraGeometry: `np.sqrt(PHI)`, `np.log(10)` and `np.pi` are parameters, and the checks are proved for any positive values of them.
- The `timestamp` entry and the `summary` dictionary of the brute-force results (and the JSON file) are not modelled. They are a clock read and output.
- BruteForceTest.MarmaPoints: the `marma_points` dictionary is a list of pairs in insertion order, with distinct keys proved.
- The remaining repository files are not part of this model:
  - `Y769_CAI/yantra_thermal_simulation.py` (a Gaussian-filter heat kernel);
  - `Y769_Gmi/sivaa_research_engine.py` (a copy of the benchmark loops);
  - `verification/test_vajra_core.py` (a cocotb hardware testbench);
  - `synthesis/run_openlane.py` (tool plumbing).
- Integer widths are not an issue: Python integers are unbounded, as Dafny's are.

## Findings

| source | as written | input that shows it | evidently intended | confidence | as-written member | corrected member |
|---|---|---|---|---|---|---|
| Y769_Emp/Emp_2_Advanced_Thermal_Sim.py:74 | the cache mask removes `core_mask`, which after the satellite loop (lines 69-71) holds only the satellite at (5, 5); the cache value 0.2 therefore overwrites the central core and three satellites | the die centre (0, 0): inside the central core, the cache box and 8 mm, it ends at 0.2 instead of 1.0, and no cell of the map is ever 1.0 | the cache region excludes the central core and all four satellites, so each core keeps its density | not executed | AdvancedThermal.CentralCoreOverwritten | AdvancedThermal.IntendedCoresKept |

`AdvancedThermal.NoCellAtCoreValue` shows the same discrepancy for the whole map. `AdvancedThermal.GeneratePowerMapRectangular` keeps the as-written masks, because it models the program. `AdvancedThermal.IntendedRectangularPowerAt` is the corrected floorplan rule. The solver takes any power map, so either can be fed to it.
