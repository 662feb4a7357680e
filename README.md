# Square-wave voltammetry simulator and peak extractor, in Dafny

This project models two scripts. Both are stated over exact reals and proved in Dafny.

- `1_SWV_simulation.py` simulates a square-wave voltammetry (SWV) sweep:
  - It derives the numerical set-up from the physical constants: tau, dt, a grid spacing dx that makes the stability factor alpha equal 0.45, and the potential staircase.
  - It keeps two concentration profiles, oxidized C_O and reduced C_R, on a grid of L points. Index 0 is the electrode surface.
  - For every staircase potential it runs a forward half pulse and then a reverse half pulse. Each half pulse is `steps_per_half` sub-steps.
  - A sub-step first re-partitions the surface point with the Nernst ratio. It then applies an explicit three-point diffusion stencil to the interior points.
  - It reads the forward surface current after the forward half pulse and the reverse one after the reverse half pulse, then appends one net-current sample.
- `2_SWV_peak.py` analyses the resulting curve:
  - It slides a window over the rows. Window starts range over the first 40% of the rows, and each window is the next 10 rows from its start, so windows reach past that fraction.
  - It keeps the first window with the strictly greatest positive r2 score.
  - It extrapolates that window's line over every row as the baseline.
  - It reports the first row of maximal current and its height above the baseline.

The modules follow the scripts:

- `wrappers.dfy` (`Wrappers`): the `Option` and `Result` datatypes.
- `parameters.dfy` (`SwvParameters`): the constants, tau, dt, dx and alpha, and the staircase (`numpy.arange`).
- `diffusion.dfy` (`Diffusion`):
  - The profile as a value, with the specification functions `Surface`, `Diffused`, `SubStepped` and `HalfPulsed`.
  - The in-place stencil `Diffuse` on an array.
  - The class `DiffusionProfile`, which holds the two numpy buffers as arrays. Its methods update the arrays in place and are proved against the specification functions.
- `sweep.dfy` (`SquareWave`):
  - The currents and the specification of one potential (`Pulse`) and of the whole sweep (`StateAfter`, `NetSamples`).
  - The imperative driver `Simulate`, which owns one `DiffusionProfile` for the whole sweep.
- `peak.dfy` (`BaselinePeak`):
  - The scan specification `Scan` and the baseline selection `SelectBaseline`.
  - The imperative scan `FindBaseline`, the baseline curve, the peak and the whole analysis `Analyze` / `AnalyzePeak`.

Three things in the scripts are not computed: `np.exp`, `np.sqrt` and sklearn's `LinearRegression`. Each becomes a parameter:

- `exp` is any function into the positive reals.
- `dx` is any positive number with `dx * dx == D * dt / 0.45`.
- `fit` is any function from a window of rows to a slope, an intercept and an r2 score.

The scripts check nothing about their inputs, and the model records what that means:

- The script validates no configuration. The model states the parameter sets it covers as `Valid`:
  - a positive frequency f, `steps_per_half`, diffusion coefficient D and staircase increment E_step;
  - a positive gas constant R and temperature T;
  - at least two grid points (L ≥ 2), because `C_O[1]` is read.
  - These exclude the division by zero in tau, dt and sigma and the read past the grid. They also exclude the sign cases the model does not cover, which "## Left out" lists.
  - The bulk-balance results also need C_bulk ≥ 0, and ask for it where they use it.
  - The script's own constants satisfy `Valid` (`DefaultsAreValid`).
- The script raises no dedicated error when the search range is shorter than the window. Windows at the end of the data are simply shorter than 10 rows (pandas `iloc` truncates), and the model does the same. Every scanned window still holds at least three rows (`ScannedWindowsHaveThreeRows`).
- The only failure of the analysis is the one the script reaches: no scanned window has r2 > 0. `best_model` then stays `None`, and `best_model.predict` raises. The model returns `Failure(NoPositiveFit)` there.

## Model

| member | source | states |
|---|---|---|
| SwvParameters.Tau | 1_SWV_simulation.py:27-28 | tau = 1/f is positive for a positive frequency |
| SwvParameters.Defaults | 1_SWV_simulation.py:10-40 | the script's constants: E°' = -0.33, E_initial = -0.6, E_final = -0.15, C_bulk = 1e-7, D = 1e-5, n = 1, F = 96485, R = 8.314, T = 298.15, E_step = 0.005, E_sw = 0.025, f = 25, C_dl = 1e-5, background offset = 5e-7, 40 steps per half pulse, L = 150 |
| SwvParameters.Sigma | 1_SWV_simulation.py:19 | sigma = F/(R*T), the factor of the Nernst exponent |
| SwvParameters.Dt | 1_SWV_simulation.py:37-38 | dt = (tau/2)/steps_per_half is positive |
| SwvParameters.IsGridSpacing | 1_SWV_simulation.py:39 | stands in for dx = sqrt(D*dt/0.45): dx is positive and its square is D*dt/0.45 |
| SwvParameters.Alpha | 1_SWV_simulation.py:41 | alpha = D*dt/dx^2 |
| SwvParameters.AlphaIsStabilityTarget | 1_SWV_simulation.py:37-41 | when dx is derived from dt as sqrt(D*dt/0.45), alpha = D*dt/dx^2 is exactly 0.45, so it lies in [0, 1/2], the stability range of the explicit stencil |
| SwvParameters.DefaultsAreValid | 1_SWV_simulation.py:10-40 | the script's hard-coded constants meet every precondition the model places on the parameters |
| SwvParameters.StaircaseLength | 1_SWV_simulation.py:46 | the arange length is the least count N with start + N*step >= stop: N steps reach the end and N-1 steps do not |
| SwvParameters.Staircase | 1_SWV_simulation.py:46 | the potential axis has StaircaseLength elements, and element k is E_initial + k*E_step |
| SwvParameters.StaircaseIsHalfOpen | 1_SWV_simulation.py:46 | the staircase is strictly increasing, every potential is below E_final, and one more step would reach E_final (the end point is excluded) |
| SwvParameters.DefaultStaircaseLength | 1_SWV_simulation.py:46 | with E_initial = -0.6, E_final = -0.15 and E_step = 0.005, the axis has 90 potentials |
| Diffusion.Initial | 1_SWV_simulation.py:43-44 | the initial profiles have L points each, with C_O = C_bulk and C_R = 0 everywhere |
| Diffusion.SplitByRatio | 1_SWV_simulation.py:58-60 | splitting a total into c/(1+ratio) and the rest gives an oxidized part equal to ratio times the reduced part, and both parts lie in [0, total] |
| Diffusion.Surface | 1_SWV_simulation.py:57-60 | the surface re-partition keeps C_O[0]+C_R[0], sets C_O[0] = ratio*C_R[0], keeps both non-negative when the total is, and changes no other point |
| Diffusion.StencilAt | 1_SWV_simulation.py:61-62 | one cell of the diffusion step: the old value at index 0 and at L-1, and old s[i] + alpha*(old s[i+1] - 2 old s[i] + old s[i-1]) at an interior index |
| Diffusion.DiffusedUpTo | 1_SWV_simulation.py:61-62 | the stencil applied to the first n points yields n values |
| Diffusion.DiffusedUpToAt | 1_SWV_simulation.py:61-62 | each value of the partial stencil is the three-point stencil of the old profile at that index |
| Diffusion.DiffusedAt | 1_SWV_simulation.py:61-62 | the slice update is a Jacobi step: every new value depends only on the old values (old s[i] + alpha*(old s[i+1] - 2 old s[i] + old s[i-1])) |
| Diffusion.Diffused | 1_SWV_simulation.py:61-62 | the stencil keeps the profile length |
| Diffusion.DiffusedKeepsBoundary | 1_SWV_simulation.py:61-62 | the slice [1:-1] leaves the surface point and the far end unchanged |
| Diffusion.DiffusedWithinNeighbourhood | 1_SWV_simulation.py:61-62 | for 0 <= alpha <= 1/2 a new interior value lies between the smallest and largest of its three old neighbours |
| Diffusion.DiffusedStaysInRange | 1_SWV_simulation.py:61-62 | for 0 <= alpha <= 1/2 a profile whose values lie in [lo, hi] stays in [lo, hi] |
| Diffusion.DiffusedKeepsNonNegative | 1_SWV_simulation.py:61-62 | for 0 <= alpha <= 1/2 the stencil keeps a non-negative profile non-negative |
| Diffusion.DiffusedKeepsUniformSum | 1_SWV_simulation.py:61-62 | if C_O[i]+C_R[i] is the same total at every point, it still is after both profiles are diffused |
| Diffusion.DiffusionStepped | 1_SWV_simulation.py:61-62 | diffusing both profiles keeps both lengths |
| Diffusion.SubStepped | 1_SWV_simulation.py:56-62 | one sub-step (surface re-partition, then diffusion) keeps the profile well formed and its length |
| Diffusion.HalfPulsed | 1_SWV_simulation.py:56-62 | a half pulse of any number of sub-steps keeps the profile well formed and its length |
| Diffusion.SubStepNumber | 1_SWV_simulation.py:56-62 | the n-th sub-step of a half pulse keeps the profile well formed and its length |
| Diffusion.InitialIsInBulkBalance | 1_SWV_simulation.py:43-44 | the initial profile is in bulk balance: C_O[i]+C_R[i] = C_bulk everywhere, values in [0, C_bulk], far end at C_O = C_bulk and C_R = 0 |
| Diffusion.SubStepKeepsBulkBalance | 1_SWV_simulation.py:56-62 | with ratio > 0 and 0 <= alpha <= 1/2, a sub-step preserves the bulk balance (mass conservation, bounds, far end) |
| Diffusion.HalfPulseKeepsBulkBalance | 1_SWV_simulation.py:56-62 | a whole half pulse preserves the bulk balance |
| Diffusion.HalfPulseKeepsFarEnd | 1_SWV_simulation.py:56-62 | a half pulse never changes the far-end point of either profile, whatever the profile |
| Diffusion.Diffuse | 1_SWV_simulation.py:61 | the in-place slice update leaves the array equal to the Jacobi stencil of its old contents |
| Diffusion.DiffusionProfile.constructor | 1_SWV_simulation.py:43-44 | two fresh arrays holding the initial profile |
| Diffusion.DiffusionProfile.SurfaceStep | 1_SWV_simulation.py:58-60 | the arrays afterwards hold the surface re-partition of their old contents |
| Diffusion.DiffusionProfile.DiffusionStep | 1_SWV_simulation.py:61-62 | the arrays afterwards hold the stencil applied to their old contents |
| Diffusion.DiffusionProfile.SubStep | 1_SWV_simulation.py:57-62 | the arrays afterwards hold one sub-step applied to their old contents |
| Diffusion.DiffusionProfile.HalfPulse | 1_SWV_simulation.py:56-62 | the arrays afterwards hold `steps` sub-steps applied to their old contents |
| SquareWave.Ratio | 1_SWV_simulation.py:57 | the Nernst ratio exp(n*sigma*(E - E°')) at the applied potential E (line 71 for the reverse pulse), a positive real |
| SquareWave.Faradaic | 1_SWV_simulation.py:64 | -n*F*D*(C_O[1]-C_O[0])/dx, with the division written as *(1/dx); line 78 reads the same expression for the reverse pulse |
| SquareWave.ForwardCharging | 1_SWV_simulation.py:66 | the forward charging current C_dl*(E_sw/(tau/2)) |
| SquareWave.ReverseCharging | 1_SWV_simulation.py:79 | the reverse charging current is exactly the negative of the forward one (line 66) |
| SquareWave.NetCurrent | 1_SWV_simulation.py:82-85 | the background offset cancels from the net current, which is the faradaic difference plus twice the forward charging current |
| SquareWave.ForwardHalf | 1_SWV_simulation.py:55-62 | the forward half pulse at E_base + E_sw keeps the profile well formed and its length |
| SquareWave.ReverseHalf | 1_SWV_simulation.py:69-76 | the reverse half pulse at E_base - E_sw keeps the profile well formed and its length |
| SquareWave.Pulse | 1_SWV_simulation.py:53-85 | one staircase potential keeps the profile shape, and its net sample equals the forward minus the reverse faradaic current plus twice the forward charging current |
| SquareWave.StateAfter | 1_SWV_simulation.py:43-85 | the profile after k potentials is well formed with L points; it is threaded through the sweep and never reset |
| SquareWave.Appended | 1_SWV_simulation.py:47-85 | appending one sample per potential for k potentials gives k samples |
| SquareWave.AppendedAt | 1_SWV_simulation.py:85 | appending never rewrites earlier samples: sample j is the one produced for potential j |
| SquareWave.NetSamples | 1_SWV_simulation.py:47-85 | after k potentials i_net has exactly k samples |
| SquareWave.NetSampleAt | 1_SWV_simulation.py:53-85 | sample j is the net current of potential j, computed from the profile left by potentials 0..j-1 |
| SquareWave.ForwardHalfKeepsBulkBalance | 1_SWV_simulation.py:55-62 | any number of forward sub-steps preserves the bulk balance, because alpha = 0.45 |
| SquareWave.ReverseHalfKeepsBulkBalance | 1_SWV_simulation.py:69-76 | any number of reverse sub-steps preserves the bulk balance |
| SquareWave.PulseKeepsBulkBalance | 1_SWV_simulation.py:53-85 | a forward and a reverse half pulse together preserve the bulk balance |
| SquareWave.SweepKeepsBulkBalance | 1_SWV_simulation.py:43-85 | starting from the initial profile, the profile is in bulk balance after every potential of the sweep |
| SquareWave.RunHalf | 1_SWV_simulation.py:56-64 | the arrays afterwards hold the half pulse of their old contents, and the returned faradaic current is -n*F*D*(C_O[1]-C_O[0])/dx of the new profile |
| SquareWave.RunPotential | 1_SWV_simulation.py:53-85 | the arrays afterwards hold the profile after the potential's two half pulses, and the returned value is that potential's net sample |
| SquareWave.Simulate | 1_SWV_simulation.py:43-85 | returns the staircase as the potential axis and one net sample per potential, in order: i_net equals NetSamples of the whole axis |
| BaselinePeak.SearchLimit | 2_SWV_peak.py:21 | int(len*0.4) is floor(2*len/5): at most len, and positive exactly when len >= 3 |
| BaselinePeak.Window | 2_SWV_peak.py:28 | iloc[i:i+10] is the next 10 rows from i, or fewer at the end of the data, in order |
| BaselinePeak.ScannedWindowsHaveThreeRows | 2_SWV_peak.py:21-28 | every window the scan fits, starting below int(len*0.4), holds at least three rows |
| BaselinePeak.ScoreAt | 2_SWV_peak.py:28-33 | the r2 score the fit gives window i (`LinearRegression().fit` then `score` on that window) |
| BaselinePeak.Scan | 2_SWV_peak.py:22-38 | after k windows the kept score is 0 with no window kept, or it is the score of a kept window below k |
| BaselinePeak.ScanNeverDecreases | 2_SWV_peak.py:35-36 | best_r2 starts at 0 and never decreases as the scan proceeds |
| BaselinePeak.ScanIsMaximum | 2_SWV_peak.py:27-38 | after k windows best_r2 is at least every score seen |
| BaselinePeak.ScanSelectsFirstMaximum | 2_SWV_peak.py:27-38 | no window is kept iff every score is <= 0; otherwise the kept window has a positive, maximal score and every earlier window scores strictly less (ties keep the first) |
| BaselinePeak.MinPotential | 2_SWV_peak.py:38 | the window's minimum potential is attained by one of its rows and bounds all of them from below |
| BaselinePeak.MaxPotential | 2_SWV_peak.py:38 | the window's maximum potential is attained by one of its rows and bounds all of them from above |
| BaselinePeak.BaselineOf | 2_SWV_peak.py:36-38 | the recorded x-range spans the kept window: every potential in it lies in [xMin, xMax], and both ends are attained |
| BaselinePeak.SelectBaseline | 2_SWV_peak.py:19-41 | the scan over the SearchLimit window starts; no kept window (best_model still None, which makes line 41 raise) is Failure(NoPositiveFit), and a kept window s gives Success(BaselineOf(s)) |
| BaselinePeak.SelectBaselineChoosesFirstBestWindow | 2_SWV_peak.py:19-41 | the search fails exactly when no window starting in the first 40% of the rows scores above 0; otherwise the baseline is that of the first window of maximal positive score |
| BaselinePeak.FindBaseline | 2_SWV_peak.py:19-38 | the imperative sliding-window loop returns exactly the selection SelectBaseline specifies |
| BaselinePeak.BaselineCurve | 2_SWV_peak.py:41-44 | the extrapolated baseline has one value per row, A*V[k] + B |
| BaselinePeak.BaselineCurveIsStraight | 2_SWV_peak.py:41-44 | any two baseline values differ by the slope times the difference of their potentials |
| BaselinePeak.PeakIndex | 2_SWV_peak.py:51 | idxmax is a row index whose current is maximal, and every earlier row's current is strictly lower |
| BaselinePeak.PeakIndexIsUnique | 2_SWV_peak.py:51 | the first maximal row is the only index with those two properties |
| BaselinePeak.MeasurePeak | 2_SWV_peak.py:51-59 | the peak row is the first of maximal current, potential and current are read from it, the baseline value is the extrapolated curve at that row, and height = Idif[peak] - (A*V[peak] + B) |
| BaselinePeak.BaselineNeedsRows | 2_SWV_peak.py:21 | a found baseline implies at least three rows, so the peak search has rows to search |
| BaselinePeak.Analyze | 2_SWV_peak.py:19-59 | the analysis fails exactly when the baseline search fails; otherwise it reports the selected baseline and the peak measured against it |
| BaselinePeak.AnalyzePeak | 2_SWV_peak.py:19-59 | the script's analysis returns exactly Analyze of the rows and the fit, so it is deterministic |

## Left out

- Reading and writing `SWV_curve.csv` (1_SWV_simulation.py:91-115, 2_SWV_peak.py:11-13), printing and plotting are I/O. The analysis takes the rows as a sequence.
- Floating point: every quantity is an exact real, so rounding and accumulated error are not modelled.
- SwvParameters.Staircase: counts `numpy.arange`'s length exactly, as ceil((stop-start)/step). The floating-point arange can differ by one element when the quotient is close to an integer.
- `np.exp` in the Nernst ratio is the parameter `exp`, which is only assumed to return positive reals. No other property of the exponential is used.
- `np.sqrt` for dx is not computed. dx is any positive value whose square is D*dt/0.45.
- sklearn's `LinearRegression().fit` and `.score` are the parameter `fit`. That the slope and intercept are least-squares optimal, and what r2 means, are not modelled.
- BaselinePeak.MeasurePeak: the potential is reported unrounded. The script rounds it with `round(..., 3)` (2_SWV_peak.py:52).
- `idxmax` returns a row label. The model uses the row position, which is the same for the default index `read_csv` builds.
- The script computes `ratio` again in every sub-step. The value cannot change within a half pulse, so the model computes it once per half pulse.
- Parameter signs: `Valid` requires f, `steps_per_half`, D, E_step, R and T to be positive. The model does not cover the script with a zero or negative value there:
  - a negative E_step makes `np.arange` empty or descending;
  - a negative D or f makes `np.sqrt` return NaN.
- SquareWave.SweepKeepsBulkBalance: requires C_bulk ≥ 0. With a negative bulk concentration the bounds [0, C_bulk] are empty, so the invariant cannot hold. The sweep itself runs for any C_bulk.
- Physical accuracy of the simulation (convergence of the stencil, agreement with analytic SWV theory) is outside what is stated.
