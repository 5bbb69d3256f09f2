# Survival-time simulation under systemic reduction (SRP)

This project models `simulate_lifetime` of `Script.py` and the sweep that
calls it once per value of rho.

An agent's energy `gamma` starts at 1.0 in every trial. Each step applies a
proportional controller whose gain `k_eff = k0 * (1 - alpha*rho)` and
saturation bound `U_max = U0 * (1 - alpha*rho)` shrink with rho. The step
then adds the environmental input `(1 - rho) * (mu + eta)` and subtracts the
constant cost `c`. A trial dies at the first step whose updated energy is
below `gamma_min` and records `t + 1`. A trial that survives the whole budget
records `T_max` through the `for/else`. `n_seeds` trials are averaged, and
`W_vals` holds one mean per grid value of rho.

Modules:

- `Dynamics` (`dynamics.dfy`): the constants (`Params`, with the default
  keyword arguments in `Defaults`), the clamp `max(min(u_raw, U_max), -U_max)`,
  and one energy update `Step`.
- `Trajectory` (`trajectory.dfy`): one trial. `Outcome` is the two-case
  result `Died(t + 1)` / `TimedOut(T_max)`, and `Recorded()` collapses it to
  the integer appended to `lifetimes`. `Trial` is the recursive
  specification. `SimulateTrial` is the step loop as a `while` loop, proved
  equal to `Trial`.
- `Estimator` (`estimator.dfy`): the outer loop over `n_seeds` trials, the
  list of lifetimes, and `statistics.mean`. An empty list is the error
  `Err(NoDataPoints)`.
- `RhoSweep` (`sweep.dfy`): the comprehension
  `[simulate_lifetime(rho) for rho in rhos]`.
- `Scenarios` (`scenarios.dfy`): noise-free configurations whose outcome is
  exact. These are the uncontrolled decay (dies at step 14 with the default
  `gamma_min` and `c`) and the default controller at rho = 0 (golden trace
  0.94, 0.895, 0.86125, …; survives all 400 steps).

The Gaussian source is a parameter `draws: nat -> real`: the value of the
i-th call of `random.gauss(0, sigma0)`. A trial reads it from a position
`start`. Python uses one global generator, so consecutive trials and
consecutive calls of the sweep read the stream one after another. The model
threads that position through and returns where each call left it.
Arithmetic is over exact `real`.

Behaviour of the code worth knowing:

- No argument is validated. `n_seeds <= 0` gives an empty list and
  `statistics.mean` raises, so `MeanLifetime` returns `Err`. `T_max <= 0`
  gives an empty step range, and the `for/else` records `T_max` itself.
- When `alpha*rho > 1` and `U0 > 0`, `U_max` is negative. The clamp then
  always returns `-U_max > 0`, a constant push upwards
  (`Dynamics.ClampWithNegativeBound`). The controller has no authority only
  at `alpha*rho == 1`.
- The calls of the sweep share the one global generator: each call starts
  where the previous one left it (`RhoSweep.CallStartNext`).
- The death test `gamma < gamma_min` is strict, so the uncontrolled decay
  dies at step `floor((1 - gamma_min)/c) + 1`. That is
  `ceil((1 - gamma_min)/c)` unless the ratio is an integer: with `c = 0.1`
  the trial records 9, not 8 (`Scenarios.DecayOnTheThreshold`).

## Model

| member | source | states |
|---|---|---|
| `Dynamics.Clamp` | Script.py:31 | `max(min(u_raw, U_max), -U_max)`, with Python's `min` and `max`. Its properties are stated by `ClampWithinBound` and `ClampWithNegativeBound` |
| `Dynamics.Step` | Script.py:26-39 | One loop iteration's update `gamma + u + e_red - c`, with `k_eff` and `U_max` recomputed from rho. Its properties are stated by `FullReductionCancelsEnvironment` and `UnsaturatedStep` |
| `Dynamics.ClampWithinBound` | Script.py:31 | For `U_max >= 0` the clamped control lies in [-U_max, U_max], equals `u_raw` when `u_raw` is already inside, and saturates at the nearer end otherwise |
| `Dynamics.ClampWithNegativeBound` | Script.py:26-31 | For a negative `U_max` (alpha*rho > 1) the clamp always yields `-U_max`, which is positive |
| `Dynamics.ControlWithoutGain` | Script.py:26-31 | With zero gain and a non-negative bound the control is 0 |
| `Dynamics.Environment` | Script.py:34-36 | The attenuated input `e_red` is 0 whatever the draw when rho = 1, and is `mu + eta` unattenuated when rho = 0 |
| `Dynamics.FullReductionCancelsEnvironment` | Script.py:36-39 | At rho = 1 the update reduces to `gamma + u - c` for every draw |
| `Dynamics.UnsaturatedStep` | Script.py:26-39 | While the proportional term is within [-U_max, U_max], on either side of `gamma_ref`, the update is `gamma + k_eff*(gamma_ref - gamma) + e_red - c` |
| `Trajectory.GammaAt` | Script.py:23-39 | The energy after k updates of one trial, starting from 1.0 and consuming draw `start + j` at step j |
| `Trajectory.Run` | Script.py:24-47 | From step t, the rest of the loop either times out recording exactly `T_max` or dies at a step in (t, T_max] |
| `Trajectory.Trial` | Script.py:23-47 | A trial records `T_max` on timeout and a value in [1, T_max] on death. With `T_max >= 1` every recorded lifetime is in [1, T_max]. With `T_max <= 0` the loop never runs and the trial times out. It executes at most `T_max` steps |
| `Trajectory.SimulateTrial` | Script.py:23-47 | The step loop, starting from gamma = 1.0 and exiting early on death, yields exactly the outcome `Trial` specifies and consumes one draw per executed step |
| `Trajectory.RunDiesOnlyAtFirstCrossing` | Script.py:39-44 | A loop from step t that ends in `Died(l)` has energy below `gamma_min` at step l and at or above it at every step between t and l |
| `Trajectory.RunTimesOutOnlyWithoutCrossing` | Script.py:39-47 | A loop from step t that reaches the `else` branch kept every energy up to `T_max` at or above `gamma_min` |
| `Trajectory.TrialDiesAtFirstCrossing` | Script.py:39-44 | A trial records `Died(l)` if and only if l is in [1, T_max], step l is below `gamma_min`, and every earlier step is not |
| `Trajectory.TrialTimesOutIffNoCrossing` | Script.py:24-47 | A trial records `TimedOut(T_max)` (not `T_max + 1`) if and only if no energy within the budget is below `gamma_min` |
| `Trajectory.GammaAtReadsOnlyItsDraws` | Script.py:34-39 | The energy after k steps depends only on the first k draws of the trial |
| `Trajectory.RunReadsOnlyItsDraws` | Script.py:24-44 | The loop from step t reads only the draws of the steps it executes |
| `Trajectory.TrialReadsOnlyItsDraws` | Script.py:23-44 | A trial reads no draw beyond those of its executed steps: streams that agree on those draws give the same outcome |
| `Trajectory.FullReductionEnergyIgnoresNoise` | Script.py:36-39 | At rho = 1 the energy after k steps is the same for every noise stream and start position |
| `Trajectory.FullReductionRunIgnoresNoise` | Script.py:24-44 | At rho = 1 the rest of the loop does not depend on the noise |
| `Trajectory.FullReductionTrialIgnoresNoise` | Script.py:23-47 | At rho = 1 every trial has the same outcome, whatever the noise |
| `Estimator.SimulateLifetime` | Script.py:20-49 | The nested loops, appending one lifetime per trial and averaging, return `MeanLifetime`, and leave the generator where the trials stopped |
| `Estimator.RunTrials` | Script.py:20-47 | The outer loop as a function: `n_seeds` trials in a row, each from gamma = 1.0 and reading the stream where the previous one stopped. Exactly `n_seeds` lifetimes are collected (none when `n_seeds <= 0`), and the stream never moves back |
| `Estimator.TrialStart` | Script.py:22-34 | The stream position at which trial i starts: each trial starts where the previous one stopped, never before the batch's start |
| `Estimator.TrialStartShift` | Script.py:22-34 | Counting trials from the second one is counting from the position where the first one stopped |
| `Estimator.RunTrialsAt` | Script.py:22-47 | The i-th entry of `lifetimes` is the lifetime recorded by trial i, run from `TrialStart(i)` |
| `Estimator.RunTrialsEnd` | Script.py:22-47 | After `n_seeds` trials the generator stands where the last trial stopped (`TrialStart(n_seeds)`) |
| `Estimator.RunTrialsInRange` | Script.py:22-47 | With `T_max >= 1` every collected lifetime is in [1, T_max]; with `T_max <= 0` every one equals `T_max` |
| `Estimator.RunTrialsDraws` | Script.py:22-34 | The trials move the generator forward by at most `n_seeds * T_max` draws |
| `Estimator.Mean` | Script.py:49 | `statistics.mean`: an error exactly for an empty list, and otherwise the value whose `len(xs)` copies add up to the sum |
| `Estimator.SumBetween` | Script.py:49 | The sum of n values in [lo, hi] lies in [n*lo, n*hi] |
| `Estimator.MeanBetween` | Script.py:49 | The mean of a non-empty list of values in [lo, hi] is defined and lies in [lo, hi] |
| `Estimator.MeanOfOne` | Script.py:49 | The mean of one value is that value |
| `Estimator.SumConstant` | Script.py:49 | The sum of n copies of x is n*x |
| `Estimator.MeanLifetime` | Script.py:20-49 | The value `simulate_lifetime` returns: the mean of the collected lifetimes. It is an error if and only if `n_seeds <= 0` |
| `Estimator.MeanLifetimeInRange` | Script.py:20-49 | With `n_seeds >= 1` and `T_max >= 1` the mean lifetime is defined and lies in [1, T_max] |
| `Estimator.MeanLifetimeOfOneSeed` | Script.py:20-49 | With `n_seeds = 1` the mean is that one trial's recorded lifetime |
| `Estimator.MeanLifetimeWithoutBudget` | Script.py:24-49 | With `T_max <= 0` and at least one trial the mean is `T_max` |
| `RhoSweep.Sweep` | Script.py:54 | The comprehension `[simulate_lifetime(rho) for rho in rhos]`: it raises if and only if the grid is non-empty and `n_seeds <= 0`, and otherwise has one value per grid entry |
| `RhoSweep.CallStart` | Script.py:54 | The generator position at the start of the call for `rhos[i]`; it never lies before the sweep's start position |
| `RhoSweep.CallStartNext` | Script.py:54 | The call for `rhos[i + 1]` starts exactly where the call for `rhos[i]` left the generator |
| `RhoSweep.SweepFollowsGrid` | Script.py:54 | A successful sweep has one value per grid entry, in grid order: `W_vals[i]` is `simulate_lifetime(rhos[i])`, run from where the previous call left the generator |
| `RhoSweep.SweepInRange` | Script.py:54 | With `n_seeds >= 1` and `T_max >= 1` the sweep succeeds, keeps the grid's length, and every value is in [1, T_max] |
| `Scenarios.UncontrolledDecay` | Script.py:26-39 | With alpha = 1 and rho = 1 the energy after k steps is exactly `1 - k*c`, whatever the noise |
| `Scenarios.UncontrolledDecayLifetime` | Script.py:39-44 | Under that decay the trial dies at the step l with `(l-1)*c <= 1 - gamma_min < l*c` when l is within the budget |
| `Scenarios.DecayDiesAtStep14` | Script.py:10-44 | With the default `gamma_min = 0.2` and `c = 0.06` the uncontrolled decay records lifetime 14 |
| `Scenarios.DecayOnTheThreshold` | Script.py:42-44 | With `c = 0.1` the energy reaches `gamma_min` exactly at step 8; the strict test does not kill it, and the trial records 9 |
| `Scenarios.QuietStep` | Script.py:26-39 | At rho = 0 with no noise and gamma in [0.76, 1] the default controller is unsaturated and the update is `0.75*gamma + 0.19` |
| `Scenarios.QuietEnergyStaysHigh` | Script.py:23-39 | The noise-free energy from 1.0 stays within [0.76, 1] and follows that affine update |
| `Scenarios.QuietGoldenTrace` | Script.py:23-39 | The first five noise-free energies are exactly 0.94, 0.895, 0.86125, 0.8359375 and 0.816953125 |
| `Scenarios.QuietNext` | Script.py:26-39 | One noise-free step from a known energy g gives `0.75*g + 0.19` |
| `Scenarios.QuietClosedForm` | Script.py:23-39 | The noise-free energy after k steps is `0.76 + 0.24 * 0.75^k` |
| `Scenarios.QuietNeverCrosses` | Script.py:39-44 | No noise-free energy within any budget is below `gamma_min` |
| `Scenarios.QuietTrialSurvives` | Script.py:23-47 | Without noise the default controller at rho = 0 survives any budget, and with the default budget the trial records 400 |

## Left out

- `random.gauss(0, sigma0)`: the draws are a supplied stream of reals. Their distribution, `sigma0` and seeding are not modelled.
- IEEE floating-point rounding: the energy, the constants and the mean are exact reals.
- `statistics.mean` on int data returns the exact mean: an int when it is integral, otherwise the nearest float. The model keeps the exact real.
- `numpy.linspace(0.0, 1.0, 21)` (Script.py:53): the grid is an input sequence.
- Printing (Script.py:57-58) and plotting (Script.py:61-67): output only.
- Statistical properties of W(rho), such as its error rate or the shape of the curve, are not modelled. They are probabilistic statements.
- The code validates no argument and emits no warning, and neither does the model.
