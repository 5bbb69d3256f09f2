/** Deterministic configurations of `simulate_lifetime` whose outcome has an
    exact value: the noise-free decay at full reduction and the noise-free
    trajectory under the default controller at rho = 0. */
module Scenarios {
  import opened Dynamics
  import opened Trajectory

  /** With alpha = 1 and rho = 1 the gain and the saturation bound are both 0
      and the environment is cancelled, so each step only subtracts `c`. */
  lemma {:induction false} UncontrolledDecay(p: Params, draws: Draws, start: nat, k: nat)
    requires p.alpha == 1.0
    ensures GammaAt(p, 1.0, draws, start, k) == 1.0 - k as real * p.c
  {
    if k > 0 {
      UncontrolledDecay(p, draws, start, k - 1);
      var g := GammaAt(p, 1.0, draws, start, k - 1);
      assert EffectiveGain(p, 1.0) == 0.0 && EffectiveBound(p, 1.0) == 0.0;
      ControlWithoutGain(p.gammaRef, 0.0, g);
      FullReductionCancelsEnvironment(p, g, draws(start + k - 1));
    }
  }

  /** Under that decay a trial dies at the step `l` with
      `(l - 1) * c <= 1 - gammaMin < l * c`, i.e. at floor((1 - gammaMin) / c) + 1,
      whenever that step is within the budget. */
  lemma UncontrolledDecayLifetime(p: Params, draws: Draws, start: nat, l: int)
    requires p.alpha == 1.0 && p.c > 0.0
    requires 1 <= l <= p.tMax
    requires (l - 1) as real * p.c <= 1.0 - p.gammaMin < l as real * p.c
    ensures Trial(p, 1.0, draws, start) == Died(l)
  {
    UncontrolledDecay(p, draws, start, l);
    forall j | 1 <= j < l
      ensures GammaAt(p, 1.0, draws, start, j) >= p.gammaMin
    {
      UncontrolledDecay(p, draws, start, j);
      assert j as real * p.c <= (l - 1) as real * p.c;
    }
    TrialDiesAtFirstCrossing(p, 1.0, draws, start, l);
  }

  /** gamma_min = 0.2, c = 0.06: the decay reaches 0.16 < 0.2 at step 14,
      having been 0.22 at step 13. */
  lemma DecayDiesAtStep14(draws: Draws, start: nat)
    ensures Trial(Defaults.(alpha := 1.0, mu := 0.0), 1.0, draws, start) == Died(14)
  {
    UncontrolledDecayLifetime(Defaults.(alpha := 1.0, mu := 0.0), draws, start, 14);
  }

  /** With c = 0.1 the ratio (1 - gamma_min) / c is exactly 8; after 8 steps
      gamma equals gamma_min, which the strict test `gamma < gamma_min` does
      not count as death, so the trial dies at step 9, not at ceil(8) = 8. */
  lemma DecayOnTheThreshold(draws: Draws, start: nat)
    ensures Trial(Defaults.(alpha := 1.0, c := 0.1), 1.0, draws, start) == Died(9)
  {
    UncontrolledDecayLifetime(Defaults.(alpha := 1.0, c := 0.1), draws, start, 9);
  }

  /** The default constants with mu = 0 and every draw 0 (sigma0 = 0). */
  const Quiet := Params(400, 1.0, 0.2, 0.25, 0.9, 0.0, 0.06, 0.4)

  /** At rho = 0 with a zero draw the default controller is not saturated
      for energies in [0.76, 1], and the update is `0.75 * gamma + 0.19`. */
  lemma QuietStep(gamma: real)
    requires 0.76 <= gamma <= 1.0
    ensures Step(Quiet, 0.0, gamma, 0.0) == 0.75 * gamma + 0.19
  {
  }

  /** Without noise the energy therefore moves towards the fixed point 0.76
      of that update: starting from 1.0 it stays in [0.76, 1]. */
  lemma {:induction false} QuietEnergyStaysHigh(draws: Draws, start: nat, k: nat)
    requires forall i :: draws(i) == 0.0
    ensures 0.76 <= GammaAt(Quiet, 0.0, draws, start, k) <= 1.0
    ensures k > 0 ==>
      GammaAt(Quiet, 0.0, draws, start, k) == 0.75 * GammaAt(Quiet, 0.0, draws, start, k - 1) + 0.19
  {
    if k > 0 {
      var g := GammaAt(Quiet, 0.0, draws, start, k - 1);
      assert 0.76 <= g <= 1.0 by {
        QuietEnergyStaysHigh(draws, start, k - 1);
      }
      assert GammaAt(Quiet, 0.0, draws, start, k) == 0.75 * g + 0.19 by {
        assert draws(start + k - 1) == 0.0;
        QuietStep(g);
      }
    }
  }

  /** The golden trace: the noise-free energies of the first five steps
      under the default controller at rho = 0, preceded by the initial 1.0. */
  const GoldenTrace: seq<real> := [1.0, 0.94, 0.895, 0.86125, 0.8359375, 0.816953125]

  /** Each energy of the golden trace is the noise-free energy after that
      many steps. */
  lemma {:induction false} QuietGoldenTrace(draws: Draws, start: nat, k: nat)
    requires forall i :: draws(i) == 0.0
    requires k < |GoldenTrace|
    ensures GammaAt(Quiet, 0.0, draws, start, k) == GoldenTrace[k]
  {
    if k > 0 {
      var prev := GoldenTrace[k - 1];
      QuietGoldenTrace(draws, start, k - 1);
      QuietNext(draws, start, k - 1, prev);
      GoldenTraceRecurrence(k);
      assert GammaAt(Quiet, 0.0, draws, start, k) == 0.75 * prev + 0.19;
    }
  }

  /** Consecutive entries of the golden trace follow the noise-free update. */
  lemma GoldenTraceRecurrence(k: nat)
    requires 0 < k < |GoldenTrace|
    ensures GoldenTrace[k] == 0.75 * GoldenTrace[k - 1] + 0.19
  {
  }

  /** One noise-free step from a known energy. */
  lemma QuietNext(draws: Draws, start: nat, k: nat, g: real)
    requires forall i :: draws(i) == 0.0
    requires GammaAt(Quiet, 0.0, draws, start, k) == g
    ensures GammaAt(Quiet, 0.0, draws, start, k + 1) == 0.75 * g + 0.19
  {
    QuietEnergyStaysHigh(draws, start, k + 1);
  }

  function Pow(x: real, n: nat): real
  {
    if n == 0 then 1.0 else x * Pow(x, n - 1)
  }

  /** The noise-free trajectory in closed form: the distance to 0.76 shrinks
      by a factor 0.75 per step (0.94, 0.895, 0.86125, ...). */
  lemma {:induction false} QuietClosedForm(draws: Draws, start: nat, k: nat)
    requires forall i :: draws(i) == 0.0
    ensures GammaAt(Quiet, 0.0, draws, start, k) == 0.76 + 0.24 * Pow(0.75, k)
  {
    if k > 0 {
      QuietClosedForm(draws, start, k - 1);
      QuietEnergyStaysHigh(draws, start, k);
      AffineStep(GammaAt(Quiet, 0.0, draws, start, k - 1), GammaAt(Quiet, 0.0, draws, start, k), Pow(0.75, k - 1));
    }
  }

  /** The arithmetic of one step of the closed form. */
  lemma AffineStep(g: real, g': real, q: real)
    requires g' == 0.75 * g + 0.19 && g == 0.76 + 0.24 * q
    ensures g' == 0.76 + 0.24 * (0.75 * q)
  {
  }

  /** Hence no energy of the noise-free trajectory is below gamma_min = 0.2,
      whatever the step budget. */
  lemma QuietNeverCrosses(draws: Draws, start: nat, tMax: int)
    requires forall i :: draws(i) == 0.0
    ensures forall j :: 1 <= j <= tMax ==> GammaAt(Quiet, 0.0, draws, start, j) >= Quiet.gammaMin
  {
    forall j | 1 <= j <= tMax
      ensures GammaAt(Quiet, 0.0, draws, start, j) >= Quiet.gammaMin
    {
      QuietEnergyStaysHigh(draws, start, j);
    }
  }

  /** So without noise the default controller at rho = 0 survives any step
      budget, and with the default budget the trial records 400. */
  lemma QuietTrialSurvives(p: Params, draws: Draws, start: nat)
    requires p == Quiet.(tMax := p.tMax)
    requires forall i :: draws(i) == 0.0
    ensures Trial(p, 0.0, draws, start) == TimedOut(p.tMax)
    ensures p.tMax == 400 ==> Trial(p, 0.0, draws, start).Recorded() == 400
  {
    QuietNeverCrosses(draws, start, p.tMax);
    forall j | 1 <= j <= p.tMax
      ensures GammaAt(p, 0.0, draws, start, j) >= p.gammaMin
    {
      QuietGammaAtIgnoresBudget(p, draws, start, j);
    }
    TrialTimesOutIffNoCrossing(p, 0.0, draws, start);
  }

  /** The energies do not depend on the step budget. */
  lemma {:induction false} QuietGammaAtIgnoresBudget(p: Params, draws: Draws, start: nat, k: nat)
    requires p == Quiet.(tMax := p.tMax)
    ensures GammaAt(p, 0.0, draws, start, k) == GammaAt(Quiet, 0.0, draws, start, k)
  {
    if k > 0 {
      QuietGammaAtIgnoresBudget(p, draws, start, k - 1);
    }
  }
}
