/** The control law and the energy update applied at every step of a trial. */
module Dynamics {

  /** The fixed model constants and the step budget of `simulate_lifetime`.
      `tMax` is an unbounded integer, as in Python: a budget of zero or less
      gives an empty step range. */
  datatype Params = Params(
    tMax: int,
    gammaRef: real,
    gammaMin: real,
    k0: real,
    alpha: real,
    mu: real,
    c: real,
    u0: real)

  /** The default keyword arguments (the noise scale sigma0 = 0.18 only shapes
      the supplied draws and is not a field here). */
  const Defaults := Params(400, 1.0, 0.2, 0.25, 0.9, 0.01, 0.06, 0.4)

  /** Python's two-argument `min`: returns the first argument unless the second is smaller. */
  function Min(a: real, b: real): real { if b < a then b else a }

  /** Python's two-argument `max`: returns the first argument unless the second is larger. */
  function Max(a: real, b: real): real { if b > a then b else a }

  /** `max(min(x, bound), -bound)`: the clamp onto [-bound, bound]. */
  function Clamp(x: real, bound: real): real
  {
    Max(Min(x, bound), -bound)
  }

  /** The reduction factor `1 - alpha*rho` applied to gain and saturation. */
  function Reduction(p: Params, rho: real): real { 1.0 - p.alpha * rho }

  /** `k_eff = k0 * (1 - alpha*rho)` */
  function EffectiveGain(p: Params, rho: real): real { p.k0 * Reduction(p, rho) }

  /** `U_max = U0 * (1 - alpha*rho)` */
  function EffectiveBound(p: Params, rho: real): real { p.u0 * Reduction(p, rho) }

  /** The proportional control `k_eff * (gamma_ref - gamma)`, clamped onto
      the saturation bound `uMax`. */
  function Control(gammaRef: real, kEff: real, uMax: real, gamma: real): real
  {
    Clamp(kEff * (gammaRef - gamma), uMax)
  }

  /** The attenuated environmental input `e_red = (1 - rho) * (mu + eta)`. */
  function Environment(p: Params, rho: real, eta: real): (e: real)
    ensures rho == 1.0 ==> e == 0.0
    ensures rho == 0.0 ==> e == p.mu + eta
  {
    (1.0 - rho) * (p.mu + eta)
  }

  /** One energy update `gamma + u + e_red - c` with the noise draw `eta`. */
  function Step(p: Params, rho: real, gamma: real, eta: real): real
  {
    gamma + Control(p.gammaRef, EffectiveGain(p, rho), EffectiveBound(p, rho), gamma) + Environment(p, rho, eta) - p.c
  }

  /** For a non-negative bound the clamp stays within [-bound, bound], leaves
      a value already inside unchanged, and saturates at the nearer end
      otherwise. */
  lemma ClampWithinBound(x: real, bound: real)
    requires bound >= 0.0
    ensures -bound <= Clamp(x, bound) <= bound
    ensures -bound <= x <= bound ==> Clamp(x, bound) == x
    ensures x > bound ==> Clamp(x, bound) == bound
    ensures x < -bound ==> Clamp(x, bound) == -bound
  {
  }

  /** For a negative bound (alpha * rho > 1, U0 > 0) the interval is empty and
      the clamp always yields `-bound`, a positive value. */
  lemma ClampWithNegativeBound(x: real, bound: real)
    requires bound < 0.0
    ensures Clamp(x, bound) == -bound > 0.0
  {
  }

  /** With no gain and a non-negative bound the controller applies nothing. */
  lemma ControlWithoutGain(gammaRef: real, uMax: real, gamma: real)
    requires uMax >= 0.0
    ensures Control(gammaRef, 0.0, uMax, gamma) == 0.0
  {
  }

  /** At full reduction (rho = 1) the environmental term is 0 whatever the
      draw, so the update is `gamma + u - c`. */
  lemma FullReductionCancelsEnvironment(p: Params, gamma: real, eta: real)
    ensures Environment(p, 1.0, eta) == 0.0
    ensures Step(p, 1.0, gamma, eta)
         == gamma + Control(p.gammaRef, EffectiveGain(p, 1.0), EffectiveBound(p, 1.0), gamma) - p.c
  {
  }

  /** While the proportional term is inside [-U_max, U_max] the controller is
      not saturated and the update is linear in gamma. */
  lemma UnsaturatedStep(p: Params, rho: real, gamma: real, eta: real)
    requires -EffectiveBound(p, rho) <= EffectiveGain(p, rho) * (p.gammaRef - gamma) <= EffectiveBound(p, rho)
    ensures Step(p, rho, gamma, eta)
         == gamma + EffectiveGain(p, rho) * (p.gammaRef - gamma) + Environment(p, rho, eta) - p.c
  {
  }
}
