/** One trial of `simulate_lifetime`: the energy starts at 1.0 and is updated
    once per step until it falls below `gammaMin` or the step budget runs out. */
module Trajectory {
  import opened Dynamics

  /** The Gaussian source: `draws(i)` is the value returned by the i-th call of
      the generator. The generator is unbounded, so the stream is total. */
  type Draws = nat -> real

  /** How a trial ended: killed by the death check at 0-based step `t`,
      recording `t + 1`, or by the `for/else` after the whole budget, recording
      the budget itself. */
  datatype Outcome = Died(lifetime: int) | TimedOut(lifetime: int) {
    /** The integer appended to the list of lifetimes. */
    function Recorded(): int { lifetime }

    /** The number of loop iterations that ran, i.e. draws consumed. */
    function Steps(): nat { if lifetime > 0 then lifetime else 0 }
  }

  /** The energy after `k` updates of a trial that reads its draws from
      position `start`, ignoring the death check. */
  function GammaAt(p: Params, rho: real, draws: Draws, start: nat, k: nat): real
    decreases k
  {
    if k == 0 then 1.0
    else Step(p, rho, GammaAt(p, rho, draws, start, k - 1), draws(start + k - 1))
  }

  /** The remaining iterations of the step loop from 0-based step `t`, the
      energy before that step being `GammaAt(..., t)`. */
  function Run(p: Params, rho: real, draws: Draws, start: nat, t: nat): (o: Outcome)
    ensures o.TimedOut? ==> o.lifetime == p.tMax
    ensures o.Died? ==> t < o.lifetime <= p.tMax
    decreases p.tMax - t
  {
    if t >= p.tMax then TimedOut(p.tMax)
    else if GammaAt(p, rho, draws, start, t + 1) < p.gammaMin then Died(t + 1)
    else Run(p, rho, draws, start, t + 1)
  }

  /** A whole trial: the energy is reset to 1.0 and the loop starts at step 0. */
  function Trial(p: Params, rho: real, draws: Draws, start: nat): (o: Outcome)
    ensures o.TimedOut? ==> o.Recorded() == p.tMax
    ensures o.Died? ==> 1 <= o.Recorded() <= p.tMax
    ensures p.tMax >= 1 ==> 1 <= o.Recorded() <= p.tMax
    ensures p.tMax <= 0 ==> o == TimedOut(p.tMax) && o.Steps() == 0
    ensures o.Steps() <= (if p.tMax > 0 then p.tMax else 0)
  {
    Run(p, rho, draws, start, 0)
  }

  /** The step loop of `simulate_lifetime` for one trial, reading its draws
      from position `start`; `next` is the position after the last draw used. */
  method SimulateTrial(p: Params, rho: real, draws: Draws, start: nat) returns (o: Outcome, next: nat)
    ensures o == Trial(p, rho, draws, start)
    ensures next == start + o.Steps()
  {
    var gamma := 1.0;
    var t: nat := 0;
    while t < p.tMax
      invariant t == 0 || t <= p.tMax
      invariant gamma == GammaAt(p, rho, draws, start, t)
      invariant Run(p, rho, draws, start, t) == Trial(p, rho, draws, start)
      decreases p.tMax - t
    {
      var kEff := EffectiveGain(p, rho);
      var uMax := EffectiveBound(p, rho);
      var u := Control(p.gammaRef, kEff, uMax, gamma);
      var eta := draws(start + t);
      var eRed := Environment(p, rho, eta);
      gamma := gamma + u + eRed - p.c;
      if gamma < p.gammaMin {
        o := Died(t + 1);
        next := start + t + 1;
        return;
      }
      t := t + 1;
    }
    o := TimedOut(p.tMax);
    next := start + t;
  }

  /** From step `t`, a loop that ends with `Died(l)` ended at the first step
      after `t`, within the budget, whose energy is below `gammaMin`. */
  lemma {:induction false} RunDiesOnlyAtFirstCrossing(p: Params, rho: real, draws: Draws, start: nat, t: nat, l: int)
    requires Run(p, rho, draws, start, t) == Died(l)
    ensures t < l <= p.tMax
    ensures GammaAt(p, rho, draws, start, l) < p.gammaMin
    ensures forall j :: t < j < l ==> GammaAt(p, rho, draws, start, j) >= p.gammaMin
    decreases p.tMax - t
  {
    if GammaAt(p, rho, draws, start, t + 1) >= p.gammaMin {
      RunDiesOnlyAtFirstCrossing(p, rho, draws, start, t + 1, l);
    }
  }

  /** From step `t`, a loop that ends with the `for/else` saw every energy
      after `t`, up to the budget, stay at or above `gammaMin`. */
  lemma {:induction false} RunTimesOutOnlyWithoutCrossing(p: Params, rho: real, draws: Draws, start: nat, t: nat)
    requires Run(p, rho, draws, start, t).TimedOut?
    ensures forall j :: t < j <= p.tMax ==> GammaAt(p, rho, draws, start, j) >= p.gammaMin
    decreases p.tMax - t
  {
    if t < p.tMax {
      assert GammaAt(p, rho, draws, start, t + 1) >= p.gammaMin;
      RunTimesOutOnlyWithoutCrossing(p, rho, draws, start, t + 1);
      forall j | t < j <= p.tMax
        ensures GammaAt(p, rho, draws, start, j) >= p.gammaMin
      {
        if j > t + 1 {
          assert t + 1 < j <= p.tMax;
        }
      }
    }
  }

  /** A trial records `l` by dying exactly when step `l` (1-based) is the first
      step whose updated energy is below `gammaMin`. */
  lemma TrialDiesAtFirstCrossing(p: Params, rho: real, draws: Draws, start: nat, l: int)
    ensures Trial(p, rho, draws, start) == Died(l)
        <==> && 1 <= l <= p.tMax
             && GammaAt(p, rho, draws, start, l) < p.gammaMin
             && forall j :: 1 <= j < l ==> GammaAt(p, rho, draws, start, j) >= p.gammaMin
  {
    var o := Trial(p, rho, draws, start);
    if o.Died? {
      RunDiesOnlyAtFirstCrossing(p, rho, draws, start, 0, o.lifetime);
      if 1 <= l < o.lifetime {
        assert GammaAt(p, rho, draws, start, l) >= p.gammaMin;
      }
    } else {
      RunTimesOutOnlyWithoutCrossing(p, rho, draws, start, 0);
    }
  }

  /** A trial survives the whole budget, recording `tMax`, exactly when no
      updated energy within the budget is below `gammaMin`. */
  lemma TrialTimesOutIffNoCrossing(p: Params, rho: real, draws: Draws, start: nat)
    ensures Trial(p, rho, draws, start) == TimedOut(p.tMax)
        <==> forall j :: 1 <= j <= p.tMax ==> GammaAt(p, rho, draws, start, j) >= p.gammaMin
  {
    var o := Trial(p, rho, draws, start);
    if o.Died? {
      RunDiesOnlyAtFirstCrossing(p, rho, draws, start, 0, o.lifetime);
    } else {
      RunTimesOutOnlyWithoutCrossing(p, rho, draws, start, 0);
    }
  }

  /** The energy after `k` steps depends only on the first `k` draws. */
  lemma {:induction false} GammaAtReadsOnlyItsDraws(p: Params, rho: real, draws: Draws, draws': Draws, start: nat, k: nat)
    requires forall i :: start <= i < start + k ==> draws(i) == draws'(i)
    ensures GammaAt(p, rho, draws', start, k) == GammaAt(p, rho, draws, start, k)
  {
    if k > 0 {
      GammaAtReadsOnlyItsDraws(p, rho, draws, draws', start, k - 1);
      assert draws(start + k - 1) == draws'(start + k - 1);
    }
  }

  /** The loop from step `t` reads only the draws of the steps the trial executes. */
  lemma {:induction false} RunReadsOnlyItsDraws(p: Params, rho: real, draws: Draws, draws': Draws, start: nat, t: nat)
    requires forall i :: start <= i < start + Run(p, rho, draws, start, t).Steps() ==> draws(i) == draws'(i)
    ensures Run(p, rho, draws', start, t) == Run(p, rho, draws, start, t)
    decreases p.tMax - t
  {
    if t < p.tMax {
      GammaAtReadsOnlyItsDraws(p, rho, draws, draws', start, t + 1);
      if GammaAt(p, rho, draws, start, t + 1) >= p.gammaMin {
        RunReadsOnlyItsDraws(p, rho, draws, draws', start, t + 1);
      }
    }
  }

  /** A trial consumes one draw per executed step and no other: two streams
      that agree on the draws it uses give the same outcome. */
  lemma TrialReadsOnlyItsDraws(p: Params, rho: real, draws: Draws, draws': Draws, start: nat)
    requires forall i :: start <= i < start + Trial(p, rho, draws, start).Steps() ==> draws(i) == draws'(i)
    ensures Trial(p, rho, draws', start) == Trial(p, rho, draws, start)
  {
    RunReadsOnlyItsDraws(p, rho, draws, draws', start, 0);
  }

  /** At full reduction (rho = 1) the environment is cancelled, so the energy
      does not depend on the draws or on where they are read from. */
  lemma {:induction false} FullReductionEnergyIgnoresNoise(p: Params, draws: Draws, draws': Draws, start: nat, start': nat, k: nat)
    ensures GammaAt(p, 1.0, draws, start, k) == GammaAt(p, 1.0, draws', start', k)
  {
    if k > 0 {
      FullReductionEnergyIgnoresNoise(p, draws, draws', start, start', k - 1);
    }
  }

  /** At full reduction the rest of the loop is deterministic. */
  lemma {:induction false} FullReductionRunIgnoresNoise(p: Params, draws: Draws, draws': Draws, start: nat, start': nat, t: nat)
    ensures Run(p, 1.0, draws, start, t) == Run(p, 1.0, draws', start', t)
    decreases p.tMax - t
  {
    if t < p.tMax {
      FullReductionEnergyIgnoresNoise(p, draws, draws', start, start', t + 1);
      FullReductionRunIgnoresNoise(p, draws, draws', start, start', t + 1);
    }
  }

  /** At full reduction every trial is deterministic. */
  lemma FullReductionTrialIgnoresNoise(p: Params, draws: Draws, draws': Draws, start: nat, start': nat)
    ensures Trial(p, 1.0, draws, start) == Trial(p, 1.0, draws', start')
  {
    FullReductionRunIgnoresNoise(p, draws, draws', start, start', 0);
  }
}
