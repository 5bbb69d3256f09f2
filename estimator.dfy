/** The outer loop of `simulate_lifetime`: `nSeeds` trials read one shared
    stream of draws one after another, their lifetimes are collected in a
    list, and the list is averaged. */
module Estimator {
  import opened Dynamics
  import opened Trajectory

  /** The `StatisticsError` that `statistics.mean` raises on an empty list. */
  datatype StatsError = NoDataPoints

  datatype Result<T> = Ok(value: T) | Err(error: StatsError)

  /** The lifetimes recorded by a run of trials, in order, and the stream
      position after the last draw they used. */
  datatype Batch = Batch(lifetimes: seq<int>, next: nat)

  /** `n` trials in a row, each starting at gamma = 1.0 and reading the stream
      where the previous one stopped. Exactly `n` lifetimes are collected (none
      for a non-positive count), and the stream never moves back. */
  function RunTrials(p: Params, rho: real, n: int, draws: Draws, pos: nat): (b: Batch)
    ensures |b.lifetimes| == if n > 0 then n else 0
    ensures pos <= b.next
    decreases n
  {
    if n <= 0 then Batch([], pos)
    else
      var o := Trial(p, rho, draws, pos);
      var rest := RunTrials(p, rho, n - 1, draws, pos + o.Steps());
      Batch([o.Recorded()] + rest.lifetimes, rest.next)
  }

  function Sum(xs: seq<int>): int
  {
    if xs == [] then 0 else xs[0] + Sum(xs[1..])
  }

  /** `statistics.mean` over exact reals: fails exactly on an empty list, and
      otherwise gives the value whose `|xs|` copies add up to the sum. */
  function Mean(xs: seq<int>): (r: Result<real>)
    ensures r.Err? <==> |xs| == 0
    ensures r.Ok? ==> r.value * |xs| as real == Sum(xs) as real
  {
    if |xs| == 0 then Err(NoDataPoints) else Ok(Sum(xs) as real / |xs| as real)
  }

  /** The value `simulate_lifetime` returns, or the error it raises, which
      happens exactly when no trial runs (`statistics.mean` of []). */
  function MeanLifetime(p: Params, rho: real, nSeeds: int, draws: Draws, pos: nat): (r: Result<real>)
    ensures r.Err? <==> nSeeds <= 0
  {
    Mean(RunTrials(p, rho, nSeeds, draws, pos).lifetimes)
  }

  /** `simulate_lifetime(rho, n_seeds, ...)` reading its draws from position
      `pos`; `next` is where the generator stands afterwards. */
  method SimulateLifetime(p: Params, rho: real, nSeeds: int, draws: Draws, pos: nat) returns (w: Result<real>, next: nat)
    ensures w == MeanLifetime(p, rho, nSeeds, draws, pos)
    ensures next == RunTrials(p, rho, nSeeds, draws, pos).next
  {
    var lifetimes: seq<int> := [];
    var cur := pos;
    var i := 0;
    while i < nSeeds
      invariant i == 0 || i <= nSeeds
      invariant lifetimes + RunTrials(p, rho, nSeeds - i, draws, cur).lifetimes
             == RunTrials(p, rho, nSeeds, draws, pos).lifetimes
      invariant RunTrials(p, rho, nSeeds - i, draws, cur).next == RunTrials(p, rho, nSeeds, draws, pos).next
      decreases nSeeds - i
    {
      var o, after := SimulateTrial(p, rho, draws, cur);
      RunTrialsFirst(p, rho, nSeeds - i, draws, cur);
      ghost var rest := RunTrials(p, rho, nSeeds - i - 1, draws, after);
      assert (lifetimes + [o.Recorded()]) + rest.lifetimes == lifetimes + ([o.Recorded()] + rest.lifetimes);
      lifetimes := lifetimes + [o.Recorded()];
      cur := after;
      i := i + 1;
    }
    assert RunTrials(p, rho, nSeeds - i, draws, cur) == Batch([], cur);
    assert lifetimes + [] == lifetimes;
    assert lifetimes == RunTrials(p, rho, nSeeds, draws, pos).lifetimes;
    w := Mean(lifetimes);
    next := cur;
  }

  /** One unfolding of `RunTrials`, used by the loop proof of `SimulateLifetime`. */
  lemma RunTrialsFirst(p: Params, rho: real, n: int, draws: Draws, pos: nat)
    requires n > 0
    ensures RunTrials(p, rho, n, draws, pos).lifetimes
         == [Trial(p, rho, draws, pos).Recorded()]
            + RunTrials(p, rho, n - 1, draws, pos + Trial(p, rho, draws, pos).Steps()).lifetimes
    ensures RunTrials(p, rho, n, draws, pos).next
         == RunTrials(p, rho, n - 1, draws, pos + Trial(p, rho, draws, pos).Steps()).next
  {
  }

  /** The stream position at which trial `i` (0-based) starts: each trial
      starts where the previous one stopped. */
  function TrialStart(p: Params, rho: real, draws: Draws, pos: nat, i: nat): (q: nat)
    ensures pos <= q
    decreases i
  {
    if i == 0 then pos
    else
      var prev := TrialStart(p, rho, draws, pos, i - 1);
      prev + Trial(p, rho, draws, prev).Steps()
  }

  /** Counting the trials from the second one is counting from one later
      start position. */
  lemma {:induction false} TrialStartShift(p: Params, rho: real, draws: Draws, pos: nat, i: nat)
    ensures TrialStart(p, rho, draws, pos, i + 1)
         == TrialStart(p, rho, draws, pos + Trial(p, rho, draws, pos).Steps(), i)
    decreases i
  {
    if i > 0 {
      TrialStartShift(p, rho, draws, pos, i - 1);
    }
  }

  /** The i-th collected lifetime is what trial `i` records, run from where
      trial `i - 1` left the stream. */
  lemma {:induction false} RunTrialsAt(p: Params, rho: real, n: int, draws: Draws, pos: nat, i: nat)
    requires i < n
    ensures RunTrials(p, rho, n, draws, pos).lifetimes[i]
         == Trial(p, rho, draws, TrialStart(p, rho, draws, pos, i)).Recorded()
    decreases n
  {
    RunTrialsFirst(p, rho, n, draws, pos);
    if i > 0 {
      var next := pos + Trial(p, rho, draws, pos).Steps();
      var rest := RunTrials(p, rho, n - 1, draws, next).lifetimes;
      assert RunTrials(p, rho, n, draws, pos).lifetimes[i] == rest[i - 1];
      RunTrialsAt(p, rho, n - 1, draws, next, i - 1);
      TrialStartShift(p, rho, draws, pos, i - 1);
    }
  }

  /** A batch of `n` trials leaves the stream where trial `n - 1` stopped. */
  lemma {:induction false} RunTrialsEnd(p: Params, rho: real, n: int, draws: Draws, pos: nat)
    ensures RunTrials(p, rho, n, draws, pos).next == TrialStart(p, rho, draws, pos, if n > 0 then n else 0)
    decreases n
  {
    if n > 0 {
      var next := pos + Trial(p, rho, draws, pos).Steps();
      RunTrialsFirst(p, rho, n, draws, pos);
      RunTrialsEnd(p, rho, n - 1, draws, next);
      TrialStartShift(p, rho, draws, pos, n - 1);
    }
  }

  /** With a positive budget every collected lifetime lies in [1, tMax]; with
      a non-positive budget every one equals tMax. */
  lemma {:induction false} RunTrialsInRange(p: Params, rho: real, n: int, draws: Draws, pos: nat)
    ensures p.tMax >= 1 ==> forall i :: 0 <= i < |RunTrials(p, rho, n, draws, pos).lifetimes| ==>
      1 <= RunTrials(p, rho, n, draws, pos).lifetimes[i] <= p.tMax
    ensures p.tMax <= 0 ==> forall i :: 0 <= i < |RunTrials(p, rho, n, draws, pos).lifetimes| ==>
      RunTrials(p, rho, n, draws, pos).lifetimes[i] == p.tMax
    decreases n
  {
    if n > 0 {
      var o := Trial(p, rho, draws, pos);
      var rest := RunTrials(p, rho, n - 1, draws, pos + o.Steps()).lifetimes;
      RunTrialsInRange(p, rho, n - 1, draws, pos + o.Steps());
      var ls := RunTrials(p, rho, n, draws, pos).lifetimes;
      assert ls == [o.Recorded()] + rest;
      forall i | 0 <= i < |ls|
        ensures p.tMax >= 1 ==> 1 <= ls[i] <= p.tMax
        ensures p.tMax <= 0 ==> ls[i] == p.tMax
      {
        if i > 0 {
          assert ls[i] == rest[i - 1];
        }
      }
    }
  }

  /** The trials consume at most `tMax` draws each and never move the stream back. */
  lemma {:induction false} RunTrialsDraws(p: Params, rho: real, n: int, draws: Draws, pos: nat)
    ensures pos <= RunTrials(p, rho, n, draws, pos).next
    ensures RunTrials(p, rho, n, draws, pos).next
         <= pos + (if n > 0 then n else 0) * (if p.tMax > 0 then p.tMax else 0)
    decreases n
  {
    if n > 0 {
      var o := Trial(p, rho, draws, pos);
      RunTrialsDraws(p, rho, n - 1, draws, pos + o.Steps());
      var m := if p.tMax > 0 then p.tMax else 0;
      assert (n - 1) * m + m == n * m;
    }
  }

  /** `lo * |xs| <= Sum(xs) <= hi * |xs|` when every element lies in [lo, hi]. */
  lemma {:induction false} SumBetween(xs: seq<int>, lo: int, hi: int)
    requires forall i :: 0 <= i < |xs| ==> lo <= xs[i] <= hi
    ensures lo * |xs| <= Sum(xs) <= hi * |xs|
  {
    if xs != [] {
      SumBetween(xs[1..], lo, hi);
      assert lo * |xs| == lo + lo * (|xs| - 1);
      assert hi * |xs| == hi + hi * (|xs| - 1);
    }
  }

  /** The mean of a non-empty list of values in [lo, hi] is defined and lies in [lo, hi]. */
  lemma MeanBetween(xs: seq<int>, lo: int, hi: int)
    requires xs != []
    requires forall i :: 0 <= i < |xs| ==> lo <= xs[i] <= hi
    ensures Mean(xs).Ok?
    ensures lo as real <= Mean(xs).value <= hi as real
  {
    SumBetween(xs, lo, hi);
    var n := |xs| as real;
    var s := Sum(xs) as real;
    assert lo as real * n <= s <= hi as real * n;
    assert s / n * n == s;
  }

  /** The mean of a single value is that value. */
  lemma MeanOfOne(x: int)
    ensures Mean([x]) == Ok(x as real)
  {
    assert Sum([x]) == x + Sum([]);
  }

  /** The sum of `n` copies of `x` is `n * x`. */
  lemma {:induction false} SumConstant(xs: seq<int>, x: int)
    requires forall i :: 0 <= i < |xs| ==> xs[i] == x
    ensures Sum(xs) == x * |xs|
  {
    if xs != [] {
      SumConstant(xs[1..], x);
      assert x * |xs| == x + x * (|xs| - 1);
    }
  }

  /** With at least one trial and a positive budget the mean lifetime is
      defined and lies in [1, tMax]. */
  lemma MeanLifetimeInRange(p: Params, rho: real, nSeeds: int, draws: Draws, pos: nat)
    requires nSeeds >= 1 && p.tMax >= 1
    ensures MeanLifetime(p, rho, nSeeds, draws, pos).Ok?
    ensures 1.0 <= MeanLifetime(p, rho, nSeeds, draws, pos).value <= p.tMax as real
  {
    RunTrialsInRange(p, rho, nSeeds, draws, pos);
    MeanBetween(RunTrials(p, rho, nSeeds, draws, pos).lifetimes, 1, p.tMax);
  }

  /** A single trial's mean is its own lifetime. */
  lemma MeanLifetimeOfOneSeed(p: Params, rho: real, draws: Draws, pos: nat)
    ensures MeanLifetime(p, rho, 1, draws, pos) == Ok(Trial(p, rho, draws, pos).Recorded() as real)
  {
    var o := Trial(p, rho, draws, pos);
    assert RunTrials(p, rho, 1, draws, pos).lifetimes == [o.Recorded()];
    MeanOfOne(o.Recorded());
  }

  /** With a non-positive budget the step loop never runs and every trial
      records the budget itself, so that is the mean. */
  lemma MeanLifetimeWithoutBudget(p: Params, rho: real, nSeeds: int, draws: Draws, pos: nat)
    requires nSeeds >= 1 && p.tMax <= 0
    ensures MeanLifetime(p, rho, nSeeds, draws, pos) == Ok(p.tMax as real)
  {
    var ls := RunTrials(p, rho, nSeeds, draws, pos).lifetimes;
    RunTrialsInRange(p, rho, nSeeds, draws, pos);
    SumConstant(ls, p.tMax);
    assert (p.tMax * nSeeds) as real / nSeeds as real == p.tMax as real;
  }
}
