/** The sweep `W_vals = [simulate_lifetime(rho) for rho in rhos]`: one mean
    lifetime per grid value, in grid order. All calls share the one global
    generator, so each call reads the stream where the previous call left it. */
module RhoSweep {
  import opened Dynamics
  import opened Trajectory
  import opened Estimator

  /** The comprehension over `rhos`, starting with the generator at `pos`.
      The first call that raises aborts the whole comprehension, so the sweep
      fails exactly when there is a grid value and no trial runs per call; a
      successful sweep has one value per grid entry. */
  function Sweep(p: Params, nSeeds: int, rhos: seq<real>, draws: Draws, pos: nat): (r: Result<seq<real>>)
    ensures r.Err? <==> rhos != [] && nSeeds <= 0
    ensures r.Ok? ==> |r.value| == |rhos|
    decreases |rhos|
  {
    if rhos == [] then Ok([])
    else
      match MeanLifetime(p, rhos[0], nSeeds, draws, pos)
      case Err(e) => Err(e)
      case Ok(w) =>
        match Sweep(p, nSeeds, rhos[1..], draws, RunTrials(p, rhos[0], nSeeds, draws, pos).next)
        case Err(e) => Err(e)
        case Ok(ws) => Ok([w] + ws)
  }

  /** The generator position at the start of the call for `rhos[i]`. */
  function CallStart(p: Params, nSeeds: int, rhos: seq<real>, draws: Draws, pos: nat, i: nat): (q: nat)
    requires i <= |rhos|
    ensures pos <= q
    decreases i
  {
    if i == 0 then pos
    else CallStart(p, nSeeds, rhos[1..], draws, RunTrials(p, rhos[0], nSeeds, draws, pos).next, i - 1)
  }

  /** Each call of the comprehension starts where the previous call left
      the generator. */
  lemma {:induction false} CallStartNext(p: Params, nSeeds: int, rhos: seq<real>, draws: Draws, pos: nat, i: nat)
    requires i < |rhos|
    ensures CallStart(p, nSeeds, rhos, draws, pos, i + 1)
         == RunTrials(p, rhos[i], nSeeds, draws, CallStart(p, nSeeds, rhos, draws, pos, i)).next
    decreases i
  {
    if i > 0 {
      CallStartNext(p, nSeeds, rhos[1..], draws, RunTrials(p, rhos[0], nSeeds, draws, pos).next, i - 1);
      assert rhos[1..][i - 1] == rhos[i];
    }
  }

  /** A successful sweep has one value per grid entry, and the i-th value is
      the mean lifetime for `rhos[i]` computed where the generator then stood. */
  lemma {:induction false} SweepFollowsGrid(p: Params, nSeeds: int, rhos: seq<real>, draws: Draws, pos: nat)
    requires Sweep(p, nSeeds, rhos, draws, pos).Ok?
    ensures |Sweep(p, nSeeds, rhos, draws, pos).value| == |rhos|
    ensures forall i :: 0 <= i < |rhos| ==>
      MeanLifetime(p, rhos[i], nSeeds, draws, CallStart(p, nSeeds, rhos, draws, pos, i))
        == Ok(Sweep(p, nSeeds, rhos, draws, pos).value[i])
    decreases |rhos|
  {
    if rhos != [] {
      var next := RunTrials(p, rhos[0], nSeeds, draws, pos).next;
      var tail := rhos[1..];
      SweepFollowsGrid(p, nSeeds, tail, draws, next);
      var ws := Sweep(p, nSeeds, rhos, draws, pos).value;
      var tws := Sweep(p, nSeeds, tail, draws, next).value;
      assert ws == [ws[0]] + tws;
      forall i | 0 <= i < |rhos|
        ensures MeanLifetime(p, rhos[i], nSeeds, draws, CallStart(p, nSeeds, rhos, draws, pos, i)) == Ok(ws[i])
      {
        if i > 0 {
          assert rhos[i] == tail[i - 1];
          assert ws[i] == tws[i - 1];
          assert CallStart(p, nSeeds, rhos, draws, pos, i) == CallStart(p, nSeeds, tail, draws, next, i - 1);
        }
      }
    }
  }

  /** With at least one trial per call and a positive budget the sweep
      succeeds and every value lies in [1, tMax]. */
  lemma SweepInRange(p: Params, nSeeds: int, rhos: seq<real>, draws: Draws, pos: nat)
    requires nSeeds >= 1 && p.tMax >= 1
    ensures Sweep(p, nSeeds, rhos, draws, pos).Ok?
    ensures |Sweep(p, nSeeds, rhos, draws, pos).value| == |rhos|
    ensures forall i :: 0 <= i < |rhos| ==> 1.0 <= Sweep(p, nSeeds, rhos, draws, pos).value[i] <= p.tMax as real
  {
    SweepFollowsGrid(p, nSeeds, rhos, draws, pos);
    var ws := Sweep(p, nSeeds, rhos, draws, pos).value;
    forall i | 0 <= i < |rhos|
      ensures 1.0 <= ws[i] <= p.tMax as real
    {
      MeanLifetimeInRange(p, rhos[i], nSeeds, draws, CallStart(p, nSeeds, rhos, draws, pos, i));
    }
  }
}
