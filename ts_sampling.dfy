/**
  The minimal Beta-Binomial chooser (backend/app/exp_engine_utils/sampling.py):
  the four per-arm lists are added elementwise and one Beta draw per arm is
  taken from the effective parameters; the first index of the largest draw
  wins.
 */
module TsSampling {
  import opened Wrappers
  import opened Selection
  import opened MabSampling
  import opened ThompsonSampling

  /** Arm `i` can be sampled: both effective parameters are positive. */
  predicate Samplable(alphas: seq<real>, betas: seq<real>, successes: seq<nat>, failures: seq<nat>, i: nat)
    requires |alphas| == |betas| == |successes| == |failures| && i < |alphas|
  {
    alphas[i] + successes[i] as real > 0.0 && betas[i] + failures[i] as real > 0.0
  }

  /** The draw for arm `i` from Beta(alpha_i + s_i, beta_i + f_i). */
  function ArmDraw(alphas: seq<real>, betas: seq<real>, successes: seq<nat>, failures: seq<nat>,
                   draw: BetaDraw, i: nat): real
    requires |alphas| == |betas| == |successes| == |failures| && i < |alphas|
  {
    draw(alphas[i] + successes[i] as real, betas[i] + failures[i] as real, i)
  }

  /** The draws of all arms, in arm order. */
  function TsSamples(alphas: seq<real>, betas: seq<real>, successes: seq<nat>, failures: seq<nat>,
                     draw: BetaDraw): (s: seq<real>)
    requires |alphas| == |betas| == |successes| == |failures|
    ensures |s| == |alphas| && forall i :: 0 <= i < |s| ==> s[i] == ArmDraw(alphas, betas, successes, failures, draw, i)
  {
    seq(|alphas|, i requires 0 <= i < |alphas| => ArmDraw(alphas, betas, successes, failures, draw, i))
  }

  /**
    `ts_beta_binomial`: numpy's `beta` refuses a non-positive parameter and
    `argmax` an empty vector (ValueError); otherwise the result is an arm whose
    draw is at least every other arm's, and strictly larger than the draw of
    every arm before it.
   */
  function TsBetaBinomial(alphas: seq<real>, betas: seq<real>, successes: seq<nat>, failures: seq<nat>,
                          draw: BetaDraw): (r: Result<nat, PyError>)
    requires |alphas| == |betas| == |successes| == |failures|
    ensures r.Ok? <==> |alphas| > 0 && forall i :: 0 <= i < |alphas| ==> Samplable(alphas, betas, successes, failures, i)
    ensures r.Err? ==> r.error == ValueError
    ensures r.Ok? ==>
              && r.value < |alphas|
              && (forall j :: 0 <= j < |alphas| ==>
                    ArmDraw(alphas, betas, successes, failures, draw, j) <= ArmDraw(alphas, betas, successes, failures, draw, r.value))
              && (forall j :: 0 <= j < r.value ==>
                    ArmDraw(alphas, betas, successes, failures, draw, j) < ArmDraw(alphas, betas, successes, failures, draw, r.value))
  {
    var samples := TsSamples(alphas, betas, successes, failures, draw);
    if exists i :: 0 <= i < |alphas| && !Samplable(alphas, betas, successes, failures, i) then Err(ValueError)
    else if |alphas| == 0 then Err(ValueError)
    else Ok(ArgMax(samples))
  }

  /** This chooser and `mab_beta_binomial` of the batch engine make the same choice on every input. */
  lemma TsAgreesWithBatch(alphas: seq<real>, betas: seq<real>, successes: seq<nat>, failures: seq<nat>, draw: BetaDraw)
    requires |alphas| == |betas| == |successes| == |failures|
    ensures TsBetaBinomial(alphas, betas, successes, failures, draw) == MabBetaBinomial(alphas, betas, successes, failures, draw)
  {
    var ts := TsBetaBinomial(alphas, betas, successes, failures, draw);
    var mb := MabBetaBinomial(alphas, betas, successes, failures, draw);
    var a := EffectiveParams(alphas, successes);
    var b := EffectiveParams(betas, failures);
    assert ts.Ok? <==> mb.Ok? by {
      if ts.Ok? {
        forall i | 0 <= i < |alphas| ensures a[i] > 0.0 && b[i] > 0.0 {
          assert Samplable(alphas, betas, successes, failures, i);
        }
      }
      if mb.Ok? {
        forall i | 0 <= i < |alphas| ensures Samplable(alphas, betas, successes, failures, i) {
          assert a[i] > 0.0 && b[i] > 0.0;
        }
      }
    }
    if ts.Ok? {
      var s := BetaSamples(a, b, draw);
      assert s == TsSamples(alphas, betas, successes, failures, draw);
      FirstArgMaxUnique(s, ts.value, mb.value);
    }
  }

  /** With no successes and no failures recorded, the priors alone are sampled. */
  lemma NoCountsSamplePriors(alphas: seq<real>, betas: seq<real>, successes: seq<nat>, failures: seq<nat>, draw: BetaDraw)
    requires |alphas| == |betas| == |successes| == |failures|
    requires forall i :: 0 <= i < |alphas| ==> successes[i] == 0 && failures[i] == 0
    ensures TsBetaBinomial(alphas, betas, successes, failures, draw) == SampleBetaBinomial(alphas, betas, draw)
  {
    TsAgreesWithBatch(alphas, betas, successes, failures, draw);
    assert EffectiveParams(alphas, successes) == alphas;
    assert EffectiveParams(betas, failures) == betas;
  }
}
