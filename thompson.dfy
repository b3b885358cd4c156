/**
  The batch engine (backend/app/exp_engine/thompson_sampling.py): instead of
  updating stored parameters, it rebuilds each arm's posterior from the whole
  history (success and failure counts, or the list of real rewards) and then
  samples it.
 */
module ThompsonSampling {
  import opened Wrappers
  import opened Enums
  import opened Selection
  import LinAlg
  import opened MabSchemas
  import opened MabSampling
  import opened RealArith

  /** `alphas + successes` (or `betas + failures`) arm by arm. */
  function EffectiveParams(prior: seq<real>, counts: seq<nat>): (s: seq<real>)
    requires |prior| == |counts|
    ensures |s| == |prior| && forall i :: 0 <= i < |s| ==> s[i] == prior[i] + counts[i] as real
  {
    seq(|prior|, i requires 0 <= i < |prior| => prior[i] + counts[i] as real)
  }

  /**
    `mab_beta_binomial`: arm i is sampled from Beta(alpha_i + s_i, beta_i + f_i)
    and the first index of the largest sample wins.
   */
  function MabBetaBinomial(alphas: seq<real>, betas: seq<real>, successes: seq<nat>, failures: seq<nat>,
                           draw: BetaDraw): (r: Result<nat, PyError>)
    requires |alphas| == |betas| == |successes| == |failures|
    ensures r.Ok? <==> |alphas| > 0 && AllPositive(EffectiveParams(alphas, successes))
                                    && AllPositive(EffectiveParams(betas, failures))
    ensures r.Err? ==> r.error == ValueError
    ensures r.Ok? ==>
              && r.value < |alphas|
              && IsFirstArgMax(BetaSamples(EffectiveParams(alphas, successes), EffectiveParams(betas, failures), draw), r.value)
  {
    SampleBetaBinomial(EffectiveParams(alphas, successes), EffectiveParams(betas, failures), draw)
  }

  /** Positive priors can always be sampled, whatever the counts. */
  lemma PositivePriorsSample(alphas: seq<real>, betas: seq<real>, successes: seq<nat>, failures: seq<nat>, draw: BetaDraw)
    requires |alphas| == |betas| == |successes| == |failures| > 0
    requires AllPositive(alphas) && AllPositive(betas)
    ensures MabBetaBinomial(alphas, betas, successes, failures, draw).Ok?
  {
  }

  function SuccessCounts(histories: seq<seq<real>>): (s: seq<nat>)
    ensures |s| == |histories| && forall i :: 0 <= i < |s| ==> s[i] == CountSuccesses(histories[i])
  {
    seq(|histories|, i requires 0 <= i < |histories| => CountSuccesses(histories[i]))
  }

  function FailureCounts(histories: seq<seq<real>>): (s: seq<nat>)
    ensures |s| == |histories| && forall i :: 0 <= i < |s| ==> s[i] == |histories[i]| - CountSuccesses(histories[i])
  {
    seq(|histories|, i requires 0 <= i < |histories| => |histories[i]| - CountSuccesses(histories[i]))
  }

  /** The beliefs the online engine reaches by applying each arm's history one outcome at a time. */
  function OnlineBeliefs(alphas: seq<real>, betas: seq<real>, histories: seq<seq<real>>): (s: seq<BetaBelief>)
    requires |alphas| == |betas| == |histories|
    ensures |s| == |alphas| &&
            forall i :: 0 <= i < |s| ==> s[i] == ApplyOutcomes(BetaBelief(alphas[i], betas[i]), histories[i])
  {
    seq(|alphas|, i requires 0 <= i < |alphas| => ApplyOutcomes(BetaBelief(alphas[i], betas[i]), histories[i]))
  }

  /**
    Rebuilding from counts agrees with the online engine: sampling the batch
    posterior is sampling the beliefs reached by sequential updates.
   */
  lemma BatchBetaMatchesOnline(alphas: seq<real>, betas: seq<real>, histories: seq<seq<real>>, draw: BetaDraw)
    requires |alphas| == |betas| == |histories|
    ensures var online := OnlineBeliefs(alphas, betas, histories);
            MabBetaBinomial(alphas, betas, SuccessCounts(histories), FailureCounts(histories), draw) ==
            SampleBetaBinomial(seq(|online|, i requires 0 <= i < |online| => online[i].alpha),
                               seq(|online|, i requires 0 <= i < |online| => online[i].beta), draw)
  {
    var online := OnlineBeliefs(alphas, betas, histories);
    var a := seq(|online|, i requires 0 <= i < |online| => online[i].alpha);
    var b := seq(|online|, i requires 0 <= i < |online| => online[i].beta);
    forall i | 0 <= i < |online|
      ensures a[i] == EffectiveParams(alphas, SuccessCounts(histories))[i]
      ensures b[i] == EffectiveParams(betas, FailureCounts(histories))[i]
    {
      ApplyOutcomesCounts(BetaBelief(alphas[i], betas[i]), histories[i]);
    }
    assert a == EffectiveParams(alphas, SuccessCounts(histories));
    assert b == EffectiveParams(betas, FailureCounts(histories));
  }

  /**
    The conjugate posterior variance after n observations, prior variance v,
    likelihood variance L: (sigma sigma_L)^2 / (n sigma^2 + sigma_L^2).
   */
  function PosteriorVariance(v: real, n: nat, likVar: real): (pv: real)
    requires v >= 0.0 && likVar > 0.0
    ensures 0.0 <= pv <= v
    ensures n == 0 ==> pv == v
  {
    var pv := v * likVar / (n as real * v + likVar);
    PosteriorVarianceBounds(v, n, likVar);
    pv
  }

  lemma PosteriorVarianceBounds(v: real, n: nat, likVar: real)
    requires v >= 0.0 && likVar > 0.0
    ensures var pv := v * likVar / (n as real * v + likVar);
            0.0 <= pv <= v && (n == 0 ==> pv == v)
  {
    var nv := n as real * v;
    MulNonNeg(n as real, v);
    var d := nv + likVar;
    assert v * likVar / d == v * (likVar / d);
    assert 0.0 < likVar / d <= 1.0;
    MulMono(likVar / d, 1.0, v);
  }

  /** The posterior variance times its denominator. */
  lemma PosteriorVarianceProduct(v: real, n: nat, likVar: real)
    requires v >= 0.0 && likVar > 0.0
    ensures PosteriorVariance(v, n, likVar) * (n as real * v + likVar) == v * likVar
  {
    MulNonNeg(n as real, v);
  }

  /** Precision form: 1 / sigma'^2 == 1 / sigma^2 + n / sigma_L^2. */
  lemma PosteriorPrecision(v: real, n: nat, likVar: real)
    requires v > 0.0 && likVar > 0.0
    ensures PosteriorVariance(v, n, likVar) > 0.0
    ensures 1.0 / PosteriorVariance(v, n, likVar) == 1.0 / v + n as real / likVar
  {
    PosteriorVarianceProduct(v, n, likVar);
    PrecisionsAdd(PosteriorVariance(v, n, likVar), v, n as real, likVar);
  }

  /** More observations never widen the posterior. */
  lemma PosteriorVarianceNonIncreasing(v: real, n: nat, m: nat, likVar: real)
    requires v >= 0.0 && likVar > 0.0 && n <= m
    ensures PosteriorVariance(v, m, likVar) <= PosteriorVariance(v, n, likVar)
  {
    var dn := n as real * v + likVar;
    var dm := m as real * v + likVar;
    MulNonNeg(n as real, v);
    MulMono(n as real, m as real, v);
    MulNonNeg(v, likVar);
    assert 0.0 < dn <= dm;
    DivMonoDenominator(v * likVar, dn, dm);
    assert PosteriorVariance(v, m, likVar) == v * likVar / dm;
    assert PosteriorVariance(v, n, likVar) == v * likVar / dn;
  }

  /** The online Normal update applied once per reward, in order. */
  function FoldNormal(b: NormalBelief, rewards: seq<real>, likVar: real): (r: NormalBelief)
    requires b.variance >= 0.0 && likVar > 0.0
    ensures r.variance >= 0.0
    decreases |rewards|
  {
    if |rewards| == 0 then b
    else
      var p := FoldNormal(b, rewards[..|rewards| - 1], likVar);
      UpdateArmNormal(p.mu, p.variance, rewards[|rewards| - 1], likVar)
  }

  lemma MulSucc(k: nat, v: real)
    ensures (k + 1) as real * v == k as real * v + v
  {
  }

  /**
    The closed form of the posterior after n observations summing to `sum`,
    each component times its denominator n v + L.
   */
  predicate ClosedForm(p: NormalBelief, mu: real, v: real, n: nat, sum: real, likVar: real)
  {
    && p.variance * (n as real * v + likVar) == v * likVar
    && p.mu * (n as real * v + likVar) == likVar * mu + v * sum
  }

  /** One more observation x on top of the closed form after k observations gives the closed form after k + 1. */
  lemma OneMoreObservation(mu: real, v: real, likVar: real, k: nat, sum: real, p: NormalBelief, x: real)
    requires v >= 0.0 && likVar > 0.0 && p.variance >= 0.0
    requires ClosedForm(p, mu, v, k, sum, likVar)
    ensures ClosedForm(UpdateArmNormal(p.mu, p.variance, x, likVar), mu, v, k + 1, sum + x, likVar)
  {
    var pm, pv := p.mu, p.variance;
    var d := k as real * v + likVar;
    MulNonNeg(k as real, v);
    MulSucc(k, v);
    assert (k + 1) as real * v + likVar == d + v;
    var q := UpdateArmNormal(pm, pv, x, likVar);
    var e := pv + likVar;
    assert e * d == likVar * (d + v);
    assert likVar * (q.variance * (d + v)) == likVar * (v * likVar) by {
      calc {
        likVar * (q.variance * (d + v));
        (q.variance * e) * d;
        (pv * likVar) * d;
        likVar * (v * likVar);
      }
    }
    Cancel(likVar, q.variance * (d + v), v * likVar);
    assert likVar * (q.mu * (d + v)) == likVar * (likVar * mu + v * (sum + x)) by {
      calc {
        likVar * (q.mu * (d + v));
        (q.mu * e) * d;
        (pm * likVar + x * pv) * d;
        likVar * (pm * d) + x * (pv * d);
        likVar * (likVar * mu + v * sum) + x * (v * likVar);
        likVar * (likVar * mu + v * (sum + x));
      }
    }
    Cancel(likVar, q.mu * (d + v), likVar * mu + v * (sum + x));
  }

  /** The fold is in closed form after every prefix of the rewards. */
  lemma {:induction false} FoldNormalProducts(mu: real, v: real, rewards: seq<real>, likVar: real)
    requires v >= 0.0 && likVar > 0.0
    ensures ClosedForm(FoldNormal(NormalBelief(mu, v), rewards, likVar), mu, v, |rewards|, LinAlg.SumSeq(rewards), likVar)
    decreases |rewards|
  {
    if |rewards| > 0 {
      var k := |rewards| - 1;
      var prefix := rewards[..k];
      var x := rewards[k];
      FoldNormalProducts(mu, v, prefix, likVar);
      var p := FoldNormal(NormalBelief(mu, v), prefix, likVar);
      OneMoreObservation(mu, v, likVar, k, LinAlg.SumSeq(prefix), p, x);
      assert FoldNormal(NormalBelief(mu, v), rewards, likVar) == UpdateArmNormal(p.mu, p.variance, x, likVar);
      assert LinAlg.SumSeq(rewards) == LinAlg.SumSeq(prefix) + x;
    }
  }

  /**
    The batch conjugate posterior after n observations summing to `sum`:
    mean (L mu + v sum) / (n v + L), variance `PosteriorVariance`.
   */
  function ConjugatePosterior(mu: real, v: real, n: nat, sum: real, likVar: real): NormalBelief
    requires v >= 0.0 && likVar > 0.0
  {
    MulNonNeg(n as real, v);
    NormalBelief((likVar * mu + v * sum) / (n as real * v + likVar), PosteriorVariance(v, n, likVar))
  }

  /** n sequential updates of `update_arm_normal` reach the batch conjugate posterior. */
  lemma FoldNormalClosedForm(mu: real, v: real, rewards: seq<real>, likVar: real)
    requires v >= 0.0 && likVar > 0.0
    ensures FoldNormal(NormalBelief(mu, v), rewards, likVar) ==
            ConjugatePosterior(mu, v, |rewards|, LinAlg.SumSeq(rewards), likVar)
  {
    FoldNormalProducts(mu, v, rewards, likVar);
    ClosedFormQuotients(FoldNormal(NormalBelief(mu, v), rewards, likVar), mu, v, |rewards|, LinAlg.SumSeq(rewards), likVar);
  }

  lemma ClosedFormQuotients(p: NormalBelief, mu: real, v: real, n: nat, sum: real, likVar: real)
    requires v >= 0.0 && likVar > 0.0 && ClosedForm(p, mu, v, n, sum, likVar)
    ensures p == ConjugatePosterior(mu, v, n, sum, likVar)
  {
    var d := n as real * v + likVar;
    MulNonNeg(n as real, v);
    DivChar(p.variance, v * likVar, d);
    DivChar(p.mu, likVar * mu + v * sum, d);
  }

  /**
    The weight (sigma' / sigma)^2 of `current_mus`. For sigma != 0 it is
    sigma_L^2 / (n sigma^2 + sigma_L^2); for sigma == 0 it is 0 / 0.
   */
  function Weight(sigma: real, n: nat, likVar: real): (w: Float)
    requires likVar > 0.0
    ensures w.NaN? <==> sigma == 0.0
    ensures w.Real? ==> 0.0 < w.v <= 1.0 && (n == 0 ==> w.v == 1.0)
  {
    if sigma == 0.0 then NaN
    else
      var d := n as real * Square(sigma) + likVar;
      MulNonNeg(n as real, Square(sigma));
      Real(likVar / d)
  }

  /** The weight is the posterior variance over the prior variance. */
  lemma WeightIsVarianceRatio(sigma: real, n: nat, likVar: real)
    requires likVar > 0.0 && sigma != 0.0
    ensures Weight(sigma, n, likVar).v * Square(sigma) == PosteriorVariance(Square(sigma), n, likVar)
  {
    MulNonNeg(n as real, Square(sigma));
  }

  /**
    `current_mus` for one arm: w mu + w (n mean), with the term n mean taken
    as the sum of the rewards, which it equals for n > 0.
   */
  function PosteriorLocation(mu: real, sigma: real, rewards: seq<real>, likVar: real): (loc: Float)
    requires likVar > 0.0
    ensures loc.NaN? <==> sigma == 0.0
  {
    match Weight(sigma, |rewards|, likVar)
    case NaN => NaN
    case Real(w) => Real(w * mu + w * LinAlg.SumSeq(rewards))
  }

  /** With no rewards the location is the prior mean. */
  lemma NoRewardsLocationIsPrior(mu: real, sigma: real, likVar: real)
    requires likVar > 0.0 && sigma != 0.0
    ensures PosteriorLocation(mu, sigma, [], likVar) == Real(mu)
  {
  }

  /**
    The location weights the reward sum by sigma_L^2 where the conjugate
    posterior weights it by sigma^2: it is the conjugate posterior mean plus
    (sigma_L^2 - sigma^2) sum / (n sigma^2 + sigma_L^2).
   */
  lemma LocationGap(mu: real, sigma: real, rewards: seq<real>, likVar: real)
    requires likVar > 0.0 && sigma != 0.0
    ensures PosteriorLocation(mu, sigma, rewards, likVar) ==
            Real(ConjugatePosterior(mu, Square(sigma), |rewards|, LinAlg.SumSeq(rewards), likVar).mu +
                 Gap(Square(sigma), |rewards|, LinAlg.SumSeq(rewards), likVar))
  {
    LocationQuotient(mu, sigma, rewards, likVar);
    ConjugateGap(PosteriorLocation(mu, sigma, rewards, likVar), mu, Square(sigma), |rewards|, LinAlg.SumSeq(rewards), likVar);
  }

  /** (sigma_L^2 - v) sum / (n v + sigma_L^2): how far the location is from the conjugate mean. */
  function Gap(v: real, n: nat, sum: real, likVar: real): real
    requires v >= 0.0 && likVar > 0.0
  {
    MulNonNeg(n as real, v);
    (likVar - v) * sum / (n as real * v + likVar)
  }

  /** The gap identity on atoms: a location written with weight L/d is the conjugate mean plus the gap. */
  lemma ConjugateGap(loc: Float, mu: real, v: real, n: nat, sum: real, likVar: real)
    requires v >= 0.0 && likVar > 0.0
    requires loc == Real((likVar / (n as real * v + likVar)) * mu + (likVar / (n as real * v + likVar)) * sum)
    ensures loc == Real(ConjugatePosterior(mu, v, n, sum, likVar).mu + Gap(v, n, sum, likVar))
  {
    var d := n as real * v + likVar;
    ConjugateMean(mu, v, n, sum, likVar);
    QuotientGap(likVar, v, mu, sum, d, ConjugatePosterior(mu, v, n, sum, likVar).mu);
  }

  lemma LocationQuotient(mu: real, sigma: real, rewards: seq<real>, likVar: real)
    requires likVar > 0.0 && sigma != 0.0
    ensures var d := |rewards| as real * Square(sigma) + likVar;
            PosteriorLocation(mu, sigma, rewards, likVar) ==
            Real((likVar / d) * mu + (likVar / d) * LinAlg.SumSeq(rewards))
  {
  }

  lemma ConjugateMean(mu: real, v: real, n: nat, sum: real, likVar: real)
    requires v >= 0.0 && likVar > 0.0
    ensures n as real * v + likVar > 0.0
    ensures ConjugatePosterior(mu, v, n, sum, likVar).mu == (likVar * mu + v * sum) / (n as real * v + likVar)
  {
    MulNonNeg(n as real, v);
  }

  /** So the location is the mean of the sequential updates when the two variances agree. */
  lemma LocationIsConjugateWhenVariancesMatch(mu: real, sigma: real, rewards: seq<real>, likVar: real)
    requires likVar > 0.0 && sigma != 0.0 && Square(sigma) == likVar
    ensures PosteriorLocation(mu, sigma, rewards, likVar) ==
            Real(FoldNormal(NormalBelief(mu, Square(sigma)), rewards, likVar).mu)
  {
    LocationGap(mu, sigma, rewards, likVar);
    FoldNormalClosedForm(mu, Square(sigma), rewards, likVar);
  }

  /** ... and not otherwise: prior N(0, 2^2), sigma_L = 1, one reward 1. */
  lemma LocationDiffersFromConjugate()
    ensures PosteriorLocation(0.0, 2.0, [1.0], 1.0) == Real(1.0 / 5.0)
    ensures FoldNormal(NormalBelief(0.0, Square(2.0)), [1.0], 1.0).mu == 4.0 / 5.0
  {
    assert LinAlg.SumSeq([1.0]) == 1.0 by {
      assert [1.0][..0] == [];
    }
    FoldNormalClosedForm(0.0, 4.0, [1.0], 1.0);
  }

  /** A draw from N(loc, variance); numpy returns NaN for a NaN location. */
  function DrawAt(loc: Float, variance: real, i: nat, draw: NormalDraw): (s: Float)
    ensures s.NaN? <==> loc.NaN?
    ensures loc.Real? ==> s == Real(draw(loc.v, variance, i))
  {
    match loc
    case NaN => NaN
    case Real(m) => Real(draw(m, variance, i))
  }

  /** The per-arm posterior draws of `mab_normal`. */
  function BatchSamples(mus: seq<real>, sigmas: seq<real>, rewards: seq<seq<real>>, likVar: real,
                        draw: NormalDraw): (s: seq<Float>)
    requires |mus| == |sigmas| == |rewards| && likVar > 0.0
    ensures |s| == |mus|
    ensures forall i :: 0 <= i < |s| ==>
              s[i] == DrawAt(PosteriorLocation(mus[i], sigmas[i], rewards[i], likVar),
                             PosteriorVariance(Square(sigmas[i]), |rewards[i]|, likVar), i, draw)
    ensures forall i :: 0 <= i < |s| ==> (s[i].NaN? <==> sigmas[i] == 0.0)
  {
    seq(|mus|, i requires 0 <= i < |mus| =>
      DrawAt(PosteriorLocation(mus[i], sigmas[i], rewards[i], likVar),
             PosteriorVariance(Square(sigmas[i]), |rewards[i]|, likVar), i, draw))
  }

  /**
    `mab_normal`: a negative sigma gives a negative posterior scale and numpy
    raises ValueError, as does `argmax` of no arms. Otherwise the first NaN
    location (a zero sigma) wins, and without one the first largest draw.
   */
  function MabNormal(mus: seq<real>, sigmas: seq<real>, rewards: seq<seq<real>>, likVar: real,
                     draw: NormalDraw): (r: Result<nat, PyError>)
    requires |mus| == |sigmas| == |rewards| && likVar > 0.0
    ensures r.Ok? <==> |mus| > 0 && AllNonNegative(sigmas)
    ensures r.Err? ==> r.error == ValueError
    ensures r.Ok? ==> r.value < |mus|
    ensures r.Ok? && (exists i :: 0 <= i < |sigmas| && sigmas[i] == 0.0) ==>
              sigmas[r.value] == 0.0 && forall j :: 0 <= j < r.value ==> sigmas[j] != 0.0
    ensures r.Ok? && AllPositive(sigmas) ==>
              IsFirstArgMax(Values(BatchSamples(mus, sigmas, rewards, likVar, draw)), r.value)
  {
    if !AllNonNegative(sigmas) then Err(ValueError)
    else if |mus| == 0 then Err(ValueError)
    else Ok(ArgMaxFloat(BatchSamples(mus, sigmas, rewards, likVar, draw)))
  }

  /** Before any reward arrives the batch chooser samples the priors, like the online one. */
  lemma NoRewardsSamplesPrior(mus: seq<real>, sigmas: seq<real>, rewards: seq<seq<real>>, draw: NormalDraw)
    requires |mus| == |sigmas| == |rewards| > 0
    requires AllPositive(sigmas) && forall i :: 0 <= i < |rewards| ==> rewards[i] == []
    ensures MabNormal(mus, sigmas, rewards, LikelihoodVariance, draw) == SampleNormal(mus, sigmas, draw)
  {
    var s := BatchSamples(mus, sigmas, rewards, LikelihoodVariance, draw);
    forall i | 0 <= i < |s|
      ensures s[i] == Real(NormalSamples(mus, sigmas, draw)[i])
    {
      NoRewardsLocationIsPrior(mus[i], sigmas[i], LikelihoodVariance);
    }
    assert Values(s) == NormalSamples(mus, sigmas, draw);
    FirstArgMaxUnique(Values(s), ArgMaxFloat(s), ArgMax(NormalSamples(mus, sigmas, draw)));
  }

  /** `current_mus` as written: `reward.mean()` of an empty array is NaN, and 0 * NaN is NaN. */
  function PosteriorLocationAsWritten(mu: real, sigma: real, rewards: seq<real>, likVar: real): (loc: Float)
    requires likVar > 0.0
    ensures loc.NaN? <==> sigma == 0.0 || |rewards| == 0
  {
    if |rewards| == 0 then NaN
    else
      var n := |rewards| as real;
      match Weight(sigma, |rewards|, likVar)
      case NaN => NaN
      case Real(w) => Real(w * mu + w * n * (LinAlg.SumSeq(rewards) / n))
  }

  /** Once an arm has a reward the two locations agree. */
  lemma AsWrittenAgreesOnObservedArms(mu: real, sigma: real, rewards: seq<real>, likVar: real)
    requires likVar > 0.0 && |rewards| > 0
    ensures PosteriorLocationAsWritten(mu, sigma, rewards, likVar) == PosteriorLocation(mu, sigma, rewards, likVar)
  {
  }

  function BatchSamplesAsWritten(mus: seq<real>, sigmas: seq<real>, rewards: seq<seq<real>>, likVar: real,
                                 draw: NormalDraw): (s: seq<Float>)
    requires |mus| == |sigmas| == |rewards| && likVar > 0.0
    ensures |s| == |mus|
    ensures forall i :: 0 <= i < |s| ==> (s[i].NaN? <==> sigmas[i] == 0.0 || |rewards[i]| == 0)
  {
    seq(|mus|, i requires 0 <= i < |mus| =>
      DrawAt(PosteriorLocationAsWritten(mus[i], sigmas[i], rewards[i], likVar),
             PosteriorVariance(Square(sigmas[i]), |rewards[i]|, likVar), i, draw))
  }

  /** `mab_normal` exactly as written, NaN locations included. */
  function MabNormalAsWritten(mus: seq<real>, sigmas: seq<real>, rewards: seq<seq<real>>, likVar: real,
                              draw: NormalDraw): (r: Result<nat, PyError>)
    requires |mus| == |sigmas| == |rewards| && likVar > 0.0
    ensures r.Ok? <==> |mus| > 0 && AllNonNegative(sigmas)
    ensures r.Err? ==> r.error == ValueError
    ensures r.Ok? ==> r.value < |mus|
    ensures r.Ok? && (exists i :: 0 <= i < |rewards| && (sigmas[i] == 0.0 || rewards[i] == [])) ==>
              && (sigmas[r.value] == 0.0 || rewards[r.value] == [])
              && forall j :: 0 <= j < r.value ==> sigmas[j] != 0.0 && rewards[j] != []
  {
    if !AllNonNegative(sigmas) then Err(ValueError)
    else if |mus| == 0 then Err(ValueError)
    else Ok(ArgMaxFloat(BatchSamplesAsWritten(mus, sigmas, rewards, likVar, draw)))
  }

  /** Once every arm has a reward, `mab_normal` as written is the corrected chooser. */
  lemma {:induction false} AsWrittenAgreesWhenEveryArmObserved(mus: seq<real>, sigmas: seq<real>, rewards: seq<seq<real>>,
                                                              likVar: real, draw: NormalDraw)
    requires |mus| == |sigmas| == |rewards| && likVar > 0.0
    requires forall i :: 0 <= i < |rewards| ==> rewards[i] != []
    ensures MabNormalAsWritten(mus, sigmas, rewards, likVar, draw) == MabNormal(mus, sigmas, rewards, likVar, draw)
  {
    var w := BatchSamplesAsWritten(mus, sigmas, rewards, likVar, draw);
    var s := BatchSamples(mus, sigmas, rewards, likVar, draw);
    forall i | 0 <= i < |mus|
      ensures w[i] == s[i]
    {
      AsWrittenAgreesOnObservedArms(mus[i], sigmas[i], rewards[i], likVar);
    }
    assert w == s;
  }

  /**
    As written, an arm without rewards is chosen whatever the other arms'
    posteriors: arm 0 has no data and mean 0, arm 1 has mean 10 and one
    reward of 5, and even a draw that returns the location picks arm 0. The
    corrected chooser picks arm 1.
   */
  lemma EmptyRewardsHijackSelection()
    ensures MabNormalAsWritten([0.0, 10.0], [1.0, 1.0], [[], [5.0]], 1.0, (m: real, v: real, i: nat) => m) == Ok(0)
    ensures MabNormal([0.0, 10.0], [1.0, 1.0], [[], [5.0]], 1.0, (m: real, v: real, i: nat) => m) == Ok(1)
  {
    var draw: NormalDraw := (m: real, v: real, i: nat) => m;
    var s := BatchSamples([0.0, 10.0], [1.0, 1.0], [[], [5.0]], 1.0, draw);
    assert LinAlg.SumSeq([5.0]) == 5.0 by {
      assert [5.0][..0] == [];
    }
    assert PosteriorLocation(0.0, 1.0, [], 1.0) == Real(0.0);
    assert Weight(1.0, 1, 1.0) == Real(1.0 / 2.0);
    assert PosteriorLocation(10.0, 1.0, [5.0], 1.0) == Real(15.0 / 2.0);
    assert s == [Real(0.0), Real(15.0 / 2.0)];
    assert Values(s) == [0.0, 15.0 / 2.0];
    assert IsFirstArgMax(Values(s), 1);
    FirstArgMaxUnique(Values(s), 1, ArgMaxFloat(s));
  }

  /** An arm as the batch engine reads it: the stored arm plus its whole history. */
  datatype BatchArm = BatchArm(params: Arm, successes: nat, failures: nat, rewards: seq<real>)

  datatype BatchExperiment = BatchExperiment(prior: ArmPrior, reward: RewardLikelihood, arms: seq<BatchArm>)

  function ParamsOf(arms: seq<BatchArm>): (s: seq<Arm>)
    ensures |s| == |arms| && forall i :: 0 <= i < |arms| ==> s[i] == arms[i].params
  {
    seq(|arms|, i requires 0 <= i < |arms| => arms[i].params)
  }

  function SuccessesOf(arms: seq<BatchArm>): (s: seq<nat>)
    ensures |s| == |arms| && forall i :: 0 <= i < |arms| ==> s[i] == arms[i].successes
  {
    seq(|arms|, i requires 0 <= i < |arms| => arms[i].successes)
  }

  function FailuresOf(arms: seq<BatchArm>): (s: seq<nat>)
    ensures |s| == |arms| && forall i :: 0 <= i < |arms| ==> s[i] == arms[i].failures
  {
    seq(|arms|, i requires 0 <= i < |arms| => arms[i].failures)
  }

  function Histories(arms: seq<BatchArm>): (s: seq<seq<real>>)
    ensures |s| == |arms| && forall i :: 0 <= i < |arms| ==> s[i] == arms[i].rewards
  {
    seq(|arms|, i requires 0 <= i < |arms| => arms[i].rewards)
  }

  /**
    `mab_choose_arm` with the corrected Normal sampler: the Beta-Bernoulli pair
    goes to `MabBetaBinomial` with the stored counts, the Normal-Normal pair to
    `MabNormal` with sigma_L = 1.0, any other pair raises ValueError. A missing
    prior parameter makes numpy's arithmetic on None raise TypeError.
    `MabChooseArmAsWritten` is the same dispatch over `mab_normal` as written.
   */
  function MabChooseArm(e: BatchExperiment, betaDraw: BetaDraw, normalDraw: NormalDraw): (r: Result<nat, PyError>)
    ensures !SupportedMabPair(e.prior, e.reward) ==> r == Err(ValueError)
    ensures r.Ok? ==> r.value < |e.arms|
    ensures e.prior == BetaPrior && e.reward == BernoulliReward ==>
              var alphas := AlphaOf(ParamsOf(e.arms));
              var betas := BetaOf(ParamsOf(e.arms));
              && (!(Present(alphas) && Present(betas)) ==> r == Err(TypeError))
              && (Present(alphas) && Present(betas) ==>
                    r == MabBetaBinomial(Unwrapped(alphas), Unwrapped(betas),
                                         SuccessesOf(e.arms), FailuresOf(e.arms), betaDraw))
    ensures e.prior == NormalPrior && e.reward == NormalReward ==>
              var mus := MuOf(ParamsOf(e.arms));
              var sigmas := SigmaOf(ParamsOf(e.arms));
              && (!(Present(mus) && Present(sigmas)) ==> r == Err(TypeError))
              && (Present(mus) && Present(sigmas) ==>
                    r == MabNormal(Unwrapped(mus), Unwrapped(sigmas), Histories(e.arms), LikelihoodVariance, normalDraw))
  {
    var params := ParamsOf(e.arms);
    if e.prior == BetaPrior && e.reward == BernoulliReward then
      var alphas := AlphaOf(params);
      var betas := BetaOf(params);
      if !(Present(alphas) && Present(betas)) then Err(TypeError)
      else MabBetaBinomial(Unwrapped(alphas), Unwrapped(betas),
                           SuccessesOf(e.arms), FailuresOf(e.arms), betaDraw)
    else if e.prior == NormalPrior && e.reward == NormalReward then
      var mus := MuOf(params);
      var sigmas := SigmaOf(params);
      if !(Present(mus) && Present(sigmas)) then Err(TypeError)
      else MabNormal(Unwrapped(mus), Unwrapped(sigmas), Histories(e.arms), LikelihoodVariance, normalDraw)
    else Err(ValueError)
  }

  /** `mab_choose_arm` exactly as written: the Normal pair goes to `mab_normal` as written. */
  function MabChooseArmAsWritten(e: BatchExperiment, betaDraw: BetaDraw, normalDraw: NormalDraw): (r: Result<nat, PyError>)
    ensures e.prior != NormalPrior || e.reward != NormalReward ==> r == MabChooseArm(e, betaDraw, normalDraw)
    ensures e.prior == NormalPrior && e.reward == NormalReward ==>
              var mus := MuOf(ParamsOf(e.arms));
              var sigmas := SigmaOf(ParamsOf(e.arms));
              && (!(Present(mus) && Present(sigmas)) ==> r == Err(TypeError))
              && (Present(mus) && Present(sigmas) ==>
                    r == MabNormalAsWritten(Unwrapped(mus), Unwrapped(sigmas), Histories(e.arms), LikelihoodVariance, normalDraw))
  {
    if e.prior == NormalPrior && e.reward == NormalReward then
      var params := ParamsOf(e.arms);
      var mus := MuOf(params);
      var sigmas := SigmaOf(params);
      if !(Present(mus) && Present(sigmas)) then Err(TypeError)
      else MabNormalAsWritten(Unwrapped(mus), Unwrapped(sigmas), Histories(e.arms), LikelihoodVariance, normalDraw)
    else MabChooseArm(e, betaDraw, normalDraw)
  }

  /**
    As written, a Normal experiment none of whose arms has a reward yet always
    chooses arm 0, whatever the priors and the draws.
   */
  lemma FreshNormalExperimentPicksFirstArm(e: BatchExperiment, betaDraw: BetaDraw, normalDraw: NormalDraw)
    requires e.prior == NormalPrior && e.reward == NormalReward && |e.arms| > 0
    requires forall i :: 0 <= i < |e.arms| ==> e.arms[i].rewards == []
    requires MabChooseArmAsWritten(e, betaDraw, normalDraw).Ok?
    ensures MabChooseArmAsWritten(e, betaDraw, normalDraw) == Ok(0)
  {
    var params := ParamsOf(e.arms);
    var r := MabChooseArmAsWritten(e, betaDraw, normalDraw);
    assert Present(MuOf(params)) && Present(SigmaOf(params));
    var h := Histories(e.arms);
    assert h[0] == [];
  }
}
