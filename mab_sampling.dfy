/**
  The online non-contextual engine (backend/app/mab/sampling_utils.py):
  Thompson sampling over Beta or Normal beliefs, and the conjugate update of
  one arm after one observed reward. Normal beliefs are carried as
  (mean, variance). For a standard deviation σ ≥ 0, which the schema
  guarantees, σ is the non-negative square root of the variance; a negative σ
  is not recovered, since the source's updated σ then keeps its sign.
 */
module MabSampling {
  import opened Wrappers
  import opened Enums
  import opened Selection
  import opened MabSchemas
  import opened RealArith

  datatype BetaBelief = BetaBelief(alpha: real, beta: real)
  datatype NormalBelief = NormalBelief(mu: real, variance: real)

  /**
    What `update_arm_params` returns for each supported pair. The Beta pair
    returns the arm's two fields, one of them incremented; the other is passed
    through as it was, None included.
   */
  datatype Posterior = BetaPosterior(alpha: Option<real>, beta: Option<real>) | NormalPosterior(n: NormalBelief)

  /** The square of the likelihood standard deviation 1.0 that the dispatchers hard-code. */
  const LikelihoodVariance: real := 1.0

  predicate AllPositive(s: seq<real>) {
    forall i :: 0 <= i < |s| ==> s[i] > 0.0
  }

  predicate AllNonNegative(s: seq<real>) {
    forall i :: 0 <= i < |s| ==> s[i] >= 0.0
  }

  /** One Beta draw per arm, arm `i` from Beta(alphas[i], betas[i]). */
  function BetaSamples(alphas: seq<real>, betas: seq<real>, draw: BetaDraw): (s: seq<real>)
    requires |alphas| == |betas|
    ensures |s| == |alphas| && forall i :: 0 <= i < |s| ==> s[i] == draw(alphas[i], betas[i], i)
  {
    seq(|alphas|, i requires 0 <= i < |alphas| => draw(alphas[i], betas[i], i))
  }

  /** One Normal draw per arm, arm `i` with mean mus[i] and standard deviation sigmas[i]. */
  function NormalSamples(mus: seq<real>, sigmas: seq<real>, draw: NormalDraw): (s: seq<real>)
    requires |mus| == |sigmas|
    ensures |s| == |mus| && forall i :: 0 <= i < |s| ==> s[i] == draw(mus[i], Square(sigmas[i]), i)
  {
    seq(|mus|, i requires 0 <= i < |mus| => draw(mus[i], Square(sigmas[i]), i))
  }

  function Square(x: real): (y: real)
    ensures y == x * x
    ensures y >= 0.0
  {
    x * x
  }

  /**
    `sample_beta_binomial`: numpy refuses a non-positive parameter and `argmax`
    refuses an empty vector (both ValueError); otherwise the chosen arm is the
    first one with the largest draw.
   */
  function SampleBetaBinomial(alphas: seq<real>, betas: seq<real>, draw: BetaDraw): (r: Result<nat, PyError>)
    requires |alphas| == |betas|
    ensures r.Ok? <==> |alphas| > 0 && AllPositive(alphas) && AllPositive(betas)
    ensures r.Err? ==> r.error == ValueError
    ensures r.Ok? ==> r.value < |alphas| && IsFirstArgMax(BetaSamples(alphas, betas, draw), r.value)
  {
    if !(AllPositive(alphas) && AllPositive(betas)) then Err(ValueError)
    else if |alphas| == 0 then Err(ValueError)
    else Ok(ArgMax(BetaSamples(alphas, betas, draw)))
  }

  /** `sample_normal`: numpy refuses a negative scale and accepts a zero one. */
  function SampleNormal(mus: seq<real>, sigmas: seq<real>, draw: NormalDraw): (r: Result<nat, PyError>)
    requires |mus| == |sigmas|
    ensures r.Ok? <==> |mus| > 0 && AllNonNegative(sigmas)
    ensures r.Err? ==> r.error == ValueError
    ensures r.Ok? ==> r.value < |mus| && IsFirstArgMax(NormalSamples(mus, sigmas, draw), r.value)
  {
    if !AllNonNegative(sigmas) then Err(ValueError)
    else if |mus| == 0 then Err(ValueError)
    else Ok(ArgMax(NormalSamples(mus, sigmas, draw)))
  }

  /** `reward == Outcome.SUCCESS`: the integer enumeration compares equal to 1. */
  predicate IsSuccess(reward: real) {
    reward == OutcomeValue(Success) as real
  }

  /**
    `update_arm_beta_binomial`: one observation adds exactly one pseudo-count,
    to alpha on SUCCESS and to beta on any other reward.
   */
  function UpdateArmBetaBinomial(alpha: real, beta: real, reward: real): (r: BetaBelief)
    ensures r.alpha + r.beta == alpha + beta + 1.0
    ensures r.alpha >= alpha && r.beta >= beta
    ensures r.alpha == alpha <==> !IsSuccess(reward)
    ensures r.beta == beta <==> IsSuccess(reward)
  {
    if IsSuccess(reward) then BetaBelief(alpha + 1.0, beta) else BetaBelief(alpha, beta + 1.0)
  }

  /** Applying the update once per reward, in order. */
  function ApplyOutcomes(b: BetaBelief, rewards: seq<real>): BetaBelief
    decreases |rewards|
  {
    if |rewards| == 0 then b
    else ApplyOutcomes(UpdateArmBetaBinomial(b.alpha, b.beta, rewards[0]), rewards[1..])
  }

  function CountSuccesses(rewards: seq<real>): (n: nat)
    ensures n <= |rewards|
  {
    if |rewards| == 0 then 0 else (if IsSuccess(rewards[0]) then 1 else 0) + CountSuccesses(rewards[1..])
  }

  /** n_s successes and n_f failures, applied in sequence, add n_s to alpha and n_f to beta. */
  lemma {:induction false} ApplyOutcomesCounts(b: BetaBelief, rewards: seq<real>)
    ensures ApplyOutcomes(b, rewards) ==
            BetaBelief(b.alpha + CountSuccesses(rewards) as real,
                       b.beta + (|rewards| - CountSuccesses(rewards)) as real)
    decreases |rewards|
  {
    if |rewards| > 0 {
      ApplyOutcomesCounts(UpdateArmBetaBinomial(b.alpha, b.beta, rewards[0]), rewards[1..]);
    }
  }

  lemma {:induction false} CountSuccessesIsMultiplicity(rewards: seq<real>)
    ensures CountSuccesses(rewards) == multiset(rewards)[OutcomeValue(Success) as real]
  {
    if |rewards| > 0 {
      CountSuccessesIsMultiplicity(rewards[1..]);
      assert rewards == [rewards[0]] + rewards[1..];
      assert multiset(rewards) == multiset([rewards[0]]) + multiset(rewards[1..]);
    }
  }

  /** The order in which outcomes arrive does not change the posterior. */
  lemma ApplyOutcomesOrderIndependent(b: BetaBelief, r1: seq<real>, r2: seq<real>)
    requires multiset(r1) == multiset(r2)
    ensures ApplyOutcomes(b, r1) == ApplyOutcomes(b, r2)
  {
    ApplyOutcomesCounts(b, r1);
    ApplyOutcomesCounts(b, r2);
    CountSuccessesIsMultiplicity(r1);
    CountSuccessesIsMultiplicity(r2);
    assert |r1| == |multiset(r1)| == |multiset(r2)| == |r2|;
  }

  /** Positive Beta parameters stay positive under any sequence of updates. */
  lemma ApplyOutcomesKeepsPositive(b: BetaBelief, rewards: seq<real>)
    requires b.alpha > 0.0 && b.beta > 0.0
    ensures ApplyOutcomes(b, rewards).alpha >= b.alpha > 0.0
    ensures ApplyOutcomes(b, rewards).beta >= b.beta > 0.0
  {
    ApplyOutcomesCounts(b, rewards);
  }

  function Min(x: real, y: real): real { if x <= y then x else y }
  function Max(x: real, y: real): real { if x <= y then y else x }

  /**
    `update_arm_normal` in variance form: with likelihood variance L and prior
    variance v the new mean is (mu L + r v) / (L + v) and the new variance is
    L v / (L + v). Its contract states the result as the precision-weighted
    combination of prior and observation; the lemmas below derive what that
    means.
   */
  function UpdateArmNormal(mu: real, variance: real, reward: real, likVar: real): (r: NormalBelief)
    requires variance >= 0.0 && likVar >= 0.0 && variance + likVar > 0.0
    ensures r.mu * (variance + likVar) == mu * likVar + reward * variance
    ensures r.variance * (variance + likVar) == variance * likVar
    ensures r.variance >= 0.0
  {
    var denom := likVar + variance;
    MulNonNeg(likVar, variance);
    NormalBelief((mu * likVar + reward * variance) / denom, likVar * variance / denom)
  }

  /** The new mean lies between the prior mean and the observed reward. */
  lemma NormalUpdateMovesTowardsReward(mu: real, variance: real, reward: real, likVar: real)
    requires variance >= 0.0 && likVar >= 0.0 && variance + likVar > 0.0
    ensures Min(mu, reward) <= UpdateArmNormal(mu, variance, reward, likVar).mu <= Max(mu, reward)
  {
    var m := UpdateArmNormal(mu, variance, reward, likVar).mu;
    WeightedBetween(Min(mu, reward), Max(mu, reward), mu, reward, likVar, variance, m);
  }

  /** The new variance is at most either variance, strictly when both are positive. */
  lemma NormalUpdateShrinksVariance(mu: real, variance: real, reward: real, likVar: real)
    requires variance >= 0.0 && likVar >= 0.0 && variance + likVar > 0.0
    ensures var r := UpdateArmNormal(mu, variance, reward, likVar);
            && r.variance <= variance && r.variance <= likVar
            && (variance > 0.0 && likVar > 0.0 ==> r.variance < variance && r.variance < likVar)
  {
    HarmonicShrinks(UpdateArmNormal(mu, variance, reward, likVar).variance, variance, likVar);
  }

  /** Precision form: the observation adds 1 / L to the precision. */
  lemma NormalUpdatePrecision(mu: real, variance: real, reward: real, likVar: real)
    requires variance > 0.0 && likVar > 0.0
    ensures var r := UpdateArmNormal(mu, variance, reward, likVar);
            r.variance > 0.0 && 1.0 / r.variance == 1.0 / variance + 1.0 / likVar
  {
    var pv := UpdateArmNormal(mu, variance, reward, likVar).variance;
    assert pv * (1.0 * variance + likVar) == variance * likVar;
    PrecisionsAdd(pv, variance, 1.0, likVar);
  }

  /**
    A noiseless observation (L == 0) pins the belief to the reward; a
    point-mass prior (v == 0) ignores the observation.
   */
  lemma NormalUpdateDegenerate(mu: real, variance: real, reward: real, likVar: real)
    requires variance >= 0.0 && likVar >= 0.0 && variance + likVar > 0.0
    ensures likVar == 0.0 ==> UpdateArmNormal(mu, variance, reward, likVar) == NormalBelief(reward, 0.0)
    ensures variance == 0.0 ==> UpdateArmNormal(mu, variance, reward, likVar) == NormalBelief(mu, 0.0)
  {
    var r := UpdateArmNormal(mu, variance, reward, likVar);
    if likVar == 0.0 {
      Cancel(variance, r.mu, reward);
      Cancel(variance, r.variance, 0.0);
    }
    if variance == 0.0 {
      Cancel(likVar, r.mu, mu);
      Cancel(likVar, r.variance, 0.0);
    }
  }

  function AlphaOf(arms: seq<Arm>): (s: seq<Option<real>>)
    ensures |s| == |arms| && forall i :: 0 <= i < |arms| ==> s[i] == arms[i].alpha
  {
    seq(|arms|, i requires 0 <= i < |arms| => arms[i].alpha)
  }

  function BetaOf(arms: seq<Arm>): (s: seq<Option<real>>)
    ensures |s| == |arms| && forall i :: 0 <= i < |arms| ==> s[i] == arms[i].beta
  {
    seq(|arms|, i requires 0 <= i < |arms| => arms[i].beta)
  }

  function MuOf(arms: seq<Arm>): (s: seq<Option<real>>)
    ensures |s| == |arms| && forall i :: 0 <= i < |arms| ==> s[i] == arms[i].mu
  {
    seq(|arms|, i requires 0 <= i < |arms| => arms[i].mu)
  }

  function SigmaOf(arms: seq<Arm>): (s: seq<Option<real>>)
    ensures |s| == |arms| && forall i :: 0 <= i < |arms| ==> s[i] == arms[i].sigma
  {
    seq(|arms|, i requires 0 <= i < |arms| => arms[i].sigma)
  }

  predicate Present(xs: seq<Option<real>>) {
    forall i :: 0 <= i < |xs| ==> xs[i].Some?
  }

  function Unwrapped(xs: seq<Option<real>>): (s: seq<real>)
    requires Present(xs)
    ensures |s| == |xs| && forall i :: 0 <= i < |xs| ==> xs[i] == Some(s[i])
  {
    seq(|xs|, i requires 0 <= i < |xs| => xs[i].value)
  }

  /** The arrays the Beta branch hands to numpy; a None makes numpy raise TypeError. */
  predicate BetaParamsPresent(arms: seq<Arm>) {
    Present(AlphaOf(arms)) && Present(BetaOf(arms))
  }

  predicate NormalParamsPresent(arms: seq<Arm>) {
    Present(MuOf(arms)) && Present(SigmaOf(arms))
  }

  /**
    `choose_arm`: Beta-Bernoulli and Normal-Normal experiments are sampled
    over their arms' parameters; every other pair raises ValueError.
   */
  function ChooseArm(e: MabExperiment, betaDraw: BetaDraw, normalDraw: NormalDraw): (r: Result<nat, PyError>)
    ensures !SupportedMabPair(e.prior, e.reward) ==> r == Err(ValueError)
    ensures r.Ok? ==> r.value < |e.arms|
    ensures e.prior == BetaPrior && e.reward == BernoulliReward ==>
              && (!BetaParamsPresent(e.arms) ==> r == Err(TypeError))
              && (BetaParamsPresent(e.arms) ==>
                    (r.Ok? <==> |e.arms| > 0 && AllPositive(Unwrapped(AlphaOf(e.arms))) && AllPositive(Unwrapped(BetaOf(e.arms)))))
              && (r.Ok? ==>
                    && BetaParamsPresent(e.arms)
                    && IsFirstArgMax(BetaSamples(Unwrapped(AlphaOf(e.arms)), Unwrapped(BetaOf(e.arms)), betaDraw), r.value))
    ensures e.prior == NormalPrior && e.reward == NormalReward ==>
              && (!NormalParamsPresent(e.arms) ==> r == Err(TypeError))
              && (NormalParamsPresent(e.arms) ==>
                    (r.Ok? <==> |e.arms| > 0 && AllNonNegative(Unwrapped(SigmaOf(e.arms)))))
              && (r.Ok? ==>
                    && NormalParamsPresent(e.arms)
                    && IsFirstArgMax(NormalSamples(Unwrapped(MuOf(e.arms)), Unwrapped(SigmaOf(e.arms)), normalDraw), r.value))
  {
    if e.prior == BetaPrior && e.reward == BernoulliReward then
      if !BetaParamsPresent(e.arms) then Err(TypeError)
      else SampleBetaBinomial(Unwrapped(AlphaOf(e.arms)), Unwrapped(BetaOf(e.arms)), betaDraw)
    else if e.prior == NormalPrior && e.reward == NormalReward then
      if !NormalParamsPresent(e.arms) then Err(TypeError)
      else SampleNormal(Unwrapped(MuOf(e.arms)), Unwrapped(SigmaOf(e.arms)), normalDraw)
    else Err(ValueError)
  }

  /**
    `update_arm_params`: the Beta-Bernoulli pair adds the outcome to the arm's
    counts, the Normal-Normal pair applies the Normal update with likelihood
    standard deviation 1.0, and every other pair raises ValueError. Arithmetic
    on a missing parameter raises TypeError; the Beta step only computes with
    the field the outcome increments, so only that one must be present.
   */
  function UpdateArmParams(arm: Arm, prior: ArmPrior, rewardType: RewardLikelihood, reward: real): (r: Result<Posterior, PyError>)
    ensures !SupportedMabPair(prior, rewardType) ==> r == Err(ValueError)
    ensures prior == BetaPrior && rewardType == BernoulliReward ==>
              && (r.Ok? <==> if IsSuccess(reward) then arm.alpha.Some? else arm.beta.Some?)
              && (r.Err? ==> r.error == TypeError)
              && (r.Ok? && IsSuccess(reward) ==> r.value == BetaPosterior(Some(arm.alpha.value + 1.0), arm.beta))
              && (r.Ok? && !IsSuccess(reward) ==> r.value == BetaPosterior(arm.alpha, Some(arm.beta.value + 1.0)))
              && (arm.alpha.Some? && arm.beta.Some? ==>
                    var b := UpdateArmBetaBinomial(arm.alpha.value, arm.beta.value, reward);
                    r == Ok(BetaPosterior(Some(b.alpha), Some(b.beta))))
    ensures prior == NormalPrior && rewardType == NormalReward ==>
              && (r.Ok? <==> arm.mu.Some? && arm.sigma.Some?)
              && (r.Err? ==> r.error == TypeError)
              && (r.Ok? ==> r.value == NormalPosterior(UpdateArmNormal(arm.mu.value, arm.sigma.value * arm.sigma.value, reward, 1.0)))
  {
    if prior == BetaPrior && rewardType == BernoulliReward then
      if IsSuccess(reward) then
        if arm.alpha.None? then Err(TypeError) else Ok(BetaPosterior(Some(arm.alpha.value + 1.0), arm.beta))
      else
        if arm.beta.None? then Err(TypeError) else Ok(BetaPosterior(arm.alpha, Some(arm.beta.value + 1.0)))
    else if prior == NormalPrior && rewardType == NormalReward then
      if arm.mu.None? || arm.sigma.None? then Err(TypeError)
      else Ok(NormalPosterior(UpdateArmNormal(arm.mu.value, arm.sigma.value * arm.sigma.value, reward, LikelihoodVariance)))
    else Err(ValueError)
  }

  /**
    A half-filled Beta arm: with alpha None and beta 2.0 a failure gives
    (None, 3.0), while a success raises TypeError.
   */
  lemma HalfFilledBetaArm()
    ensures UpdateArmParams(Arm("a", "", None, Some(2.0), None, None), BetaPrior, BernoulliReward, 0.0) ==
            Ok(BetaPosterior(None, Some(3.0)))
    ensures UpdateArmParams(Arm("a", "", None, Some(2.0), None, None), BetaPrior, BernoulliReward, 1.0) ==
            Err(TypeError)
  {
  }

  /** The parameters the schema guarantees for an accepted arm. */
  predicate UsableArm(prior: ArmPrior, arm: Arm) {
    match prior
    case BetaPrior => arm.alpha.Some? && arm.alpha.value > 0.0 && arm.beta.Some? && arm.beta.value > 0.0
    case NormalPrior => arm.mu.Some? && arm.sigma.Some? && arm.sigma.value > 0.0
  }

  /** An experiment the schema accepted can always be sampled once it has an arm. */
  lemma ValidatedExperimentSamples(v: RawMab, betaDraw: BetaDraw, normalDraw: NormalDraw)
    requires ValidateMab(v).Ok?
    ensures ChooseArm(ValidateMab(v).value, betaDraw, normalDraw).Ok? <==> |ValidateMab(v).value.arms| > 0
  {
    var e := ValidateMab(v).value;
    forall i | 0 <= i < |e.arms|
      ensures UsableArm(e.prior, e.arms[i])
    {
      AcceptedArmsUsable(v, i);
    }
    ValidateMabCorrect(v);
  }

  /**
    An arm the schema accepted can always be updated, and the update keeps it
    acceptable: Beta parameters stay positive, the Normal variance stays positive.
   */
  lemma ValidatedArmUpdates(v: RawMab, i: nat, reward: real)
    requires ValidateMab(v).Ok? && i < |ValidateMab(v).value.arms|
    ensures var e := ValidateMab(v).value;
            var r := UpdateArmParams(e.arms[i], e.prior, e.reward, reward);
            && r.Ok?
            && (r.value.BetaPosterior? ==>
                  r.value.alpha.Some? && r.value.alpha.value > 0.0 && r.value.beta.Some? && r.value.beta.value > 0.0)
            && (r.value.NormalPosterior? ==> r.value.n.variance > 0.0)
  {
    AcceptedArmsUsable(v, i);
    ValidateMabCorrect(v);
    var e := ValidateMab(v).value;
    if e.prior == NormalPrior {
      var s := e.arms[i].sigma.value;
      ProductPos(s, s, s * s);
      NormalUpdatePrecision(e.arms[i].mu.value, s * s, reward, LikelihoodVariance);
    }
  }
}
