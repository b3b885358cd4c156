# Bandit decision engine — a Dafny model

This project models the decision engine of an experimentation backend.
It covers Thompson-sampling arm selection for multi-armed and contextual bandits, the rules that turn an observed reward into a new posterior, and the validators that decide which experiment definitions are accepted.

- **Enumerations** (`Enums`): outcomes, priors, reward likelihoods and context types, with their wire encodings, the link functions, and the allowed (prior, reward) pairs.
- **Online non-contextual engine** (`MabSampling`): Beta and Normal samplers, the Beta-Binomial and Normal-Normal update steps, and `choose_arm` / `update_arm_params` dispatch.
- **Batch revision** (`ThompsonSampling`): rebuilds each arm's posterior from success/failure counts or reward lists, then samples.
- **Minimal chooser** (`TsSampling`): the stand-alone Beta-Binomial chooser.
- **Contextual engine**:
  - `ContextualSampling`: the linked argmax over one multivariate draw per arm, and the Bayesian linear-regression update of (mean vector, covariance).
  - `ContextualModels`: the initial mean vector and covariance of every stored arm.
- **Validators** (`MabSchemas`, `ContextualSchemas`): name and description lengths, parameter positivity, allowed pairs, required prior parameters, at least two contextual arms, the Normal prior for contextual experiments, and the field defaults.

Shared modules:
- `Wrappers`: `Option`, `Result`, and `OrElse` for field defaults.
- `Selection`: first-maximum argmax, numpy's NaN-aware argmax, the injected draw functions, and the Python exception kinds the engine raises.
- `LinAlg`: vectors and matrices over `real`, products, transpose, identity, and the contract of a matrix inverse.
- `RealArith`: ordered-field facts the proofs use.

Modelling choices:
- **Random draws are parameters.**
  - A `BetaDraw` or `NormalDraw` maps an arm's parameters and index to its sample.
  - An `MvnDraw` returns a vector as long as the mean.
  - Selection is then deterministic: numpy's `argmax` is the first index of a maximum.
- **Reals, not floats.**
  - Normal beliefs are carried as (mean, variance), because `real` has no square root. `draw(mu, sigma^2, i)` stands for `normal(mu, sigma)`.
  - NaN, which the batch revision can produce, is the `Float.NaN` value.
- **Matrix inverse.** `np.linalg.inv` is a parameter `inv: Inverter`.
  - Whenever it returns a matrix, that matrix is a two-sided inverse.
  - `None` stands for `LinAlgError`.
- **Link functions.** The link enumeration the contextual sampler imports is commented out in the source, and its commented members have string values, so `link_function.value(samples @ context)` would call a string. The model reads NONE as the identity and LOGISTIC as the logistic function, which is what the choice between them in `choose_arm` intends.
- **Allowed (prior, reward) pairs.** `mab/schemas.py` imports `allowed_combos_mab`, but `exp_engine/schemas.py` does not define it. `Enums.AllowedCombosMab` is therefore reconstructed: it holds the string pairs that the samplers and updates dispatch on, (beta, binary) and (normal, real-valued), which are also the pairs the example payloads use.
- **Enum members and their strings.** `update_arm_params` compares the prior and reward with `ArmPriors.BETA.value` and the other string values, while `choose_arm` compares them with the enum members. The model has a single typed `ArmPrior`/`RewardLikelihood` argument. In `MabSampling.UpdateArmParams` it stands for the stored string whose `PriorValue`/`RewardValue` it is. In `MabSampling.ChooseArm` it stands for the member. The two readings agree whenever the stored value is one of the enumerations' strings.
- **Errors.** Failures are values: the exception kind (`ValueError`, `TypeError`, `NotImplementedError`, `LinAlgError`), or a validation reason for the schemas.

Where the code departs from the textbook rules, the model follows the code:
- **Contextual precision update.** Bayesian linear regression adds the outer product x xᵀ/σ_L² to the precision. The code adds the scalar ‖x‖²/σ_L² to every entry instead (`context.T @ context` on a 1-D array). `ContextualSampling.BroadcastDiffersFromOuterProduct` exhibits the difference, and `ContextualSampling.ScalarUpdateAgreesWithOnline` shows the two coincide in one dimension.
- **Minimum arm count.** Only the contextual schema requires at least two arms; the non-contextual schema has no such check, so `MabSchemas` does not impose one.
- **Contextual Bernoulli rewards.** The code has no update for them (such as a Laplace approximation): it raises `NotImplementedError` in `choose_arm` and performs no update in `update_arm_params`.
- **Batch posterior mean.** It weights the reward sum by 1/σ² where the conjugate rule uses 1/σ_L². The model keeps that weighting. `ThompsonSampling.LocationGap` states the exact difference from the conjugate posterior, and `ThompsonSampling.LocationIsConjugateWhenVariancesMatch` states when the two agree.

## Model

| member | source | states |
|---|---|---|
| Enums.OutcomeValue | backend/app/exp_engine/schemas.py:4-10 | an outcome encodes 0 or 1, and 1 exactly for SUCCESS |
| Enums.ParseOutcome | backend/app/exp_engine/schemas.py:4-10 | only 0 and 1 are outcomes, and parsing inverts the encoding |
| Enums.PriorValue | backend/app/exp_engine/schemas.py:13-19 | a prior encodes "beta" or "normal" |
| Enums.ParsePrior | backend/app/exp_engine/schemas.py:13-19 | exactly "beta" and "normal" parse, each back to a prior with that value |
| Enums.RewardValue | backend/app/exp_engine/schemas.py:22-28 | a reward likelihood encodes "binary" or "real-valued" |
| Enums.ParseReward | backend/app/exp_engine/schemas.py:22-28 | exactly "binary" and "real-valued" parse, each back to a likelihood with that value |
| Enums.ContextTypeValue | backend/tests/test_cmabs.py:39-44 | a context type encodes "binary" or "real-valued" |
| Enums.ParseContextType | backend/tests/test_cmabs.py:39-44 | exactly "binary" and "real-valued" parse, each back to a context type with that value |
| Enums.EncodingsRoundTrip | backend/app/exp_engine/schemas.py:4-28 | parsing a member's encoding gives back that member, for every enumeration |
| Enums.EncodingsInjective | backend/app/exp_engine/schemas.py:13-28 | distinct priors, and distinct likelihoods, have distinct encodings |
| Enums.AllowedCombosMatchSupported | backend/app/mab/sampling_utils.py:81-97 | the allowed pairs of the non-contextual schema, reconstructed because their definition is missing, are exactly the pairs the samplers dispatch: (beta, binary) and (normal, real-valued) |
| Enums.UnknownNamesRejected | backend/tests/test_mabs.py:91-105 | "invalid" is neither a prior nor a likelihood, and "continuous" is not a likelihood |
| Selection.ArgMax | backend/app/mab/sampling_utils.py:17-18 | the index returned is in range, holds a maximum, and no earlier entry reaches that maximum |
| Selection.FirstArgMaxUnique | backend/app/mab/sampling_utils.py:17-18 | the first maximum is unique, so every argmax agreeing with it picks the same arm |
| Selection.ArgMaxUnderIncreasingLink | backend/app/contextual_mab/sampling_utils.py:29-30 | a strictly increasing link leaves the argmax unchanged |
| Selection.ArgMaxFloat | backend/app/exp_engine/thompson_sampling.py:46-47 | numpy's argmax returns the first NaN when there is one, otherwise the first maximum |
| LinAlg.AddScalar | backend/app/contextual_mab/sampling_utils.py:51-53 | adding a scalar to a matrix adds it to every entry and keeps the shape |
| MabSampling.BetaSamples | backend/app/mab/sampling_utils.py:17 | one Beta draw per arm, from that arm's own (alpha, beta) |
| MabSampling.NormalSamples | backend/app/mab/sampling_utils.py:30 | one Normal draw per arm, from that arm's mean and squared sigma |
| MabSampling.SampleBetaBinomial | backend/app/mab/sampling_utils.py:8-18 | succeeds iff there is an arm and all parameters are positive (else ValueError); the result is the first maximal draw |
| MabSampling.SampleNormal | backend/app/mab/sampling_utils.py:21-31 | succeeds iff there is an arm and no sigma is negative (else ValueError); the result is the first maximal draw |
| MabSampling.UpdateArmBetaBinomial | backend/app/mab/sampling_utils.py:34-50 | exactly one pseudo-count is added: to alpha iff the reward is SUCCESS, to beta otherwise |
| MabSampling.ApplyOutcomesCounts | backend/app/mab/sampling_utils.py:34-50 | n_s successes and n_f other rewards in any sequence give (alpha + n_s, beta + n_f) |
| MabSampling.CountSuccessesIsMultiplicity | backend/app/mab/sampling_utils.py:47-50 | the successes counted are the multiplicity of the SUCCESS value among the rewards |
| MabSampling.ApplyOutcomesOrderIndependent | backend/app/mab/sampling_utils.py:34-50 | reordering the observed rewards gives the same belief |
| MabSampling.ApplyOutcomesKeepsPositive | backend/app/mab/sampling_utils.py:34-50 | positive alpha and beta stay positive and never decrease |
| MabSampling.UpdateArmNormal | backend/app/mab/sampling_utils.py:53-69 | new mean × (σ² + σ_L²) = μσ_L² + rσ², and new variance × (σ² + σ_L²) = σ²σ_L² |
| MabSampling.NormalUpdateMovesTowardsReward | backend/app/mab/sampling_utils.py:66-68 | the new mean lies between the prior mean and the reward |
| MabSampling.NormalUpdateShrinksVariance | backend/app/mab/sampling_utils.py:66-67 | the new variance is at most both σ² and σ_L², and strictly below both when both are positive |
| MabSampling.NormalUpdatePrecision | backend/app/mab/sampling_utils.py:66-67 | precisions add: 1/σ'² = 1/σ² + 1/σ_L² |
| MabSampling.NormalUpdateDegenerate | backend/app/mab/sampling_utils.py:66-68 | with σ_L = 0 the belief collapses onto the reward, and with σ = 0 onto the prior mean |
| MabSampling.ChooseArm | backend/app/mab/sampling_utils.py:72-97 | unsupported pairs raise ValueError; a missing parameter is a TypeError; otherwise the supported sampler's outcome over the arms' parameters |
| MabSampling.UpdateArmParams | backend/app/mab/sampling_utils.py:34-130 | unsupported pairs raise ValueError; the Beta-Bernoulli step increments alpha on success and beta otherwise, raises TypeError iff that field is None and passes the other field through as it is; a complete Beta arm gets the `update_arm_beta_binomial` step; the Normal step with σ_L = 1.0 needs both mu and sigma |
| MabSampling.HalfFilledBetaArm | backend/app/mab/sampling_utils.py:47-50 | an arm with alpha None and beta 2.0 updates to (None, 3.0) on a failure and raises TypeError on a success |
| MabSampling.ValidatedExperimentSamples | backend/app/mab/sampling_utils.py:81-95 | an experiment the schema accepted can be sampled iff it has an arm |
| MabSampling.ValidatedArmUpdates | backend/app/mab/sampling_utils.py:116-128 | every arm of an accepted experiment can be updated, and the result keeps positive parameters |
| ThompsonSampling.EffectiveParams | backend/app/exp_engine/thompson_sampling.py:21 | arm i's parameter is its prior plus its count, elementwise |
| ThompsonSampling.MabBetaBinomial | backend/app/exp_engine/thompson_sampling.py:8-22 | succeeds iff there is an arm and every effective parameter is positive (else ValueError); the first maximal draw from Beta(α_i+s_i, β_i+f_i) |
| ThompsonSampling.PositivePriorsSample | backend/app/exp_engine/thompson_sampling.py:21-22 | positive priors can always be sampled, whatever the counts |
| ThompsonSampling.BatchBetaMatchesOnline | backend/app/exp_engine/thompson_sampling.py:21-22 | sampling from counts equals sampling after the rewards were applied one by one with the online Beta-Binomial step |
| ThompsonSampling.PosteriorVariance | backend/app/exp_engine/thompson_sampling.py:38-41 | the posterior variance lies in [0, σ²] and equals σ² with no rewards |
| ThompsonSampling.PosteriorVarianceBounds | backend/app/exp_engine/thompson_sampling.py:39-41 | the written quotient σ²σ_L²/(nσ² + σ_L²) lies in [0, σ²] and is σ² for n = 0 |
| ThompsonSampling.PosteriorVarianceProduct | backend/app/exp_engine/thompson_sampling.py:39-41 | posterior variance × (nσ² + σ_L²) = σ²σ_L² |
| ThompsonSampling.PosteriorPrecision | backend/app/exp_engine/thompson_sampling.py:39-41 | 1/σ'² = 1/σ² + n/σ_L² |
| ThompsonSampling.PosteriorVarianceNonIncreasing | backend/app/exp_engine/thompson_sampling.py:38-41 | more rewards never increase the posterior variance |
| ThompsonSampling.FoldNormal | backend/app/mab/sampling_utils.py:66-68 | repeated online Normal steps keep a non-negative variance |
| ThompsonSampling.OneMoreObservation | backend/app/mab/sampling_utils.py:66-68 | one online step takes the closed form for k rewards to the closed form for k+1 |
| ThompsonSampling.FoldNormalProducts | backend/app/mab/sampling_utils.py:66-68 | after n online steps, variance × (nσ² + σ_L²) = σ²σ_L² and mean × (nσ² + σ_L²) = σ_L²μ + σ²Σr |
| ThompsonSampling.ClosedFormQuotients | backend/app/mab/sampling_utils.py:66-68 | a belief in that closed form is the conjugate posterior |
| ThompsonSampling.FoldNormalClosedForm | backend/app/exp_engine/thompson_sampling.py:39-41 | n online steps reach the conjugate posterior ((σ_L²μ + σ²Σr)/(nσ² + σ_L²), the batch variance) |
| ThompsonSampling.Weight | backend/app/exp_engine/thompson_sampling.py:42-43 | (σ'/σ)² is NaN iff σ = 0, otherwise in (0, 1], and 1 with no rewards |
| ThompsonSampling.WeightIsVarianceRatio | backend/app/exp_engine/thompson_sampling.py:39-43 | the weight times σ² is the posterior variance |
| ThompsonSampling.PosteriorLocation | backend/app/exp_engine/thompson_sampling.py:42-44 | the sampled mean is NaN iff σ = 0 |
| ThompsonSampling.NoRewardsLocationIsPrior | backend/app/exp_engine/thompson_sampling.py:42-44 | with no rewards the sampled mean is the prior mean |
| ThompsonSampling.LocationQuotient | backend/app/exp_engine/thompson_sampling.py:42-44 | the sampled mean is (σ_L²/d)μ + (σ_L²/d)Σr with d = nσ² + σ_L² |
| ThompsonSampling.ConjugateMean | backend/app/exp_engine/thompson_sampling.py:39-41 | the conjugate mean is (σ_L²μ + σ²Σr)/d with d > 0 |
| ThompsonSampling.LocationGap | backend/app/exp_engine/thompson_sampling.py:42-44 | the sampled mean is the conjugate mean plus (σ_L² − σ²)Σr/d |
| ThompsonSampling.LocationIsConjugateWhenVariancesMatch | backend/app/exp_engine/thompson_sampling.py:42-44 | when σ² = σ_L² the sampled mean is the online posterior mean |
| ThompsonSampling.LocationDiffersFromConjugate | backend/app/exp_engine/thompson_sampling.py:42-44 | with μ = 0, σ = 2, σ_L = 1 and one reward 1, the batch mean is 1/5 and the online mean 4/5 |
| ThompsonSampling.DrawAt | backend/app/exp_engine/thompson_sampling.py:46 | a NaN location gives a NaN draw; otherwise the injected draw at that location |
| ThompsonSampling.BatchSamples | backend/app/exp_engine/thompson_sampling.py:38-46 | arm i is drawn at its batch location with its posterior variance, and is NaN iff σ_i = 0 |
| ThompsonSampling.MabNormal | backend/app/exp_engine/thompson_sampling.py:25-47 | succeeds iff there is an arm and no sigma is negative; a zero sigma wins by NaN, else the first maximal draw |
| ThompsonSampling.NoRewardsSamplesPrior | backend/app/exp_engine/thompson_sampling.py:25-47 | with no rewards at all the batch sampler is the online prior sampler |
| ThompsonSampling.PosteriorLocationAsWritten | backend/app/exp_engine/thompson_sampling.py:42-44 | with `mean()` of an empty list the location is NaN iff σ = 0 or there are no rewards |
| ThompsonSampling.AsWrittenAgreesOnObservedArms | backend/app/exp_engine/thompson_sampling.py:44 | on an arm with rewards the as-written location equals the summed one |
| ThompsonSampling.BatchSamplesAsWritten | backend/app/exp_engine/thompson_sampling.py:38-46 | as written, arm i's draw is NaN iff σ_i = 0 or it has no rewards |
| ThompsonSampling.MabNormalAsWritten | backend/app/exp_engine/thompson_sampling.py:25-47 | as written: ValueError iff no arm or a negative sigma; the first arm with no rewards or a zero sigma wins whenever one exists |
| ThompsonSampling.AsWrittenAgreesWhenEveryArmObserved | backend/app/exp_engine/thompson_sampling.py:25-47 | once every arm has at least one reward, `mab_normal` as written chooses exactly as the corrected chooser |
| ThompsonSampling.EmptyRewardsHijackSelection | backend/app/exp_engine/thompson_sampling.py:44-47 | with means 0 and 10, the first arm unobserved: as written arm 0 wins, corrected arm 1 |
| ThompsonSampling.MabChooseArm | backend/app/exp_engine/thompson_sampling.py:50-80 | the dispatch with the corrected Normal sampler: unsupported pairs raise ValueError; missing parameters a TypeError; otherwise the batch Beta sampler over counts, or the corrected batch Normal sampler with σ_L = 1.0 |
| ThompsonSampling.MabChooseArmAsWritten | backend/app/exp_engine/thompson_sampling.py:50-80 | the dispatch as written: the same as the corrected one except that the Normal pair goes to `mab_normal` as written |
| ThompsonSampling.FreshNormalExperimentPicksFirstArm | backend/app/exp_engine/thompson_sampling.py:74-78 | as written, a Normal experiment whose arms have no rewards yet chooses arm 0 whenever it chooses at all |
| TsSampling.TsSamples | backend/app/exp_engine_utils/sampling.py:16-18 | arm i is drawn from Beta(α_i + s_i, β_i + f_i) |
| TsSampling.TsBetaBinomial | backend/app/exp_engine_utils/sampling.py:5-19 | succeeds iff there is an arm and every effective parameter is positive (else ValueError); the index is in range, maximal, and strictly above every earlier draw |
| TsSampling.TsAgreesWithBatch | backend/app/exp_engine_utils/sampling.py:16-19 | this chooser and the batch Beta-Binomial chooser agree on every input |
| TsSampling.NoCountsSamplePriors | backend/app/exp_engine_utils/sampling.py:16-18 | with zero counts the priors alone are sampled |
| MabSchemas.CheckValues | backend/app/mab/schemas.py:34-48 | accepts iff every present alpha, beta and sigma is positive, reporting alpha, then beta, then sigma |
| MabSchemas.MuUnconstrained | backend/app/mab/schemas.py:39-48 | mu never decides whether an arm passes |
| MabSchemas.MissingParams | backend/app/mab/schemas.py:123-129 | a parameter is reported iff it is required and absent or null |
| MabSchemas.FirstIncompleteArm | backend/app/mab/schemas.py:121-133 | the first arm lacking a required parameter, or none iff every arm has them all |
| MabSchemas.FirstIncompleteArmAt | backend/app/mab/schemas.py:121-133 | an incomplete arm preceded only by complete ones is the one reported |
| MabSchemas.PreValidate | backend/app/mab/schemas.py:98-135 | a body passes unchanged iff it has arms, an allowed pair and no arm missing a parameter of its prior; no arms gives the at-least-one-arm error, a disallowed pair the combination error naming both values, and otherwise the error lists the parameters the first incomplete arm lacks |
| MabSchemas.CollectMissingParams | backend/app/mab/schemas.py:123-129 | the inner loop collects exactly the arm's missing parameters, in order |
| MabSchemas.CheckArmAndExperimentRewardType | backend/app/mab/schemas.py:98-135 | the loop over arms and parameters decides exactly as the model-level check |
| MabSchemas.ToArm | backend/app/mab/schemas.py:14-31 | an arm keeps its name and description, and a parameter is None exactly when the model-level check counts it missing, else it is the given value |
| MabSchemas.ParseArm | backend/app/mab/schemas.py:14-48 | an arm parses iff its name and description fit 150 and 500 characters and it passes `check_values`; a name or description that is too long is the error |
| MabSchemas.CheckAllArms | backend/app/mab/schemas.py:14-48 | all arms parse iff every arm parses, and they keep their order and values; otherwise the error is that of the first arm that fails |
| MabSchemas.MissingParamsNames | backend/app/mab/schemas.py:110-129 | no parameter is missing iff the arm carries both parameters of its prior |
| MabSchemas.ValidateMab | backend/app/mab/schemas.py:61-135 | the model-level check runs first and its error stands; then an experiment name or description over its length limit is the error; an accepted body is active unless it says otherwise |
| MabSchemas.ValidateMabCorrect | backend/app/mab/schemas.py:14-135 | a body is accepted iff it has arms, an allowed pair, an experiment name and description within their limits, and every arm has a name and description within the limits, carries its prior's parameters and passes `check_values`; the result keeps names, pair and arms |
| MabSchemas.AcceptedArmsUsable | backend/app/mab/schemas.py:110-133 | every arm of an accepted experiment has its prior's parameters, with alpha, beta or sigma positive |
| MabSchemas.NoArmsRejected | backend/app/mab/schemas.py:105-108 | a body without `arms` is rejected |
| MabSchemas.DefaultsNeverReachTheCheck | backend/app/mab/schemas.py:103-119 | an omitted prior or reward is not defaulted before the check, so the body is rejected |
| ContextualSchemas.CheckValues | backend/app/contextual_mab/schemas.py:79-87 | an arm passes iff sigma_init > 0 |
| ContextualSchemas.ArmsAtLeastTwo | backend/app/contextual_mab/schemas.py:144-151 | an experiment passes iff it has at least two arms |
| ContextualSchemas.CheckPriorType | backend/app/contextual_mab/schemas.py:153-162 | an experiment passes iff its prior is normal, otherwise the error names the prior |
| ContextualSchemas.ParseArm | backend/app/contextual_mab/schemas.py:53-87 | an arm is accepted iff its names fit and its (defaulted) sigma_init is positive; omitted fields take 0.0 and 1.0; with fitting names the only error is the sigma check |
| ContextualSchemas.ParseContext | backend/app/contextual_mab/schemas.py:15-31 | a context is accepted iff its value type is omitted or names a member; it keeps name and description and takes binary by default; otherwise the error names the value |
| ContextualSchemas.ValidateContextualBandit | backend/app/contextual_mab/schemas.py:104-162 | a field error stands; then fewer than two arms is the error; it accepts iff the fields parse, there are two or more arms and the prior is normal, returning the parsed body |
| ContextualSchemas.ValidateCorrect | backend/app/contextual_mab/schemas.py:104-162 | a body is accepted iff names fit, enumerations parse, the prior is normal, there are two or more arms all acceptable, and every context type parses; the fields and defaults are carried over |
| ContextualSchemas.ParsePriorCases | backend/app/exp_engine/schemas.py:13-19 | a parsed prior is normal iff the string is "normal" |
| ContextualSchemas.NonPositiveSigmaRejected | backend/app/contextual_mab/schemas.py:84-86 | any arm with sigma_init ≤ 0 makes the experiment invalid |
| ContextualSchemas.MuInitUnconstrained | backend/app/contextual_mab/schemas.py:67-87 | mu_init never decides whether an arm passes |
| ContextualSchemas.FewerThanTwoArmsRejected | backend/app/contextual_mab/schemas.py:144-151 | fewer than two arms is rejected with that reason |
| ContextualSchemas.BetaPriorRejected | backend/app/contextual_mab/schemas.py:153-162 | a beta prior is rejected with a message naming "beta" |
| ContextualSchemas.BothRewardTypesAccepted | backend/app/contextual_mab/schemas.py:153-162 | binary and real-valued rewards are accepted or rejected alike |
| ContextualSchemas.OmittedFieldsTakeDefaults | backend/app/contextual_mab/schemas.py:120-130 | omitted reward, prior and is_active become binary, normal and true |
| ContextualModels.InitialMu | backend/app/contextual_mab/models.py:174 | d entries, each mu_init |
| ContextualModels.InitialCovariance | backend/app/contextual_mab/models.py:175-177 | d×d, sigma_init (not its square) on the diagonal and 0 elsewhere |
| ContextualModels.StoreArm | backend/app/contextual_mab/models.py:169-177 | a stored arm keeps the arm's fields, with a mean of d entries all mu_init and a d×d covariance with sigma_init on the diagonal and 0 elsewhere |
| ContextualModels.SaveContextualArms | backend/app/contextual_mab/models.py:166-180 | one stored arm per input arm, in order, with its fields copied and the initial mean and covariance of dimension = number of contexts |
| ContextualModels.StoreContexts | backend/app/contextual_mab/models.py:157-165 | one stored context per input context, in order, whose stored string value parses back to its type |
| ContextualModels.InitialCovarianceSymmetric | backend/app/contextual_mab/models.py:175-177 | the initial covariance is symmetric |
| ContextualModels.InitialCovarianceInverse | backend/app/contextual_mab/models.py:175-177 | for sigma_init > 0 its inverse is (1/sigma_init)·I, as the first update needs |
| ContextualModels.DiagonalProduct | backend/app/contextual_mab/models.py:175-177 | scalar multiples of the identity whose scalars multiply to 1 are inverse |
| ContextualSampling.LinkFn | backend/app/contextual_mab/sampling_utils.py:29 | the NONE link is the identity |
| ContextualSampling.RawScores | backend/app/contextual_mab/sampling_utils.py:23-29 | one score per arm: that arm's drawn weight vector dotted with the context |
| ContextualSampling.SampleNormal | backend/app/contextual_mab/sampling_utils.py:7-30 | for beliefs shaped to the context (per arm, a mean with one entry per context coordinate and a square covariance of that size): fails (ValueError) iff there is no arm or the context is empty; otherwise the first arm whose linked score is largest |
| ContextualSampling.IncreasingLinkSameChoice | backend/app/contextual_mab/sampling_utils.py:29-30 | an increasing logistic link selects the same arm as the identity |
| ContextualSampling.LinkFor | backend/app/contextual_mab/sampling_utils.py:76-80 | the identity link is chosen iff the reward is real-valued |
| ContextualSampling.ChooseArm | backend/app/contextual_mab/sampling_utils.py:63-86 | a binary reward raises NotImplementedError; otherwise succeeds iff there is an arm and a context, returning the first arm of largest raw score |
| ContextualSampling.LogisticNeverApplied | backend/app/contextual_mab/sampling_utils.py:76-86 | the choice never depends on the logistic function |
| ContextualSampling.ScaledContext | backend/app/contextual_mab/sampling_utils.py:58 | entry i is x_i·r/σ_L² |
| ContextualSampling.NewPrecision | backend/app/contextual_mab/sampling_utils.py:51-53 | every entry of the prior precision gets ‖x‖²/σ_L² added |
| ContextualSampling.UpdateArmNormal | backend/app/contextual_mab/sampling_utils.py:33-60 | only LinAlgError can occur; on success, for the inverse P of Σ, the new covariance inverts P + ‖x‖²/σ_L², and the new mean solves (P + ‖x‖²/σ_L²)μ' = Pμ + x r/σ_L² |
| ContextualSampling.NormalEquations | backend/app/contextual_mab/sampling_utils.py:54-59 | multiplying Σ'·b by the new precision gives back b |
| ContextualSampling.UpdateKeepsSymmetry | backend/app/contextual_mab/sampling_utils.py:51-54 | a symmetric covariance stays symmetric |
| ContextualSampling.ScalarUpdateAgreesWithOnline | backend/app/contextual_mab/sampling_utils.py:51-59 | in one dimension with context (1), the update is the non-contextual online Normal step |
| ContextualSampling.BroadcastDiffersFromOuterProduct | backend/app/contextual_mab/sampling_utils.py:52 | for Σ = I and x = (1, 0), ‖x‖² broadcast gives [[2,1],[1,2]] where x xᵀ gives [[2,0],[0,1]] |
| ContextualSampling.UpdateArmParams | backend/app/contextual_mab/sampling_utils.py:89-116 | no update for every pair but (normal, real-valued), which is updated with σ_L = 1.0 and fails only with LinAlgError |
| ContextualSampling.UpdateArmParamsAsWritten | backend/app/contextual_mab/sampling_utils.py:107-116 | as written, the (normal, real-valued) pair always fails and every other pair gives no update |
| ContextualSampling.InitialArmUpdate | backend/app/contextual_mab/sampling_utils.py:107-114 | for a fresh one-context arm and reward 1, as written TypeError; corrected, mean 0.5 and covariance 0.5 |

## Left out

- Random number generation: `beta`, `normal` and `multivariate_normal` are injected draw functions. Their distributions, and the positive-semidefiniteness `multivariate_normal` asks of a covariance, are not modelled.
- IEEE floating point: rounding, overflow and `inf` are not modelled; NaN appears only where the batch revision produces it.
- `np.linalg.inv` is a contract: it is sound (a returned matrix is an inverse) but not complete (it may fail on an invertible matrix), so the model never promises that an update succeeds.
- numpy broadcasting between arrays of mismatched shapes is not modelled. Instead, every sampler and update takes inputs of matching shape as a precondition. For the contextual sampler this is `ContextualSampling.Conforms`: one mean of length |context| per arm and a square |context|×|context| covariance. So the ValueError that `multivariate_normal` raises on another shape is not modelled.
- `ContextualSampling.SampleNormal`: the draws are given already as rows of length |context|, so the reshape of rows of another length is not modelled.
- The logistic function: there is no `exp` over `real`, so it is a parameter, and only its monotonicity is used.
- A negative likelihood stddev is not modelled, because both dispatchers fix σ_L at 1.0. `MabSampling.UpdateArmNormal` takes σ_L² ≥ 0 with σ² + σ_L² > 0, which admits the degenerate σ_L = 0 (`MabSampling.NormalUpdateDegenerate`). The contextual update takes σ_L² > 0.
- Validation reports the first failing check; pydantic collects the errors of all fields into one response.
- A body that omits a required `name` or `description` (of an experiment, an arm or a context, in either schema), or gives one that is not a string, is not modelled: the raw bodies always carry these strings, so only their length limits are checked.
- The contextual schema's `notifications` field is not part of this model.
- The batch `mab_choose_arm` reads `arm.successes`, `arm.failures` and `arm.reward`, which the response schema does not define; the model supplies them as fields of its batch arm.
- HTTP routers, the ORM and persistence, user ids and database keys, notifications, authentication and the `print` at the start of `mab_choose_arm` are outside the engine.
- `contextual_mab/dependencies.py` and the check in `contextual_mab/routers.py` read `arm.successes` and `context.values`, which the current contextual schemas do not define; that older success/failure-count code is not part of this model.

## Findings

| source | as written | input that shows it | evidently intended | confidence | as-written member | corrected member |
|---|---|---|---|---|---|---|
| backend/app/exp_engine/thompson_sampling.py:42-44 | `num_updates * reward.mean()` is NaN for an arm with no rewards, so that arm's draw is NaN and numpy's argmax returns it | means (0, 10), sigmas (1, 1), rewards ([], [5]), each draw at its location: arm 0 is chosen | an arm with no rewards is sampled from its prior (the count times the mean is the sum, 0), so arm 1 is chosen | not executed | ThompsonSampling.MabNormalAsWritten | ThompsonSampling.MabNormal |
| backend/app/contextual_mab/sampling_utils.py:110 | `np.ndarray(arm.covariance)` reads the covariance as an array shape: TypeError for any non-empty covariance, LinAlgError for an empty one, so no arm is ever updated | the fresh arm mu (0), covariance [[1]], context (1), reward 1: TypeError | the stored covariance passed as a matrix (`np.array`), giving mean 0.5 and covariance 0.5 | not executed | ContextualSampling.UpdateArmParamsAsWritten | ContextualSampling.UpdateArmParams |
