/**
  Validation of contextual experiment definitions
  (backend/app/contextual_mab/schemas.py). Parsing fills in the field
  defaults, checks the string limits and the enumerations, runs
  `check_values` on every arm, and then the two model-level checks of
  `ContextualBandit`: at least two arms, and a Normal prior.
 */
module ContextualSchemas {
  import opened Wrappers
  import opened Enums
  import MabSchemas

  /** A parsed context: what the sampler's context vector entries stand for. */
  datatype Context = Context(name: string, description: string, valueType: ContextType)

  /** A parsed arm: the prior every coordinate of its weight vector starts from. */
  datatype ContextualArm = ContextualArm(name: string, description: string, muInit: real, sigmaInit: real)

  /** A validated contextual experiment (notifications are not part of this model). */
  datatype ContextualBandit = ContextualBandit(
    name: string, description: string,
    reward: RewardLikelihood, prior: ArmPrior, isActive: bool,
    arms: seq<ContextualArm>, contexts: seq<Context>)

  datatype ValidationError =
    | NameTooLong
    | DescriptionTooLong
    | InvalidReward(reward: string)
    | InvalidPrior(prior: string)
    | InvalidContextType(valueType: string)
    | SigmaNotPositive
    | FewerThanTwoArms
    | PriorNotSupported(priorName: string)

  /** Field defaults. */
  const DefaultMuInit: real := 0.0
  const DefaultSigmaInit: real := 1.0
  const DefaultReward: RewardLikelihood := BernoulliReward
  const DefaultPrior: ArmPrior := NormalPrior
  const DefaultContextType: ContextType := Binary
  const DefaultIsActive: bool := true

  // ---------------------------------------------------------------------
  // The request body, with omitted fields as None

  datatype RawContext = RawContext(name: string, description: string, valueType: Option<string>)

  datatype RawArm = RawArm(name: string, description: string, muInit: Option<real>, sigmaInit: Option<real>)

  datatype RawBandit = RawBandit(
    name: string, description: string,
    reward: Option<string>, prior: Option<string>, isActive: Option<bool>,
    arms: seq<RawArm>, contexts: seq<RawContext>)

  /** `ContextualArm.check_values`: sigma_init must be positive; mu_init is free. */
  function CheckValues(arm: ContextualArm): (r: Result<ContextualArm, ValidationError>)
    ensures r.Ok? <==> arm.sigmaInit > 0.0
    ensures r.Ok? ==> r.value == arm
    ensures r.Err? ==> r.error == SigmaNotPositive
  {
    if arm.sigmaInit <= 0.0 then Err(SigmaNotPositive) else Ok(arm)
  }

  /**
    Parsing one arm: the length limits (preceding the same limits of the
    non-contextual schema), the defaults, then `check_values`. An arm is
    accepted iff its names fit and its sigma_init, given or defaulted, is
    positive; mu_init defaults to 0.0 and sigma_init to 1.0.
   */
  function ParseArm(raw: RawArm): (r: Result<ContextualArm, ValidationError>)
    ensures r.Ok? <==> AcceptableArm(raw)
    ensures r.Ok? ==>
              r.value == ContextualArm(raw.name, raw.description,
                                       OrElse(raw.muInit, DefaultMuInit), OrElse(raw.sigmaInit, DefaultSigmaInit))
    ensures MabSchemas.NamesFit(raw.name, raw.description) && r.Err? ==> r.error == SigmaNotPositive
  {
    if |raw.name| > MabSchemas.MaxNameLength then Err(NameTooLong)
    else if |raw.description| > MabSchemas.MaxDescriptionLength then Err(DescriptionTooLong)
    else CheckValues(ContextualArm(raw.name, raw.description,
                                   OrElse(raw.muInit, DefaultMuInit), OrElse(raw.sigmaInit, DefaultSigmaInit)))
  }

  /** Parsing one context: `value_type` defaults to binary and must name a member. */
  function ParseContext(raw: RawContext): (r: Result<Context, ValidationError>)
    ensures r.Ok? <==> AcceptableContext(raw)
    ensures r.Ok? ==>
              && r.value.name == raw.name && r.value.description == raw.description
              && r.value.valueType == (if raw.valueType.None? then DefaultContextType
                                       else ParseContextType(raw.valueType.value).value)
    ensures r.Err? ==> r == Err(InvalidContextType(raw.valueType.value))
  {
    var s := OrElse(raw.valueType, ContextTypeValue(DefaultContextType));
    match ParseContextType(s)
    case None => Err(InvalidContextType(s))
    case Some(t) => Ok(Context(raw.name, raw.description, t))
  }

  /** Parses every arm and reports the first failure. */
  function ParseArms(raws: seq<RawArm>): (r: Result<seq<ContextualArm>, ValidationError>)
    ensures r.Ok? <==> forall i :: 0 <= i < |raws| ==> ParseArm(raws[i]).Ok?
    ensures r.Ok? ==> |r.value| == |raws| && forall i :: 0 <= i < |raws| ==> r.value[i] == ParseArm(raws[i]).value
    ensures r.Err? ==> exists i :: 0 <= i < |raws| && ParseArm(raws[i]) == Err(r.error) &&
                                   forall j :: 0 <= j < i ==> ParseArm(raws[j]).Ok?
  {
    if |raws| == 0 then Ok([])
    else match ParseArm(raws[0])
      case Err(e) => Err(e)
      case Ok(a) =>
        match ParseArms(raws[1..])
        case Err(e) => Err(e)
        case Ok(rest) => Ok([a] + rest)
  }

  /** Parses every context and reports the first failure. */
  function ParseContexts(raws: seq<RawContext>): (r: Result<seq<Context>, ValidationError>)
    ensures r.Ok? <==> forall i :: 0 <= i < |raws| ==> ParseContext(raws[i]).Ok?
    ensures r.Ok? ==> |r.value| == |raws| && forall i :: 0 <= i < |raws| ==> r.value[i] == ParseContext(raws[i]).value
    ensures r.Err? ==> exists i :: 0 <= i < |raws| && ParseContext(raws[i]) == Err(r.error) &&
                                   forall j :: 0 <= j < i ==> ParseContext(raws[j]).Ok?
  {
    if |raws| == 0 then Ok([])
    else match ParseContext(raws[0])
      case Err(e) => Err(e)
      case Ok(c) =>
        match ParseContexts(raws[1..])
        case Err(e) => Err(e)
        case Ok(rest) => Ok([c] + rest)
  }

  /** `ContextualBandit.arms_at_least_two`. */
  function ArmsAtLeastTwo(b: ContextualBandit): (r: Result<ContextualBandit, ValidationError>)
    ensures r.Ok? <==> |b.arms| >= 2
    ensures r.Ok? ==> r.value == b
    ensures r.Err? ==> r.error == FewerThanTwoArms
  {
    if |b.arms| < 2 then Err(FewerThanTwoArms) else Ok(b)
  }

  /** `ContextualBandit.check_prior_type`: only the Normal prior; the reward type is not restricted. */
  function CheckPriorType(b: ContextualBandit): (r: Result<ContextualBandit, ValidationError>)
    ensures r.Ok? <==> b.prior == NormalPrior
    ensures r.Ok? ==> r.value == b
    ensures r.Err? ==> r.error == PriorNotSupported(PriorValue(b.prior))
  {
    if b.prior != NormalPrior then Err(PriorNotSupported(PriorValue(b.prior))) else Ok(b)
  }

  /** The fields of the body, in declaration order, each parsed with its default. */
  function ParseFields(v: RawBandit): (r: Result<ContextualBandit, ValidationError>)
  {
    var rewardName := OrElse(v.reward, RewardValue(DefaultReward));
    var priorName := OrElse(v.prior, PriorValue(DefaultPrior));
    if |v.name| > MabSchemas.MaxNameLength then Err(NameTooLong)
    else if |v.description| > MabSchemas.MaxDescriptionLength then Err(DescriptionTooLong)
    else if ParseReward(rewardName).None? then Err(InvalidReward(rewardName))
    else if ParsePrior(priorName).None? then Err(InvalidPrior(priorName))
    else match ParseArms(v.arms)
      case Err(e) => Err(e)
      case Ok(arms) =>
        match ParseContexts(v.contexts)
        case Err(e) => Err(e)
        case Ok(contexts) =>
          Ok(ContextualBandit(v.name, v.description, ParseReward(rewardName).value, ParsePrior(priorName).value,
                              OrElse(v.isActive, DefaultIsActive), arms, contexts))
  }

  /**
    `ContextualBandit` validation: the fields, then the two model-level checks
    in order. A field error stands; what passes has at least two arms and a
    Normal prior, and is the parsed body itself.
   */
  function ValidateContextualBandit(v: RawBandit): (r: Result<ContextualBandit, ValidationError>)
    ensures ParseFields(v).Err? ==> r == Err(ParseFields(v).error)
    ensures ParseFields(v).Ok? && |ParseFields(v).value.arms| < 2 ==> r == Err(FewerThanTwoArms)
    ensures r.Ok? <==> ParseFields(v).Ok? && |ParseFields(v).value.arms| >= 2 && ParseFields(v).value.prior == NormalPrior
    ensures r.Ok? ==> r.value == ParseFields(v).value
  {
    match ParseFields(v)
    case Err(e) => Err(e)
    case Ok(b) =>
      match ArmsAtLeastTwo(b)
      case Err(e) => Err(e)
      case Ok(_) => CheckPriorType(b)
  }

  // ---------------------------------------------------------------------
  // What the validation accepts

  /** An arm is accepted when its names fit and its sigma_init (given or defaulted) is positive. */
  predicate AcceptableArm(raw: RawArm) {
    MabSchemas.NamesFit(raw.name, raw.description) && OrElse(raw.sigmaInit, DefaultSigmaInit) > 0.0
  }

  predicate AcceptableContext(raw: RawContext) {
    raw.valueType.None? || ParseContextType(raw.valueType.value).Some?
  }

  /** A declarative reading of which bodies the schema accepts. */
  predicate AcceptableBandit(v: RawBandit) {
    && MabSchemas.NamesFit(v.name, v.description)
    && (v.reward.None? || ParseReward(v.reward.value).Some?)
    && (v.prior.None? || v.prior.value == PriorValue(NormalPrior))
    && |v.arms| >= 2
    && (forall i :: 0 <= i < |v.arms| ==> AcceptableArm(v.arms[i]))
    && (forall i :: 0 <= i < |v.contexts| ==> AcceptableContext(v.contexts[i]))
  }

  /**
    The schema accepts exactly the acceptable bodies. What it returns has a
    Normal prior, the reward named (or binary), and one arm and one context
    per entry of the body, in order, with the defaults filled in.
   */
  lemma ValidateCorrect(v: RawBandit)
    ensures ValidateContextualBandit(v).Ok? <==> AcceptableBandit(v)
    ensures ValidateContextualBandit(v).Ok? ==>
              var b := ValidateContextualBandit(v).value;
              && b.prior == NormalPrior
              && b.reward == (if v.reward.None? then DefaultReward else ParseReward(v.reward.value).value)
              && b.isActive == OrElse(v.isActive, DefaultIsActive)
              && |b.arms| == |v.arms| >= 2
              && (forall i :: 0 <= i < |v.arms| ==>
                    && b.arms[i].name == v.arms[i].name
                    && b.arms[i].muInit == OrElse(v.arms[i].muInit, DefaultMuInit)
                    && b.arms[i].sigmaInit == OrElse(v.arms[i].sigmaInit, DefaultSigmaInit) > 0.0)
              && |b.contexts| == |v.contexts|
              && (forall i :: 0 <= i < |v.contexts| ==>
                    b.contexts[i].valueType ==
                      (if v.contexts[i].valueType.None? then DefaultContextType
                       else ParseContextType(v.contexts[i].valueType.value).value))
  {
    if v.prior.Some? && ParsePrior(v.prior.value).Some? {
      ParsePriorCases(v.prior.value);
    }
  }

  lemma ParsePriorCases(s: string)
    requires ParsePrior(s).Some?
    ensures ParsePrior(s) == Some(NormalPrior) <==> s == PriorValue(NormalPrior)
  {
  }

  /** An arm whose sigma_init is zero or negative is rejected, whatever else the body holds. */
  lemma NonPositiveSigmaRejected(v: RawBandit, i: nat)
    requires i < |v.arms| && v.arms[i].sigmaInit.Some? && v.arms[i].sigmaInit.value <= 0.0
    ensures ValidateContextualBandit(v).Err?
  {
    ValidateCorrect(v);
  }

  /** mu_init never decides acceptance. */
  lemma MuInitUnconstrained(raw: RawArm, m: Option<real>)
    ensures ParseArm(raw.(muInit := m)).Ok? == ParseArm(raw).Ok?
  {
  }

  /** With otherwise valid fields, fewer than two arms is the reported error. */
  lemma FewerThanTwoArmsRejected(v: RawBandit)
    requires ParseFields(v).Ok? && |v.arms| < 2
    ensures ValidateContextualBandit(v) == Err(FewerThanTwoArms)
  {
  }

  /** A Beta prior is rejected, even with a binary reward. */
  lemma BetaPriorRejected(v: RawBandit)
    requires v.prior == Some(PriorValue(BetaPrior)) && ParseFields(v).Ok? && |v.arms| >= 2
    ensures ValidateContextualBandit(v) == Err(PriorNotSupported(PriorValue(BetaPrior)))
  {
  }

  /** Both reward types pass with a Normal prior: the answer does not depend on which is named. */
  lemma BothRewardTypesAccepted(v: RawBandit)
    ensures ValidateContextualBandit(v.(reward := Some(RewardValue(BernoulliReward)))).Ok? ==
            ValidateContextualBandit(v.(reward := Some(RewardValue(NormalReward)))).Ok?
  {
    ValidateCorrect(v.(reward := Some(RewardValue(BernoulliReward))));
    ValidateCorrect(v.(reward := Some(RewardValue(NormalReward))));
  }

  /** A body that omits every optional field gets a binary reward, a Normal prior and active status. */
  lemma OmittedFieldsTakeDefaults(v: RawBandit)
    requires v.reward.None? && v.prior.None? && v.isActive.None? && ValidateContextualBandit(v).Ok?
    ensures ValidateContextualBandit(v).value.reward == BernoulliReward
    ensures ValidateContextualBandit(v).value.prior == NormalPrior
    ensures ValidateContextualBandit(v).value.isActive
  {
  }
}
