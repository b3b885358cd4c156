/**
  Validation of non-contextual experiment definitions
  (backend/app/mab/schemas.py): the per-arm positivity check that runs on
  every parsed arm, and the model-level check that runs on the raw request
  body before any field is parsed.
 */
module MabSchemas {
  import opened Wrappers
  import opened Enums

  /** A parsed arm; each prior parameter may be absent (`None`). */
  datatype Arm = Arm(name: string, description: string,
                     alpha: Option<real>, beta: Option<real>, mu: Option<real>, sigma: Option<real>)

  /** A validated experiment definition. */
  datatype MabExperiment = MabExperiment(name: string, description: string,
                                         prior: ArmPrior, reward: RewardLikelihood, isActive: bool,
                                         arms: seq<Arm>)

  datatype ValidationError =
    | NameTooLong
    | DescriptionTooLong
    | AlphaNotPositive
    | BetaNotPositive
    | SigmaNotPositive
    | NoArms
    | UnsupportedCombination(prior: Option<string>, reward: Option<string>)
    | MissingPriorParams(priorName: string, missing: seq<string>)

  /** Field defaults; the model-level check below runs before they are filled in. */
  const DefaultReward: RewardLikelihood := BernoulliReward
  const DefaultPrior: ArmPrior := BetaPrior
  const DefaultIsActive: bool := true

  /** `max_length` of arm and experiment names and descriptions. */
  const MaxNameLength: nat := 150
  const MaxDescriptionLength: nat := 500

  predicate NamesFit(name: string, description: string) {
    |name| <= MaxNameLength && |description| <= MaxDescriptionLength
  }

  predicate PositiveOrAbsent(x: Option<real>) {
    x.None? || x.value > 0.0
  }

  /** `Arm.check_values`: present alpha, beta and sigma must be positive; mu is free. */
  function CheckValues(arm: Arm): (r: Result<Arm, ValidationError>)
    ensures r.Ok? <==> PositiveOrAbsent(arm.alpha) && PositiveOrAbsent(arm.beta) && PositiveOrAbsent(arm.sigma)
    ensures r.Ok? ==> r.value == arm
    ensures !PositiveOrAbsent(arm.alpha) ==> r == Err(AlphaNotPositive)
    ensures PositiveOrAbsent(arm.alpha) && !PositiveOrAbsent(arm.beta) ==> r == Err(BetaNotPositive)
    ensures PositiveOrAbsent(arm.alpha) && PositiveOrAbsent(arm.beta) && !PositiveOrAbsent(arm.sigma) ==>
              r == Err(SigmaNotPositive)
  {
    if arm.alpha.Some? && arm.alpha.value <= 0.0 then Err(AlphaNotPositive)
    else if arm.beta.Some? && arm.beta.value <= 0.0 then Err(BetaNotPositive)
    else if arm.sigma.Some? && arm.sigma.value <= 0.0 then Err(SigmaNotPositive)
    else Ok(arm)
  }

  /** The value of mu never decides whether an arm passes `check_values`. */
  lemma MuUnconstrained(arm: Arm, m: Option<real>)
    ensures CheckValues(arm.(mu := m)).Ok? == CheckValues(arm).Ok?
  {
  }

  // ---------------------------------------------------------------------
  // The raw request body

  /**
    An arm as it arrives: its name and description, and the remaining keys
    mapped to their values, JSON `null` being None.
   */
  datatype RawArm = RawArm(name: string, description: string, params: map<string, Option<real>>)

  /** The request body; an omitted optional field is None. */
  datatype RawMab = RawMab(name: string, description: string,
                           prior: Option<string>, reward: Option<string>, isActive: Option<bool>,
                           arms: Option<seq<RawArm>>)

  /** `prior_params`: the parameters each prior requires, keyed by the prior's value. */
  const PriorParamNames: map<string, seq<string>> :=
    map[PriorValue(BetaPrior) := ["alpha", "beta"], PriorValue(NormalPrior) := ["mu", "sigma"]]

  predicate IsMissing(arm: RawArm, param: string) {
    param !in arm.params || arm.params[param].None?
  }

  /** The parameters of `params` the arm lacks or sets to null, in the order of `params`. */
  function MissingParams(arm: RawArm, params: seq<string>): (m: seq<string>)
    ensures |m| <= |params|
    ensures forall p :: p in m <==> p in params && IsMissing(arm, p)
  {
    if |params| == 0 then []
    else
      var last := params[|params| - 1];
      MissingParams(arm, params[..|params| - 1]) + (if IsMissing(arm, last) then [last] else [])
  }

  /** The index of the first arm that lacks one of `params`, if any. */
  function FirstIncompleteArm(arms: seq<RawArm>, params: seq<string>): (r: Option<nat>)
    ensures r.None? <==> forall i :: 0 <= i < |arms| ==> MissingParams(arms[i], params) == []
    ensures r.Some? ==> r.value < |arms| && MissingParams(arms[r.value], params) != []
    ensures r.Some? ==> forall j :: 0 <= j < r.value ==> MissingParams(arms[j], params) == []
  {
    if |arms| == 0 then None
    else if MissingParams(arms[0], params) != [] then Some(0)
    else match FirstIncompleteArm(arms[1..], params)
      case None => None
      case Some(k) => Some(k + 1)
  }

  lemma {:induction false} FirstIncompleteArmAt(arms: seq<RawArm>, params: seq<string>, i: nat)
    requires i < |arms| && MissingParams(arms[i], params) != []
    requires forall j :: 0 <= j < i ==> MissingParams(arms[j], params) == []
    ensures FirstIncompleteArm(arms, params) == Some(i)
  {
    if i > 0 {
      assert MissingParams(arms[0], params) == [];
      assert arms[1..][i - 1] == arms[i];
      forall j | 0 <= j < i - 1 ensures MissingParams(arms[1..][j], params) == [] {
        assert arms[1..][j] == arms[j + 1];
      }
      FirstIncompleteArmAt(arms[1..], params, i - 1);
    }
  }

  predicate AllowedPair(prior: Option<string>, reward: Option<string>) {
    prior.Some? && reward.Some? && (prior.value, reward.value) in AllowedCombosMab
  }

  /**
    What `check_arm_and_experiment_reward_type` decides, stated on values: a
    body passes unchanged iff it has arms, an allowed (prior, reward) pair and
    no arm lacking a parameter of its prior; otherwise the first of these
    checks to fail names the error, an incomplete arm being the first one.
   */
  function PreValidate(v: RawMab): (r: Result<RawMab, ValidationError>)
    ensures r.Ok? ==> r.value == v
    ensures r.Ok? <==>
              && v.arms.Some?
              && AllowedPair(v.prior, v.reward)
              && (v.prior.value in PriorParamNames ==>
                    forall i :: 0 <= i < |v.arms.value| ==> MissingParams(v.arms.value[i], PriorParamNames[v.prior.value]) == [])
    ensures v.arms.None? ==> r == Err(NoArms)
    ensures v.arms.Some? && !AllowedPair(v.prior, v.reward) ==> r == Err(UnsupportedCombination(v.prior, v.reward))
    ensures v.arms.Some? && AllowedPair(v.prior, v.reward) && r.Err? ==>
              && v.prior.value in PriorParamNames
              && var params := PriorParamNames[v.prior.value];
                 var k := FirstIncompleteArm(v.arms.value, params);
                 && k.Some?
                 && r == Err(MissingPriorParams(v.prior.value, MissingParams(v.arms.value[k.value], params)))
  {
    if v.arms.None? then Err(NoArms)
    else if !AllowedPair(v.prior, v.reward) then Err(UnsupportedCombination(v.prior, v.reward))
    else if v.prior.value !in PriorParamNames then Ok(v)
    else
      var params := PriorParamNames[v.prior.value];
      match FirstIncompleteArm(v.arms.value, params)
      case None => Ok(v)
      case Some(k) => Err(MissingPriorParams(v.prior.value, MissingParams(v.arms.value[k], params)))
  }

  /** The inner loop of the model-level check: the parameters one arm lacks, in order. */
  method CollectMissingParams(arm: RawArm, params: seq<string>) returns (missingParams: seq<string>)
    ensures missingParams == MissingParams(arm, params)
  {
    missingParams := [];
    var k := 0;
    while k < |params|
      invariant 0 <= k <= |params|
      invariant missingParams == MissingParams(arm, params[..k])
    {
      var param := params[k];
      assert params[..k + 1][..k] == params[..k];
      assert MissingParams(arm, params[..k + 1]) ==
             MissingParams(arm, params[..k]) + (if IsMissing(arm, param) then [param] else []);
      if param !in arm.params {
        missingParams := missingParams + [param];
      } else if arm.params[param].None? {
        missingParams := missingParams + [param];
      }
      k := k + 1;
    }
    assert params[..|params|] == params;
  }

  /**
    `check_arm_and_experiment_reward_type`: rejects a body without arms or with
    an unsupported (prior, reward) pair, then walks the arms and, for each,
    collects the prior's parameters that are missing or null.
   */
  method CheckArmAndExperimentRewardType(values: RawMab) returns (r: Result<RawMab, ValidationError>)
    ensures r == PreValidate(values)
  {
    var rewardType := values.reward;
    var priorType := values.prior;
    var arms := values.arms;
    if arms.None? {
      return Err(NoArms);
    }
    if !AllowedPair(priorType, rewardType) {
      return Err(UnsupportedCombination(priorType, rewardType));
    }
    var prior := priorType.value;
    var i := 0;
    while i < |arms.value|
      invariant 0 <= i <= |arms.value|
      invariant prior in PriorParamNames ==>
                  forall j :: 0 <= j < i ==> MissingParams(arms.value[j], PriorParamNames[prior]) == []
    {
      var arm := arms.value[i];
      if prior in PriorParamNames {
        var params := PriorParamNames[prior];
        var missingParams := CollectMissingParams(arm, params);
        if missingParams != [] {
          FirstIncompleteArmAt(arms.value, params, i);
          return Err(MissingPriorParams(prior, missingParams));
        }
      }
      i := i + 1;
    }
    return Ok(values);
  }

  // ---------------------------------------------------------------------
  // The whole definition

  function Lookup(raw: RawArm, key: string): Option<real> {
    if key in raw.params then raw.params[key] else None
  }

  /**
    Reading a raw arm into the model's fields; unknown keys are ignored. A
    parameter is absent exactly when the model-level check counts it as
    missing, and otherwise carries the value given.
   */
  function ToArm(raw: RawArm): (a: Arm)
    ensures a.name == raw.name && a.description == raw.description
    ensures a.alpha.None? <==> IsMissing(raw, "alpha")
    ensures a.beta.None? <==> IsMissing(raw, "beta")
    ensures a.mu.None? <==> IsMissing(raw, "mu")
    ensures a.sigma.None? <==> IsMissing(raw, "sigma")
    ensures a.alpha.Some? ==> raw.params["alpha"] == a.alpha
    ensures a.beta.Some? ==> raw.params["beta"] == a.beta
    ensures a.mu.Some? ==> raw.params["mu"] == a.mu
    ensures a.sigma.Some? ==> raw.params["sigma"] == a.sigma
  {
    Arm(raw.name, raw.description, Lookup(raw, "alpha"), Lookup(raw, "beta"), Lookup(raw, "mu"), Lookup(raw, "sigma"))
  }

  /** Parsing one `Arm`: the length limits of its fields, then `check_values`. */
  function ParseArm(raw: RawArm): (r: Result<Arm, ValidationError>)
    ensures r.Ok? <==> NamesFit(raw.name, raw.description) && CheckValues(ToArm(raw)).Ok?
    ensures r.Ok? ==> r.value == ToArm(raw)
    ensures !NamesFit(raw.name, raw.description) ==> r == Err(if |raw.name| > MaxNameLength then NameTooLong else DescriptionTooLong)
  {
    if |raw.name| > MaxNameLength then Err(NameTooLong)
    else if |raw.description| > MaxDescriptionLength then Err(DescriptionTooLong)
    else CheckValues(ToArm(raw))
  }

  /** Parses every arm and reports the first failure. */
  function CheckAllArms(arms: seq<RawArm>): (r: Result<seq<Arm>, ValidationError>)
    ensures r.Ok? <==> forall i :: 0 <= i < |arms| ==> ParseArm(arms[i]).Ok?
    ensures r.Ok? ==> |r.value| == |arms| && forall i :: 0 <= i < |arms| ==> r.value[i] == ToArm(arms[i])
    ensures r.Err? ==> exists i :: 0 <= i < |arms| && ParseArm(arms[i]) == Err(r.error) &&
                                   forall j :: 0 <= j < i ==> ParseArm(arms[j]).Ok?
  {
    if |arms| == 0 then Ok([])
    else match ParseArm(arms[0])
      case Err(e) => Err(e)
      case Ok(a) =>
        match CheckAllArms(arms[1..])
        case Err(e) => Err(e)
        case Ok(rest) => Ok([a] + rest)
  }

  /** Every arm carries both parameters of the prior, non-null. */
  predicate CarriesPriorParams(prior: ArmPrior, arm: Arm) {
    match prior
    case BetaPrior => arm.alpha.Some? && arm.beta.Some?
    case NormalPrior => arm.mu.Some? && arm.sigma.Some?
  }

  /** A declarative reading of which bodies the schema accepts. */
  predicate AcceptableMab(v: RawMab) {
    && v.arms.Some?
    && AllowedPair(v.prior, v.reward)
    && NamesFit(v.name, v.description)
    && forall i :: 0 <= i < |v.arms.value| ==>
         && NamesFit(v.arms.value[i].name, v.arms.value[i].description)
         && CarriesPriorParams(ParsePrior(v.prior.value).value, ToArm(v.arms.value[i]))
         && CheckValues(ToArm(v.arms.value[i])).Ok?
  }

  /**
    `MultiArmedBandit` validation: the model-level check on the raw body runs
    first and its error stands; then the fields are parsed in declaration
    order, the arms last.
   */
  function ValidateMab(v: RawMab): (r: Result<MabExperiment, ValidationError>)
    ensures PreValidate(v).Err? ==> r == Err(PreValidate(v).error)
    ensures PreValidate(v).Ok? && !NamesFit(v.name, v.description) ==>
              r == Err(if |v.name| > MaxNameLength then NameTooLong else DescriptionTooLong)
    ensures r.Ok? ==> r.value.isActive == OrElse(v.isActive, DefaultIsActive)
  {
    match PreValidate(v)
    case Err(e) => Err(e)
    case Ok(_) =>
      if |v.name| > MaxNameLength then Err(NameTooLong)
      else if |v.description| > MaxDescriptionLength then Err(DescriptionTooLong)
      else match CheckAllArms(v.arms.value)
        case Err(e) => Err(e)
        case Ok(arms) =>
          Ok(MabExperiment(v.name, v.description, ParsePrior(v.prior.value).value, ParseReward(v.reward.value).value,
                           OrElse(v.isActive, DefaultIsActive), arms))
  }

  lemma MissingParamsNames(arm: RawArm, prior: ArmPrior)
    ensures MissingParams(arm, PriorParamNames[PriorValue(prior)]) == [] <==> CarriesPriorParams(prior, ToArm(arm))
  {
    var params := PriorParamNames[PriorValue(prior)];
    assert params[0] in params && params[1] in params;
  }

  /** The schema accepts exactly the acceptable bodies, and what it returns is the parsed body. */
  lemma {:induction false} ValidateMabCorrect(v: RawMab)
    ensures ValidateMab(v).Ok? <==> AcceptableMab(v)
    ensures ValidateMab(v).Ok? ==>
              && ValidateMab(v).value.name == v.name && ValidateMab(v).value.description == v.description
              && SupportedMabPair(ValidateMab(v).value.prior, ValidateMab(v).value.reward)
              && PriorValue(ValidateMab(v).value.prior) == v.prior.value
              && RewardValue(ValidateMab(v).value.reward) == v.reward.value
              && |ValidateMab(v).value.arms| == |v.arms.value|
              && forall i :: 0 <= i < |v.arms.value| ==> ValidateMab(v).value.arms[i] == ToArm(v.arms.value[i])
  {
    if v.arms.Some? && AllowedPair(v.prior, v.reward) {
      var prior := ParsePrior(v.prior.value).value;
      assert PriorValue(prior) == v.prior.value;
      var params := PriorParamNames[v.prior.value];
      forall i | 0 <= i < |v.arms.value|
        ensures MissingParams(v.arms.value[i], params) == [] <==> CarriesPriorParams(prior, ToArm(v.arms.value[i]))
      {
        MissingParamsNames(v.arms.value[i], prior);
      }
    }
  }

  /** Every accepted arm has positive, present parameters for the experiment's prior. */
  lemma AcceptedArmsUsable(v: RawMab, i: nat)
    requires ValidateMab(v).Ok? && i < |ValidateMab(v).value.arms|
    ensures var e := ValidateMab(v).value;
            match e.prior
            case BetaPrior => e.arms[i].alpha.Some? && e.arms[i].alpha.value > 0.0
                              && e.arms[i].beta.Some? && e.arms[i].beta.value > 0.0
            case NormalPrior => e.arms[i].mu.Some? && e.arms[i].sigma.Some? && e.arms[i].sigma.value > 0.0
  {
    ValidateMabCorrect(v);
  }

  /** A body without `arms` is rejected. */
  lemma NoArmsRejected(v: RawMab)
    requires v.arms.None?
    ensures ValidateMab(v) == Err(NoArms)
  {
  }

  /**
    A body that omits `prior_type` or `reward_type` is rejected, although the
    fields have defaults: the model-level check sees the raw body first.
   */
  lemma DefaultsNeverReachTheCheck(v: RawMab)
    requires v.arms.Some? && (v.prior.None? || v.reward.None?)
    ensures ValidateMab(v) == Err(UnsupportedCombination(v.prior, v.reward))
  {
  }
}
