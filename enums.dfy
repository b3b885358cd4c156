/**
  The enumerations of the experiment engine (backend/app/exp_engine/schemas.py),
  each with its encoding and a parser that inverts it, plus the two enumerations
  the source imports but does not define here: the context value type and the
  context link function.
 */
module Enums {
  import opened Wrappers

  /** The outcome of one trial; an integer enumeration. */
  datatype Outcome = Success | Failure

  function OutcomeValue(o: Outcome): (v: int)
    ensures v == 0 || v == 1
    ensures (v == 1) <==> o == Success
  {
    match o
    case Success => 1
    case Failure => 0
  }

  /** Looking an integer up in the enumeration: only 0 and 1 are outcomes. */
  function ParseOutcome(v: int): (r: Option<Outcome>)
    ensures r.Some? <==> (v == 0 || v == 1)
    ensures r.Some? ==> OutcomeValue(r.value) == v
  {
    if v == 1 then Some(Success) else if v == 0 then Some(Failure) else None
  }

  /** The prior distribution of an arm's expected reward. */
  datatype ArmPrior = BetaPrior | NormalPrior

  function PriorValue(p: ArmPrior): (s: string)
    ensures s == "beta" || s == "normal"
  {
    match p
    case BetaPrior => "beta"
    case NormalPrior => "normal"
  }

  function ParsePrior(s: string): (r: Option<ArmPrior>)
    ensures r.Some? <==> (s == "beta" || s == "normal")
    ensures r.Some? ==> PriorValue(r.value) == s
  {
    if s == "beta" then Some(BetaPrior) else if s == "normal" then Some(NormalPrior) else None
  }

  /** The likelihood of an observed reward. */
  datatype RewardLikelihood = BernoulliReward | NormalReward

  function RewardValue(l: RewardLikelihood): (s: string)
    ensures s == "binary" || s == "real-valued"
  {
    match l
    case BernoulliReward => "binary"
    case NormalReward => "real-valued"
  }

  function ParseReward(s: string): (r: Option<RewardLikelihood>)
    ensures r.Some? <==> (s == "binary" || s == "real-valued")
    ensures r.Some? ==> RewardValue(r.value) == s
  {
    if s == "binary" then Some(BernoulliReward) else if s == "real-valued" then Some(NormalReward) else None
  }

  /** The declared type of a context feature. */
  datatype ContextType = Binary | RealValued

  function ContextTypeValue(t: ContextType): (s: string)
    ensures s == "binary" || s == "real-valued"
  {
    match t
    case Binary => "binary"
    case RealValued => "real-valued"
  }

  function ParseContextType(s: string): (r: Option<ContextType>)
    ensures r.Some? <==> (s == "binary" || s == "real-valued")
    ensures r.Some? ==> ContextTypeValue(r.value) == s
  {
    if s == "binary" then Some(Binary) else if s == "real-valued" then Some(RealValued) else None
  }

  /** The link applied to `sample · context` by the contextual sampler. */
  datatype ContextLinkFunction = NoLink | Logistic

  /**
    The (prior, reward) pairs a non-contextual experiment may declare, as raw
    strings. Reconstructed from the pairs the samplers dispatch on, since the
    schema imports this set without its definition being present.
   */
  const AllowedCombosMab: set<(string, string)> :=
    {(PriorValue(BetaPrior), RewardValue(BernoulliReward)),
     (PriorValue(NormalPrior), RewardValue(NormalReward))}

  /** The typed counterpart of AllowedCombosMab: the pairs with a selection and an update rule. */
  predicate SupportedMabPair(p: ArmPrior, l: RewardLikelihood) {
    (p == BetaPrior && l == BernoulliReward) || (p == NormalPrior && l == NormalReward)
  }

  /** Every encoding parses back to the member it encodes. */
  lemma EncodingsRoundTrip(o: Outcome, p: ArmPrior, l: RewardLikelihood, t: ContextType)
    ensures ParseOutcome(OutcomeValue(o)) == Some(o)
    ensures ParsePrior(PriorValue(p)) == Some(p)
    ensures ParseReward(RewardValue(l)) == Some(l)
    ensures ParseContextType(ContextTypeValue(t)) == Some(t)
  {
  }

  /** Distinct members have distinct encodings. */
  lemma EncodingsInjective(p1: ArmPrior, p2: ArmPrior, l1: RewardLikelihood, l2: RewardLikelihood)
    ensures PriorValue(p1) == PriorValue(p2) ==> p1 == p2
    ensures RewardValue(l1) == RewardValue(l2) ==> l1 == l2
  {
  }

  /** The raw allowed set and the typed predicate describe the same pairs. */
  lemma AllowedCombosMatchSupported(p: ArmPrior, l: RewardLikelihood)
    ensures (PriorValue(p), RewardValue(l)) in AllowedCombosMab <==> SupportedMabPair(p, l)
  {
  }

  /** Strings seen in the tests that are not members are rejected. */
  lemma UnknownNamesRejected()
    ensures ParsePrior("invalid") == None
    ensures ParseReward("invalid") == None && ParseReward("continuous") == None
  {
  }
}
