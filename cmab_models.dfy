/**
  The arm and context construction inside `save_contextual_mab_to_db`
  (backend/app/contextual_mab/models.py): each stored arm starts with a mean
  vector holding mu_init in every coordinate and the covariance sigma_init
  times the identity, one coordinate per context.
 */
module ContextualModels {
  import opened Wrappers
  import opened Enums
  import opened ContextualSchemas
  import opened LinAlg
  import opened RealArith

  /** A stored arm row (the user id and database keys are not part of this model). */
  datatype StoredArm = StoredArm(name: string, description: string, muInit: real, sigmaInit: real,
                                 mu: Vector, covariance: Matrix)

  /** A stored context row; the value type is stored as its string value. */
  datatype StoredContext = StoredContext(name: string, description: string, valueType: string)

  /** `np.ones(d) * mu_init`. */
  function InitialMu(d: nat, muInit: real): (mu: Vector)
    ensures |mu| == d && forall i :: 0 <= i < d ==> mu[i] == muInit
  {
    seq(d, i requires 0 <= i < d => 1.0 * muInit)
  }

  /** `np.identity(d) * sigma_init`: sigma_init (not its square) on the diagonal, 0 elsewhere. */
  function InitialCovariance(d: nat, sigmaInit: real): (c: Matrix)
    ensures IsSquare(c) && |c| == d
    ensures forall i, j :: 0 <= i < d && 0 <= j < d ==> c[i][j] == if i == j then sigmaInit else 0.0
  {
    seq(d, i requires 0 <= i < d => seq(d, j requires 0 <= j < d => (if i == j then 1.0 else 0.0) * sigmaInit))
  }

  /**
    The stored row of one arm with d contexts: its fields as given, a mean of
    d entries all mu_init, and a d×d covariance with sigma_init on the
    diagonal and 0 elsewhere.
   */
  function StoreArm(arm: ContextualArm, d: nat): (s: StoredArm)
    ensures s.name == arm.name && s.description == arm.description
    ensures s.muInit == arm.muInit && s.sigmaInit == arm.sigmaInit
    ensures |s.mu| == d && forall i :: 0 <= i < d ==> s.mu[i] == arm.muInit
    ensures IsSquare(s.covariance) && |s.covariance| == d
    ensures forall i, j :: 0 <= i < d && 0 <= j < d ==>
              s.covariance[i][j] == if i == j then arm.sigmaInit else 0.0
  {
    StoredArm(arm.name, arm.description, arm.muInit, arm.sigmaInit,
              InitialMu(d, arm.muInit), InitialCovariance(d, arm.sigmaInit))
  }

  /** The loop of `save_contextual_mab_to_db` that appends one stored arm per input arm. */
  method SaveContextualArms(experiment: ContextualBandit) returns (arms: seq<StoredArm>)
    ensures |arms| == |experiment.arms|
    ensures forall i :: 0 <= i < |arms| ==>
              && arms[i].name == experiment.arms[i].name
              && arms[i].description == experiment.arms[i].description
              && arms[i].muInit == experiment.arms[i].muInit
              && arms[i].sigmaInit == experiment.arms[i].sigmaInit
              && arms[i].mu == InitialMu(|experiment.contexts|, experiment.arms[i].muInit)
              && arms[i].covariance == InitialCovariance(|experiment.contexts|, experiment.arms[i].sigmaInit)
  {
    var d := |experiment.contexts|;
    arms := [];
    for k := 0 to |experiment.arms|
      invariant |arms| == k
      invariant forall i :: 0 <= i < k ==> arms[i] == StoreArm(experiment.arms[i], d)
    {
      var arm := experiment.arms[k];
      arms := arms + [StoredArm(arm.name, arm.description, arm.muInit, arm.sigmaInit,
                                InitialMu(d, arm.muInit), InitialCovariance(d, arm.sigmaInit))];
    }
  }

  /** The comprehension that builds one stored context per input context, in order. */
  function StoreContexts(contexts: seq<Context>): (s: seq<StoredContext>)
    ensures |s| == |contexts|
    ensures forall i :: 0 <= i < |s| ==>
              && s[i].name == contexts[i].name
              && s[i].description == contexts[i].description
              && ParseContextType(s[i].valueType) == Some(contexts[i].valueType)
  {
    seq(|contexts|, i requires 0 <= i < |contexts| =>
      StoredContext(contexts[i].name, contexts[i].description, ContextTypeValue(contexts[i].valueType)))
  }

  /** The initial covariance is symmetric. */
  lemma InitialCovarianceSymmetric(d: nat, sigmaInit: real)
    ensures Symmetric(InitialCovariance(d, sigmaInit))
  {
  }

  /**
    For sigma_init > 0 the initial covariance is invertible, with inverse
    (1 / sigma_init) times the identity: what the contextual update needs of
    the stored covariance before its first observation.
   */
  lemma InitialCovarianceInverse(d: nat, sigmaInit: real)
    requires sigmaInit > 0.0
    ensures IsInverse(InitialCovariance(d, sigmaInit), InitialCovariance(d, 1.0 / sigmaInit))
  {
    DiagonalProduct(d, sigmaInit, 1.0 / sigmaInit);
    DiagonalProduct(d, 1.0 / sigmaInit, sigmaInit);
  }

  /** The product of two scalar multiples of the identity whose scalars multiply to 1 is the identity. */
  lemma DiagonalProduct(d: nat, a: real, b: real)
    requires a * b == 1.0
    ensures MatMul(InitialCovariance(d, a), InitialCovariance(d, b)) == Identity(d)
  {
    var A := InitialCovariance(d, a);
    var B := InitialCovariance(d, b);
    var P := MatMul(A, B);
    forall i, j | 0 <= i < d && 0 <= j < d
      ensures P[i][j] == Identity(d)[i][j]
    {
      var terms := VMul(A[i], Column(B, j));
      forall k | 0 <= k < d && k != i ensures terms[k] == 0.0 { }
      SumSeqSingle(terms, i);
    }
    MatrixExt(P, Identity(d));
  }
}
