/**
  The contextual engine (backend/app/contextual_mab/sampling_utils.py): each
  arm holds a Normal belief (mean vector, covariance matrix) over the weights
  of a linear model of the reward in the context. Selection draws one weight
  vector per arm and picks the first arm with the largest linked score
  `link(draw · context)`; the update is a Bayesian linear-regression step.
 */
module ContextualSampling {
  import opened Wrappers
  import opened Enums
  import opened Selection
  import opened LinAlg
  import opened RealArith
  import MabSampling

  /** The fields of a stored contextual arm the engine reads. */
  datatype ArmBelief = ArmBelief(mu: Vector, covariance: Matrix)

  /** The fields of a contextual experiment the engine reads. */
  datatype ContextualExperiment = ContextualExperiment(prior: ArmPrior, reward: RewardLikelihood, arms: seq<ArmBelief>)

  /**
    The link function: the identity, or the logistic function. There is no
    `exp` over `real`, so the logistic function is a parameter.
   */
  function LinkFn(l: ContextLinkFunction, logistic: real -> real): (f: real -> real)
    ensures l == NoLink ==> forall x :: f(x) == x
  {
    match l
    case NoLink => (x: real) => x
    case Logistic => logistic
  }

  /**
    Every arm's belief has one coordinate per context entry and a square
    covariance of that size; `multivariate_normal` raises on any other shape.
   */
  predicate Conforms(mus: seq<Vector>, covs: seq<Matrix>, context: Vector) {
    && |mus| == |covs|
    && (forall i :: 0 <= i < |mus| ==> |mus[i]| == |context|)
    && (forall i :: 0 <= i < |covs| ==> IsSquare(covs[i]) && |covs[i]| == |context|)
  }

  /** `samples @ context`: arm i's drawn weight vector against the context. */
  function RawScores(mus: seq<Vector>, covs: seq<Matrix>, context: Vector, draw: MvnDraw): (s: seq<real>)
    requires Conforms(mus, covs, context)
    ensures |s| == |mus|
    ensures forall i :: 0 <= i < |mus| ==> s[i] == Dot(draw(mus[i], covs[i], i), context)
  {
    seq(|mus|, i requires 0 <= i < |mus| => Dot(draw(mus[i], covs[i], i), context))
  }

  /**
    `sample_normal`: the draws reshaped into rows of |context| entries, which
    numpy refuses for an empty context, and `argmax`, which it refuses on no
    arms (ValueError). Otherwise the first arm whose linked score is largest.
   */
  function SampleNormal(mus: seq<Vector>, covs: seq<Matrix>, context: Vector, link: ContextLinkFunction,
                        logistic: real -> real, draw: MvnDraw): (r: Result<nat, PyError>)
    requires Conforms(mus, covs, context)
    ensures r.Ok? <==> |mus| > 0 && |context| > 0
    ensures r.Err? ==> r.error == ValueError
    ensures r.Ok? ==> r.value < |mus| && IsFirstArgMax(MapReal(RawScores(mus, covs, context, draw), LinkFn(link, logistic)), r.value)
  {
    if |context| == 0 || |mus| == 0 then Err(ValueError)
    else Ok(ArgMax(MapReal(RawScores(mus, covs, context, draw), LinkFn(link, logistic))))
  }

  /** A strictly increasing logistic function selects the same arm as the identity link. */
  lemma IncreasingLinkSameChoice(mus: seq<Vector>, covs: seq<Matrix>, context: Vector, logistic: real -> real, draw: MvnDraw)
    requires Conforms(mus, covs, context)
    requires forall x: real, y: real :: x < y ==> logistic(x) < logistic(y)
    ensures SampleNormal(mus, covs, context, Logistic, logistic, draw) == SampleNormal(mus, covs, context, NoLink, logistic, draw)
  {
    if |context| > 0 && |mus| > 0 {
      var s := RawScores(mus, covs, context, draw);
      ArgMaxUnderIncreasingLink(s, logistic);
      assert MapReal(s, LinkFn(NoLink, logistic)) == s;
    }
  }

  function Mus(arms: seq<ArmBelief>): (s: seq<Vector>)
    ensures |s| == |arms| && forall i :: 0 <= i < |arms| ==> s[i] == arms[i].mu
  {
    seq(|arms|, i requires 0 <= i < |arms| => arms[i].mu)
  }

  function Covariances(arms: seq<ArmBelief>): (s: seq<Matrix>)
    ensures |s| == |arms| && forall i :: 0 <= i < |arms| ==> s[i] == arms[i].covariance
  {
    seq(|arms|, i requires 0 <= i < |arms| => arms[i].covariance)
  }

  /** The link `choose_arm` picks for a reward type: the identity for real-valued, else the logistic. */
  function LinkFor(reward: RewardLikelihood): (l: ContextLinkFunction)
    ensures l == NoLink <==> reward == NormalReward
  {
    if reward == NormalReward then NoLink else Logistic
  }

  /**
    `choose_arm`: a binary reward raises NotImplementedError; otherwise the
    arm is chosen by the identity link, i.e. by the largest raw score.
   */
  function ChooseArm(e: ContextualExperiment, context: Vector, logistic: real -> real, draw: MvnDraw): (r: Result<nat, PyError>)
    requires Conforms(Mus(e.arms), Covariances(e.arms), context)
    ensures e.reward == BernoulliReward ==> r == Err(NotImplementedError)
    ensures e.reward == NormalReward ==> (r.Ok? <==> |e.arms| > 0 && |context| > 0)
    ensures e.reward == NormalReward && r.Err? ==> r.error == ValueError
    ensures r.Ok? ==> r.value < |e.arms| && IsFirstArgMax(RawScores(Mus(e.arms), Covariances(e.arms), context, draw), r.value)
  {
    if e.reward == BernoulliReward then Err(NotImplementedError)
    else
      var r := SampleNormal(Mus(e.arms), Covariances(e.arms), context, LinkFor(e.reward), logistic, draw);
      assert MapReal(RawScores(Mus(e.arms), Covariances(e.arms), context, draw), LinkFn(NoLink, logistic)) ==
             RawScores(Mus(e.arms), Covariances(e.arms), context, draw);
      r
  }

  /** The logistic branch is unreachable: the choice never depends on the logistic function. */
  lemma LogisticNeverApplied(e: ContextualExperiment, context: Vector, f: real -> real, g: real -> real, draw: MvnDraw)
    requires Conforms(Mus(e.arms), Covariances(e.arms), context)
    ensures ChooseArm(e, context, f, draw) == ChooseArm(e, context, g, draw)
  {
    if e.reward == NormalReward && |e.arms| > 0 && |context| > 0 {
      var s := RawScores(Mus(e.arms), Covariances(e.arms), context, draw);
      FirstArgMaxUnique(s, ChooseArm(e, context, f, draw).value, ChooseArm(e, context, g, draw).value);
    }
  }

  // ---------------------------------------------------------------------
  // The update

  /** `context * reward / sigma_llhood**2`. */
  function ScaledContext(context: Vector, reward: real, likVar: real): (w: Vector)
    requires likVar > 0.0
    ensures |w| == |context| && forall i :: 0 <= i < |w| ==> w[i] == context[i] * reward / likVar
  {
    seq(|context|, i requires 0 <= i < |context| => context[i] * reward / likVar)
  }

  /**
    `np.linalg.inv(current_covariance) + (context.T @ context) / sigma_llhood**2`:
    on a 1-D context `context.T @ context` is the scalar |x|^2, which numpy
    adds to every entry of the precision.
   */
  function NewPrecision(precision: Matrix, context: Vector, likVar: real): (R: Matrix)
    requires IsSquare(precision) && |context| == |precision| && likVar > 0.0
    ensures IsSquare(R) && |R| == |precision|
    ensures forall i, j :: 0 <= i < |R| && 0 <= j < |R| ==> R[i][j] == precision[i][j] + Dot(context, context) / likVar
  {
    AddScalar(precision, Dot(context, context) / likVar)
  }

  /** The shapes `update_arm_normal` works with: a d×d covariance, a mean and a context of length d. */
  predicate Shaped(mu: Vector, cov: Matrix, context: Vector) {
    IsSquare(cov) && |mu| == |cov| && |context| == |cov|
  }

  /**
    `update_arm_normal`, with the likelihood variance sigma_L^2 as `likVar`.
    Either inversion may fail (LinAlgError). On success, for the inverse P of
    the covariance, the new covariance is the inverse of the new precision
    P + |x|^2 / sigma_L^2 (added entrywise), and the new mean solves the normal
    equations: new precision times new mean == P mu + x r / sigma_L^2.
   */
  function UpdateArmNormal(mu: Vector, cov: Matrix, reward: real, context: Vector, likVar: real, inv: Inverter)
    : (r: Result<(Vector, Matrix), PyError>)
    requires Shaped(mu, cov, context) && likVar > 0.0
    ensures r.Err? ==> r.error == LinAlgError
    ensures inv(cov).None? ==> r.Err?
    ensures r.Ok? ==>
              && |r.value.0| == |mu| && IsSquare(r.value.1) && |r.value.1| == |cov|
              && forall P :: IsInverse(cov, P) ==>
                   && IsInverse(NewPrecision(P, context, likVar), r.value.1)
                   && MatVec(NewPrecision(P, context, likVar), r.value.0) ==
                        VAdd(MatVec(P, mu), ScaledContext(context, reward, likVar))
  {
    match inv(cov)
    case None => Err(LinAlgError)
    case Some(P) =>
      var prec := NewPrecision(P, context, likVar);
      match inv(prec)
      case None => Err(LinAlgError)
      case Some(C) =>
        var b := VAdd(MatVec(P, mu), ScaledContext(context, reward, likVar));
        var newMu := MatVec(C, b);
        NormalEquations(prec, C, b);
        forall P' | IsInverse(cov, P') ensures P' == P {
          InverseUnique(cov, P', P);
        }
        Ok((newMu, C))
  }

  /** With C the inverse of A, A (C b) == b. */
  lemma NormalEquations(A: Matrix, C: Matrix, b: Vector)
    requires IsInverse(A, C) && |b| == |A|
    ensures MatVec(A, MatVec(C, b)) == b
  {
    MatVecAssoc(A, C, b);
    MatVecIdentity(b);
  }

  /** A symmetric covariance stays symmetric. */
  lemma UpdateKeepsSymmetry(mu: Vector, cov: Matrix, reward: real, context: Vector, likVar: real, inv: Inverter)
    requires Shaped(mu, cov, context) && likVar > 0.0 && Symmetric(cov)
    requires UpdateArmNormal(mu, cov, reward, context, likVar, inv).Ok?
    ensures Symmetric(UpdateArmNormal(mu, cov, reward, context, likVar, inv).value.1)
  {
    var P := inv(cov).value;
    InverseOfSymmetric(cov, P);
    AddScalarSymmetric(P, Dot(context, context) / likVar);
    InverseOfSymmetric(NewPrecision(P, context, likVar), UpdateArmNormal(mu, cov, reward, context, likVar, inv).value.1);
  }

  /**
    In one dimension the broadcast |x|^2 and the outer product x xᵀ coincide,
    so with the single context entry 1 the contextual update is the online
    Normal update of the non-contextual engine.
   */
  lemma ScalarUpdateAgreesWithOnline(m: real, v: real, reward: real, likVar: real, inv: Inverter)
    requires v > 0.0 && likVar > 0.0
    requires UpdateArmNormal([m], [[v]], reward, [1.0], likVar, inv).Ok?
    ensures var n := MabSampling.UpdateArmNormal(m, v, reward, likVar);
            UpdateArmNormal([m], [[v]], reward, [1.0], likVar, inv).value == ([n.mu], [[n.variance]])
  {
    ScalarSystem(m, v, reward, likVar, inv);
    var r := UpdateArmNormal([m], [[v]], reward, [1.0], likVar, inv).value;
    ScalarFinish(m, v, reward, likVar, r.0, r.1);
  }

  /** The update's contract instantiated at the prior precision [[1 / v]]. */
  lemma ScalarSystem(m: real, v: real, reward: real, likVar: real, inv: Inverter)
    requires v > 0.0 && likVar > 0.0
    requires UpdateArmNormal([m], [[v]], reward, [1.0], likVar, inv).Ok?
    ensures var r := UpdateArmNormal([m], [[v]], reward, [1.0], likVar, inv).value;
            && |r.0| == 1
            && IsInverse([[1.0 / v + 1.0 / likVar]], r.1)
            && MatVec([[1.0 / v + 1.0 / likVar]], r.0) == [(1.0 / v) * m + 1.0 * reward / likVar]
  {
    ScalarInverseOf(v);
    InstantiateUpdate([m], [[v]], reward, [1.0], likVar, inv, [[1.0 / v]]);
    ScalarPrecision(v, likVar);
    ScalarRightHandSide(v, m, reward, likVar);
  }

  /** The update's contract at one inverse P of the covariance. */
  lemma InstantiateUpdate(mu: Vector, cov: Matrix, reward: real, context: Vector, likVar: real, inv: Inverter, P: Matrix)
    requires Shaped(mu, cov, context) && likVar > 0.0 && IsInverse(cov, P)
    requires UpdateArmNormal(mu, cov, reward, context, likVar, inv).Ok?
    ensures var r := UpdateArmNormal(mu, cov, reward, context, likVar, inv).value;
            && |r.0| == |mu|
            && IsInverse(NewPrecision(P, context, likVar), r.1)
            && MatVec(NewPrecision(P, context, likVar), r.0) == VAdd(MatVec(P, mu), ScaledContext(context, reward, likVar))
  {
  }

  lemma ScalarInverseOf(v: real)
    requires v > 0.0
    ensures IsInverse([[v]], [[1.0 / v]])
  {
    OneByOneProduct([[v]], [[1.0 / v]]);
    OneByOneProduct([[1.0 / v]], [[v]]);
  }

  lemma ScalarPrecision(v: real, likVar: real)
    requires v > 0.0 && likVar > 0.0
    ensures NewPrecision([[1.0 / v]], [1.0], likVar) == [[1.0 / v + 1.0 / likVar]]
  {
    OneByOneDot(1.0, 1.0);
    assert NewPrecision([[1.0 / v]], [1.0], likVar)[0] == [1.0 / v + 1.0 / likVar];
  }

  lemma ScalarRightHandSide(v: real, m: real, reward: real, likVar: real)
    requires v > 0.0 && likVar > 0.0
    ensures VAdd(MatVec([[1.0 / v]], [m]), ScaledContext([1.0], reward, likVar)) == [(1.0 / v) * m + 1.0 * reward / likVar]
  {
    OneByOneMatVec([[1.0 / v]], [m]);
    var w := VAdd(MatVec([[1.0 / v]], [m]), ScaledContext([1.0], reward, likVar));
    assert w[0] == (1.0 / v) * m + 1.0 * reward / likVar;
  }

  /** Solving the 1×1 system gives the online step's mean and variance. */
  lemma ScalarFinish(m: real, v: real, reward: real, likVar: real, x: Vector, C: Matrix)
    requires v > 0.0 && likVar > 0.0 && |x| == 1
    requires IsInverse([[1.0 / v + 1.0 / likVar]], C)
    requires MatVec([[1.0 / v + 1.0 / likVar]], x) == [(1.0 / v) * m + 1.0 * reward / likVar]
    ensures var n := MabSampling.UpdateArmNormal(m, v, reward, likVar);
            x == [n.mu] && C == [[n.variance]]
  {
    var a := 1.0 / v + 1.0 / likVar;
    var q := (1.0 / v) * m + 1.0 * reward / likVar;
    OneByOneInverse([[a]], C);
    OneByOneMatVec([[a]], x);
    assert a * x[0] == q;
    var c := C[0][0];
    ScalarSolve(a, c, x[0], q);
    var n := MabSampling.UpdateArmNormal(m, v, reward, likVar);
    ScalarConjugate(v, likVar, 1.0 / v, a, c, m, reward, q, x[0], n);
    assert x == [x[0]];
    assert C[0] == [c];
  }

  /** A 1×1 matrix times a vector of one entry. */
  lemma OneByOneMatVec(A: Matrix, x: Vector)
    requires |A| == 1 && |A[0]| == 1 && |x| == 1
    ensures MatVec(A, x) == [A[0][0] * x[0]]
  {
    assert A[0] == [A[0][0]];
    assert x == [x[0]];
    OneByOneDot(A[0][0], x[0]);
    var w := MatVec(A, x);
    assert w[0] == Dot([A[0][0]], [x[0]]);
    assert w[0] == A[0][0] * x[0];
    assert w == [w[0]];
    assert w == [A[0][0] * x[0]];
  }

  /** The solution of a x == rhs is c rhs when a c == 1. */
  lemma ScalarSolve(a: real, c: real, x: real, rhs: real)
    requires a * c == 1.0 && a * x == rhs
    ensures x == c * rhs
  {
    assert c * rhs == (a * c) * x;
  }

  /** The precision-form entries are the online Normal step's mean and variance. */
  lemma ScalarConjugate(v: real, likVar: real, p: real, a: real, c: real, m: real, reward: real, q: real, mu': real,
                        n: MabSampling.NormalBelief)
    requires v > 0.0 && likVar > 0.0 && v * p == 1.0 && a == p + 1.0 / likVar && a * c == 1.0
    requires q == p * m + 1.0 * reward / likVar && mu' == c * q
    requires n.mu * (v + likVar) == m * likVar + reward * v && n.variance * (v + likVar) == v * likVar
    ensures mu' == n.mu && c == n.variance
  {
    ScalarPosterior(v, likVar, p, a, c, m, reward, q);
    Cancel(v + likVar, c, n.variance);
    Cancel(v + likVar, mu', n.mu);
  }

  lemma OneByOneDot(a: real, b: real)
    ensures Dot([a], [b]) == a * b
  {
    var w := VMul([a], [b]);
    assert w[0] == a * b;
    assert w[..0] == [];
    assert SumSeq(w) == SumSeq(w[..0]) + w[0];
  }

  /** Two 1×1 matrices are inverse when their entries multiply to 1. */
  lemma OneByOneInverse(A: Matrix, B: Matrix)
    requires IsInverse(A, B) && |A| == 1
    ensures A[0][0] * B[0][0] == 1.0
  {
    assert MatMul(A, B)[0][0] == Identity(1)[0][0];
    assert Column(B, 0) == [B[0][0]];
    assert A[0] == [A[0][0]];
    OneByOneDot(A[0][0], B[0][0]);
  }

  /**
    The quirk of the broadcast precision: with the identity covariance and the
    context (1, 0), numpy's P + |x|^2 gives [[2, 1], [1, 2]], whereas the
    conjugate rule P + x xᵀ gives [[2, 0], [0, 1]].
   */
  lemma BroadcastDiffersFromOuterProduct()
    ensures NewPrecision(Identity(2), [1.0, 0.0], 1.0) == [[2.0, 1.0], [1.0, 2.0]]
    ensures MatAdd(Identity(2), ScaledOuter([1.0, 0.0], 1.0)) == [[2.0, 0.0], [0.0, 1.0]]
  {
    var x := [1.0, 0.0];
    var w := VMul(x, x);
    assert w == [1.0, 0.0];
    assert w[..1][..0] == [];
    assert SumSeq(w[..1]) == 1.0;
    assert Dot(x, x) == SumSeq(w[..1]) + w[1];
    var R := NewPrecision(Identity(2), x, 1.0);
    assert R[0] == [2.0, 1.0];
    assert R[1] == [1.0, 2.0];
    var O := MatAdd(Identity(2), ScaledOuter(x, 1.0));
    assert O[0] == [2.0, 0.0];
    assert O[1] == [0.0, 1.0];
  }

  // ---------------------------------------------------------------------
  // Dispatch

  /** The one (prior, reward) pair `update_arm_params` updates. */
  predicate Updatable(prior: ArmPrior, reward: RewardLikelihood) {
    prior == NormalPrior && reward == NormalReward
  }

  /**
    `update_arm_params`, with the stored covariance passed to the update as
    the matrix it is (the evidently intended `np.array`): the Normal/real-valued
    pair is updated with sigma_L = 1.0 (so sigma_L^2 is `MabSampling.LikelihoodVariance`),
    every other pair gives no update.
   */
  function UpdateArmParams(arm: ArmBelief, prior: ArmPrior, reward: RewardLikelihood, observed: real,
                           context: Vector, inv: Inverter): (r: Result<Option<(Vector, Matrix)>, PyError>)
    requires Updatable(prior, reward) ==> Shaped(arm.mu, arm.covariance, context)
    ensures !Updatable(prior, reward) ==> r == Ok(None)
    ensures r.Err? ==> r.error == LinAlgError
    ensures Updatable(prior, reward) && r.Ok? ==>
              && r.value.Some? && |r.value.value.0| == |arm.mu|
              && forall P :: IsInverse(arm.covariance, P) ==>
                   && IsInverse(NewPrecision(P, context, MabSampling.LikelihoodVariance), r.value.value.1)
                   && MatVec(NewPrecision(P, context, MabSampling.LikelihoodVariance), r.value.value.0) ==
                        VAdd(MatVec(P, arm.mu), ScaledContext(context, observed, MabSampling.LikelihoodVariance))
  {
    if Updatable(prior, reward) then
      match UpdateArmNormal(arm.mu, arm.covariance, observed, context, MabSampling.LikelihoodVariance, inv)
      case Err(e) => Err(e)
      case Ok(u) => Ok(Some(u))
    else Ok(None)
  }

  /**
    `update_arm_params` as written: `np.ndarray(arm.covariance)` reads the
    covariance as a shape. A non-empty covariance is a list of lists, which
    numpy refuses as a shape (TypeError); an empty one gives a 0-d array that
    `np.linalg.inv` refuses (LinAlgError). Other pairs give no update.
   */
  function UpdateArmParamsAsWritten(arm: ArmBelief, prior: ArmPrior, reward: RewardLikelihood, observed: real,
                                    context: Vector): (r: Result<Option<(Vector, Matrix)>, PyError>)
    ensures !Updatable(prior, reward) ==> r == Ok(None)
    ensures Updatable(prior, reward) ==> r.Err?
  {
    if Updatable(prior, reward) then
      if |arm.covariance| == 0 then Err(LinAlgError) else Err(TypeError)
    else Ok(None)
  }

  /** Inversion of 1×1 matrices, enough to run the update in one dimension. */
  function ScalarInverse(M: Matrix): (r: Option<Matrix>)
    ensures r.Some? ==> IsInverse(M, r.value)
  {
    if |M| == 1 && |M[0]| == 1 && M[0][0] != 0.0 then
      var B := [[1.0 / M[0][0]]];
      OneByOneProduct(M, B);
      OneByOneProduct(B, M);
      Some(B)
    else None
  }

  lemma OneByOneProduct(A: Matrix, B: Matrix)
    requires IsSquare(A) && IsSquare(B) && |A| == |B| == 1 && A[0][0] * B[0][0] == 1.0
    ensures MatMul(A, B) == Identity(1)
  {
    assert Column(B, 0) == [B[0][0]];
    assert A[0] == [A[0][0]];
    OneByOneDot(A[0][0], B[0][0]);
    var C := MatMul(A, B);
    assert C[0][0] == 1.0;
    assert C[0] == [1.0];
    assert Identity(1)[0] == [1.0];
  }

  /**
    The initial arm of an experiment with one context and sigma_init = 1,
    observed with reward 1 in the context (1): as written the update raises
    TypeError; the corrected update returns the posterior mean 0.5 and
    covariance 0.5.
   */
  lemma InitialArmUpdate()
    ensures UpdateArmParamsAsWritten(ArmBelief([0.0], [[1.0]]), NormalPrior, NormalReward, 1.0, [1.0]) == Err(TypeError)
    ensures UpdateArmParams(ArmBelief([0.0], [[1.0]]), NormalPrior, NormalReward, 1.0, [1.0], ScalarInverse) ==
            Ok(Some(([0.5], [[0.5]])))
  {
    InitialUpdateValue();
  }

  lemma InitialUpdateValue()
    ensures UpdateArmNormal([0.0], [[1.0]], 1.0, [1.0], 1.0, ScalarInverse) == Ok(([0.5], [[0.5]]))
  {
    InitialUpdateSucceeds();
    ScalarUpdateAgreesWithOnline(0.0, 1.0, 1.0, 1.0, ScalarInverse);
    var n := MabSampling.UpdateArmNormal(0.0, 1.0, 1.0, 1.0);
    assert n.mu == 0.5 && n.variance == 0.5;
  }

  lemma InitialUpdateSucceeds()
    ensures UpdateArmNormal([0.0], [[1.0]], 1.0, [1.0], 1.0, ScalarInverse).Ok?
  {
    assert ScalarInverse([[1.0]]) == Some([[1.0]]);
    ScalarInverseSome([[1.0]], NewPrecision([[1.0]], [1.0], 1.0));
  }

  /** The precision after one update of [[1]] is again a non-zero 1×1 matrix, which ScalarInverse inverts. */
  lemma ScalarInverseSome(P: Matrix, R: Matrix)
    requires P == [[1.0]] && R == NewPrecision(P, [1.0], 1.0)
    ensures ScalarInverse(R).Some?
  {
    OneByOneDot(1.0, 1.0);
    assert R[0][0] == 2.0;
  }
}
