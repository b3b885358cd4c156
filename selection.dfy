/**
  What every Thompson-sampling chooser of the engine shares: numpy's `argmax`
  (the index of the first maximal entry), the random draws (injected, one per
  arm), and the kinds of exception the engine lets escape.
 */
module Selection {
  import opened Wrappers

  /** Python exception kinds raised by the engine or by numpy inside it. */
  datatype PyError = ValueError | TypeError | NotImplementedError | LinAlgError

  /** The sample numpy's `beta(a, b)` returns for arm `i`. */
  type BetaDraw = (real, real, nat) -> real

  /**
    The sample numpy's `normal(loc, scale)` returns for arm `i`. The model
    parametrises a Normal by its variance `scale * scale` (there is no square
    root over `real`), which determines the distribution when `scale >= 0`.
   */
  type NormalDraw = (real, real, nat) -> real

  /** The sample `multivariate_normal(mean, cov)` returns for arm `i`: a vector as long as the mean. */
  type MvnDraw = f: (seq<real>, seq<seq<real>>, nat) -> seq<real>
    | forall m, c, i :: |f(m, c, i)| == |m|
    witness (m: seq<real>, c: seq<seq<real>>, i: nat) => m

  /** `k` is what `argmax` returns on `s`: a maximal entry, and the first one on ties. */
  predicate IsFirstArgMax(s: seq<real>, k: nat) {
    && k < |s|
    && (forall j :: 0 <= j < |s| ==> s[j] <= s[k])
    && (forall j :: 0 <= j < k ==> s[j] < s[k])
  }

  /** numpy's `argmax` on a non-empty vector of reals. */
  function ArgMax(s: seq<real>): (k: nat)
    requires |s| > 0
    ensures IsFirstArgMax(s, k)
  {
    if |s| == 1 then 0
    else
      var k := ArgMax(s[..|s| - 1]);
      if s[k] < s[|s| - 1] then |s| - 1 else k
  }

  /** The specification determines the index: two first maxima coincide. */
  lemma FirstArgMaxUnique(s: seq<real>, k1: nat, k2: nat)
    requires IsFirstArgMax(s, k1) && IsFirstArgMax(s, k2)
    ensures k1 == k2
  {
    assert s[k2] <= s[k1] && s[k1] <= s[k2];
  }

  /** Applying a link function to every entry. */
  function MapReal(s: seq<real>, f: real -> real): (t: seq<real>)
    ensures |t| == |s|
  {
    seq(|s|, i requires 0 <= i < |s| => f(s[i]))
  }

  /**
    A strictly increasing link does not change which index `argmax` picks,
    so scoring arms by `link(score)` or by `score` selects the same arm.
   */
  lemma ArgMaxUnderIncreasingLink(s: seq<real>, f: real -> real)
    requires |s| > 0
    requires forall x: real, y: real :: x < y ==> f(x) < f(y)
    ensures ArgMax(MapReal(s, f)) == ArgMax(s)
  {
    var k := ArgMax(s);
    var t := MapReal(s, f);
    assert IsFirstArgMax(t, k) by {
      forall j | 0 <= j < |t|
        ensures t[j] <= t[k]
      {
        assert s[j] <= s[k];
        if s[j] < s[k] { assert f(s[j]) < f(s[k]); }
      }
      forall j | 0 <= j < k
        ensures t[j] < t[k]
      {
        assert f(s[j]) < f(s[k]);
      }
    }
    FirstArgMaxUnique(t, k, ArgMax(t));
  }

  /** An IEEE double as far as `argmax` cares: a real value or NaN. */
  datatype Float = Real(v: real) | NaN

  /** The index of the first NaN entry, if there is one. */
  function FirstNaN(s: seq<Float>): (r: Option<nat>)
    ensures r.Some? ==> r.value < |s| && s[r.value].NaN? && forall j :: 0 <= j < r.value ==> s[j].Real?
    ensures r.None? ==> forall j :: 0 <= j < |s| ==> s[j].Real?
  {
    if |s| == 0 then None
    else if s[0].NaN? then Some(0)
    else match FirstNaN(s[1..])
      case None => None
      case Some(k) => Some(k + 1)
  }

  function Values(s: seq<Float>): (t: seq<real>)
    requires forall j :: 0 <= j < |s| ==> s[j].Real?
    ensures |t| == |s| && forall j :: 0 <= j < |s| ==> s[j] == Real(t[j])
  {
    seq(|s|, i requires 0 <= i < |s| => s[i].v)
  }

  /**
    numpy's `argmax` on doubles: NaN compares as the maximum, so the first
    NaN wins; without NaN it is the first maximum of the values.
   */
  function ArgMaxFloat(s: seq<Float>): (k: nat)
    requires |s| > 0
    ensures k < |s|
    ensures (exists j :: 0 <= j < |s| && s[j].NaN?) ==>
              s[k].NaN? && forall j :: 0 <= j < k ==> s[j].Real?
    ensures (forall j :: 0 <= j < |s| ==> s[j].Real?) ==> IsFirstArgMax(Values(s), k)
  {
    match FirstNaN(s)
    case Some(k) => k
    case None => ArgMax(Values(s))
  }
}
