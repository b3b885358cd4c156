/** Small facts about products and quotients of reals that the solver does not find unaided. */
module RealArith {

  lemma MulPos(a: real, b: real)
    requires a > 0.0 && b > 0.0
    ensures a * b > 0.0
  {
  }

  /** The same fact for a product handed over by name, as when `a` and `b` are the same value. */
  lemma ProductPos(a: real, b: real, p: real)
    requires a > 0.0 && b > 0.0 && p == a * b
    ensures p > 0.0
  {
  }

  lemma MulNonNeg(a: real, b: real)
    requires a >= 0.0 && b >= 0.0
    ensures a * b >= 0.0
  {
    if a > 0.0 && b > 0.0 {
      MulPos(a, b);
    }
  }

  lemma MulMono(a: real, b: real, c: real)
    requires a <= b && c >= 0.0
    ensures a * c <= b * c
  {
    assert b * c - a * c == (b - a) * c;
    MulNonNeg(b - a, c);
  }

  /** a c <= b c with c > 0 gives a <= b. */
  lemma MulLeCancel(a: real, b: real, c: real)
    requires c > 0.0 && a * c <= b * c
    ensures a <= b
  {
    if a > b {
      MulPos(a - b, c);
    }
  }

  /** Cancelling a non-zero factor. */
  lemma Cancel(c: real, a: real, b: real)
    requires c != 0.0 && c * a == c * b
    ensures a == b
  {
    assert c * (a - b) == 0.0;
  }

  /** x is the quotient y / d exactly when x d == y. */
  lemma DivChar(x: real, y: real, d: real)
    requires d != 0.0
    ensures x == y / d <==> x * d == y
  {
  }

  /** a < b and c > 0 give a c < b c. */
  lemma MulStrict(a: real, b: real, c: real)
    requires a < b && c > 0.0
    ensures a * c < b * c
  {
    MulPos(b - a, c);
    assert b * c - a * c == (b - a) * c;
  }

  /** a c < b c with c > 0 gives a < b. */
  lemma MulLtCancel(a: real, b: real, c: real)
    requires c > 0.0 && a * c < b * c
    ensures a < b
  {
    if a >= b {
      MulMono(b, a, c);
    }
  }

  lemma WeightedLower(lo: real, a: real, b: real, wa: real, wb: real, m: real)
    requires wa >= 0.0 && wb >= 0.0 && lo <= a && lo <= b
    requires m * (wb + wa) == a * wa + b * wb
    ensures lo * (wb + wa) <= m * (wb + wa)
  {
    MulMono(lo, a, wa);
    MulMono(lo, b, wb);
    assert lo * (wb + wa) == lo * wb + lo * wa;
  }

  lemma WeightedUpper(hi: real, a: real, b: real, wa: real, wb: real, m: real)
    requires wa >= 0.0 && wb >= 0.0 && a <= hi && b <= hi
    requires m * (wb + wa) == a * wa + b * wb
    ensures m * (wb + wa) <= hi * (wb + wa)
  {
    MulMono(a, hi, wa);
    MulMono(b, hi, wb);
    assert hi * (wb + wa) == hi * wb + hi * wa;
  }

  /** A weighted average of two values in [lo, hi] lies in [lo, hi]. */
  lemma WeightedBetween(lo: real, hi: real, a: real, b: real, wa: real, wb: real, m: real)
    requires wa >= 0.0 && wb >= 0.0 && wb + wa > 0.0
    requires lo <= a <= hi && lo <= b <= hi
    requires m * (wb + wa) == a * wa + b * wb
    ensures lo <= m <= hi
  {
    WeightedLower(lo, a, b, wa, wb, m);
    WeightedUpper(hi, a, b, wa, wb, m);
    MulLeCancel(lo, m, wb + wa);
    MulLeCancel(m, hi, wb + wa);
  }

  /** p s == a b with a >= 0, 0 <= b <= s and s > 0 gives p <= a. */
  lemma RatioBelow(p: real, a: real, b: real, s: real)
    requires a >= 0.0 && b <= s && s > 0.0 && p * s == a * b
    ensures p <= a
  {
    MulMono(b, s, a);
    assert b * a == a * b && s * a == a * s;
    MulLeCancel(p, a, s);
  }

  /** p s == a b with a > 0, b < s and s > 0 gives p < a. */
  lemma RatioStrictlyBelow(p: real, a: real, b: real, s: real)
    requires a > 0.0 && b < s && s > 0.0 && p * s == a * b
    ensures p < a
  {
    MulStrict(b, s, a);
    assert b * a == a * b && s * a == a * s;
    MulLtCancel(p, a, s);
  }

  /** p (a + b) == a b with a, b >= 0: p is at most a and b, strictly when both are positive. */
  lemma HarmonicShrinks(p: real, a: real, b: real)
    requires a >= 0.0 && b >= 0.0 && a + b > 0.0 && p * (a + b) == a * b
    ensures 0.0 <= p <= a && p <= b
    ensures a > 0.0 && b > 0.0 ==> p < a && p < b
  {
    MulNonNeg(a, b);
    if p < 0.0 {
      MulStrict(p, 0.0, a + b);
    }
    assert b * a == a * b;
    RatioBelow(p, a, b, a + b);
    RatioBelow(p, b, a, a + b);
    if a > 0.0 && b > 0.0 {
      RatioStrictlyBelow(p, a, b, a + b);
      RatioStrictlyBelow(p, b, a, a + b);
    }
  }

  /** p (k v + L) == v L with v, L > 0 and k >= 0: 1 / p == 1 / v + k / L. */
  lemma PrecisionsAdd(p: real, v: real, k: real, likVar: real)
    requires v > 0.0 && likVar > 0.0 && k >= 0.0 && p * (k * v + likVar) == v * likVar
    ensures p > 0.0 && 1.0 / p == 1.0 / v + k / likVar
  {
    var d := k * v + likVar;
    MulNonNeg(k, v);
    MulPos(v, likVar);
    if p <= 0.0 {
      MulMono(p, 0.0, d);
    }
    var rhs := 1.0 / v + k / likVar;
    assert rhs * (v * likVar) == d by {
      assert (1.0 / v) * (v * likVar) == likVar;
      assert (k / likVar) * (v * likVar) == k * v;
    }
    assert (1.0 / p) * (v * likVar) == d by {
      assert (1.0 / p) * (p * d) == d;
    }
    Cancel(v * likVar, rhs, 1.0 / p);
  }

  /** Dividing a non-negative number by a larger positive number gives less. */
  lemma DivMonoDenominator(x: real, dn: real, dm: real)
    requires x >= 0.0 && 0.0 < dn <= dm
    ensures x / dm <= x / dn
  {
    var qn := x / dn;
    var qm := x / dm;
    assert qn * dn == x && qm * dm == x;
    assert qn >= 0.0 by {
      if qn < 0.0 {
        MulMono(qn, 0.0, dn);
      }
    }
    MulMono(dn, dm, qm);
    assert qm * dn <= qn * dn;
    MulLeCancel(qm, qn, dn);
  }

  /** A common quotient factors out of a sum of two products. */
  lemma DistributeQuotient(c: real, d: real, a: real, b: real)
    requires d != 0.0
    ensures (c / d) * a + (c / d) * b == (c * a + c * b) / d
  {
    assert (c * a + c * b) / d == (c / d) * (a + b);
  }

  /** (a mu + a s) / d splits as (a mu + b s) / d plus the gap (a - b) s / d. */
  lemma QuotientGap(a: real, b: real, mu: real, s: real, d: real, f: real)
    requires d != 0.0 && f == (a * mu + b * s) / d
    ensures f + (a - b) * s / d == (a / d) * mu + (a / d) * s
  {
    assert (a * mu + b * s) / d + (a - b) * s / d == (a * mu + a * s) / d;
    DistributeQuotient(a, d, mu, s);
  }

  /**
    The scalar conjugate step in precision form: with p == 1 / v,
    a == p + 1 / L, a c == 1 and q == p m + r / L, c (v + L) == v L and
    c q (v + L) == m L + r v.
   */
  lemma ScalarPosterior(v: real, likVar: real, p: real, a: real, c: real, m: real, r: real, q: real)
    requires v > 0.0 && likVar > 0.0 && v * p == 1.0 && a == p + 1.0 / likVar && a * c == 1.0
    requires q == p * m + 1.0 * r / likVar
    ensures c * (v + likVar) == v * likVar
    ensures c * q * (v + likVar) == m * likVar + r * v
  {
    var k := v * likVar;
    assert a * k == likVar + v by {
      assert p * k == likVar;
    }
    assert c * (v + likVar) == k by {
      assert c * (v + likVar) == c * (a * k);
    }
    assert q * k == m * likVar + r * v by {
      assert p * k == likVar;
    }
    assert c * q * (v + likVar) == (c * (v + likVar)) * q;
  }
}
