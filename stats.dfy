/** The numpy and builtin statistics the evaluation reports, over real numbers. */
module Stats {

  /** A numpy float result: `np.mean([])` is `nan`, everything else a real number. */
  datatype Stat = NaN | Value(v: real)

  function Sum(xs: seq<real>): real
  {
    if xs == [] then 0.0 else Sum(xs[..|xs| - 1]) + xs[|xs| - 1]
  }

  /** The sum of a concatenation is the sum of the sums. */
  lemma {:induction false} SumConcat(a: seq<real>, b: seq<real>)
    ensures Sum(a + b) == Sum(a) + Sum(b)
    decreases |b|
  {
    if b == [] {
      assert a + b == a;
    } else {
      assert (a + b)[..|a + b| - 1] == a + b[..|b| - 1];
      SumConcat(a, b[..|b| - 1]);
    }
  }

  /** Every element at least `lo` puts the sum at least `n * lo`. */
  lemma {:induction false} SumAtLeast(xs: seq<real>, lo: real)
    requires forall i :: 0 <= i < |xs| ==> lo <= xs[i]
    ensures |xs| as real * lo <= Sum(xs)
  {
    if xs != [] {
      SumAtLeast(xs[..|xs| - 1], lo);
    }
  }

  /** Every element at most `hi` puts the sum at most `n * hi`. */
  lemma {:induction false} SumAtMost(xs: seq<real>, hi: real)
    requires forall i :: 0 <= i < |xs| ==> xs[i] <= hi
    ensures Sum(xs) <= |xs| as real * hi
  {
    if xs != [] {
      SumAtMost(xs[..|xs| - 1], hi);
    }
  }

  /** `np.mean(xs)` of a non-empty list */
  function Mean(xs: seq<real>): real
    requires |xs| > 0
  {
    Sum(xs) / |xs| as real
  }

  /** `np.mean(xs)`, `nan` for the empty list. */
  function MeanOf(xs: seq<real>): (r: Stat)
    ensures r.NaN? <==> |xs| == 0
  {
    if |xs| == 0 then NaN else Value(Mean(xs))
  }

  lemma MulDiv(x: real, n: real)
    requires n > 0.0
    ensures n * (x / n) == x
  {
  }

  lemma DivCongruence(x: real, y: real, n: real, m: real)
    requires x == y && n == m && n != 0.0
    ensures x / n == y / m
  {
  }

  lemma WeightedTotal(sa: real, sb: real, na: real, nb: real, ma: real, mb: real, m: real, n: real)
    requires na > 0.0 && nb > 0.0 && ma == sa / na && mb == sb / nb
    requires n == na + nb && m == (sa + sb) / n
    ensures m == (na * ma + nb * mb) / n
  {
    MulDiv(sa, na);
    MulDiv(sb, nb);
  }

  /** The mean of a pooled list is its total over its total count. */
  lemma PooledMean(a: seq<real>, b: seq<real>)
    requires |a| + |b| > 0
    ensures Mean(a + b) == (Sum(a) + Sum(b)) / (|a| + |b|) as real
  {
    SumConcat(a, b);
    assert |a + b| == |a| + |b|;
    DivCongruence(Sum(a + b), Sum(a) + Sum(b), |a + b| as real, (|a| + |b|) as real);
  }

  /** The mean of a pooled list is the size-weighted average of the two means (and so not their
      plain average when the sizes differ). */
  lemma PooledMeanWeighted(a: seq<real>, b: seq<real>)
    requires |a| > 0 && |b| > 0
    ensures Mean(a + b) == (|a| as real * Mean(a) + |b| as real * Mean(b)) / (|a| + |b|) as real
  {
    PooledMean(a, b);
    var m := Mean(a + b);
    assert m == (Sum(a) + Sum(b)) / (|a| + |b|) as real;
    WeightedTotal(Sum(a), Sum(b), |a| as real, |b| as real, Mean(a), Mean(b), m, (|a| + |b|) as real);
  }

  /** `np.mean` of two pooled non-empty lists, as the size-weighted average of their means. */
  lemma PooledMeanOf(a: seq<real>, b: seq<real>, na: real, nb: real)
    requires |a| > 0 && |b| > 0 && na == |a| as real && nb == |b| as real
    ensures MeanOf(a + b) == Value((na * MeanOf(a).v + nb * MeanOf(b).v) / (na + nb))
  {
    PooledMeanWeighted(a, b);
  }

  /** A mean lies within the bounds of its elements. */
  lemma MeanBounds(xs: seq<real>, lo: real, hi: real)
    requires |xs| > 0
    requires forall i :: 0 <= i < |xs| ==> lo <= xs[i] <= hi
    ensures lo <= Mean(xs) <= hi
  {
    SumAtLeast(xs, lo);
    SumAtMost(xs, hi);
    var n := |xs| as real;
    MulDiv(Sum(xs), n);
    assert n * Mean(xs) >= n * lo;
    assert n * Mean(xs) <= n * hi;
  }

  /** A square, which is never negative. */
  function Square(d: real): (r: real)
    ensures r >= 0.0
  {
    if d >= 0.0 then d * d else (-d) * (-d)
  }

  /** The squared distances of the elements from their mean. */
  function SquaredDeviations(xs: seq<real>): (r: seq<real>)
    requires |xs| > 0
    ensures |r| == |xs|
    ensures forall i :: 0 <= i < |r| ==> r[i] == Square(xs[i] - Mean(xs))
  {
    var m := Mean(xs);
    seq(|xs|, i requires 0 <= i < |xs| => Square(xs[i] - m))
  }

  /** `np.var(xs)`: the population variance; `np.std` is its square root. */
  function Variance(xs: seq<real>): (r: Stat)
    ensures r.NaN? <==> |xs| == 0
  {
    if |xs| == 0 then NaN else Value(Mean(SquaredDeviations(xs)))
  }

  /** A variance is never negative. */
  lemma VarianceNonNegative(xs: seq<real>)
    ensures Variance(xs).Value? ==> Variance(xs).v >= 0.0
  {
    if |xs| > 0 {
      var d := SquaredDeviations(xs);
      assert forall i :: 0 <= i < |d| ==> d[i] >= 0.0;
      SumAtLeast(d, 0.0);
    }
  }

  /** `max(xs)`: a largest element. */
  function Max(xs: seq<int>): (r: int)
    requires |xs| > 0
    ensures exists i :: 0 <= i < |xs| && r == xs[i]
    ensures forall i :: 0 <= i < |xs| ==> xs[i] <= r
  {
    if |xs| == 1 then xs[0]
    else
      var m := Max(xs[..|xs| - 1]);
      assert forall i :: 0 <= i < |xs| - 1 ==> xs[..|xs| - 1][i] == xs[i];
      if xs[|xs| - 1] > m then xs[|xs| - 1] else m
  }

  /** `min(xs)`: a least element. */
  function Min(xs: seq<real>): (r: real)
    requires |xs| > 0
    ensures exists i :: 0 <= i < |xs| && r == xs[i]
    ensures forall i :: 0 <= i < |xs| ==> r <= xs[i]
  {
    if |xs| == 1 then xs[0]
    else
      var m := Min(xs[..|xs| - 1]);
      assert forall i :: 0 <= i < |xs| - 1 ==> xs[..|xs| - 1][i] == xs[i];
      if xs[|xs| - 1] < m then xs[|xs| - 1] else m
  }
}
