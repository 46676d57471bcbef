/**
 Sample statistics over a finite window of exact real numbers: the sum, the
 simple mean and the sample (n - 1) variance that a rolling window reduces to.
 The standard deviation is the square root of the sample variance; the model
 carries the variance itself, since real square roots are not available.
 */
module Stats {

  /** Sum of the sample. */
  function Sum(xs: seq<real>): real
  {
    if xs == [] then 0.0 else xs[0] + Sum(xs[1..])
  }

  /** Unweighted mean of a non-empty sample. */
  function Mean(xs: seq<real>): (r: real)
    requires |xs| > 0
    ensures r * (|xs| as real) == Sum(xs)
  {
    Sum(xs) / (|xs| as real)
  }

  /** The square of d. */
  function Sq(d: real): real
  {
    d * d
  }

  function Product(a: real, b: real): real
  {
    a * b
  }

  lemma ProductPositive(a: real, b: real)
    requires (a > 0.0 && b > 0.0) || (a < 0.0 && b < 0.0)
    ensures Product(a, b) > 0.0
  {
    if a < 0.0 {
      assert a * b == (-a) * (-b);
    }
  }

  /** A square is never negative, and is positive for every non-zero d. */
  lemma Square(d: real)
    ensures Sq(d) >= 0.0
    ensures d != 0.0 ==> Sq(d) > 0.0
  {
    if d != 0.0 {
      ProductPositive(d, d);
      assert Sq(d) == Product(d, d);
    }
  }

  /** Sum of the squared deviations of the sample from the point m. */
  function SumSqDev(xs: seq<real>, m: real): (r: real)
    ensures r >= 0.0
  {
    if xs == [] then 0.0
    else
      Square(xs[0] - m);
      Sq(xs[0] - m) + SumSqDev(xs[1..], m)
  }

  /** Sample variance (divisor n - 1); the square of the sample standard deviation. */
  function SampleVariance(xs: seq<real>): (r: real)
    requires |xs| >= 2
    ensures r >= 0.0
  {
    SumSqDev(xs, Mean(xs)) / ((|xs| - 1) as real)
  }

  /** The sample with c added to every element. */
  function Shift(xs: seq<real>, c: real): seq<real>
  {
    seq(|xs|, i requires 0 <= i < |xs| => xs[i] + c)
  }

  /** Every element of the sample is the same. */
  predicate Constant(xs: seq<real>)
  {
    forall i | 0 <= i < |xs| :: xs[i] == xs[0]
  }

  lemma {:induction false} SumAppend(xs: seq<real>, ys: seq<real>)
    ensures Sum(xs + ys) == Sum(xs) + Sum(ys)
  {
    if xs != [] {
      assert (xs + ys)[1..] == xs[1..] + ys;
      SumAppend(xs[1..], ys);
    } else {
      assert xs + ys == ys;
    }
  }

  /** Dropping the oldest element and appending a new one changes the sum by their difference. */
  lemma SumSlide(xs: seq<real>, y: real)
    requires |xs| > 0
    ensures Sum(xs[1..] + [y]) == Sum(xs) - xs[0] + y
  {
    SumAppend(xs[1..], [y]);
    assert [y][1..] == [];
  }

  lemma {:induction false} SumOfConstant(xs: seq<real>, c: real)
    requires forall i | 0 <= i < |xs| :: xs[i] == c
    ensures Sum(xs) == (|xs| as real) * c
  {
    if xs != [] {
      SumOfConstant(xs[1..], c);
    }
  }

  lemma {:induction false} SumBounds(xs: seq<real>, lo: real, hi: real)
    requires forall i | 0 <= i < |xs| :: lo <= xs[i] <= hi
    ensures (|xs| as real) * lo <= Sum(xs) <= (|xs| as real) * hi
  {
    if xs != [] {
      SumBounds(xs[1..], lo, hi);
    }
  }

  /** The mean lies between any lower and upper bound of the sample. */
  lemma MeanBounds(xs: seq<real>, lo: real, hi: real)
    requires |xs| > 0
    requires forall i | 0 <= i < |xs| :: lo <= xs[i] <= hi
    ensures lo <= Mean(xs) <= hi
  {
    SumBounds(xs, lo, hi);
    var n := |xs| as real;
    assert Sum(xs) / n >= lo by { assert Sum(xs) >= n * lo; }
    assert Sum(xs) / n <= hi by { assert Sum(xs) <= n * hi; }
  }

  lemma {:induction false} SumShift(xs: seq<real>, c: real)
    ensures Sum(Shift(xs, c)) == Sum(xs) + (|xs| as real) * c
  {
    if xs != [] {
      assert Shift(xs, c)[1..] == Shift(xs[1..], c);
      SumShift(xs[1..], c);
    } else {
      assert Shift(xs, c) == [];
    }
  }

  /** Adding c to every element adds c to the mean. */
  lemma MeanShift(xs: seq<real>, c: real)
    requires |xs| > 0
    ensures |Shift(xs, c)| == |xs|
    ensures Mean(Shift(xs, c)) == Mean(xs) + c
  {
    SumShift(xs, c);
    var n := |xs| as real;
    assert (Sum(xs) + n * c) / n == Sum(xs) / n + c;
  }

  lemma {:induction false} SumSqDevShift(xs: seq<real>, m: real, c: real)
    ensures SumSqDev(Shift(xs, c), m + c) == SumSqDev(xs, m)
  {
    if xs != [] {
      assert Shift(xs, c)[1..] == Shift(xs[1..], c);
      SumSqDevShift(xs[1..], m, c);
    } else {
      assert Shift(xs, c) == [];
    }
  }

  /** Adding c to every element leaves the sample variance unchanged. */
  lemma VarianceShift(xs: seq<real>, c: real)
    requires |xs| >= 2
    ensures |Shift(xs, c)| == |xs|
    ensures SampleVariance(Shift(xs, c)) == SampleVariance(xs)
  {
    MeanShift(xs, c);
    SumSqDevShift(xs, Mean(xs), c);
  }

  /** The squared deviations from m vanish exactly when every element equals m. */
  lemma {:induction false} SumSqDevZeroIff(xs: seq<real>, m: real)
    ensures SumSqDev(xs, m) == 0.0 <==> forall i | 0 <= i < |xs| :: xs[i] == m
  {
    if xs != [] {
      SumSqDevZeroIff(xs[1..], m);
      Square(xs[0] - m);
      if forall i | 0 <= i < |xs| :: xs[i] == m {
        assert forall i | 0 <= i < |xs[1..]| :: xs[1..][i] == m by {
          forall i | 0 <= i < |xs[1..]| ensures xs[1..][i] == m { assert xs[1..][i] == xs[i + 1]; }
        }
      }
      if SumSqDev(xs, m) == 0.0 {
        assert Sq(xs[0] - m) == 0.0 && SumSqDev(xs[1..], m) == 0.0;
        forall i | 0 <= i < |xs| ensures xs[i] == m {
          if i > 0 { assert xs[i] == xs[1..][i - 1]; }
        }
      }
    }
  }

  /** The mean of a constant sample is its common value. */
  lemma MeanOfConstant(xs: seq<real>)
    requires |xs| > 0 && Constant(xs)
    ensures Mean(xs) == xs[0]
  {
    SumOfConstant(xs, xs[0]);
    var n := |xs| as real;
    assert Sum(xs) == n * xs[0];
    assert (n * xs[0]) / n == xs[0];
  }

  /** The sample variance is zero exactly when all elements of the sample are equal. */
  lemma VarianceZeroIff(xs: seq<real>)
    requires |xs| >= 2
    ensures SampleVariance(xs) == 0.0 <==> Constant(xs)
  {
    var n := (|xs| - 1) as real;
    assert SampleVariance(xs) == 0.0 <==> SumSqDev(xs, Mean(xs)) == 0.0;
    SumSqDevZeroIff(xs, Mean(xs));
    if Constant(xs) {
      MeanOfConstant(xs);
    }
  }

  lemma {:induction false} SumSqDevAppend(xs: seq<real>, ys: seq<real>, m: real)
    ensures SumSqDev(xs + ys, m) == SumSqDev(xs, m) + SumSqDev(ys, m)
  {
    if xs != [] {
      assert (xs + ys)[1..] == xs[1..] + ys;
      SumSqDevAppend(xs[1..], ys, m);
    } else {
      assert xs + ys == ys;
    }
  }

  lemma {:induction false} SumSqDevOfConstant(xs: seq<real>, c: real, m: real)
    requires forall i | 0 <= i < |xs| :: xs[i] == c
    ensures SumSqDev(xs, m) == Product(|xs| as real, Sq(c - m))
  {
    if xs != [] {
      SumSqDevOfConstant(xs[1..], c, m);
      AddOneTerm(|xs[1..]| as real, |xs| as real, Sq(c - m));
    }
  }

  lemma AddOneTerm(k: real, n: real, t: real)
    requires n == k + 1.0
    ensures t + Product(k, t) == Product(n, t)
  {
  }
}
