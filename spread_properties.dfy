/**
 What the spread / Z-score pipeline guarantees: the warm-up rows, when the
 rolling statistics and the Z-score are defined, the rolling update of the
 mean, the meaning of a zero deviation, the link between the square-based
 threshold tests and the quotient, and invariance under shifts of the prices
 and of the spread.
 */
module SpreadProperties {
  import opened Wrappers
  import opened Stats
  import opened SpreadAnalysis

  /** Both close prices of every row moved by the same amount c. */
  function ShiftPrices(rows: seq<Row>, c: real): (r: seq<Row>)
    ensures |r| == |rows|
  {
    seq(|rows|, i requires 0 <= i < |rows| => Row(ShiftCell(rows[i].closeA, c), ShiftCell(rows[i].closeB, c)))
  }

  function ShiftCell(x: Option<real>, c: real): Option<real>
  {
    match x
    case Some(v) => Some(v + c)
    case None => None
  }

  /** Every defined cell of a column moved by c. */
  function ShiftColumn(s: seq<Option<real>>, c: real): (r: seq<Option<real>>)
    ensures |r| == |s|
  {
    seq(|s|, i requires 0 <= i < |s| => ShiftCell(s[i], c))
  }

  // ---------------------------------------------------------------------------
  // Definedness

  /** Rows before the first full window have no mean, no deviation, no Z-score
      and signal 0. */
  lemma WarmUpRows(rows: seq<Row>, w: nat, i: nat)
    requires w >= 2 && i < |rows| && i + 1 < w
    ensures Analyze(rows, w).mean[i].None? && Analyze(rows, w).variance[i].None?
    ensures Analyze(rows, w).zscore[i].None? && Analyze(rows, w).signal[i] == 0
  {
  }

  /** The rolling statistics of row i are defined exactly when the window i - w + 1 .. i
      exists and both prices of each of its rows are present. */
  lemma RollingDefinedIff(rows: seq<Row>, w: nat, i: nat)
    requires w >= 2 && i < |rows|
    ensures Analyze(rows, w).mean[i].Some? <==>
      w <= i + 1 && forall j | i + 1 - w <= j <= i :: rows[j].closeA.Some? && rows[j].closeB.Some?
    ensures Analyze(rows, w).variance[i].Some? <==> Analyze(rows, w).mean[i].Some?
  {
    var s := SpreadColumn(rows);
    assert Analyze(rows, w).mean[i].Some? <==> TrailingWindow(s, i, w).Some?;
  }

  // ---------------------------------------------------------------------------
  // Rolling mean

  lemma DivideSum(a: real, b: real, n: real)
    requires n > 0.0
    ensures (a + b) / n == a / n + b / n
  {
  }

  /** The window of row i + 1 is the window of row i without its oldest value and
      with the spread of row i + 1 appended. */
  lemma WindowSlide(s: seq<Option<real>>, w: nat, i: nat)
    requires w >= 1 && i + 1 < |s|
    requires TrailingWindow(s, i, w).Some? && TrailingWindow(s, i + 1, w).Some?
    ensures TrailingWindow(s, i + 1, w).value ==
      TrailingWindow(s, i, w).value[1..] + [s[i + 1].value]
  {
    var xs, ys := TrailingWindow(s, i, w).value, TrailingWindow(s, i + 1, w).value;
    var zs := xs[1..] + [s[i + 1].value];
    assert |ys| == |zs|;
    forall k | 0 <= k < w ensures ys[k] == zs[k] {
      if k < w - 1 {
        assert zs[k] == xs[k + 1];
      }
    }
  }

  /** The spreads of rows i - w + 1 .. i, in row order. */
  function WindowValues(s: seq<Option<real>>, i: nat, w: nat): (r: seq<real>)
    requires w <= i + 1 && i < |s|
    requires forall j | i + 1 - w <= j <= i :: s[j].Some?
    ensures |r| == w
  {
    seq(w, k requires 0 <= k < w => s[i + 1 - w + k].value)
  }

  /** Where the rolling statistics of row i are defined, the mean is the sum of the
      w spreads of rows i - w + 1 .. i divided by w, and the variance is the sum of
      their squared deviations from that mean divided by w - 1. */
  lemma RollingStatsValue(s: seq<Option<real>>, w: nat, i: nat)
    requires w >= 2 && i < |s|
    requires RollingMean(s, w)[i].Some?
    ensures w <= i + 1 && forall j | i + 1 - w <= j <= i :: s[j].Some?
    ensures RollingMean(s, w)[i].value == Sum(WindowValues(s, i, w)) / (w as real)
    ensures RollingVariance(s, w)[i].Some?
    ensures RollingVariance(s, w)[i].value ==
      SumSqDev(WindowValues(s, i, w), RollingMean(s, w)[i].value) / ((w - 1) as real)
  {
    assert TrailingWindow(s, i, w).value == WindowValues(s, i, w);
  }

  /** The rolling update: moving from row i to row i + 1 adds (new - oldest) / w to the mean. */
  lemma RollingMeanSlide(s: seq<Option<real>>, w: nat, i: nat)
    requires w >= 2 && i + 1 < |s|
    requires RollingMean(s, w)[i].Some? && RollingMean(s, w)[i + 1].Some?
    ensures i + 1 >= w && s[i + 1].Some? && s[i + 1 - w].Some?
    ensures RollingMean(s, w)[i + 1].value ==
      RollingMean(s, w)[i].value + (s[i + 1].value - s[i + 1 - w].value) / (w as real)
  {
    var xs := TrailingWindow(s, i, w).value;
    WindowSlide(s, w, i);
    SumSlide(xs, s[i + 1].value);
    assert xs[0] == s[i + 1 - w].value;
    DivideSum(Sum(xs), s[i + 1].value - xs[0], w as real);
  }

  /** The mean of row i lies between any bounds of the spreads in its window. */
  lemma MeanWithinWindow(s: seq<Option<real>>, w: nat, i: nat, lo: real, hi: real)
    requires w >= 2 && i < |s|
    requires RollingMean(s, w)[i].Some?
    requires forall j | i + 1 - w <= j <= i :: s[j].Some? && lo <= s[j].value <= hi
    ensures lo <= RollingMean(s, w)[i].value <= hi
  {
    var xs := TrailingWindow(s, i, w).value;
    forall k | 0 <= k < |xs| ensures lo <= xs[k] <= hi {
      assert xs[k] == s[i + 1 - w + k].value;
    }
    MeanBounds(xs, lo, hi);
  }

  // ---------------------------------------------------------------------------
  // Rolling deviation and Z-score

  /** A constant window is one whose every spread equals the spread of row i. */
  lemma ConstantWindow(s: seq<Option<real>>, w: nat, i: nat)
    requires w >= 2 && i < |s| && TrailingWindow(s, i, w).Some?
    ensures Constant(TrailingWindow(s, i, w).value) <==>
      forall j | i + 1 - w <= j <= i :: s[j] == s[i]
  {
    var xs := TrailingWindow(s, i, w).value;
    assert xs[w - 1] == s[i].value;
    if Constant(xs) {
      forall j | i + 1 - w <= j <= i ensures s[j] == s[i] {
        assert s[j].value == xs[j - (i + 1 - w)];
      }
    }
    if forall j | i + 1 - w <= j <= i :: s[j] == s[i] {
      forall k | 0 <= k < w ensures xs[k] == xs[0] {
        assert xs[k] == s[i + 1 - w + k].value;
        assert s[i + 1 - w + k] == s[i];
      }
    }
  }

  /** The sample variance of row i is non-negative, and zero exactly when every
      spread of its window is the same. */
  lemma VarianceZeroIffFlat(s: seq<Option<real>>, w: nat, i: nat)
    requires w >= 2 && i < |s|
    requires RollingVariance(s, w)[i].Some?
    ensures RollingVariance(s, w)[i].value >= 0.0
    ensures RollingVariance(s, w)[i].value == 0.0 <==> forall j | i + 1 - w <= j <= i :: s[j] == s[i]
  {
    var xs := TrailingWindow(s, i, w).value;
    VarianceZeroIff(xs);
    ConstantWindow(s, w, i);
  }

  /** A zero deviation forces spread == mean: the division is 0 / 0, never x / 0
      with x != 0. */
  lemma ZeroVarianceMeansZeroDeviation(s: seq<Option<real>>, w: nat, i: nat)
    requires w >= 2 && i < |s|
    requires RollingVariance(s, w)[i] == Some(0.0)
    ensures s[i].Some? && RollingMean(s, w)[i].Some?
    ensures s[i].value - RollingMean(s, w)[i].value == 0.0
  {
    var xs := TrailingWindow(s, i, w).value;
    VarianceZeroIff(xs);
    MeanOfConstant(xs);
    assert xs[w - 1] == s[i].value;
  }

  /** The Z-score of row i is defined exactly when its window is complete and not
      constant; it then has a positive variance and deviation spread - mean. */
  lemma ZScoreAt(s: seq<Option<real>>, w: nat, i: nat)
    requires w >= 2 && i < |s|
    ensures var z := ZScoreColumn(s, RollingMean(s, w), RollingVariance(s, w));
      z[i].Some? <==>
        w <= i + 1 && (forall j | i + 1 - w <= j <= i :: s[j].Some?) &&
        exists j | i + 1 - w <= j <= i :: s[j] != s[i]
    ensures var z := ZScoreColumn(s, RollingMean(s, w), RollingVariance(s, w));
      z[i].Some? ==>
        s[i].Some? && RollingMean(s, w)[i].Some? && RollingVariance(s, w)[i].Some? &&
        z[i].value == ZScore(s[i].value - RollingMean(s, w)[i].value, RollingVariance(s, w)[i].value) &&
        z[i].value.variance > 0.0
  {
    var m, v := RollingMean(s, w), RollingVariance(s, w);
    var z := ZScoreColumn(s, m, v);
    assert z[i] == ZScoreOf(s[i], m[i], v[i]);
    if TrailingWindow(s, i, w).Some? {
      VarianceZeroIffFlat(s, w, i);
      assert s[i].Some?;
    } else {
      assert m[i].None?;
    }
  }

  /** `ZScoreAt` for the Z-Score column of the analysis of a table. */
  lemma ZScoreDefinedIff(rows: seq<Row>, w: nat, i: nat)
    requires w >= 2 && i < |rows|
    ensures var a := Analyze(rows, w);
      a.zscore[i].Some? <==>
        w <= i + 1 && (forall j | i + 1 - w <= j <= i :: a.spread[j].Some?) &&
        exists j | i + 1 - w <= j <= i :: a.spread[j] != a.spread[i]
    ensures var a := Analyze(rows, w);
      a.zscore[i].Some? ==>
        a.spread[i].Some? && a.mean[i].Some? && a.variance[i].Some? &&
        a.zscore[i].value == ZScore(a.spread[i].value - a.mean[i].value, a.variance[i].value) &&
        a.zscore[i].value.variance > 0.0
  {
    ZScoreAt(SpreadColumn(rows), w, i);
  }

  /** A window of identical spreads has no Z-score and signal 0. */
  lemma FlatWindowNoSignal(rows: seq<Row>, w: nat, i: nat)
    requires w >= 2 && i < |rows|
    requires forall j | i + 1 - w <= j <= i && 0 <= j :: Analyze(rows, w).spread[j] == Analyze(rows, w).spread[i]
    ensures Analyze(rows, w).zscore[i].None? && Analyze(rows, w).signal[i] == 0
  {
    ZScoreDefinedIff(rows, w, i);
  }

  // ---------------------------------------------------------------------------
  // The threshold tests and the quotient

  lemma ProductMonotone(a: real, b: real, c: real)
    requires a < b && c > 0.0
    ensures Product(a, c) < Product(b, c)
  {
    ProductPositive(b - a, c);
    assert Product(b - a, c) == Product(b, c) - Product(a, c);
  }

  /** Squares are strictly monotone on the non-negative reals. */
  lemma SqMonotone(a: real, b: real)
    requires 0.0 <= a < b
    ensures Sq(a) < Sq(b)
  {
    ProductPositive(b - a, b + a);
    assert Product(b - a, b + a) == Sq(b) - Sq(a);
  }

  /** x / sd > t exactly when x > t * sd, for a positive sd. */
  lemma QuotientGreater(x: real, sd: real, t: real)
    requires sd > 0.0
    ensures x / sd > t <==> x > Product(t, sd)
  {
    var q := x / sd;
    assert Product(q, sd) == x;
    if q > t {
      ProductMonotone(t, q, sd);
    } else if q < t {
      ProductMonotone(q, t, sd);
    }
  }

  /** For a positive standard deviation sd with sd * sd equal to the variance, the
      square-based test `Above` is exactly `deviation / sd > Threshold`. */
  lemma QuotientAbove(z: ZScore, sd: real)
    requires sd > 0.0 && Sq(sd) == z.variance
    ensures Above(z) <==> z.deviation / sd > Threshold
  {
    var x, bound := z.deviation, Product(Threshold, sd);
    QuotientGreater(x, sd, Threshold);
    assert Sq(bound) == Sq(Threshold) * z.variance by {
      assert Sq(bound) == Threshold * Threshold * (sd * sd);
    }
    assert bound > 0.0 by { ProductPositive(Threshold, sd); }
    if x > bound {
      SqMonotone(bound, x);
    } else if 0.0 <= x {
      if x < bound { SqMonotone(x, bound); }
    }
  }

  /** For a positive standard deviation sd with sd * sd equal to the variance, the
      square-based test `Below` is exactly `deviation / sd < -Threshold`. */
  lemma QuotientBelow(z: ZScore, sd: real)
    requires sd > 0.0 && Sq(sd) == z.variance
    ensures Below(z) <==> z.deviation / sd < -Threshold
  {
    var mirrored := ZScore(-z.deviation, z.variance);
    QuotientAbove(mirrored, sd);
    assert Sq(-z.deviation) == Sq(z.deviation);
    assert (-z.deviation) / sd == -(z.deviation / sd);
  }

  lemma SqScale(c: real, u: real)
    ensures Sq(c * u) == c * c * Sq(u)
  {
  }

  /** A single jump h after Window - 1 equal spreads: the Z-score is
      (Window - 1) / sqrt(Window), about 5.3, whatever the size of the jump, so a
      rise always gives a sell signal and a fall a buy signal. */
  lemma JumpAfterFlatWindow(s: seq<Option<real>>, i: nat, a: real, h: real)
    requires Window <= i + 1 && i < |s|
    requires forall j | i + 1 - Window <= j < i :: s[j] == Some(a)
    requires s[i] == Some(a + h) && h != 0.0
    ensures var z := ZScoreColumn(s, RollingMean(s, Window), RollingVariance(s, Window));
      z[i] == Some(ZScore(((Window - 1) as real) * (h / (Window as real)), (Window as real) * Sq(h / (Window as real)))) &&
      SignalColumn(z)[i] == if h > 0.0 then -1 else 1
  {
    var w := Window;
    var flat := seq(w - 1, k => a);
    var xs := flat + [a + h];
    assert TrailingWindow(s, i, w).Some?;
    assert TrailingWindow(s, i, w).value == xs by {
      var ys := TrailingWindow(s, i, w).value;
      forall k | 0 <= k < w ensures ys[k] == xs[k] {
        if k < w - 1 {
          assert s[i + 1 - w + k] == Some(a);
        }
      }
    }
    var u := h / 30.0;
    // the mean is a + h / 30
    SumAppend(flat, [a + h]);
    SumOfConstant(flat, a);
    var m := Mean(xs);
    assert m == a + u;
    // the sample variance is 30 (h / 30)^2
    SumSqDevAppend(flat, [a + h], m);
    SumSqDevOfConstant(flat, a, m);
    assert a - m == -1.0 * u;
    assert a + h - m == 29.0 * u;
    SqScale(-1.0, u);
    SqScale(29.0, u);
    assert SumSqDev(xs, m) == 870.0 * Sq(u);
    assert SampleVariance(xs) == 30.0 * Sq(u);
    // the deviation is 29 h / 30, and 29^2 (h / 30)^2 > 4 * 30 (h / 30)^2
    Square(u);
    var zv := ZScore(29.0 * u, 30.0 * Sq(u));
    assert Sq(29.0 * u) > Sq(Threshold) * (30.0 * Sq(u));
    assert ZScoreColumn(s, RollingMean(s, w), RollingVariance(s, w))[i] == Some(zv);
  }

  // ---------------------------------------------------------------------------
  // Shift invariance

  /** Moving both prices by the same amount leaves the spread column unchanged. */
  lemma SpreadShiftInvariant(rows: seq<Row>, c: real)
    ensures SpreadColumn(ShiftPrices(rows, c)) == SpreadColumn(rows)
  {
    var shifted := ShiftPrices(rows, c);
    var s, t := SpreadColumn(shifted), SpreadColumn(rows);
    forall i | 0 <= i < |rows| ensures s[i] == t[i] {
      assert shifted[i] == Row(ShiftCell(rows[i].closeA, c), ShiftCell(rows[i].closeB, c));
    }
  }

  /** Moving both prices by the same amount leaves every column of the analysis unchanged. */
  lemma PriceShiftInvariant(rows: seq<Row>, c: real, w: nat)
    requires w >= 2
    ensures Analyze(ShiftPrices(rows, c), w) == Analyze(rows, w)
  {
    SpreadShiftInvariant(rows, c);
  }

  /** The window of a shifted spread column is the shifted window. */
  lemma WindowShift(s: seq<Option<real>>, c: real, w: nat, i: nat)
    requires w >= 1 && i < |s|
    ensures TrailingWindow(ShiftColumn(s, c), i, w).Some? <==> TrailingWindow(s, i, w).Some?
    ensures TrailingWindow(s, i, w).Some? ==>
      TrailingWindow(ShiftColumn(s, c), i, w).value == Shift(TrailingWindow(s, i, w).value, c)
  {
    var t := ShiftColumn(s, c);
    assert forall j | 0 <= j < |s| :: t[j].Some? <==> s[j].Some?;
    if TrailingWindow(s, i, w).Some? {
      var xs, ys := TrailingWindow(s, i, w).value, TrailingWindow(t, i, w).value;
      forall k | 0 <= k < w ensures ys[k] == Shift(xs, c)[k] {
        assert t[i + 1 - w + k] == ShiftCell(s[i + 1 - w + k], c);
      }
    }
  }

  /** Adding c to every spread adds c to the rolling mean and leaves the rolling
      deviation, the Z-score and the signal unchanged. */
  lemma SpreadOffsetInvariant(s: seq<Option<real>>, c: real, w: nat)
    requires w >= 2
    ensures RollingMean(ShiftColumn(s, c), w) == ShiftColumn(RollingMean(s, w), c)
    ensures RollingVariance(ShiftColumn(s, c), w) == RollingVariance(s, w)
    ensures ZScoreColumn(ShiftColumn(s, c), RollingMean(ShiftColumn(s, c), w), RollingVariance(ShiftColumn(s, c), w))
         == ZScoreColumn(s, RollingMean(s, w), RollingVariance(s, w))
    ensures SignalColumn(ZScoreColumn(ShiftColumn(s, c), RollingMean(ShiftColumn(s, c), w), RollingVariance(ShiftColumn(s, c), w)))
         == SignalColumn(ZScoreColumn(s, RollingMean(s, w), RollingVariance(s, w)))
  {
    var t := ShiftColumn(s, c);
    var m, v := RollingMean(s, w), RollingVariance(s, w);
    var m', v' := RollingMean(t, w), RollingVariance(t, w);
    forall i | 0 <= i < |s| ensures m'[i] == ShiftColumn(m, c)[i] && v'[i] == v[i] {
      WindowShift(s, c, w, i);
      if TrailingWindow(s, i, w).Some? {
        var xs := TrailingWindow(s, i, w).value;
        MeanShift(xs, c);
        VarianceShift(xs, c);
      }
    }
    assert m' == ShiftColumn(m, c);
    assert v' == v;
    var z, z' := ZScoreColumn(s, m, v), ZScoreColumn(t, m', v');
    forall i | 0 <= i < |s| ensures z'[i] == z[i] {
      if s[i].Some? && m[i].Some? {
        assert (s[i].value + c) - (m[i].value + c) == s[i].value - m[i].value;
      }
    }
  }
}
