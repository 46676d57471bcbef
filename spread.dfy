/**
 The spread / rolling Z-score pipeline of `analyze_spread`, as whole-column
 functions over exact reals.

 Every per-row cell except the signal is an `Option`: `None` stands for a missing close price
 and for the not-a-number cells that the rolling window and the division
 produce. The rolling standard deviation is carried as its square, the sample
 variance, and a Z-score is carried as its numerator (spread - mean) together
 with that variance; threshold decisions on the quotient are made on squares
 (see `QuotientAbove` and `QuotientBelow` for the link with the quotient).
 */
module SpreadAnalysis {
  import opened Wrappers
  import opened Stats

  /** Length of the trailing window of the rolling mean and deviation. */
  const Window: nat := 30

  /** A Z-score below -Threshold is a buy, one above +Threshold a sell. */
  const Threshold: real := 2.0

  /** One row of the downloaded table: the close prices of the two tickers. */
  datatype Row = Row(closeA: Option<real>, closeB: Option<real>)

  /** A defined Z-score (spread - mean) / std, held as its numerator and the
      square of its denominator. */
  datatype ZScore = ZScore(deviation: real, variance: real)

  /** The table after the analysis: one column per computed quantity. */
  datatype Analysis = Analysis(
    spread: seq<Option<real>>,
    mean: seq<Option<real>>,
    variance: seq<Option<real>>,
    zscore: seq<Option<ZScore>>,
    signal: seq<int>)

  // ---------------------------------------------------------------------------
  // Spread

  function SpreadOf(row: Row): Option<real>
  {
    match (row.closeA, row.closeB)
    case (Some(a), Some(b)) => Some(a - b)
    case _ => None
  }

  /** The Spread column: close A minus close B, row by row, missing where either price is. */
  function SpreadColumn(rows: seq<Row>): (r: seq<Option<real>>)
    ensures |r| == |rows|
    ensures forall i | 0 <= i < |rows| ::
      r[i].Some? <==> rows[i].closeA.Some? && rows[i].closeB.Some?
    ensures forall i | 0 <= i < |rows| :: r[i].Some? ==>
      r[i].value == rows[i].closeA.value - rows[i].closeB.value
  {
    if rows == [] then [] else [SpreadOf(rows[0])] + SpreadColumn(rows[1..])
  }

  // ---------------------------------------------------------------------------
  // Rolling window

  /** The values of the cells, if every one of them is defined. */
  function Defined(cells: seq<Option<real>>): (r: Option<seq<real>>)
    ensures r.Some? <==> forall j | 0 <= j < |cells| :: cells[j].Some?
    ensures r.Some? ==>
      |r.value| == |cells| && forall j | 0 <= j < |cells| :: r.value[j] == cells[j].value
  {
    if cells == [] then Some([])
    else
      match (cells[0], Defined(cells[1..]))
      case (Some(x), Some(rest)) => Some([x] + rest)
      case _ => None
  }

  /** The w spreads ending at row i, when there are w of them and all are defined
      (a rolling window whose minimum number of observations is its length). */
  function TrailingWindow(s: seq<Option<real>>, i: nat, w: nat): (r: Option<seq<real>>)
    requires i < |s| && w >= 1
    ensures r.Some? <==> w <= i + 1 && forall j | i + 1 - w <= j <= i :: s[j].Some?
    ensures r.Some? ==>
      |r.value| == w && forall k | 0 <= k < w :: r.value[k] == s[i + 1 - w + k].value
  {
    if i + 1 < w then None
    else
      var cells := s[i + 1 - w .. i + 1];
      var r := Defined(cells);
      assert r.Some? <==> forall j | i + 1 - w <= j <= i :: s[j].Some? by {
        if forall j | i + 1 - w <= j <= i :: s[j].Some? {
          forall k | 0 <= k < w ensures cells[k].Some? {
            assert cells[k] == s[i + 1 - w + k];
          }
        }
        if r.Some? {
          forall j | i + 1 - w <= j <= i ensures s[j].Some? {
            assert s[j] == cells[j - (i + 1 - w)];
          }
        }
      }
      r
  }

  /** The Mean column: the rolling mean of the spread over w rows. */
  function RollingMean(s: seq<Option<real>>, w: nat): (r: seq<Option<real>>)
    requires w >= 2
    ensures |r| == |s|
  {
    seq(|s|, i requires 0 <= i < |s| =>
      match TrailingWindow(s, i, w)
      case Some(xs) => Some(Mean(xs))
      case None => None)
  }

  /** The square of the Std column: the rolling sample variance of the spread over w rows. */
  function RollingVariance(s: seq<Option<real>>, w: nat): (r: seq<Option<real>>)
    requires w >= 2
    ensures |r| == |s|
  {
    seq(|s|, i requires 0 <= i < |s| =>
      match TrailingWindow(s, i, w)
      case Some(xs) => Some(SampleVariance(xs))
      case None => None)
  }

  // ---------------------------------------------------------------------------
  // Z-score and signal

  /** (spread - mean) / std for one row; undefined where an operand is, and
      where the standard deviation is zero (0 / 0, see `ZeroVarianceMeansZeroDeviation`). */
  function ZScoreOf(spread: Option<real>, mean: Option<real>, variance: Option<real>): (r: Option<ZScore>)
    ensures r.Some? <==> spread.Some? && mean.Some? && variance.Some? && variance.value != 0.0
    ensures r.Some? ==> r.value == ZScore(spread.value - mean.value, variance.value)
  {
    match (spread, mean, variance)
    case (Some(x), Some(m), Some(v)) =>
      if v == 0.0 then None else Some(ZScore(x - m, v))
    case _ => None
  }

  /** The Z-Score column. */
  function ZScoreColumn(spread: seq<Option<real>>, mean: seq<Option<real>>, variance: seq<Option<real>>)
    : (r: seq<Option<ZScore>>)
    requires |mean| == |spread| && |variance| == |spread|
    ensures |r| == |spread|
  {
    seq(|spread|, i requires 0 <= i < |spread| => ZScoreOf(spread[i], mean[i], variance[i]))
  }

  /** The Z-score is above +Threshold: deviation / sqrt(variance) > Threshold.
      For a positive variance: the deviation is positive and the squared Z-score
      exceeds the squared threshold. */
  predicate Above(z: ZScore)
    ensures z.variance > 0.0 ==>
      (Above(z) <==> z.deviation > 0.0 && Sq(z.deviation) / z.variance > Sq(Threshold))
  {
    z.deviation > 0.0 && Sq(z.deviation) > Sq(Threshold) * z.variance
  }

  /** The Z-score is below -Threshold: deviation / sqrt(variance) < -Threshold.
      It is the mirror image of `Above`, so the two never hold together. */
  predicate Below(z: ZScore)
    ensures Below(z) <==> Above(ZScore(-z.deviation, z.variance))
    ensures Below(z) ==> !Above(z)
  {
    z.deviation < 0.0 && Sq(z.deviation) > Sq(Threshold) * z.variance
  }

  /** The mask `Z-Score < -Threshold`; an undefined Z-score compares false. */
  function BuyMask(zs: seq<Option<ZScore>>): (r: seq<bool>)
    ensures |r| == |zs|
  {
    seq(|zs|, i requires 0 <= i < |zs| => zs[i].Some? && Below(zs[i].value))
  }

  /** The mask `Z-Score > Threshold`; an undefined Z-score compares false. */
  function SellMask(zs: seq<Option<ZScore>>): (r: seq<bool>)
    ensures |r| == |zs|
  {
    seq(|zs|, i requires 0 <= i < |zs| => zs[i].Some? && Above(zs[i].value))
  }

  /** The signal of one row: +1 (buy) below the lower threshold, -1 (sell)
      above the upper one, 0 otherwise. */
  function SignalOf(z: Option<ZScore>): (r: int)
    ensures r == -1 || r == 0 || r == 1
    ensures r == 1 <==> z.Some? && Below(z.value)
    ensures r == -1 <==> z.Some? && Above(z.value)
    ensures r == 0 <==> z.None? || (!Below(z.value) && !Above(z.value))
  {
    match z
    case Some(zv) => if Below(zv) then 1 else if Above(zv) then -1 else 0
    case None => 0
  }

  /** The Signal column as a per-row threshold rule. */
  function SignalColumn(zs: seq<Option<ZScore>>): (r: seq<int>)
    ensures |r| == |zs|
  {
    seq(|zs|, i requires 0 <= i < |zs| => SignalOf(zs[i]))
  }

  /** The whole analysis of a table with window w. */
  function Analyze(rows: seq<Row>, w: nat): (a: Analysis)
    requires w >= 2
    ensures |a.spread| == |rows| && |a.mean| == |rows| && |a.variance| == |rows|
    ensures |a.zscore| == |rows| && |a.signal| == |rows|
  {
    var spread := SpreadColumn(rows);
    var mean := RollingMean(spread, w);
    var variance := RollingVariance(spread, w);
    var z := ZScoreColumn(spread, mean, variance);
    Analysis(spread, mean, variance, z, SignalColumn(z))
  }
}
