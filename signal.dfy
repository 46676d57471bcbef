/**
 The Signal column as `analyze_spread` builds it, in place on the table: the
 column is first set to 0, then overwritten with +1 through the mask
 `Z-Score < -2` and with -1 through the mask `Z-Score > 2`. The result is
 proved to be the per-row threshold rule `SignalColumn`, and the two masks
 disjoint, so that the order of the two overwrites does not matter.
 */
module SignalAssignment {
  import opened Wrappers
  import opened SpreadAnalysis

  /** The column after `col[mask] = v`. */
  function Assigned(col: seq<int>, mask: seq<bool>, v: int): (r: seq<int>)
    requires |mask| == |col|
    ensures |r| == |col|
    ensures forall i | 0 <= i < |col| :: mask[i] ==> r[i] == v
    ensures forall i | 0 <= i < |col| :: !mask[i] ==> r[i] == col[i]
  {
    seq(|col|, i requires 0 <= i < |col| => if mask[i] then v else col[i])
  }

  function Zeros(n: nat): (r: seq<int>)
    ensures |r| == n
  {
    seq(n, i => 0)
  }

  /** No row is in both the buy and the sell mask. */
  lemma MasksDisjoint(zs: seq<Option<ZScore>>, i: nat)
    requires i < |zs|
    ensures !(BuyMask(zs)[i] && SellMask(zs)[i])
  {
  }

  /** Two overwrites through disjoint masks commute. */
  lemma OverwriteOrderIrrelevant(col: seq<int>, m1: seq<bool>, v1: int, m2: seq<bool>, v2: int)
    requires |m1| == |col| && |m2| == |col|
    requires forall i | 0 <= i < |col| :: !(m1[i] && m2[i])
    ensures Assigned(Assigned(col, m1, v1), m2, v2) == Assigned(Assigned(col, m2, v2), m1, v1)
  {
    var a, b := Assigned(Assigned(col, m1, v1), m2, v2), Assigned(Assigned(col, m2, v2), m1, v1);
    forall i | 0 <= i < |col| ensures a[i] == b[i] {
    }
  }

  /** Zeros overwritten with +1 on the buy mask and then with -1 on the sell mask
      (in either order) is the per-row threshold rule. */
  lemma MaskedSignalIsThreshold(zs: seq<Option<ZScore>>)
    ensures Assigned(Assigned(Zeros(|zs|), BuyMask(zs), 1), SellMask(zs), -1) == SignalColumn(zs)
    ensures Assigned(Assigned(Zeros(|zs|), SellMask(zs), -1), BuyMask(zs), 1) == SignalColumn(zs)
  {
    var buy, sell := BuyMask(zs), SellMask(zs);
    var col := Assigned(Assigned(Zeros(|zs|), buy, 1), sell, -1);
    forall i | 0 <= i < |zs| ensures col[i] == SignalColumn(zs)[i] {
      MasksDisjoint(zs, i);
    }
    forall i | 0 <= i < |zs| ensures !(buy[i] && sell[i]) {
      MasksDisjoint(zs, i);
    }
    OverwriteOrderIrrelevant(Zeros(|zs|), buy, 1, sell, -1);
  }

  /** `col = v`: every cell of the column becomes v. */
  method Fill(col: array<int>, v: int)
    modifies col
    ensures col[..] == seq(col.Length, i => v)
  {
    var i := 0;
    while i < col.Length
      invariant 0 <= i <= col.Length
      invariant forall k | 0 <= k < i :: col[k] == v
    {
      col[i] := v;
      i := i + 1;
    }
  }

  /** `col[mask] = v`, row by row. */
  method AssignWhere(col: array<int>, mask: seq<bool>, v: int)
    requires col.Length == |mask|
    modifies col
    ensures col[..] == Assigned(old(col[..]), mask, v)
  {
    var i := 0;
    while i < col.Length
      invariant 0 <= i <= col.Length
      invariant forall k | 0 <= k < i :: col[k] == (if mask[k] then v else old(col[k]))
      invariant forall k | i <= k < col.Length :: col[k] == old(col[k])
    {
      if mask[i] {
        col[i] := v;
      }
      i := i + 1;
    }
  }

  /** The three statements that build the Signal column, applied to the column col. */
  method AssignSignals(zs: seq<Option<ZScore>>, col: array<int>)
    requires col.Length == |zs|
    modifies col
    ensures col[..] == SignalColumn(zs)
  {
    Fill(col, 0);
    assert col[..] == Zeros(|zs|);
    AssignWhere(col, BuyMask(zs), 1);
    AssignWhere(col, SellMask(zs), -1);
    MaskedSignalIsThreshold(zs);
  }

  /** The computational body of `analyze_spread`: the spread, mean, deviation
      and Z-score columns, then the Signal column built in place. */
  method AnalyzeSpread(rows: seq<Row>) returns (a: Analysis)
    ensures a == Analyze(rows, Window)
  {
    var spread := SpreadColumn(rows);
    var mean := RollingMean(spread, Window);
    var variance := RollingVariance(spread, Window);
    var z := ZScoreColumn(spread, mean, variance);
    var signal := new int[|rows|];
    AssignSignals(z, signal);
    a := Analysis(spread, mean, variance, z, signal[..]);
  }
}
