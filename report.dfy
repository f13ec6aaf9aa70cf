/** The assembly of the report's tables for the three axes: the evaluation
    tables, the tables by confidence level with percentages, the cumulative
    tables with the per-bucket "-Total" column, and the inverse cumulative
    tables with the automation columns. */
module Report {

  import opened Records
  import opened Outcomes
  import opened Rows
  import opened Summary
  import opened Histogram
  import opened Cumulative
  import opened Frames

  /** The axes in report order (`n` = 0, 1, 2). */
  const Axes: seq<Axis> := [Text, Region, Combined]

  /** What the three frame lists are built from: three balanced bucket tables. */
  predicate WellFormed(gc: seq<seq<seq<int>>>) {
    |gc| == 3 && forall i :: 0 <= i < 3 ==> |gc[i]| == 10 && Rect(gc[i], 6) && AllBalanced(gc[i])
  }

  /** `gc`: the bucket table of every axis, in report order. The tables are
      well formed, and the column sums of table `i` are `calc_sum` of the
      records whose axis-`i` confidence lies in [0, 100]. */
  function BucketTables(rs: seq<Record>): (gc: seq<seq<seq<int>>>)
    ensures WellFormed(gc)
    ensures forall i :: 0 <= i < 3 ==> gc[i] == Cdic2(rs, Axes[i])
    ensures forall i :: 0 <= i < 3 ==> ColumnSums(gc[i]) == CalcSum(InRange(rs, Axes[i]), Axes[i])
  {
    SumRowIsInRangeCount(rs, Text);
    SumRowIsInRangeCount(rs, Region);
    SumRowIsInRangeCount(rs, Combined);
    [Cdic2(rs, Text), Cdic2(rs, Region), Cdic2(rs, Combined)]
  }

  /** The counts of `gc2[n]` once its "-Total" column is that of `gc1[n]`. */
  function ForwardFinal(t: seq<seq<int>>): (g: seq<seq<int>>)
    requires |t| == 10 && Rect(t, 6)
    ensures |g| == 11 && Rect(g, 6)
  {
    ReplaceColumn(WithMaxRow(Cumsum(t)), 0, Column(WithSumRow(t), 0))
  }

  /** On any balanced bucket table the three Total rows agree: the sum row,
      the maximum row of the forward table and that of the inverse table are
      all the column sums, which are also the last forward row and the first
      inverse row. */
  lemma TotalRowsAgreeOn(t: seq<seq<int>>)
    requires |t| == 10 && Rect(t, 6) && AllBalanced(t)
    ensures var total := ColumnSums(t);
      && WithSumRow(t)[10] == total
      && WithMaxRow(Cumsum(t))[10] == total
      && WithMaxRow(InverseCumsum(t))[10] == total
      && WithMaxRow(Cumsum(t))[9] == total
      && WithMaxRow(InverseCumsum(t))[0] == total
  {
    ForwardMaxRow(t);
    InverseMaxRow(t);
    EndsAreTotals(t);
  }

  /** The three Total rows of an axis are all `calc_sum` of the records whose
      confidence lies in [0, 100]; the last forward row and the first inverse
      row equal it too. */
  lemma TotalRowsAgree(rs: seq<Record>, axis: Axis)
    ensures var total := CalcSum(InRange(rs, axis), axis);
      var t := Cdic2(rs, axis);
      && WithSumRow(t)[10] == total
      && WithMaxRow(Cumsum(t))[10] == total
      && WithMaxRow(InverseCumsum(t))[10] == total
  {
    var t := Cdic2(rs, axis);
    SumRowIsInRangeCount(rs, axis);
    TotalRowsAgreeOn(t);
  }

  /** Row `k` of the forward table sums bucket rows `0 .. k`, row `k` of the
      inverse table sums bucket rows `k .. 9`; forward columns never decrease
      and inverse columns never increase from one bucket to the next. */
  lemma CumulativeRows(t: seq<seq<int>>, k: nat, j: nat)
    requires |t| == 10 && Rect(t, 6) && AllBalanced(t) && k < 10 && j < 6
    ensures WithMaxRow(Cumsum(t))[k][j] == ColSum(t[..k + 1], j)
    ensures WithMaxRow(InverseCumsum(t))[k][j] == ColSum(t[k..], j)
    ensures k < 9 ==> WithMaxRow(Cumsum(t))[k][j] <= WithMaxRow(Cumsum(t))[k + 1][j]
    ensures k < 9 ==> WithMaxRow(InverseCumsum(t))[k + 1][j] <= WithMaxRow(InverseCumsum(t))[k][j]
  {
    CumsumAt(t, k, j);
    InverseAt(t, k, j);
    if k < 9 {
      assert NonNegColumn(t, j) by {
        forall i | 0 <= i < 10 ensures t[i][j] >= 0 {
          assert Balanced(t[i]);
        }
      }
      CumsumMonotone(t, j, k, k + 1);
      InverseMonotone(t, j, k, k + 1);
    }
  }

  /** Replacing the "-Total" column of the forward table by that of the bucket
      table puts the per-bucket totals in rows 0 .. 9, leaves the Total row as
      it was (its maximum equals the column sum), and changes no other column. */
  lemma OverwriteFactsOn(t: seq<seq<int>>)
    requires |t| == 10 && Rect(t, 6) && AllBalanced(t)
    ensures var f, f' := WithMaxRow(Cumsum(t)), ForwardFinal(t);
      && (forall k :: 0 <= k < 10 ==> f'[k][0] == t[k][0])
      && f'[10] == f[10]
      && (forall k, j :: 0 <= k < 11 && 1 <= j < 6 ==> f'[k][j] == f[k][j])
  {
    TotalRowsAgreeOn(t);
    var f := WithMaxRow(Cumsum(t));
    var f' := ForwardFinal(t);
    assert |f'[10]| == 6;
    assert forall j :: 0 <= j < 6 ==> f'[10][j] == f[10][j];
  }

  /** `gc1`: one frame per axis holding bucket table `gc[i]` and its sum row,
      each given its "%" columns by `insert_perc`. */
  method ConfidenceTables(gc: seq<seq<seq<int>>>) returns (gc1: seq<Frame>)
    requires WellFormed(gc)
    ensures |gc1| == 3
    ensures forall i :: 0 <= i < 3 ==> fresh(gc1[i])
    ensures forall i, j :: 0 <= i < j < 3 ==> gc1[i] != gc1[j]
    ensures forall i :: 0 <= i < 3 ==>
      && gc1[i].counts == WithSumRow(gc[i])
      && gc1[i].percent == PercentColumns(gc1[i].counts)
      && gc1[i].automation == []
  {
    ghost var cs := [WithSumRow(gc[0]), WithSumRow(gc[1]), WithSumRow(gc[2])];
    ghost var ps := [PercentColumns(cs[0]), PercentColumns(cs[1]), PercentColumns(cs[2])];
    var f0 := new Frame(WithSumRow(gc[0]));
    var f1 := new Frame(WithSumRow(gc[1]));
    var f2 := new Frame(WithSumRow(gc[2]));
    gc1 := [f0, f1, f2];
    for i := 0 to 3
      invariant forall j :: 0 <= j < 3 ==> gc1[j].counts == cs[j] && gc1[j].automation == []
      invariant forall j :: 0 <= j < i ==> gc1[j].percent == ps[j]
      invariant forall j :: i <= j < 3 ==> gc1[j].percent == []
    {
      gc1[i].InsertPerc();
    }
  }

  /** `gc2`: one frame per axis holding the forward cumulative table of `gc[i]`
      and its maximum row, whose "-Total" column is then replaced by that of `gc1[i]`. */
  method CumulativeTables(gc: seq<seq<seq<int>>>, gc1: seq<Frame>) returns (gc2: seq<Frame>)
    requires WellFormed(gc) && |gc1| == 3
    requires forall i :: 0 <= i < 3 ==> gc1[i].counts == WithSumRow(gc[i])
    ensures |gc2| == 3
    ensures forall i :: 0 <= i < 3 ==> fresh(gc2[i])
    ensures forall i, j :: 0 <= i < j < 3 ==> gc2[i] != gc2[j]
    ensures forall i :: 0 <= i < 3 ==>
      && gc2[i].counts == ForwardFinal(gc[i])
      && gc2[i].percent == [] && gc2[i].automation == []
  {
    ghost var before := [WithMaxRow(Cumsum(gc[0])), WithMaxRow(Cumsum(gc[1])), WithMaxRow(Cumsum(gc[2]))];
    ghost var after := [ForwardFinal(gc[0]), ForwardFinal(gc[1]), ForwardFinal(gc[2])];
    var f0 := new Frame(WithMaxRow(Cumsum(gc[0])));
    var f1 := new Frame(WithMaxRow(Cumsum(gc[1])));
    var f2 := new Frame(WithMaxRow(Cumsum(gc[2])));
    gc2 := [f0, f1, f2];
    for i := 0 to 3
      invariant forall j :: 0 <= j < i ==> gc2[j].counts == after[j]
      invariant forall j :: i <= j < 3 ==> gc2[j].counts == before[j]
      invariant forall j :: 0 <= j < 3 ==> gc2[j].percent == [] && gc2[j].automation == []
    {
      gc2[i].AssignTotal(Column(gc1[i].counts, 0));
    }
  }

  /** `gc3`: one frame per axis holding the inverse cumulative table of `gc[i]`
      and its maximum row, each given its automation columns by `append_automation`. */
  method InverseTables(gc: seq<seq<seq<int>>>) returns (gc3: seq<Frame>)
    requires WellFormed(gc)
    ensures |gc3| == 3
    ensures forall i :: 0 <= i < 3 ==> fresh(gc3[i])
    ensures forall i, j :: 0 <= i < j < 3 ==> gc3[i] != gc3[j]
    ensures forall i :: 0 <= i < 3 ==>
      && gc3[i].counts == WithMaxRow(InverseCumsum(gc[i]))
      && gc3[i].percent == []
      && gc3[i].automation == AutomationColumns(gc3[i].counts, 0)
  {
    ghost var cs := [WithMaxRow(InverseCumsum(gc[0])), WithMaxRow(InverseCumsum(gc[1])), WithMaxRow(InverseCumsum(gc[2]))];
    var f0 := new Frame(WithMaxRow(InverseCumsum(gc[0])));
    var f1 := new Frame(WithMaxRow(InverseCumsum(gc[1])));
    var f2 := new Frame(WithMaxRow(InverseCumsum(gc[2])));
    gc3 := [f0, f1, f2];
    for i := 0 to 3
      invariant forall j :: 0 <= j < 3 ==> gc3[j].counts == cs[j] && gc3[j].percent == []
      invariant forall j :: 0 <= j < i ==> gc3[j].automation == AutomationColumns(cs[j], 0)
      invariant forall j :: i <= j < 3 ==> gc3[j].automation == []
    {
      gc3[i].AppendAutomation(0);
    }
  }

  /** The nine frames of the three lists are nine separate objects. */
  predicate Distinct(gc1: seq<Frame>, gc2: seq<Frame>, gc3: seq<Frame>)
    requires |gc1| == 3 && |gc2| == 3 && |gc3| == 3
  {
    forall i, j :: 0 <= i < 3 && 0 <= j < 3 ==>
      && (i != j ==> gc1[i] != gc1[j] && gc2[i] != gc2[j] && gc3[i] != gc3[j])
      && gc1[i] != gc2[j] && gc1[i] != gc3[j] && gc2[i] != gc3[j]
  }

  /** The three frame lists built from the bucket tables; in every axis the
      Total rows of `gc1`, `gc2` and `gc3` and the first row of `gc3` agree. */
  method BuildFrames(gc: seq<seq<seq<int>>>) returns (gc1: seq<Frame>, gc2: seq<Frame>, gc3: seq<Frame>)
    requires WellFormed(gc)
    ensures |gc1| == 3 && |gc2| == 3 && |gc3| == 3
    ensures forall i :: 0 <= i < 3 ==> fresh(gc1[i]) && fresh(gc2[i]) && fresh(gc3[i])
    ensures Distinct(gc1, gc2, gc3)
    ensures forall i :: 0 <= i < 3 ==>
      && gc1[i].counts == WithSumRow(gc[i])
      && gc1[i].percent == PercentColumns(gc1[i].counts)
      && gc1[i].automation == []
      && gc2[i].counts == ForwardFinal(gc[i])
      && gc2[i].percent == [] && gc2[i].automation == []
      && gc3[i].counts == WithMaxRow(InverseCumsum(gc[i]))
      && gc3[i].percent == []
      && gc3[i].automation == AutomationColumns(gc3[i].counts, 0)
    ensures forall i :: 0 <= i < 3 ==>
      && |gc1[i].counts| == |gc2[i].counts| == |gc3[i].counts| == 11
      && gc1[i].counts[10] == gc2[i].counts[10] == gc3[i].counts[10] == gc3[i].counts[0]
  {
    gc1 := ConfidenceTables(gc);
    gc2 := CumulativeTables(gc, gc1);
    gc3 := InverseTables(gc);
    forall i | 0 <= i < 3
      ensures gc1[i].counts[10] == gc2[i].counts[10] == gc3[i].counts[10] == gc3[i].counts[0]
    {
      TotalRowsAgreeOn(gc[i]);
      OverwriteFactsOn(gc[i]);
    }
  }

  /** `arh`: the evaluation table of every axis, in report order, each with
      balanced counts, its percentages and its per-category statistics. */
  function Evaluations(rs: seq<Record>): (arh: seq<Evaluation>)
    ensures |arh| == 3
    ensures forall i :: 0 <= i < 3 ==> arh[i] == Cdic(rs, Axes[i])
    ensures forall i :: 0 <= i < 3 ==> EvaluationFacts(rs, Axes[i], arh[i])
  {
    AxesCdicFacts(rs);
    [Cdic(rs, Text), Cdic(rs, Region), Cdic(rs, Combined)]
  }

  lemma AxesCdicFacts(rs: seq<Record>)
    ensures forall i :: 0 <= i < 3 ==> EvaluationFacts(rs, Axes[i], Cdic(rs, Axes[i]))
  {
    forall i | 0 <= i < 3 ensures EvaluationFacts(rs, Axes[i], Cdic(rs, Axes[i])) {
      CdicFacts(rs, Axes[i]);
    }
  }

  /** Whether `cdic` as written returns for all three axes of `rs`: it
      raises exactly when some axis has an empty Total. */
  function Completes(rs: seq<Record>): (ok: bool)
    ensures ok <==> forall i :: 0 <= i < 3 ==> CalcPrcAsWritten(rs, Axes[i]).Some?
    ensures ok <==> forall i :: 0 <= i < 3 ==> Size(rs, Axes[i], Total) > 0
  {
    var ok := CalcPrcAsWritten(rs, Text).Some? && CalcPrcAsWritten(rs, Region).Some?
              && CalcPrcAsWritten(rs, Combined).Some?;
    if ok then
      assert forall i :: 0 <= i < 3 ==> Axes[i] == Text || Axes[i] == Region || Axes[i] == Combined;
      ok
    else
      assert !CalcPrcAsWritten(rs, Axes[0]).Some? || !CalcPrcAsWritten(rs, Axes[1]).Some?
          || !CalcPrcAsWritten(rs, Axes[2]).Some?;
      ok
  }

  /** A report run over the loaded rows: the record store keeps the rows with
      any plate or country value, and every table is built from it.
      `completes` tells whether the script as written gets past `arh`: it
      does exactly when no axis of the store has an empty Total, since
      otherwise `calc_prc` raises; the tables returned use the corrected
      percentages either way. */
  method BuildReport(raw: seq<Record>) returns (completes: bool, arh: seq<Evaluation>, gc1: seq<Frame>, gc2: seq<Frame>, gc3: seq<Frame>)
    ensures completes == Completes(DropEmpty(raw))
    ensures arh == Evaluations(DropEmpty(raw))
    ensures |gc1| == 3 && |gc2| == 3 && |gc3| == 3
    ensures forall i :: 0 <= i < 3 ==> fresh(gc1[i]) && fresh(gc2[i]) && fresh(gc3[i])
    ensures Distinct(gc1, gc2, gc3)
    ensures var gc := BucketTables(DropEmpty(raw));
      forall i :: 0 <= i < 3 ==>
      && gc1[i].counts == WithSumRow(gc[i])
      && gc1[i].percent == PercentColumns(gc1[i].counts)
      && gc1[i].automation == []
      && gc2[i].counts == ForwardFinal(gc[i])
      && gc2[i].percent == [] && gc2[i].automation == []
      && gc3[i].counts == WithMaxRow(InverseCumsum(gc[i]))
      && gc3[i].percent == []
      && gc3[i].automation == AutomationColumns(gc3[i].counts, 0)
  {
    var store := DropEmpty(raw);
    completes := Completes(store);
    arh := Evaluations(store);
    var gc := BucketTables(store);
    gc1, gc2, gc3 := BuildFrames(gc);
  }
}
