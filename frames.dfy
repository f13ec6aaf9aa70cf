/** The evaluation tables the report mutates in place: the six count columns,
    the "%" columns `insert_perc` inserts, and the automation and
    false-positive columns `append_automation` assigns. */
module Frames {

  import opened Records
  import opened Rows
  import opened Summary
  import opened Cumulative

  /** One "%" column: count column `j` of every row as a percentage of the
      Total row's "-Total" cell (row 10); undefined (NaN) when that cell is 0. */
  function PercentColumn(counts: seq<seq<int>>, j: nat): (col: seq<Option<real>>)
    requires |counts| > 10 && Rect(counts, 6) && j < 6
    ensures |col| == |counts|
  {
    seq(|counts|, i requires 0 <= i < |counts| => Percent(counts[i][j], counts[10][0]))
  }

  /** The "%" columns `insert_perc` inserts, in the order it inserts them: after
      Success, -Fail, GT!=NA&ARH!=NA, GT=NA&ARH!=NA and GT!=NA&ARH=NA. */
  function PercentColumns(counts: seq<seq<int>>): (cols: seq<seq<Option<real>>>)
    requires |counts| > 10 && Rect(counts, 6)
    ensures |cols| == 5
  {
    [PercentColumn(counts, 1), PercentColumn(counts, 2), PercentColumn(counts, 3),
     PercentColumn(counts, 4), PercentColumn(counts, 5)]
  }

  /** The columns `append_automation` assigns, for one row: "#Automation",
      "%Automation", "#FP", "%FP" and the threshold label " " (blank on the Total row). */
  datatype AutoRow = AutoRow(
    automation: int,
    automationPct: Option<real>,
    fp: int,
    fpPct: real,
    threshold: Option<int>)

  /** Row `i` of the automation columns; `n == 0` selects the first #FP formula. */
  function AutomationRow(counts: seq<seq<int>>, i: nat, n: nat): AutoRow
    requires i < |counts| && Rect(counts, 6)
  {
    var auto := counts[i][0] - counts[i][5];
    var autoPct := if auto != 0 then Percent(auto, counts[0][0]) else Some(0.0);
    var fp := if n == 0 then counts[i][4] + counts[i][3] else counts[i][2];
    var fpPct := if fp != 0 && auto != 0 then Percent(fp, auto).value else 0.0;
    AutoRow(auto, autoPct, fp, fpPct, if i < 10 then Some(10 * i) else None)
  }

  function AutomationColumns(counts: seq<seq<int>>, n: nat): (rows: seq<AutoRow>)
    requires |counts| == 11 && Rect(counts, 6)
    ensures |rows| == 11
  {
    seq(11, i requires 0 <= i < 11 => AutomationRow(counts, i, n))
  }

  /** A report table (a pandas DataFrame) whose columns are added or replaced in place. */
  class Frame {
    /** The six count columns, row by row, in index order. */
    var counts: seq<seq<int>>
    /** The "%" columns inserted so far, each one value per row. */
    var percent: seq<seq<Option<real>>>
    /** The automation columns, one entry per row, once assigned. */
    var automation: seq<AutoRow>

    constructor (rows: seq<seq<int>>)
      ensures counts == rows && percent == [] && automation == []
    {
      counts := rows;
      percent := [];
      automation := [];
    }

    /** `insert_perc`: inserts five "%" columns, each dividing a count column
        by the Total row's "-Total"; the count columns stay as they were. */
    method InsertPerc()
      requires |counts| > 10 && Rect(counts, 6)
      modifies this
      ensures counts == old(counts) && automation == old(automation)
      ensures percent == old(percent) + PercentColumns(counts)
    {
      percent := percent + [PercentColumn(counts, 1)];
      percent := percent + [PercentColumn(counts, 2)];
      percent := percent + [PercentColumn(counts, 3)];
      percent := percent + [PercentColumn(counts, 4)];
      percent := percent + [PercentColumn(counts, 5)];
    }

    /** `df['-Total'] = col`: replaces the "-Total" column and nothing else. */
    method AssignTotal(col: seq<int>)
      requires HasColumn(counts, 0) && |col| == |counts|
      modifies this
      ensures counts == ReplaceColumn(old(counts), 0, col)
      ensures percent == old(percent) && automation == old(automation)
    {
      counts := ReplaceColumn(counts, 0, col);
    }

    /** `append_automation(df, n)`: assigns the automation and false-positive
        columns computed from the count columns. */
    method AppendAutomation(n: nat)
      requires |counts| == 11 && Rect(counts, 6)
      modifies this
      ensures counts == old(counts) && percent == old(percent)
      ensures automation == AutomationColumns(counts, n)
    {
      automation := AutomationColumns(counts, n);
    }
  }

  // ---- what the "%" columns of the confidence table promise ----

  /** In a balanced row no category exceeds Total. */
  lemma BalancedWithinTotal(row: seq<int>, j: nat)
    requires Balanced(row) && j < 6
    ensures 0 <= row[j] <= row[0]
  {
  }

  /** On the bucket table with its sum row, every "%" cell is undefined when
      no record falls in any bucket, and otherwise lies in [0, 100]; on the
      Total row Success and the last three add up to 100% and Fail is the sum
      of the last three. */
  lemma PercentColumnsFacts(t: seq<seq<int>>)
    requires |t| == 10 && Rect(t, 6) && AllBalanced(t)
    ensures var g := t + [ColumnSums(t)];
      var cols := PercentColumns(g);
      var s := g[10][0];
      && (s == 0 ==> forall c, i :: 0 <= c < 5 && 0 <= i < 11 ==> cols[c][i].None?)
      && (s != 0 ==> forall c, i :: 0 <= c < 5 && 0 <= i < 11 ==>
            cols[c][i].Some? && 0.0 <= cols[c][i].value <= 100.0)
      && (s != 0 ==> cols[0][10].value + cols[2][10].value + cols[3][10].value + cols[4][10].value == 100.0)
      && (s != 0 ==> cols[1][10].value == cols[2][10].value + cols[3][10].value + cols[4][10].value)
  {
    var g := t + [ColumnSums(t)];
    var cols: seq<seq<Option<real>>> := PercentColumns(g);
    var s := g[10][0];
    BalancedSums(t);
    if s != 0 {
      forall c: int, i: int | 0 <= c < 5 && 0 <= i < 11
        ensures cols[c][i].Some? && 0.0 <= cols[c][i].value <= 100.0
      {
        assert cols[c][i] == Percent(g[i][c + 1], s);
        BalancedWithinTotal(g[i], c + 1);
        if i < 10 {
          NonNegColumns(t);
          EntryWithinColSum(t, i, 0);
        }
        PercentBounds(g[i][c + 1], s);
      }
      BalancedPercents(g[10], s);
      PercentOfWhole(s);
    }
  }

  /** A cell of a column with no negative entry is at most the column's sum. */
  lemma {:induction false} EntryWithinColSum(rows: seq<seq<int>>, k: nat, j: nat)
    requires HasColumn(rows, j) && NonNegColumn(rows, j) && k < |rows|
    ensures rows[k][j] <= ColSum(rows, j)
  {
    var n := |rows|;
    var front := rows[..n - 1];
    assert NonNegColumn(front, j) by {
      forall i | 0 <= i < n - 1 ensures front[i][j] >= 0 {
        assert front[i] == rows[i];
      }
    }
    if k == n - 1 {
      ColSumNonNeg(front, j);
    } else {
      EntryWithinColSum(front, k, j);
    }
  }

  // ---- what the automation columns of the inverse table promise ----

  /** On a balanced row with the first #FP formula, the automated records are
      Success plus the two categories counted as false positives, so
      #Automation - #FP is the Success count and %FP lies in [0, 100]. */
  lemma AutomationRowFacts(counts: seq<seq<int>>, i: nat)
    requires i < |counts| && Rect(counts, 6) && Balanced(counts[i])
    ensures var a := AutomationRow(counts, i, 0);
      && a.automation == counts[i][1] + counts[i][3] + counts[i][4]
      && 0 <= a.fp <= a.automation
      && a.automation - a.fp == counts[i][1]
      && 0.0 <= a.fpPct <= 100.0
  {
    var a := AutomationRow(counts, i, 0);
    if a.fp != 0 && a.automation != 0 {
      PercentBounds(a.fp, a.automation);
    }
  }

  /** The inverse cumulative table with its maximum row keeps the partition in
      every row, repeats row 0 in the Total row, and no row's Total exceeds row 0's. */
  lemma InverseTableShape(t: seq<seq<int>>)
    requires |t| == 10 && Rect(t, 6) && AllBalanced(t)
    ensures var g := WithMaxRow(InverseCumsum(t));
      && AllBalanced(g) && g[10] == g[0]
      && forall i :: 0 <= i < 11 ==> g[i][0] <= g[0][0]
  {
    var g := WithMaxRow(InverseCumsum(t));
    InverseBalanced(t);
    InverseMaxRow(t);
    EndsAreTotals(t);
    NonNegColumns(t);
    forall i | 0 <= i < 10 ensures g[i][0] <= g[0][0] {
      InverseMonotone(t, 0, 0, i);
    }
  }

  lemma NonNegColumns(t: seq<seq<int>>)
    requires Rect(t, 6) && AllBalanced(t)
    ensures forall j :: 0 <= j < 6 ==> NonNegColumn(t, j)
  {
    forall j | 0 <= j < 6 ensures NonNegColumn(t, j) {
      forall i | 0 <= i < |t| ensures t[i][j] >= 0 {
        assert Balanced(t[i]);
      }
    }
  }

  /** One row of the automation columns relative to row 0's Total. */
  lemma AutomationPctBounds(g: seq<seq<int>>, i: nat)
    requires |g| == 11 && Rect(g, 6) && AllBalanced(g) && i < 11 && g[i][0] <= g[0][0]
    ensures var a := AutomationRow(g, i, 0);
      && a.automationPct.Some? && 0.0 <= a.automationPct.value <= 100.0
      && 0 <= a.fp <= a.automation && 0.0 <= a.fpPct <= 100.0
      && a.automation - a.fp == g[i][1]
  {
    var a := AutomationRow(g, i, 0);
    assert Balanced(g[i]);
    AutomationRowFacts(g, i);
    if a.automation != 0 {
      PercentBounds(a.automation, g[0][0]);
    }
  }

  /** #Automation of a higher threshold is never larger. */
  lemma AutomationMonotone(t: seq<seq<int>>, i1: nat, i2: nat)
    requires |t| == 10 && Rect(t, 6) && AllBalanced(t) && i1 <= i2 < 10
    ensures var g := WithMaxRow(InverseCumsum(t));
      AutomationRow(g, i2, 0).automation <= AutomationRow(g, i1, 0).automation
  {
    var g := WithMaxRow(InverseCumsum(t));
    InverseBalanced(t);
    NonNegColumns(t);
    AutomationRowFacts(g, i1);
    AutomationRowFacts(g, i2);
    InverseMonotone(t, 1, i1, i2);
    InverseMonotone(t, 3, i1, i2);
    InverseMonotone(t, 4, i1, i2);
  }

  /** On the inverse cumulative table with its maximum row: every %Automation
      is defined and lies in [0, 100] (the zero guard leaves no division by
      zero), #Automation never increases with the threshold, the Total row
      repeats row 0, and the thresholds are 0, 10, ..., 90 then blank. */
  lemma AutomationFacts(t: seq<seq<int>>)
    requires |t| == 10 && Rect(t, 6) && AllBalanced(t)
    ensures var g := WithMaxRow(InverseCumsum(t));
      var a := AutomationColumns(g, 0);
      && (forall i :: 0 <= i < 11 ==> a[i].automationPct.Some? && 0.0 <= a[i].automationPct.value <= 100.0)
      && (forall i :: 0 <= i < 11 ==> 0 <= a[i].fp <= a[i].automation && 0.0 <= a[i].fpPct <= 100.0)
      && (forall i :: 0 <= i < 11 ==> a[i].automation - a[i].fp == g[i][1])
      && (forall i1, i2 :: 0 <= i1 <= i2 < 10 ==> a[i2].automation <= a[i1].automation)
      && a[10].automation == a[0].automation && a[10].fp == a[0].fp
      && (forall i :: 0 <= i < 10 ==> a[i].threshold == Some(10 * i))
      && a[10].threshold == None
  {
    var g := WithMaxRow(InverseCumsum(t));
    var a := AutomationColumns(g, 0);
    InverseTableShape(t);
    forall i | 0 <= i < 11
      ensures a[i].automationPct.Some? && 0.0 <= a[i].automationPct.value <= 100.0
      ensures 0 <= a[i].fp <= a[i].automation && 0.0 <= a[i].fpPct <= 100.0
      ensures a[i].automation - a[i].fp == g[i][1]
    {
      AutomationPctBounds(g, i);
    }
    forall i1, i2 | 0 <= i1 <= i2 < 10 ensures a[i2].automation <= a[i1].automation {
      AutomationMonotone(t, i1, i2);
    }
  }
}
