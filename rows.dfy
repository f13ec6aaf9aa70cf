/** Count tables as sequences of rows, and the column operations the report
    applies to them: column sums and maxima, column selection and assignment. */
module Rows {

  /** Every row of `rows` has `w` columns. */
  predicate Rect(rows: seq<seq<int>>, w: nat) {
    forall i :: 0 <= i < |rows| ==> |rows[i]| == w
  }

  /** Every row of `rows` has a column `j`. */
  predicate HasColumn(rows: seq<seq<int>>, j: nat) {
    forall i :: 0 <= i < |rows| ==> j < |rows[i]|
  }

  /** A row of the six category counts, in index order, that keeps the
      partition of the index: Total is Success plus the last three
      categories, Fail is the last three, and no count is negative. */
  predicate Balanced(row: seq<int>) {
    && |row| == 6
    && row[1] >= 0 && row[3] >= 0 && row[4] >= 0 && row[5] >= 0
    && row[0] == row[1] + row[3] + row[4] + row[5]
    && row[2] == row[3] + row[4] + row[5]
  }

  predicate AllBalanced(rows: seq<seq<int>>) {
    forall i :: 0 <= i < |rows| ==> Balanced(rows[i])
  }

  function Zeros(w: nat): (z: seq<int>)
    ensures |z| == w && forall j :: 0 <= j < w ==> z[j] == 0
  {
    seq(w, _ => 0)
  }

  /** Column-wise addition of two rows. */
  function Add(a: seq<int>, b: seq<int>): (c: seq<int>)
    requires |a| == |b|
    ensures |c| == |a| && forall j :: 0 <= j < |c| ==> c[j] == a[j] + b[j]
  {
    seq(|a|, j requires 0 <= j < |a| => a[j] + b[j])
  }

  /** `df[j].sum()`: the sum of column `j` over all rows. */
  function ColSum(rows: seq<seq<int>>, j: nat): int
    requires HasColumn(rows, j)
  {
    if rows == [] then 0 else ColSum(rows[..|rows| - 1], j) + rows[|rows| - 1][j]
  }

  /** The sum over the first `m` rows adds row `m - 1` to the sum over the first `m - 1`. */
  lemma ColSumPrefix(rows: seq<seq<int>>, m: nat, j: nat)
    requires HasColumn(rows, j) && 0 < m <= |rows|
    ensures ColSum(rows[..m], j) == ColSum(rows[..m - 1], j) + rows[m - 1][j]
  {
    assert rows[..m][..m - 1] == rows[..m - 1];
  }

  /** A column sum splits over a concatenation of tables. */
  lemma {:induction false} ColSumAppend(a: seq<seq<int>>, b: seq<seq<int>>, j: nat)
    requires HasColumn(a, j) && HasColumn(b, j)
    ensures HasColumn(a + b, j)
    ensures ColSum(a + b, j) == ColSum(a, j) + ColSum(b, j)
  {
    if b == [] {
      assert a + b == a;
    } else {
      var b' := b[..|b| - 1];
      ColSumAppend(a, b', j);
      assert (a + b)[..|a + b| - 1] == a + b';
    }
  }

  /** The sum of a column with no negative entry is not negative. */
  lemma {:induction false} ColSumNonNeg(rows: seq<seq<int>>, j: nat)
    requires HasColumn(rows, j)
    requires forall i :: 0 <= i < |rows| ==> rows[i][j] >= 0
    ensures ColSum(rows, j) >= 0
  {
    if rows != [] {
      ColSumNonNeg(rows[..|rows| - 1], j);
    }
  }

  /** The appended sum row of a table with six columns (`[df[j].sum() for j in columns]`). */
  function ColumnSums(rows: seq<seq<int>>): (s: seq<int>)
    requires Rect(rows, 6)
    ensures |s| == 6
  {
    seq(6, j requires 0 <= j < 6 => ColSum(rows, j))
  }

  /** Summing balanced rows column by column gives a balanced row. */
  lemma {:induction false} BalancedSums(rows: seq<seq<int>>)
    requires Rect(rows, 6) && AllBalanced(rows)
    ensures Balanced(ColumnSums(rows))
  {
    if rows != [] {
      var front := rows[..|rows| - 1];
      BalancedSums(front);
      var s, s' := ColumnSums(rows), ColumnSums(front);
      var last := rows[|rows| - 1];
      assert Balanced(last);
      assert forall j :: 0 <= j < 6 ==> s[j] == s'[j] + last[j];
    }
  }

  /** `df[j].max()`: the largest entry of column `j`. */
  function ColMax(rows: seq<seq<int>>, j: nat): (m: int)
    requires |rows| > 0 && HasColumn(rows, j)
    ensures forall i :: 0 <= i < |rows| ==> rows[i][j] <= m
    ensures exists i :: 0 <= i < |rows| && rows[i][j] == m
  {
    if |rows| == 1 then rows[0][j]
    else
      var m' := ColMax(rows[..|rows| - 1], j);
      var last := rows[|rows| - 1][j];
      if m' < last then last else m'
  }

  /** The appended maximum row of a table with six columns (`[df[j].max() for j in columns]`). */
  function ColumnMaxes(rows: seq<seq<int>>): (m: seq<int>)
    requires |rows| > 0 && Rect(rows, 6)
    ensures |m| == 6
  {
    seq(6, j requires 0 <= j < 6 => ColMax(rows, j))
  }

  /** `df[j]`: column `j` of a table. */
  function Column(rows: seq<seq<int>>, j: nat): (col: seq<int>)
    requires HasColumn(rows, j)
    ensures |col| == |rows| && forall i :: 0 <= i < |rows| ==> col[i] == rows[i][j]
  {
    seq(|rows|, i requires 0 <= i < |rows| => rows[i][j])
  }

  /** `df[j] = col`: column `j` replaced by `col`, every other cell as it was. */
  function ReplaceColumn(rows: seq<seq<int>>, j: nat, col: seq<int>): (r: seq<seq<int>>)
    requires HasColumn(rows, j) && |col| == |rows|
    ensures |r| == |rows|
    ensures forall i :: 0 <= i < |rows| ==> |r[i]| == |rows[i]| && r[i][j] == col[i]
    ensures forall i, k :: 0 <= i < |rows| && 0 <= k < |rows[i]| && k != j ==> r[i][k] == rows[i][k]
  {
    seq(|rows|, i requires 0 <= i < |rows| => rows[i][j := col[i]])
  }

  /** `s[::-1]`. */
  function Reverse<T>(s: seq<T>): (r: seq<T>)
    ensures |r| == |s| && forall i :: 0 <= i < |s| ==> r[i] == s[|s| - 1 - i]
  {
    seq(|s|, i requires 0 <= i < |s| => s[|s| - 1 - i])
  }
}
