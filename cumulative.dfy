/** The cumulative tables built from a bucket table: the forward running sum
    (`cumsum`) and the inverse one (`[::-1].cumsum()[::-1]`), each with an
    appended row of column maxima. */
module Cumulative {

  import opened Rows

  /** The running sum pandas' `cumsum` computes, with `acc` the sum of the rows already passed. */
  function Scan(rows: seq<seq<int>>, acc: seq<int>): (r: seq<seq<int>>)
    requires Rect(rows, |acc|)
    ensures |r| == |rows| && Rect(r, |acc|)
  {
    if rows == [] then []
    else
      var next := Add(acc, rows[0]);
      [next] + Scan(rows[1..], next)
  }

  /** `df.cumsum()` on a six-column table. */
  function Cumsum(rows: seq<seq<int>>): (r: seq<seq<int>>)
    requires Rect(rows, 6)
    ensures |r| == |rows| && Rect(r, 6)
  {
    Scan(rows, Zeros(6))
  }

  /** `df[::-1].cumsum()[::-1]` on a six-column table. */
  function InverseCumsum(rows: seq<seq<int>>): (r: seq<seq<int>>)
    requires Rect(rows, 6)
    ensures |r| == |rows| && Rect(r, 6)
  {
    Reverse(Cumsum(Reverse(rows)))
  }

  /** The table with its appended Total row of column maxima. */
  function WithMaxRow(rows: seq<seq<int>>): (g: seq<seq<int>>)
    requires |rows| > 0 && Rect(rows, 6)
    ensures |g| == |rows| + 1 && Rect(g, 6)
  {
    rows + [ColumnMaxes(rows)]
  }

  lemma ColSumOne(x: seq<int>, j: nat)
    requires j < |x|
    ensures ColSum([x], j) == x[j]
  {
    assert [x][..0] == [];
  }

  lemma {:induction false} ScanAt(rows: seq<seq<int>>, acc: seq<int>, k: nat, j: nat)
    requires Rect(rows, |acc|) && k < |rows| && j < |acc|
    ensures Scan(rows, acc)[k][j] == acc[j] + ColSum(rows[..k + 1], j)
  {
    var next := Add(acc, rows[0]);
    if k == 0 {
      assert rows[..1] == [rows[0]];
      ColSumOne(rows[0], j);
    } else {
      ScanAt(rows[1..], next, k - 1, j);
      assert rows[1..][..k] == rows[1..k + 1];
      assert rows[..k + 1] == [rows[0]] + rows[1..k + 1];
      ColSumAppend([rows[0]], rows[1..k + 1], j);
      ColSumOne(rows[0], j);
    }
  }

  /** Row `k` of the forward cumulative table is the sum of bucket rows `0 .. k`. */
  lemma CumsumAt(rows: seq<seq<int>>, k: nat, j: nat)
    requires Rect(rows, 6) && k < |rows| && j < 6
    ensures Cumsum(rows)[k][j] == ColSum(rows[..k + 1], j)
  {
    ScanAt(rows, Zeros(6), k, j);
  }

  lemma {:induction false} ColSumReverse(rows: seq<seq<int>>, j: nat)
    requires HasColumn(rows, j)
    ensures HasColumn(Reverse(rows), j)
    ensures ColSum(Reverse(rows), j) == ColSum(rows, j)
  {
    if rows != [] {
      var r := Reverse(rows);
      ColSumReverse(rows[1..], j);
      assert r == Reverse(rows[1..]) + [rows[0]];
      assert r[..|r| - 1] == Reverse(rows[1..]);
      assert rows == [rows[0]] + rows[1..];
      ColSumAppend([rows[0]], rows[1..], j);
      ColSumOne(rows[0], j);
    }
  }

  /** Row `k` of the inverse cumulative table is the sum of bucket rows `k .. end`. */
  lemma InverseAt(rows: seq<seq<int>>, k: nat, j: nat)
    requires Rect(rows, 6) && k < |rows| && j < 6
    ensures InverseCumsum(rows)[k][j] == ColSum(rows[k..], j)
  {
    var n := |rows|;
    var rev := Reverse(rows);
    assert InverseCumsum(rows)[k] == Cumsum(rev)[n - 1 - k];
    CumsumAt(rev, n - 1 - k, j);
    assert rev[..n - k] == Reverse(rows[k..]);
    ColSumReverse(rows[k..], j);
  }

  /** A column with no negative entry. */
  predicate NonNegColumn(rows: seq<seq<int>>, j: nat)
    requires HasColumn(rows, j)
  {
    forall i :: 0 <= i < |rows| ==> rows[i][j] >= 0
  }

  /** Each column of the forward cumulative table is non-decreasing. */
  lemma CumsumMonotone(rows: seq<seq<int>>, j: nat, k1: nat, k2: nat)
    requires Rect(rows, 6) && j < 6 && NonNegColumn(rows, j) && k1 <= k2 < |rows|
    ensures Cumsum(rows)[k1][j] <= Cumsum(rows)[k2][j]
  {
    CumsumAt(rows, k1, j);
    CumsumAt(rows, k2, j);
    assert rows[..k2 + 1] == rows[..k1 + 1] + rows[k1 + 1..k2 + 1];
    ColSumAppend(rows[..k1 + 1], rows[k1 + 1..k2 + 1], j);
    ColSumNonNeg(rows[k1 + 1..k2 + 1], j);
  }

  /** Each column of the inverse cumulative table is non-increasing. */
  lemma InverseMonotone(rows: seq<seq<int>>, j: nat, k1: nat, k2: nat)
    requires Rect(rows, 6) && j < 6 && NonNegColumn(rows, j) && k1 <= k2 < |rows|
    ensures InverseCumsum(rows)[k2][j] <= InverseCumsum(rows)[k1][j]
  {
    InverseAt(rows, k1, j);
    InverseAt(rows, k2, j);
    SuffixSumMonotone(rows, j, k1, k2);
  }

  lemma SuffixSumMonotone(rows: seq<seq<int>>, j: nat, k1: nat, k2: nat)
    requires HasColumn(rows, j) && NonNegColumn(rows, j) && k1 <= k2 <= |rows|
    ensures ColSum(rows[k2..], j) <= ColSum(rows[k1..], j)
  {
    assert rows[k1..] == rows[k1..k2] + rows[k2..];
    ColSumAppend(rows[k1..k2], rows[k2..], j);
    ColSumNonNeg(rows[k1..k2], j);
  }

  /** The last forward row and the first inverse row are both the column sums of the table. */
  lemma EndsAreTotals(rows: seq<seq<int>>)
    requires Rect(rows, 6) && |rows| > 0
    ensures Cumsum(rows)[|rows| - 1] == ColumnSums(rows)
    ensures InverseCumsum(rows)[0] == ColumnSums(rows)
  {
    var n := |rows|;
    forall j | 0 <= j < 6
      ensures Cumsum(rows)[n - 1][j] == ColumnSums(rows)[j]
      ensures InverseCumsum(rows)[0][j] == ColumnSums(rows)[j]
    {
      CumsumAt(rows, n - 1, j);
      InverseAt(rows, 0, j);
      assert rows[..n] == rows && rows[0..] == rows;
    }
  }

  /** The appended maximum row of the forward table is its last row, the column sums. */
  lemma ForwardMaxRow(rows: seq<seq<int>>)
    requires Rect(rows, 6) && |rows| > 0 && AllBalanced(rows)
    ensures ColumnMaxes(Cumsum(rows)) == ColumnSums(rows)
  {
    var c, n := Cumsum(rows), |rows|;
    EndsAreTotals(rows);
    forall j | 0 <= j < 6 ensures ColumnMaxes(c)[j] == c[n - 1][j] {
      var m := ColMax(c, j);
      var i :| 0 <= i < n && c[i][j] == m;
      assert NonNegColumn(rows, j) by {
        forall i' | 0 <= i' < n ensures rows[i'][j] >= 0 {
          assert Balanced(rows[i']);
        }
      }
      CumsumMonotone(rows, j, i, n - 1);
    }
  }

  /** The appended maximum row of the inverse table is its first row, the column sums. */
  lemma InverseMaxRow(rows: seq<seq<int>>)
    requires Rect(rows, 6) && |rows| > 0 && AllBalanced(rows)
    ensures ColumnMaxes(InverseCumsum(rows)) == ColumnSums(rows)
  {
    var c := InverseCumsum(rows);
    EndsAreTotals(rows);
    forall j | 0 <= j < 6 ensures ColumnMaxes(c)[j] == c[0][j] {
      var m := ColMax(c, j);
      var i :| 0 <= i < |rows| && c[i][j] == m;
      assert NonNegColumn(rows, j) by {
        forall i' | 0 <= i' < |rows| ensures rows[i'][j] >= 0 {
          assert Balanced(rows[i']);
        }
      }
      InverseMonotone(rows, j, 0, i);
    }
  }

  /** Every forward row is the sum of a prefix of the table, so it keeps the partition. */
  lemma CumsumBalanced(rows: seq<seq<int>>)
    requires Rect(rows, 6) && AllBalanced(rows)
    ensures AllBalanced(Cumsum(rows))
  {
    forall k | 0 <= k < |rows| ensures Balanced(Cumsum(rows)[k]) {
      forall j | 0 <= j < 6 ensures Cumsum(rows)[k][j] == ColumnSums(rows[..k + 1])[j] {
        CumsumAt(rows, k, j);
      }
      assert Cumsum(rows)[k] == ColumnSums(rows[..k + 1]);
      BalancedSums(rows[..k + 1]);
    }
  }

  /** Every inverse row is the sum of a suffix of the table, so it keeps the partition. */
  lemma InverseBalanced(rows: seq<seq<int>>)
    requires Rect(rows, 6) && AllBalanced(rows)
    ensures AllBalanced(InverseCumsum(rows))
  {
    forall k | 0 <= k < |rows| ensures Balanced(InverseCumsum(rows)[k]) {
      forall j | 0 <= j < 6 ensures InverseCumsum(rows)[k][j] == ColumnSums(rows[k..])[j] {
        InverseAt(rows, k, j);
      }
      assert InverseCumsum(rows)[k] == ColumnSums(rows[k..]);
      BalancedSums(rows[k..]);
    }
  }
}
