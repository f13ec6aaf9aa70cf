/** The evaluation by confidence level (`cdic2`): ten buckets over an
    axis's own confidence, the category counts of each bucket, and the
    appended row of column sums. */
module Histogram {

  import opened Records
  import opened Outcomes
  import opened Rows
  import opened Summary

  /** `lo <= x < hi`, or `lo <= x <= hi` when `closed`. */
  predicate Within(x: real, lo: real, hi: real, closed: bool) {
    lo <= x && (x < hi || (closed && x == hi))
  }

  /** The query of bucket `k`: `[10k, 10k+10)` for the first nine, `[90, 100]` for the last. */
  predicate InBucket(x: real, k: nat)
    requires k < 10
  {
    Within(x, (10 * k) as real, (10 * k + 10) as real, k == 9)
  }

  /** A confidence lies in at most one bucket. */
  lemma BucketsDisjoint(x: real, k1: nat, k2: nat)
    requires k1 < 10 && k2 < 10
    ensures InBucket(x, k1) && InBucket(x, k2) ==> k1 == k2
  {
  }

  /** `raw.query("conf >= lo and conf < hi")` (or `<= hi`) on the axis's confidence. */
  function Slice(rs: seq<Record>, axis: Axis, lo: real, hi: real, closed: bool): (s: seq<Record>)
    ensures |s| <= |rs|
    ensures forall i :: 0 <= i < |s| ==> Within(Confidence(axis, s[i]), lo, hi, closed)
  {
    if rs == [] then []
    else
      (if Within(Confidence(axis, rs[0]), lo, hi, closed) then [rs[0]] else [])
      + Slice(rs[1..], axis, lo, hi, closed)
  }

  /** `Slice` keeps every record whose confidence lies in the interval, as
      often as it occurs, and no other. */
  lemma {:induction false} SliceExactly(rs: seq<Record>, axis: Axis, lo: real, hi: real, closed: bool)
    ensures forall r :: multiset(Slice(rs, axis, lo, hi, closed))[r]
                     == if Within(Confidence(axis, r), lo, hi, closed) then multiset(rs)[r] else 0
  {
    if rs != [] {
      SliceExactly(rs[1..], axis, lo, hi, closed);
      assert rs == [rs[0]] + rs[1..];
    }
  }

  /** The records of bucket `k` on `axis`. */
  function Bucket(rs: seq<Record>, axis: Axis, k: nat): seq<Record>
    requires k < 10
  {
    Slice(rs, axis, (10 * k) as real, (10 * k + 10) as real, k == 9)
  }

  /** The records whose axis confidence lies in [0, 100]. */
  function InRange(rs: seq<Record>, axis: Axis): seq<Record> {
    Slice(rs, axis, 0.0, 100.0, true)
  }

  /** `cdic2` turned into rows: row `k` holds `calc_sum` of bucket `k`. */
  function Cdic2(rs: seq<Record>, axis: Axis): (t: seq<seq<int>>)
    ensures |t| == 10 && Rect(t, 6) && AllBalanced(t)
  {
    seq(10, k requires 0 <= k < 10 => CalcSum(Bucket(rs, axis, k), axis))
  }

  /** The bucket table with its appended Total row of column sums (`gc1` before `insert_perc`). */
  function WithSumRow(t: seq<seq<int>>): (g: seq<seq<int>>)
    requires Rect(t, 6)
    ensures |g| == |t| + 1 && Rect(g, 6)
  {
    t + [ColumnSums(t)]
  }

  // ---- counting over slices ----

  /** Record `r` has an image name and query `c` of `axis` selects it: `calc_sum` counts it. */
  predicate Counted(r: Record, axis: Axis, c: Category) {
    r.img.Some? && Holds(axis, c, r)
  }

  /** Number of records of `rs` counted for `c` whose confidence lies in the slice. */
  function SliceCount(rs: seq<Record>, axis: Axis, c: Category, lo: real, hi: real, closed: bool): nat {
    if rs == [] then 0
    else
      var r := rs[0];
      Ind(Counted(r, axis, c) && Within(Confidence(axis, r), lo, hi, closed))
      + SliceCount(rs[1..], axis, c, lo, hi, closed)
  }

  lemma {:induction false} SizeAppend(a: seq<Record>, b: seq<Record>, axis: Axis, c: Category)
    ensures Size(a + b, axis, c) == Size(a, axis, c) + Size(b, axis, c)
  {
    if a == [] {
      assert a + b == b;
    } else {
      SizeAppend(a[1..], b, axis, c);
      assert (a + b)[0] == a[0];
      assert (a + b)[1..] == a[1..] + b;
    }
  }

  lemma {:induction false} NamedAppend(a: seq<Record>, b: seq<Record>)
    ensures Named(a + b) == Named(a) + Named(b)
  {
    if a == [] {
      assert a + b == b;
    } else {
      var ab := a + b;
      assert ab[0] == a[0] && ab[1..] == a[1..] + b;
      NamedAppend(a[1..], b);
      var head := if a[0].img.Some? then [a[0]] else [];
      assert Named(ab) == head + Named(ab[1..]);
      assert Named(a) == head + Named(a[1..]);
    }
  }

  lemma NamedSizeOne(r: Record, axis: Axis, c: Category)
    ensures Size(Named([r]), axis, c) == Ind(Counted(r, axis, c))
  {
    assert [r][1..] == [];
  }

  /** Counting the named records of a slice is counting record by record. */
  lemma {:induction false} SliceCountIsSize(rs: seq<Record>, axis: Axis, c: Category, lo: real, hi: real, closed: bool)
    ensures Size(Named(Slice(rs, axis, lo, hi, closed)), axis, c) == SliceCount(rs, axis, c, lo, hi, closed)
  {
    if rs != [] {
      var r := rs[0];
      var inside := Within(Confidence(axis, r), lo, hi, closed);
      var head := if inside then [r] else [];
      var tail := Slice(rs[1..], axis, lo, hi, closed);
      assert Slice(rs, axis, lo, hi, closed) == head + tail;
      SliceCountIsSize(rs[1..], axis, c, lo, hi, closed);
      NamedAppend(head, tail);
      SizeAppend(Named(head), Named(tail), axis, c);
      if inside {
        NamedSizeOne(r, axis, c);
      }
      assert Size(Named(head), axis, c) == Ind(Counted(r, axis, c) && inside);
      assert SliceCount(rs, axis, c, lo, hi, closed) == Ind(Counted(r, axis, c) && inside) + SliceCount(rs[1..], axis, c, lo, hi, closed);
    }
  }

  /** The count of category `c` summed over buckets `0 .. m-1`. */
  function BucketSum(rs: seq<Record>, axis: Axis, c: Category, m: nat): nat
    requires m <= 10
  {
    if m == 0 then 0
    else BucketSum(rs, axis, c, m - 1)
         + SliceCount(rs, axis, c, (10 * (m - 1)) as real, (10 * m) as real, m == 10)
  }

  /** How many of the buckets `0 .. m-1` record `r` is counted in. */
  function Hits(r: Record, axis: Axis, c: Category, m: nat): nat
    requires m <= 10
  {
    if m == 0 then 0
    else Hits(r, axis, c, m - 1)
         + Ind(Counted(r, axis, c) && InBucket(Confidence(axis, r), m - 1))
  }

  /** The first `m` buckets (m <= 9) together are the half-open range [0, 10m). */
  lemma {:induction false} HitsBelow(r: Record, axis: Axis, c: Category, m: nat)
    requires m <= 9
    ensures Hits(r, axis, c, m)
         == Ind(Counted(r, axis, c) && 0.0 <= Confidence(axis, r) < (10 * m) as real)
  {
    if m > 0 {
      HitsBelow(r, axis, c, m - 1);
    }
  }

  /** The ten buckets cover [0, 100] once: a record is counted in exactly one
      bucket when its confidence is in range, and in none otherwise. */
  lemma BucketsCover(r: Record, axis: Axis, c: Category)
    ensures Hits(r, axis, c, 10)
         == Ind(Counted(r, axis, c) && 0.0 <= Confidence(axis, r) <= 100.0)
  {
    HitsBelow(r, axis, c, 9);
  }

  lemma {:induction false} BucketSumStep(rs: seq<Record>, axis: Axis, c: Category, m: nat)
    requires rs != [] && m <= 10
    ensures BucketSum(rs, axis, c, m) == BucketSum(rs[1..], axis, c, m) + Hits(rs[0], axis, c, m)
  {
    if m > 0 {
      BucketSumStep(rs, axis, c, m - 1);
    }
  }

  lemma {:induction false} BucketSumEmpty(axis: Axis, c: Category, m: nat)
    requires m <= 10
    ensures BucketSum([], axis, c, m) == 0
  {
    if m > 0 {
      BucketSumEmpty(axis, c, m - 1);
    }
  }

  /** Summing a category over the ten buckets counts the records in range. */
  lemma {:induction false} BucketSumInRange(rs: seq<Record>, axis: Axis, c: Category)
    ensures BucketSum(rs, axis, c, 10) == SliceCount(rs, axis, c, 0.0, 100.0, true)
  {
    if rs == [] {
      BucketSumEmpty(axis, c, 10);
    } else {
      BucketSumInRange(rs[1..], axis, c);
      BucketSumStep(rs, axis, c, 10);
      BucketsCover(rs[0], axis, c);
    }
  }

  lemma TallyAt(rs: seq<Record>, axis: Axis, j: nat)
    requires j < 6
    ensures Tally(rs, axis)[j] == Size(rs, axis, Categories[j])
  {
  }

  /** Cell `(k, j)` of the bucket table counts record by record. */
  lemma Cdic2At(rs: seq<Record>, axis: Axis, k: nat, j: nat)
    requires k < 10 && j < 6
    ensures Cdic2(rs, axis)[k][j]
         == SliceCount(rs, axis, Categories[j], (10 * k) as real, (10 * k + 10) as real, k == 9)
  {
    var lo, hi := (10 * k) as real, (10 * k + 10) as real;
    var b := Slice(rs, axis, lo, hi, k == 9);
    assert Cdic2(rs, axis)[k] == Tally(Named(b), axis);
    TallyAt(Named(b), axis, j);
    SliceCountIsSize(rs, axis, Categories[j], lo, hi, k == 9);
  }

  /** The first `m` rows of the bucket table sum, column by column, to the bucket sums. */
  lemma {:induction false} ColSumIsBucketSum(rs: seq<Record>, axis: Axis, j: nat, m: nat)
    requires j < 6 && m <= 10
    ensures ColSum(Cdic2(rs, axis)[..m], j) == BucketSum(rs, axis, Categories[j], m)
  {
    var t := Cdic2(rs, axis);
    if m > 0 {
      ColSumIsBucketSum(rs, axis, j, m - 1);
      ColSumPrefix(t, m, j);
      Cdic2At(rs, axis, m - 1, j);
    }
  }

  /** The appended Total row of the bucket table is `calc_sum` of the records
      whose confidence lies in [0, 100]: the buckets neither overlap nor leave gaps. */
  lemma SumRowIsInRangeCount(rs: seq<Record>, axis: Axis)
    ensures ColumnSums(Cdic2(rs, axis)) == CalcSum(InRange(rs, axis), axis)
  {
    var t := Cdic2(rs, axis);
    forall j | 0 <= j < 6 ensures ColumnSums(t)[j] == CalcSum(InRange(rs, axis), axis)[j] {
      ColSumIsBucketSum(rs, axis, j, 10);
      assert t[..10] == t;
      BucketSumInRange(rs, axis, Categories[j]);
      SliceCountIsSize(rs, axis, Categories[j], 0.0, 100.0, true);
      TallyAt(Named(InRange(rs, axis)), axis, j);
    }
  }

  /** When every confidence is in [0, 100], the Total row equals the whole-store `calc_sum`. */
  lemma SumRowIsStoreCount(rs: seq<Record>, axis: Axis)
    requires forall i :: 0 <= i < |rs| ==> 0.0 <= Confidence(axis, rs[i]) <= 100.0
    ensures ColumnSums(Cdic2(rs, axis)) == CalcSum(rs, axis)
  {
    SumRowIsInRangeCount(rs, axis);
    InRangeKeepsAll(rs, axis);
  }

  lemma {:induction false} InRangeKeepsAll(rs: seq<Record>, axis: Axis)
    requires forall i :: 0 <= i < |rs| ==> 0.0 <= Confidence(axis, rs[i]) <= 100.0
    ensures InRange(rs, axis) == rs
  {
    if rs != [] {
      InRangeKeepsAll(rs[1..], axis);
      assert rs == [rs[0]] + rs[1..];
    }
  }
}
