/** Worked cases of the report: a store of identical correct readings, a
    single reading without ground truth, two readings in two buckets carried
    through the cumulative tables, and the empty store. */
module Scenarios {

  import opened Records
  import opened Outcomes
  import opened Rows
  import opened Summary
  import opened Histogram
  import opened Cumulative
  import opened Frames

  /** Every record of `rs` is `r`. */
  predicate Uniform(rs: seq<Record>, r: Record) {
    forall i :: 0 <= i < |rs| ==> rs[i] == r
  }

  lemma {:induction false} SizeUniform(rs: seq<Record>, r: Record, axis: Axis, c: Category)
    requires Uniform(rs, r)
    ensures Size(rs, axis, c) == if Holds(axis, c, r) then |rs| else 0
  {
    if rs != [] {
      SizeUniform(rs[1..], r, axis, c);
    }
  }

  lemma {:induction false} NamedUniform(rs: seq<Record>, r: Record)
    requires Uniform(rs, r) && r.img.Some?
    ensures Named(rs) == rs
  {
    if rs != [] {
      NamedUniform(rs[1..], r);
      assert rs == [rs[0]] + rs[1..];
    }
  }

  lemma {:induction false} SelectUniform(rs: seq<Record>, r: Record, axis: Axis, c: Category)
    requires Uniform(rs, r) && Holds(axis, c, r)
    ensures Select(rs, axis, c) == rs
  {
    if rs != [] {
      SelectUniform(rs[1..], r, axis, c);
      assert rs == [rs[0]] + rs[1..];
    }
  }

  lemma ConfidencesUniform(rs: seq<Record>, r: Record, axis: Axis, c: Category)
    requires Uniform(rs, r) && Holds(axis, c, r)
    ensures var xs := Confidences(rs, axis, c);
      |xs| == |rs| && forall i :: 0 <= i < |xs| ==> xs[i] == Confidence(axis, r)
  {
    SelectUniform(rs, r, axis, c);
  }

  /** `n` records that all read their plate correctly: on the text axis every
      one is in Total and Success and none fails, Success is 100% of Total, and
      the minimum, maximum and mean Success confidence are the records' own. */
  lemma AllCorrect(rs: seq<Record>, r: Record)
    requires Uniform(rs, r) && rs != [] && r.img.Some? && Same(r.plate, r.plr)
    ensures var n := |rs|;
      CalcSum(rs, Text) == [n, n, 0, 0, 0, 0]
    ensures CalcPrc(rs, Text)[1] == Some(100.0)
    ensures CalcMinGc(rs, Text)[1] == CalcMaxGc(rs, Text)[1] == CalcAvgGc(rs, Text)[1] == Some(r.conf1)
  {
    NamedUniform(rs, r);
    forall j | 0 <= j < 6 ensures Size(rs, Text, Categories[j]) == CalcSum(rs, Text)[j] {
      TallyAt(rs, Text, j);
    }
    forall j | 0 <= j < 6
      ensures Size(rs, Text, Categories[j]) == if Holds(Text, Categories[j], r) then |rs| else 0
    {
      SizeUniform(rs, r, Text, Categories[j]);
    }
    PercentOfWhole(|rs|);
    var xs := Confidences(rs, Text, Success);
    ConfidencesUniform(rs, r, Text, Success);
    ConstantStatistics(xs, r.conf1);
    assert CalcMinGc(rs, Text)[1] == MinOf(xs);
    assert CalcMaxGc(rs, Text)[1] == MaxOf(xs);
    assert CalcAvgGc(rs, Text)[1] == MeanOf(xs);
  }

  /** The minimum, maximum and mean of a column holding one value are that value. */
  lemma ConstantStatistics(xs: seq<real>, v: real)
    requires xs != [] && forall i :: 0 <= i < |xs| ==> xs[i] == v
    ensures MinOf(xs) == MaxOf(xs) == MeanOf(xs) == Some(v)
  {
    MeanWithin(xs, v, v);
  }

  /** The bucket of a confidence in [20, 30) is bucket 2. */
  lemma SingleSlice(r: Record, k: nat)
    requires k < 10 && r.conf1 == 20.0
    ensures Bucket([r], Text, k) == if k == 2 then [r] else []
  {
    assert [r][1..] == [];
  }

  /** One record whose plate was read although the sheet has no plate for it:
      on the text axis it is in Total, in Fail and in GT=NA&ARH!=NA only, and in
      the bucket table it appears in row [20-30) alone. */
  lemma UnrecordedPlate(r: Record)
    requires r.img.Some? && r.plate.None? && r.plr.Some? && r.conf1 == 20.0
    ensures CalcSum([r], Text) == [1, 0, 1, 0, 1, 0]
    ensures Cdic2([r], Text)[2] == [1, 0, 1, 0, 1, 0]
    ensures forall k :: 0 <= k < 10 && k != 2 ==> Cdic2([r], Text)[k] == Zeros(6)
  {
    NamedUniform([r], r);
    forall j | 0 <= j < 6
      ensures Size([r], Text, Categories[j]) == if Holds(Text, Categories[j], r) then 1 else 0
    {
      SizeUniform([r], r, Text, Categories[j]);
    }
    assert CalcSum([r], Text) == [1, 0, 1, 0, 1, 0];
    forall k | 0 <= k < 10
      ensures Cdic2([r], Text)[k] == if k == 2 then [1, 0, 1, 0, 1, 0] else Zeros(6)
    {
      SingleSlice(r, k);
      assert Cdic2([r], Text)[k] == CalcSum(Bucket([r], Text, k), Text);
    }
  }

  lemma {:induction false} ColSumZero(rows: seq<seq<int>>, j: nat)
    requires HasColumn(rows, j) && forall i :: 0 <= i < |rows| ==> rows[i][j] == 0
    ensures ColSum(rows, j) == 0
  {
    if rows != [] {
      ColSumZero(rows[..|rows| - 1], j);
    }
  }

  /** The hypotheses of the two-bucket case: one Success in bucket [0-10), one
      mismatch with both sides present in bucket [10-20), nothing elsewhere. */
  predicate TwoBucketTable(t: seq<seq<int>>) {
    && |t| == 10 && Rect(t, 6)
    && t[0] == [1, 1, 0, 0, 0, 0] && t[1] == [1, 0, 1, 1, 0, 0]
    && forall k :: 2 <= k < 10 ==> t[k] == Zeros(6)
  }

  lemma TwoBucketsForward(t: seq<seq<int>>, j: nat)
    requires TwoBucketTable(t) && j < 6
    ensures Cumsum(t)[1][j] == t[0][j] + t[1][j]
  {
    CumsumAt(t, 1, j);
    ColSumPrefix(t, 2, j);
    ColSumPrefix(t, 1, j);
    assert t[..0] == [];
  }

  lemma TwoBucketsInverse(t: seq<seq<int>>, j: nat)
    requires TwoBucketTable(t) && j < 6
    ensures InverseCumsum(t)[0][j] == t[0][j] + t[1][j]
    ensures InverseCumsum(t)[1][j] == t[1][j]
  {
    var rest := t[2..];
    ColSumZero(rest, j);
    InverseAt(t, 0, j);
    InverseAt(t, 1, j);
    assert t[0..] == [t[0], t[1]] + rest;
    assert t[1..] == [t[1]] + rest;
    ColSumAppend([t[0], t[1]], rest, j);
    ColSumAppend([t[1]], rest, j);
    ColSumPrefix([t[0], t[1]], 2, j);
    ColSumPrefix([t[0], t[1]], 1, j);
    assert [t[0], t[1]][..1] == [t[0]] && [t[0], t[1]][..2] == [t[0], t[1]];
    ColSumOne(t[0], j);
    ColSumOne(t[1], j);
  }

  /** One Success in bucket [0-10) and one mismatch in [10-20): forward row 1
      holds both, inverse row 0 holds the same values, and inverse row 1 is
      bucket row 1 unchanged. */
  lemma TwoBuckets(t: seq<seq<int>>)
    requires TwoBucketTable(t)
    ensures Cumsum(t)[1] == [2, 1, 1, 1, 0, 0]
    ensures InverseCumsum(t)[0] == [2, 1, 1, 1, 0, 0]
    ensures InverseCumsum(t)[1] == t[1]
  {
    forall j | 0 <= j < 6
      ensures Cumsum(t)[1][j] == [2, 1, 1, 1, 0, 0][j]
      ensures InverseCumsum(t)[0][j] == [2, 1, 1, 1, 0, 0][j]
      ensures InverseCumsum(t)[1][j] == t[1][j]
    {
      TwoBucketsForward(t, j);
      TwoBucketsInverse(t, j);
    }
  }

  /** The buckets of a confidence 5 record and a confidence 15 record. */
  lemma TwoSlices(a: Record, b: Record, k: nat)
    requires k < 10 && a.conf1 == 5.0 && b.conf1 == 15.0
    ensures Bucket([a, b], Text, k) == if k == 0 then [a] else if k == 1 then [b] else []
  {
    var lo, hi, closed := (10 * k) as real, (10 * k + 10) as real, k == 9;
    assert [a, b][1..] == [b];
    assert [b][1..] == [];
    assert Slice([b], Text, lo, hi, closed)
        == (if Within(15.0, lo, hi, closed) then [b] else []) + Slice([], Text, lo, hi, closed);
    assert Slice([a, b], Text, lo, hi, closed)
        == (if Within(5.0, lo, hi, closed) then [a] else []) + Slice([b], Text, lo, hi, closed);
  }

  /** The text counts of one named record are its memberships in the six queries. */
  lemma OneRecordSum(r: Record, j: nat)
    requires r.img.Some? && j < 6
    ensures CalcSum([r], Text)[j] == Ind(Holds(Text, Categories[j], r))
  {
    NamedUniform([r], r);
    SizeUniform([r], r, Text, Categories[j]);
  }

  /** Two named records: a correct reading at text confidence 5 and a wrong
      one, both sides present, at 15. Their bucket table is the two-bucket
      table, so its cumulative tables are those of `TwoBuckets`. */
  lemma TwoRecords(a: Record, b: Record)
    requires a.img.Some? && Same(a.plate, a.plr) && a.conf1 == 5.0
    requires b.img.Some? && b.plate.Some? && b.plr.Some? && b.plate != b.plr && b.conf1 == 15.0
    ensures TwoBucketTable(Cdic2([a, b], Text))
    ensures Cumsum(Cdic2([a, b], Text))[1] == [2, 1, 1, 1, 0, 0]
    ensures InverseCumsum(Cdic2([a, b], Text))[0] == [2, 1, 1, 1, 0, 0]
    ensures InverseCumsum(Cdic2([a, b], Text))[1] == [1, 0, 1, 1, 0, 0]
  {
    var t := Cdic2([a, b], Text);
    forall j | 0 <= j < 6
      ensures CalcSum([a], Text)[j] == [1, 1, 0, 0, 0, 0][j]
      ensures CalcSum([b], Text)[j] == [1, 0, 1, 1, 0, 0][j]
    {
      OneRecordSum(a, j);
      OneRecordSum(b, j);
    }
    assert CalcSum([a], Text) == [1, 1, 0, 0, 0, 0];
    assert CalcSum([b], Text) == [1, 0, 1, 1, 0, 0];
    assert CalcSum([], Text) == Zeros(6);
    forall k | 0 <= k < 10
      ensures t[k] == if k == 0 then [1, 1, 0, 0, 0, 0] else if k == 1 then [1, 0, 1, 1, 0, 0] else Zeros(6)
    {
      TwoSlices(a, b, k);
      assert t[k] == CalcSum(Bucket([a, b], Text, k), Text);
    }
    TwoBuckets(t);
  }

  /** The bucket table of the empty store has no record in any bucket. */
  lemma EmptyBuckets(axis: Axis)
    ensures forall k :: 0 <= k < 10 ==> Cdic2([], axis)[k] == Zeros(6)
  {
    forall k | 0 <= k < 10 ensures Cdic2([], axis)[k] == Zeros(6) {
      assert Cdic2([], axis)[k] == CalcSum(Bucket([], axis, k), axis);
    }
  }

  /** The empty store's evaluation table: every count is 0, and every
      percentage and every confidence statistic is undefined. */
  lemma EmptyEvaluation(axis: Axis)
    ensures CalcSum([], axis) == Zeros(6)
    ensures forall i :: 0 <= i < 6 ==>
      CalcPrc([], axis)[i].None? && CalcMinGc([], axis)[i].None?
      && CalcMaxGc([], axis)[i].None? && CalcAvgGc([], axis)[i].None?
  {
    forall i | 0 <= i < 6 ensures CalcMinGc([], axis)[i].None? {
      assert Confidences([], axis, Categories[i]) == [];
    }
  }

  /** The cumulative tables of an all-zero bucket table are all zero. */
  lemma ZeroCumulative(t: seq<seq<int>>)
    requires |t| == 10 && Rect(t, 6) && forall k :: 0 <= k < 10 ==> t[k] == Zeros(6)
    ensures forall k :: 0 <= k < 10 ==> Cumsum(t)[k] == Zeros(6) && InverseCumsum(t)[k] == Zeros(6)
  {
    forall k | 0 <= k < 10
      ensures Cumsum(t)[k] == Zeros(6) && InverseCumsum(t)[k] == Zeros(6)
    {
      forall j | 0 <= j < 6 ensures Cumsum(t)[k][j] == 0 && InverseCumsum(t)[k][j] == 0 {
        CumsumAt(t, k, j);
        ColSumZero(t[..k + 1], j);
        InverseAt(t, k, j);
        ColSumZero(t[k..], j);
      }
    }
  }

  /** The confidence table of an all-zero bucket table holds only zeros, and
      every one of its "%" cells is undefined. */
  lemma ZeroConfidenceTable(t: seq<seq<int>>)
    requires |t| == 10 && Rect(t, 6) && forall k :: 0 <= k < 10 ==> t[k] == Zeros(6)
    ensures forall k :: 0 <= k < 11 ==> WithSumRow(t)[k] == Zeros(6)
    ensures forall c, i :: 0 <= c < 5 && 0 <= i < 11 ==> PercentColumns(WithSumRow(t))[c][i].None?
  {
    ZeroBalanced(t);
    ColumnSumsZero(t);
    PercentColumnsFacts(t);
  }

  /** The forward cumulative table of an all-zero bucket table, maximum row included, holds only zeros. */
  lemma ZeroForwardTable(t: seq<seq<int>>)
    requires |t| == 10 && Rect(t, 6) && forall k :: 0 <= k < 10 ==> t[k] == Zeros(6)
    ensures forall k :: 0 <= k < 11 ==> WithMaxRow(Cumsum(t))[k] == Zeros(6)
  {
    var f := Cumsum(t);
    ZeroBalanced(t);
    ColumnSumsZero(t);
    ZeroCumulative(t);
    ForwardMaxRow(t);
    assert ColumnMaxes(f) == Zeros(6);
    forall k | 0 <= k < 11 ensures WithMaxRow(f)[k] == Zeros(6) {
      if k < 10 {
        assert WithMaxRow(f)[k] == f[k];
      }
    }
  }

  /** The inverse cumulative table of an all-zero bucket table, maximum row included, holds only zeros. */
  lemma ZeroInverseTable(t: seq<seq<int>>)
    requires |t| == 10 && Rect(t, 6) && forall k :: 0 <= k < 10 ==> t[k] == Zeros(6)
    ensures forall k :: 0 <= k < 11 ==> WithMaxRow(InverseCumsum(t))[k] == Zeros(6)
  {
    var v := InverseCumsum(t);
    ZeroBalanced(t);
    ColumnSumsZero(t);
    ZeroCumulative(t);
    InverseMaxRow(t);
    assert ColumnMaxes(v) == Zeros(6);
    forall k | 0 <= k < 11 ensures WithMaxRow(v)[k] == Zeros(6) {
      if k < 10 {
        assert WithMaxRow(v)[k] == v[k];
      }
    }
  }

  lemma ZeroBalanced(t: seq<seq<int>>)
    requires forall k :: 0 <= k < |t| ==> t[k] == Zeros(6)
    ensures AllBalanced(t)
  {
    forall k | 0 <= k < |t| ensures Balanced(t[k]) {
      assert t[k] == Zeros(6);
    }
  }

  /** The empty store's bucket and cumulative tables hold only zeros, and
      every "%" cell of its confidence table is undefined. */
  lemma EmptyTables(axis: Axis)
    ensures var t := Cdic2([], axis);
      && (forall k :: 0 <= k < 11 ==> WithSumRow(t)[k] == Zeros(6))
      && (forall k :: 0 <= k < 11 ==> WithMaxRow(Cumsum(t))[k] == Zeros(6))
      && (forall k :: 0 <= k < 11 ==> WithMaxRow(InverseCumsum(t))[k] == Zeros(6))
      && (forall c, i :: 0 <= c < 5 && 0 <= i < 11 ==> PercentColumns(WithSumRow(t))[c][i].None?)
  {
    EmptyBuckets(axis);
    ZeroConfidenceTable(Cdic2([], axis));
    ZeroForwardTable(Cdic2([], axis));
    ZeroInverseTable(Cdic2([], axis));
  }

  /** The empty store's automation columns are all 0, with %Automation 0 by the zero guard. */
  lemma EmptyAutomation(axis: Axis)
    ensures var a := AutomationColumns(WithMaxRow(InverseCumsum(Cdic2([], axis))), 0);
      forall i :: 0 <= i < 11 ==>
        a[i].automation == 0 && a[i].automationPct == Some(0.0) && a[i].fp == 0 && a[i].fpPct == 0.0
  {
    EmptyTables(axis);
  }

  lemma ColumnSumsZero(t: seq<seq<int>>)
    requires Rect(t, 6) && forall k :: 0 <= k < |t| ==> t[k] == Zeros(6)
    ensures ColumnSums(t) == Zeros(6)
  {
    forall j | 0 <= j < 6 ensures ColumnSums(t)[j] == 0 {
      ColSumZero(t, j);
    }
  }
}
