/** The evaluation summary of one axis (`cdic`): per category the record
    count, its percentage of Total, and the minimum, maximum and mean of the
    axis's confidence over the category's records. */
module Summary {

  import opened Records
  import opened Outcomes
  import opened Rows

  /** Number of records of `rs` selected by query `c` of `axis` (`.size` of the query). */
  function Size(rs: seq<Record>, axis: Axis, c: Category): (n: nat)
    ensures n <= |rs|
  {
    if rs == [] then 0 else Ind(Holds(axis, c, rs[0])) + Size(rs[1..], axis, c)
  }

  /** The counts split as the categories do: Total is Success plus the last
      three categories, and Fail is the last three. */
  lemma {:induction false} SizePartition(rs: seq<Record>, axis: Axis)
    ensures Size(rs, axis, Total)
         == Size(rs, axis, Success) + Size(rs, axis, BothPresent)
          + Size(rs, axis, GtAbsent) + Size(rs, axis, ReadAbsent)
    ensures Size(rs, axis, Fail)
         == Size(rs, axis, BothPresent) + Size(rs, axis, GtAbsent) + Size(rs, axis, ReadAbsent)
  {
    if rs != [] {
      SizePartition(rs[1..], axis);
      ExactlyOne(axis, rs[0]);
      FailIsUnion(axis, rs[0]);
    }
  }

  /** No category has more records than Total. */
  lemma {:induction false} SizeWithinTotal(rs: seq<Record>, axis: Axis, c: Category)
    ensures Size(rs, axis, c) <= Size(rs, axis, Total)
  {
    if rs != [] {
      SizeWithinTotal(rs[1..], axis, c);
      WithinTotal(axis, c, rs[0]);
    }
  }

  /** The records whose image name is present: `['img'].count()` skips the others. */
  function Named(rs: seq<Record>): (named: seq<Record>)
    ensures |named| <= |rs|
    ensures forall i :: 0 <= i < |named| ==> named[i].img.Some?
  {
    if rs == [] then []
    else
      (if rs[0].img.Some? then [rs[0]] else []) + Named(rs[1..])
  }

  /** `Named` keeps every record with an image name, as often as it occurs, and no other. */
  lemma {:induction false} NamedExactly(rs: seq<Record>)
    ensures forall r :: multiset(Named(rs))[r] == if r.img.Some? then multiset(rs)[r] else 0
  {
    if rs != [] {
      NamedExactly(rs[1..]);
      assert rs == [rs[0]] + rs[1..];
    }
  }

  /** The six sizes of `rs`, in index order; they keep the partition. */
  function Tally(rs: seq<Record>, axis: Axis): (row: seq<int>)
    ensures Balanced(row)
    ensures row[0] <= |rs|
  {
    SizePartition(rs, axis);
    [Size(rs, axis, Total), Size(rs, axis, Success), Size(rs, axis, Fail),
     Size(rs, axis, BothPresent), Size(rs, axis, GtAbsent), Size(rs, axis, ReadAbsent)]
  }

  /** `calc_sum`: the six category counts of the records that have an image name. */
  function CalcSum(rs: seq<Record>, axis: Axis): (row: seq<int>)
    ensures Balanced(row)
    ensures row[0] <= |rs|
  {
    Tally(Named(rs), axis)
  }

  /** `part / whole * 100`, undefined (NaN) when `whole` is 0. */
  function Percent(part: int, whole: int): (p: Option<real>)
    ensures p.None? <==> whole == 0
  {
    if whole == 0 then None else Some(part as real * 100.0 / whole as real)
  }

  /** A share of a positive whole lies between 0 and 100 percent. */
  lemma PercentBounds(part: int, whole: int)
    requires 0 <= part <= whole && whole > 0
    ensures 0.0 <= Percent(part, whole).value <= 100.0
  {
    var w := whole as real;
    DivBounds(part as real * 100.0, w, 0.0, 100.0);
  }

  /** Percentages over one whole add up as their parts do. */
  lemma PercentAdd(a: int, b: int, whole: int)
    requires whole != 0
    ensures Percent(a, whole).value + Percent(b, whole).value == Percent(a + b, whole).value
  {
    DivAdd(a as real * 100.0, b as real * 100.0, whole as real);
  }

  lemma DivAdd(a: real, b: real, w: real)
    requires w != 0.0
    ensures a / w + b / w == (a + b) / w
  {
    var x, y := a / w, b / w;
    assert x * w == a;
    assert y * w == b;
    assert (x + y) * w == a + b;
  }

  lemma DivBounds(s: real, n: real, lo: real, hi: real)
    requires n > 0.0 && n * lo <= s <= n * hi
    ensures lo <= s / n <= hi
  {
    var q := s / n;
    assert q * n == s;
  }

  /** `calc_prc`: each category's size as a percentage of the Total size. */
  function CalcPrc(rs: seq<Record>, axis: Axis): (prc: seq<Option<real>>)
    ensures |prc| == 6
  {
    var total := Size(rs, axis, Total);
    seq(6, i requires 0 <= i < 6 => Percent(Size(rs, axis, Categories[i]), total))
  }

  /** `calc_prc` as written: the sizes are Python integers, so when the Total
      query selects nothing `size / mx` raises ZeroDivisionError (None) and no
      percentage is formed; otherwise the values are those of `CalcPrc`. */
  function CalcPrcAsWritten(rs: seq<Record>, axis: Axis): (prc: Option<seq<real>>)
    ensures prc.None? <==> Size(rs, axis, Total) == 0
    ensures prc.Some? ==> |prc.value| == 6 && forall i :: 0 <= i < 6 ==> CalcPrc(rs, axis)[i] == Some(prc.value[i])
  {
    var total := Size(rs, axis, Total);
    if total == 0 then None
    else Some(seq(6, i requires 0 <= i < 6 => Size(rs, axis, Categories[i]) as real * 100.0 / total as real))
  }

  /** A store that the row filter keeps but that holds no plate value on either
      side makes the text axis's `calc_prc` raise, and so does the empty store on
      every axis; the corrected `CalcPrc` marks every percentage undefined instead. */
  lemma PrcRaisesWithoutText(axis: Axis)
    ensures var r := Record(Some("img.jpg"), None, Some("PL"), None, Some("PL"), 50.0, 90.0, 45.0);
      && Kept(r)
      && Size([r], Region, Total) == 1
      && CalcPrcAsWritten([r], Text).None?
      && CalcPrcAsWritten([], axis).None?
      && (forall i :: 0 <= i < 6 ==> CalcPrc([r], Text)[i].None? && CalcPrc([], axis)[i].None?)
  {
    var r := Record(Some("img.jpg"), None, Some("PL"), None, Some("PL"), 50.0, 90.0, 45.0);
    assert [r][1..] == [];
  }

  /** Percentages of a balanced row over one whole keep the partition. */
  lemma BalancedPercents(row: seq<int>, whole: int)
    requires Balanced(row) && whole != 0
    ensures Percent(row[1], whole).value + Percent(row[3], whole).value
          + Percent(row[4], whole).value + Percent(row[5], whole).value
         == Percent(row[0], whole).value
    ensures Percent(row[2], whole).value
         == Percent(row[3], whole).value + Percent(row[4], whole).value + Percent(row[5], whole).value
  {
    PercentAdd(row[3], row[4], whole);
    PercentAdd(row[3] + row[4], row[5], whole);
    PercentAdd(row[1], row[3] + row[4] + row[5], whole);
  }

  /** A positive whole is 100 percent of itself. */
  lemma PercentOfWhole(whole: int)
    requires whole != 0
    ensures Percent(whole, whole) == Some(100.0)
  {
    var w := whole as real;
    assert (w * 100.0) / w * w == w * 100.0;
  }

  /** What the percentages of an axis promise: with records in Total, Total
      is 100%, Success and the last three categories add up to 100%, Fail is
      the sum of the last three, and every percentage lies in [0, 100]; with
      none, every percentage is undefined. */
  predicate PercentagesOf(rs: seq<Record>, axis: Axis, prc: seq<Option<real>>) {
    && |prc| == 6
    && if Size(rs, axis, Total) == 0 then forall i :: 0 <= i < 6 ==> prc[i].None?
       else
         && (forall i :: 0 <= i < 6 ==> prc[i].Some? && 0.0 <= prc[i].value <= 100.0)
         && prc[0] == Some(100.0)
         && prc[1].value + prc[3].value + prc[4].value + prc[5].value == 100.0
         && prc[2].value == prc[3].value + prc[4].value + prc[5].value
  }

  /** The corrected `calc_prc` keeps these promises on every store. */
  lemma PrcFacts(rs: seq<Record>, axis: Axis)
    ensures PercentagesOf(rs, axis, CalcPrc(rs, axis))
  {
    var prc := CalcPrc(rs, axis);
    var t := Tally(rs, axis);
    assert forall i :: 0 <= i < 6 ==> prc[i] == Percent(t[i], t[0]);
    if t[0] != 0 {
      RowPercentFacts(t);
    }
  }

  /** The percentages of a balanced row over its own Total. */
  lemma RowPercentFacts(row: seq<int>)
    requires Balanced(row) && row[0] != 0
    ensures forall i :: 0 <= i < 6 ==>
      Percent(row[i], row[0]).Some? && 0.0 <= Percent(row[i], row[0]).value <= 100.0
    ensures Percent(row[0], row[0]) == Some(100.0)
    ensures Percent(row[1], row[0]).value + Percent(row[3], row[0]).value
          + Percent(row[4], row[0]).value + Percent(row[5], row[0]).value == 100.0
    ensures Percent(row[2], row[0]).value
         == Percent(row[3], row[0]).value + Percent(row[4], row[0]).value + Percent(row[5], row[0]).value
  {
    var total := row[0];
    forall i | 0 <= i < 6
      ensures Percent(row[i], total).Some? && 0.0 <= Percent(row[i], total).value <= 100.0
    {
      PercentBounds(row[i], total);
    }
    BalancedPercents(row, total);
    PercentOfWhole(total);
  }

  /** The records of `rs` that query `c` of `axis` selects (`df.query(q)`), in order. */
  function Select(rs: seq<Record>, axis: Axis, c: Category): (s: seq<Record>)
    ensures |s| == Size(rs, axis, c)
    ensures forall i :: 0 <= i < |s| ==> Holds(axis, c, s[i])
  {
    if rs == [] then []
    else (if Holds(axis, c, rs[0]) then [rs[0]] else []) + Select(rs[1..], axis, c)
  }

  /** `Select` keeps every record the query selects, as often as it occurs, and no other. */
  lemma {:induction false} SelectExactly(rs: seq<Record>, axis: Axis, c: Category)
    ensures forall r :: multiset(Select(rs, axis, c))[r] == if Holds(axis, c, r) then multiset(rs)[r] else 0
  {
    if rs != [] {
      SelectExactly(rs[1..], axis, c);
      assert rs == [rs[0]] + rs[1..];
    }
  }

  /** The axis confidence of every record of `s`, in order. */
  function ConfidenceColumn(s: seq<Record>, axis: Axis): (xs: seq<real>)
    ensures |xs| == |s| && forall i :: 0 <= i < |s| ==> xs[i] == Confidence(axis, s[i])
  {
    seq(|s|, i requires 0 <= i < |s| => Confidence(axis, s[i]))
  }

  /** The records `Select` keeps are exactly those of `rs` that the query selects. */
  lemma {:induction false} SelectMembers(rs: seq<Record>, axis: Axis, c: Category)
    ensures forall r :: r in Select(rs, axis, c) <==> r in rs && Holds(axis, c, r)
  {
    if rs != [] {
      SelectMembers(rs[1..], axis, c);
      assert rs == [rs[0]] + rs[1..];
    }
  }

  /** Every value of the column is the confidence of a selected record, and
      every selected record's confidence is in the column. */
  lemma ConfidencesMembers(rs: seq<Record>, axis: Axis, c: Category)
    ensures var xs := ConfidenceColumn(Select(rs, axis, c), axis);
      && (forall x :: x in xs ==>
            exists k :: 0 <= k < |rs| && Holds(axis, c, rs[k]) && x == Confidence(axis, rs[k]))
      && (forall k :: 0 <= k < |rs| && Holds(axis, c, rs[k]) ==> Confidence(axis, rs[k]) in xs)
  {
    var s := Select(rs, axis, c);
    var xs := ConfidenceColumn(s, axis);
    SelectMembers(rs, axis, c);
    forall x | x in xs
      ensures exists k :: 0 <= k < |rs| && Holds(axis, c, rs[k]) && x == Confidence(axis, rs[k])
    {
      var i :| 0 <= i < |xs| && xs[i] == x;
      assert s[i] in s;
      var k :| 0 <= k < |rs| && rs[k] == s[i];
    }
    forall k | 0 <= k < |rs| && Holds(axis, c, rs[k])
      ensures Confidence(axis, rs[k]) in xs
    {
      assert rs[k] in s;
      var i :| 0 <= i < |s| && s[i] == rs[k];
      assert xs[i] == Confidence(axis, rs[k]);
    }
  }

  /** The axis confidences of the records selected by query `c` (`df.query(q)[conf]`):
      one entry per selected record, in order, so each value occurs as often as
      the selected records carry it. */
  function Confidences(rs: seq<Record>, axis: Axis, c: Category): (xs: seq<real>)
    ensures |xs| == Size(rs, axis, c)
    ensures xs == ConfidenceColumn(Select(rs, axis, c), axis)
    ensures forall x :: x in xs ==>
      exists k :: 0 <= k < |rs| && Holds(axis, c, rs[k]) && x == Confidence(axis, rs[k])
    ensures forall k :: 0 <= k < |rs| && Holds(axis, c, rs[k]) ==> Confidence(axis, rs[k]) in xs
  {
    ConfidencesMembers(rs, axis, c);
    ConfidenceColumn(Select(rs, axis, c), axis)
  }

  /** `.min()`: the least value, or no value (NaN) for an empty column. */
  function MinOf(xs: seq<real>): (m: Option<real>)
    ensures m.None? <==> xs == []
    ensures m.Some? ==> m.value in xs && forall i :: 0 <= i < |xs| ==> m.value <= xs[i]
  {
    if xs == [] then None
    else
      var rest := MinOf(xs[1..]);
      if rest.None? || xs[0] <= rest.value then Some(xs[0]) else rest
  }

  /** `.max()`: the greatest value, or no value (NaN) for an empty column. */
  function MaxOf(xs: seq<real>): (m: Option<real>)
    ensures m.None? <==> xs == []
    ensures m.Some? ==> m.value in xs && forall i :: 0 <= i < |xs| ==> xs[i] <= m.value
  {
    if xs == [] then None
    else
      var rest := MaxOf(xs[1..]);
      if rest.None? || xs[0] >= rest.value then Some(xs[0]) else rest
  }

  function RealSum(xs: seq<real>): real {
    if xs == [] then 0.0 else xs[0] + RealSum(xs[1..])
  }

  /** `.mean()`: the arithmetic mean, or no value (NaN) for an empty column. */
  function MeanOf(xs: seq<real>): (m: Option<real>)
    ensures m.None? <==> xs == []
  {
    if xs == [] then None else Some(RealSum(xs) / |xs| as real)
  }

  /** A sum of values within [lo, hi] lies within [n * lo, n * hi]. */
  lemma {:induction false} TotalBounds(xs: seq<real>, lo: real, hi: real)
    requires forall i :: 0 <= i < |xs| ==> lo <= xs[i] <= hi
    ensures |xs| as real * lo <= RealSum(xs) <= |xs| as real * hi
  {
    if xs != [] {
      TotalBounds(xs[1..], lo, hi);
      assert |xs| as real * lo == (|xs| - 1) as real * lo + lo;
      assert |xs| as real * hi == (|xs| - 1) as real * hi + hi;
    }
  }

  /** The mean of values within [lo, hi] lies within [lo, hi]. */
  lemma MeanWithin(xs: seq<real>, lo: real, hi: real)
    requires xs != [] && forall i :: 0 <= i < |xs| ==> lo <= xs[i] <= hi
    ensures lo <= MeanOf(xs).value <= hi
  {
    TotalBounds(xs, lo, hi);
    DivBounds(RealSum(xs), |xs| as real, lo, hi);
  }

  /** Over a non-empty column, min <= mean <= max. */
  lemma MinMeanMax(xs: seq<real>)
    requires xs != []
    ensures MinOf(xs).value <= MeanOf(xs).value <= MaxOf(xs).value
  {
    MeanWithin(xs, MinOf(xs).value, MaxOf(xs).value);
  }

  /** `calc_min_gc`, `calc_max_gc`, `calc_avg_gc`: per category, in index order. */
  function CalcMinGc(rs: seq<Record>, axis: Axis): (mins: seq<Option<real>>)
    ensures |mins| == 6
  {
    seq(6, i requires 0 <= i < 6 => MinOf(Confidences(rs, axis, Categories[i])))
  }

  function CalcMaxGc(rs: seq<Record>, axis: Axis): (maxes: seq<Option<real>>)
    ensures |maxes| == 6
  {
    seq(6, i requires 0 <= i < 6 => MaxOf(Confidences(rs, axis, Categories[i])))
  }

  function CalcAvgGc(rs: seq<Record>, axis: Axis): (means: seq<Option<real>>)
    ensures |means| == 6
  {
    seq(6, i requires 0 <= i < 6 => MeanOf(Confidences(rs, axis, Categories[i])))
  }

  /** What `.min()`, `.max()` and `.mean()` of category `c`'s confidences
      promise: each is missing exactly when the category has no record;
      otherwise min <= mean <= max, min and max are confidences of records of
      the category, and every such record's confidence lies between them. */
  predicate StatisticsOf(rs: seq<Record>, axis: Axis, c: Category, mn: Option<real>, mx: Option<real>, avg: Option<real>) {
    var n := Size(rs, axis, c);
    && (mn.None? <==> n == 0)
    && (mx.None? <==> n == 0)
    && (avg.None? <==> n == 0)
    && (n > 0 ==>
         && mn.value <= avg.value <= mx.value
         && (exists k :: 0 <= k < |rs| && Holds(axis, c, rs[k]) && mn.value == Confidence(axis, rs[k]))
         && (exists k :: 0 <= k < |rs| && Holds(axis, c, rs[k]) && mx.value == Confidence(axis, rs[k]))
         && (forall k :: 0 <= k < |rs| && Holds(axis, c, rs[k]) ==>
               mn.value <= Confidence(axis, rs[k]) <= mx.value))
  }

  /** Min, max and mean of one category, as `calc_min_gc`, `calc_max_gc` and `calc_avg_gc` give them. */
  lemma StatisticsFacts(rs: seq<Record>, axis: Axis, i: nat)
    requires i < 6
    ensures StatisticsOf(rs, axis, Categories[i], CalcMinGc(rs, axis)[i], CalcMaxGc(rs, axis)[i], CalcAvgGc(rs, axis)[i])
  {
    var xs := Confidences(rs, axis, Categories[i]);
    if xs != [] {
      MinMeanMax(xs);
    }
  }

  /** `calc_avg_gc` is the average of the selected records' confidences: the
      sum of the confidences of the records the query selects, each counted
      as often as it occurs, over the category's count. */
  lemma MeanIsAverage(rs: seq<Record>, axis: Axis, i: nat)
    requires i < 6
    ensures var n := Size(rs, axis, Categories[i]);
      n > 0 ==> CalcAvgGc(rs, axis)[i]
                == Some(RealSum(ConfidenceColumn(Select(rs, axis, Categories[i]), axis)) / n as real)
  {
    var xs := Confidences(rs, axis, Categories[i]);
    assert CalcAvgGc(rs, axis)[i] == MeanOf(xs);
  }

  /** The five columns of one evaluation table (`cdic`), each in index order. */
  datatype Evaluation = Evaluation(
    sum: seq<int>,
    prc: seq<Option<real>>,
    minGc: seq<Option<real>>,
    maxGc: seq<Option<real>>,
    avgGc: seq<Option<real>>)

  /** `cdic`: the evaluation table of one axis over the record store. */
  function Cdic(rs: seq<Record>, axis: Axis): (e: Evaluation)
    ensures Balanced(e.sum)
    ensures |e.prc| == |e.minGc| == |e.maxGc| == |e.avgGc| == 6
  {
    Evaluation(CalcSum(rs, axis), CalcPrc(rs, axis), CalcMinGc(rs, axis), CalcMaxGc(rs, axis), CalcAvgGc(rs, axis))
  }

  /** What the evaluation table of `axis` over `rs` promises: balanced counts
      bounded by the store, the percentages of `PercentagesOf`, and per
      category the statistics of `StatisticsOf`. */
  predicate EvaluationFacts(rs: seq<Record>, axis: Axis, e: Evaluation) {
    && Balanced(e.sum) && e.sum[0] <= |rs|
    && PercentagesOf(rs, axis, e.prc)
    && |e.minGc| == 6 && |e.maxGc| == 6 && |e.avgGc| == 6
    && forall i :: 0 <= i < 6 ==>
         StatisticsOf(rs, axis, Categories[i], e.minGc[i], e.maxGc[i], e.avgGc[i])
  }

  /** `cdic` keeps all of these promises on every store. */
  lemma CdicFacts(rs: seq<Record>, axis: Axis)
    ensures EvaluationFacts(rs, axis, Cdic(rs, axis))
  {
    PrcFacts(rs, axis);
    forall i | 0 <= i < 6
      ensures StatisticsOf(rs, axis, Categories[i], CalcMinGc(rs, axis)[i], CalcMaxGc(rs, axis)[i], CalcAvgGc(rs, axis)[i])
    {
      StatisticsFacts(rs, axis, i);
    }
  }
}
