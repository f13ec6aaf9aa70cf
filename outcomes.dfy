/** The outcome taxonomy: for each of the three evaluations (text, region,
    combined) six queries over the presence and equality of the ground truth
    and the reading, evaluated with pandas' missing-value semantics. */
module Outcomes {

  import opened Records

  /** The three evaluations, in the order the report indexes them: text (0),
      country/state (1), both together (2). */
  datatype Axis = Text | Region | Combined

  /** The six rows of the evaluation index, in index order: "-Total",
      "Success", "-Fail", "GT!=NA&ARH!=NA", "GT=NA&ARH!=NA", "GT!=NA&ARH=NA".
      On the Combined axis the last three rows hold, under the same labels,
      the records whose text alone failed, whose region alone failed, and
      whose text and region both failed. */
  datatype Category = Total | Success | Fail | BothPresent | GtAbsent | ReadAbsent

  const Categories: seq<Category> := [Total, Success, Fail, BothPresent, GtAbsent, ReadAbsent]

  /** The confidence field each axis reads (`confi`): conf1, conf2, conf3. */
  function Confidence(axis: Axis, r: Record): real {
    match axis
    case Text => r.conf1
    case Region => r.conf2
    case Combined => r.conf3
  }

  /** The six queries of a single-field axis, `g` being the ground truth and `a` the reading. */
  predicate PairHolds(c: Category, g: Option<string>, a: Option<string>) {
    match c
    case Total => Present(a) || Present(g)
    case Success => Same(g, a)
    case Fail => !Same(g, a) && (Present(g) || Present(a))
    case BothPresent => !Same(g, a) && (Present(g) && Present(a))
    case GtAbsent => !Present(g) && Present(a)
    case ReadAbsent => Present(g) && !Present(a)
  }

  /** The six queries of the combined axis. */
  predicate CombinedHolds(c: Category, r: Record) {
    var plateSeen := Present(r.plr) || Present(r.plate);
    var countrySeen := Present(r.ctr) || Present(r.country);
    var plateOk := Same(r.plate, r.plr);
    var countryOk := Same(r.country, r.ctr);
    match c
    case Total => plateSeen && countrySeen
    case Success => plateOk && countryOk
    case Fail => (!plateOk || !countryOk) && countrySeen && plateSeen
    case BothPresent => (!plateOk && countryOk) && countrySeen && plateSeen
    case GtAbsent => (plateOk && !countryOk) && countrySeen
    case ReadAbsent => (!plateOk && !countryOk) && plateSeen && countrySeen
  }

  /** Record `r` is selected by query `c` of `axis`. */
  predicate Holds(axis: Axis, c: Category, r: Record) {
    match axis
    case Text => PairHolds(c, r.plate, r.plr)
    case Region => PairHolds(c, r.country, r.ctr)
    case Combined => CombinedHolds(c, r)
  }

  /** 1 when `b` holds, else 0. */
  function Ind(b: bool): nat {
    if b then 1 else 0
  }

  /** Success needs both sides present and equal: two missing values are never a success. */
  lemma SuccessNeedsBoth(axis: Axis, r: Record)
    ensures Holds(axis, Success, r) && axis != Region ==>
              r.plate.Some? && r.plr.Some? && r.plate == r.plr
    ensures Holds(axis, Success, r) && axis != Text ==>
              r.country.Some? && r.ctr.Some? && r.country == r.ctr
    ensures r.plate == r.plr == None ==> !Holds(Text, Success, r) && !Holds(Combined, Success, r)
    ensures r.country == r.ctr == None ==> !Holds(Region, Success, r) && !Holds(Combined, Success, r)
  {
  }

  /** A record in Total falls in exactly one of Success and the last three
      categories, and a record outside Total falls in none of them. */
  lemma ExactlyOne(axis: Axis, r: Record)
    ensures Ind(Holds(axis, Success, r)) + Ind(Holds(axis, BothPresent, r))
          + Ind(Holds(axis, GtAbsent, r)) + Ind(Holds(axis, ReadAbsent, r))
         == Ind(Holds(axis, Total, r))
  {
  }

  /** Fail is the union of the last three categories, which are pairwise exclusive. */
  lemma FailIsUnion(axis: Axis, r: Record)
    ensures Holds(axis, Fail, r) <==>
              Holds(axis, BothPresent, r) || Holds(axis, GtAbsent, r) || Holds(axis, ReadAbsent, r)
    ensures !(Holds(axis, BothPresent, r) && Holds(axis, GtAbsent, r))
    ensures !(Holds(axis, BothPresent, r) && Holds(axis, ReadAbsent, r))
    ensures !(Holds(axis, GtAbsent, r) && Holds(axis, ReadAbsent, r))
  {
  }

  /** Every category lies inside Total. */
  lemma WithinTotal(axis: Axis, c: Category, r: Record)
    ensures Holds(axis, c, r) ==> Holds(axis, Total, r)
  {
  }

  /** The combined Total and Success are the conjunctions of the text and region ones. */
  lemma CombinedIsConjunction(r: Record)
    ensures Holds(Combined, Total, r) <==> Holds(Text, Total, r) && Holds(Region, Total, r)
    ensures Holds(Combined, Success, r) <==> Holds(Text, Success, r) && Holds(Region, Success, r)
  {
  }

  /** The row filter keeps exactly the records in the text Total or the region Total. */
  lemma KeptIffSomeTotal(r: Record)
    ensures Kept(r) <==> Holds(Text, Total, r) || Holds(Region, Total, r)
  {
  }
}
