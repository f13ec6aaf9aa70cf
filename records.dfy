/** The record store: one evaluated image per record, after the sentinel
    markers of the sheet ("UNK", "N/A") have been read as missing values,
    and the row filter that drops records with nothing to compare. */
module Records {

  datatype Option<T> = None | Some(value: T)

  /** One row of the evaluation sheet. `plate` and `country` are the ground
      truth, `plr` and `ctr` what the recognizer read; `conf1`, `conf2` and
      `conf3` are its confidences for the plate text, the country/state and
      the combined reading. */
  datatype Record = Record(
    img: Option<string>,
    plate: Option<string>,
    country: Option<string>,
    plr: Option<string>,
    ctr: Option<string>,
    conf1: real,
    conf2: real,
    conf3: real)

  /** `x == x` in a query: false exactly when `x` is missing (NaN). */
  predicate Present(x: Option<string>) {
    x.Some?
  }

  /** `a == b` in a query: a missing value equals nothing, not even another
      missing value. `a != b` is its negation. */
  predicate Same(a: Option<string>, b: Option<string>) {
    a.Some? && b.Some? && a.value == b.value
  }

  /** The row filter: a record stays unless plate, country, plr and ctr are all missing. */
  predicate Kept(r: Record) {
    Present(r.plate) || Present(r.country) || Present(r.plr) || Present(r.ctr)
  }

  /** `dropna(how='all', subset=[plate, country, plr, ctr])`: every record that
      stays is kept by the filter, and every kept record stays, as often as it
      occurs in the raw batch. */
  function DropEmpty(raw: seq<Record>): (store: seq<Record>)
    ensures |store| <= |raw|
    ensures forall i :: 0 <= i < |store| ==> Kept(store[i])
    ensures forall r :: multiset(store)[r] == if Kept(r) then multiset(raw)[r] else 0
  {
    if raw == [] then []
    else
      assert raw == [raw[0]] + raw[1..];
      (if Kept(raw[0]) then [raw[0]] else []) + DropEmpty(raw[1..])
  }
}
