/** Column-level stages: a table's header is its ordered list of column
    names. Pruning by a name test keeps the other names in their order;
    dropping or selecting NAMED columns aborts (pandas raises `KeyError`)
    when one of the names is absent, which the model returns as `None`. */
module Columns {
  import opened Wrappers
  import opened Seqs
  import opened Strings

  predicate IsArabic(name: string)   { EndsWith(name, "_ar") }
  predicate IsAmenity(name: string)  { Contains(name, "nearest") }
  predicate IsNearestPrefixed(name: string) { StartsWith(name, "nearest") }
  predicate IsParties(name: string)  { Contains(name, "parties") }

  /** Rent contracts: drop every column whose name ends with "_ar". */
  function RemovingArabicCols(cols: seq<string>): (r: seq<string>)
    ensures IsSubseq(r, cols)
    ensures forall c :: c in r <==> c in cols && !IsArabic(c)
  {
    Filter(c => !IsArabic(c), cols)
  }

  /** Rent contracts: drop every column whose name contains "nearest"
      anywhere. */
  function RemovingAmenitiesColumns(cols: seq<string>): (r: seq<string>)
    ensures IsSubseq(r, cols)
    ensures forall c :: c in r <==> c in cols && !IsAmenity(c)
  {
    Filter(c => !IsAmenity(c), cols)
  }

  /** The two rent prunings together keep exactly the columns that are
      neither Arabic nor amenity columns, in their original order. */
  lemma RentPruningExact(cols: seq<string>)
    ensures RemovingAmenitiesColumns(RemovingArabicCols(cols))
         == Filter(c => !IsArabic(c) && !IsAmenity(c), cols)
  {
    FilterFilter(c => !IsAmenity(c), c => !IsArabic(c), c => !IsArabic(c) && !IsAmenity(c), cols);
  }

  /** Transactions: drop "_ar"-suffixed columns, then "nearest"-PREFIXED
      columns, then columns containing "parties". */
  function PruneTransactionColumns(cols: seq<string>): (r: seq<string>)
    ensures IsSubseq(r, cols)
    ensures forall c :: c in r <==> c in cols && !IsArabic(c) && !IsNearestPrefixed(c) && !IsParties(c)
  {
    var noArabic := Filter(c => !IsArabic(c), cols);
    var noAmenities := Filter(c => !IsNearestPrefixed(c), noArabic);
    var r := Filter(c => !IsParties(c), noAmenities);
    SubseqTransitive(noAmenities, noArabic, cols);
    SubseqTransitive(r, noAmenities, cols);
    r
  }

  /** The three transaction prunings are one selection by the conjunction
      of the three name tests. */
  lemma TransactionPruningExact(cols: seq<string>)
    ensures PruneTransactionColumns(cols)
         == Filter(c => !IsArabic(c) && !IsNearestPrefixed(c) && !IsParties(c), cols)
  {
    var a := Filter(c => !IsArabic(c), cols);
    FilterFilter(c => !IsNearestPrefixed(c), c => !IsArabic(c), c => !IsArabic(c) && !IsNearestPrefixed(c), cols);
    FilterFilter(c => !IsParties(c), c => !IsArabic(c) && !IsNearestPrefixed(c),
                 c => !IsArabic(c) && !IsNearestPrefixed(c) && !IsParties(c), cols);
  }

  /** The rent amenity test is a substring test, the transaction one a
      prefix test: a column such as "dist_nearest_metro" is dropped from
      rent contracts but kept in transactions. */
  lemma AmenityTestsDiffer()
    ensures IsAmenity("dist_nearest_metro") && !IsNearestPrefixed("dist_nearest_metro")
  {
    var s := "dist_nearest_metro";
    assert s[5..12] == "nearest";
    assert OccursAt(s, "nearest", 5);
    ContainsIffOccurs(s, "nearest");
    assert s[..7] != "nearest" by { assert s[0] != 'n'; }
  }

  /** `df.drop(columns=names)`: every occurrence of each name is removed;
      a name that is not a column aborts. */
  function DropColumns(cols: seq<string>, names: seq<string>): (r: Option<seq<string>>)
    ensures r.Some? <==> forall n :: n in names ==> n in cols
    ensures r.Some? ==> IsSubseq(r.value, cols)
    ensures r.Some? ==> forall c :: c in r.value <==> c in cols && c !in names
  {
    if forall n :: n in names ==> n in cols then Some(Filter(c => c !in names, cols)) else None
  }

  /** `df[keep]`: the listed columns in the listed order; a listed name that
      is not a column aborts. */
  function SelectColumns(cols: seq<string>, keep: seq<string>): (r: Option<seq<string>>)
    ensures r.Some? <==> forall k :: k in keep ==> k in cols
    ensures r.Some? ==> r.value == keep
  {
    if forall k :: k in keep ==> k in cols then Some(keep) else None
  }

  /** Dropping columns from a successful selection cannot abort when every
      dropped name was selected, and it leaves the other selected names in
      the selection's order; a later selection of selected names succeeds
      whatever the original header held beyond them. */
  lemma SelectThenDrop(cols: seq<string>, keep: seq<string>, names: seq<string>)
    requires SelectColumns(cols, keep).Some?
    requires forall n :: n in names ==> n in keep
    ensures DropColumns(SelectColumns(cols, keep).value, names) == Some(Filter(c => c !in names, keep))
    ensures forall sub :: (forall k :: k in sub ==> k in keep) ==>
      SelectColumns(SelectColumns(cols, keep).value, sub) == Some(sub)
  {
  }
}
