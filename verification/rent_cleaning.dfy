/** The rent-contracts cleaner (`RentContractsDataCleaner.run_cleaning`):
    row filters, the reclassification and imputation stages, the amount
    band, column pruning and the split into the full output and the
    master-project output. The current year and the amount percentiles are
    parameters. */
module RentCleaning {
  import opened Wrappers
  import opened Seqs
  import opened Columns
  import opened RentRecords
  import RentRules
  import RentImputation

  // ---------------------------------------------------------------------
  // Date window

  /** The start year is one of the current year and the three before it;
      an unparseable (null) date is never kept. */
  function InDateWindow(currentYear: int, d: Option<Date>): (keep: bool)
    ensures keep <==> d.Some? && currentYear - 3 <= d.value.year <= currentYear
  {
    d.Some? && d.value.year in [currentYear - 3, currentYear - 2, currentYear - 1, currentYear]
  }

  function FilteringRentContracts(currentYear: int, rows: seq<RentRow>): (r: seq<RentRow>)
    ensures IsSubseq(r, rows)
    ensures forall row :: row in r <==>
      (row in rows && row.startDate.Some? && currentYear - 3 <= row.startDate.value.year <= currentYear)
    ensures forall row :: row in rows ==>
      multiset(r)[row] == if InDateWindow(currentYear, row.startDate) then multiset(rows)[row] else 0
  {
    Filter((row: RentRow) => InDateWindow(currentYear, row.startDate), rows)
  }

  // ---------------------------------------------------------------------
  // Row filters

  predicate IsResidentialUsage(row: RentRow) { row.usage == Some("Residential") }
  predicate HasOneProperty(row: RentRow) { row.noOfProp == Some(1) }
  predicate IsFirstLine(row: RentRow) { row.lineNumber == Some(1) }
  predicate IsResidentialBusType(row: RentRow) { row.cls.busType.Some? && row.cls.busType.value in BusTypes }
  predicate IsSelectedPropType(row: RentRow) { row.cls.propType.Some? && row.cls.propType.value in PropTypes }
  /** `~isin(excluded)`: a null sub-type is not in the set, so it is kept. */
  predicate NotExcludedSubType(row: RentRow) { NotExcluded(row.cls) }

  /** All five row filters at once. */
  predicate PassesRowFilters(row: RentRow)
  {
    IsResidentialUsage(row) && HasOneProperty(row) && IsFirstLine(row) &&
    IsResidentialBusType(row) && IsSelectedPropType(row) && NotExcludedSubType(row)
  }

  function FilteringResidential(rows: seq<RentRow>): seq<RentRow>
  {
    Filter(IsResidentialUsage, rows)
  }

  function FilteringPropLine(rows: seq<RentRow>): seq<RentRow>
  {
    Filter(IsFirstLine, Filter(HasOneProperty, rows))
  }

  function FilteringResidentialProperties(rows: seq<RentRow>): seq<RentRow>
  {
    Filter(IsResidentialBusType, rows)
  }

  function FilteringPropertyTypes(rows: seq<RentRow>): seq<RentRow>
  {
    Filter(IsSelectedPropType, rows)
  }

  function FilteringNonResidentialProperties(rows: seq<RentRow>): seq<RentRow>
  {
    Filter(NotExcludedSubType, rows)
  }

  /** The five filtering stages in source order keep exactly the rows that
      pass all of them, in their original order. */
  function RowFilters(rows: seq<RentRow>): (r: seq<RentRow>)
    ensures r == Filter(PassesRowFilters, rows)
    ensures IsSubseq(r, rows)
    ensures forall row :: row in r <==> row in rows && PassesRowFilters(row)
  {
    var r1 := FilteringResidential(rows);
    var r2 := FilteringPropLine(r1);
    var r3 := FilteringResidentialProperties(r2);
    var r4 := FilteringPropertyTypes(r3);
    var r5 := FilteringNonResidentialProperties(r4);
    RowFiltersExact(rows);
    r5
  }

  lemma RowFiltersExact(rows: seq<RentRow>)
    ensures FilteringNonResidentialProperties(FilteringPropertyTypes(FilteringResidentialProperties(
              FilteringPropLine(FilteringResidential(rows))))) == Filter(PassesRowFilters, rows)
  {
    var p1 := IsResidentialUsage;
    var p2 := (row: RentRow) => IsResidentialUsage(row) && HasOneProperty(row);
    var p3 := (row: RentRow) => p2(row) && IsFirstLine(row);
    var p4 := (row: RentRow) => p3(row) && IsResidentialBusType(row);
    var p5 := (row: RentRow) => p4(row) && IsSelectedPropType(row);
    FilterFilter(HasOneProperty, p1, p2, rows);
    FilterFilter(IsFirstLine, p2, p3, rows);
    FilterFilter(IsResidentialBusType, p3, p4, rows);
    FilterFilter(IsSelectedPropType, p4, p5, rows);
    FilterFilter(NotExcludedSubType, p5, PassesRowFilters, rows);
  }

  // ---------------------------------------------------------------------
  // Amounts

  /** The 1st and 99th percentiles of the contract and annual amounts, as
      computed by the source over the rows with positive amounts. */
  datatype AmountBands = AmountBands(lowContract: real, highContract: real, lowAnnual: real, highAnnual: real)

  /** `amount > 0` is false for a null amount. */
  predicate HasPositiveAmounts(row: RentRow)
  {
    row.contractAmount.Some? && row.contractAmount.value > 0.0 &&
    row.annualAmount.Some? && row.annualAmount.value > 0.0
  }

  predicate WithinBands(row: RentRow, b: AmountBands)
  {
    row.contractAmount.Some? && b.lowContract <= row.contractAmount.value <= b.highContract &&
    row.annualAmount.Some? && b.lowAnnual <= row.annualAmount.value <= b.highAnnual
  }

  /** Drop non-positive amounts, then keep the rows inside both bands: the
      survivors are exactly the rows satisfying both tests, in order. */
  function AmountOutliersRemoval(rows: seq<RentRow>, b: AmountBands): (r: seq<RentRow>)
    ensures r == Filter((row: RentRow) => HasPositiveAmounts(row) && WithinBands(row, b), rows)
    ensures IsSubseq(r, rows)
    ensures forall row :: row in r <==> row in rows && HasPositiveAmounts(row) && WithinBands(row, b)
  {
    var positive := Filter(HasPositiveAmounts, rows);
    FilterFilter((row: RentRow) => WithinBands(row, b), HasPositiveAmounts,
                 (row: RentRow) => HasPositiveAmounts(row) && WithinBands(row, b), rows);
    Filter((row: RentRow) => WithinBands(row, b), positive)
  }

  // ---------------------------------------------------------------------
  // Output split

  /** The master-project output: the rows with a project number, in
      order. */
  function MasterProjectRows(rows: seq<RentRow>): (r: seq<RentRow>)
    ensures IsSubseq(r, rows)
    ensures forall row :: row in r <==> row in rows && row.projectNumber.Some?
    ensures forall row :: row in rows ==>
      multiset(r)[row] == if row.projectNumber.Some? then multiset(rows)[row] else 0
  {
    Filter((row: RentRow) => row.projectNumber.Some?, rows)
  }

  // ---------------------------------------------------------------------
  // The whole pipeline

  datatype RentTable = RentTable(columns: seq<string>, rows: seq<RentRow>)

  /** `rent_contracts_3y` (header and rows) and `master_project_rent_contracts_3y`. */
  datatype RentOutputs = RentOutputs(columns: seq<string>, contracts: seq<RentRow>, masterProject: seq<RentRow>)

  /** The columns the pipeline drops by name (a missing one aborts). */
  const DroppedByName: seq<string> := ["property_usage_en", "no_of_prop", "line_number"]

  /** A row inside the date window, residential, single-line, with an
      enumerated business and property type, and without an excluded
      sub-type. */
  predicate Eligible(currentYear: int, row: RentRow)
  {
    InDateWindow(currentYear, row.startDate) &&
    IsResidentialUsage(row) && HasOneProperty(row) && IsFirstLine(row) && InEnums(row.cls) &&
    NotExcludedSubType(row)
  }

  /** Every row the cleaning keeps: eligible, and with positive amounts
      inside both bands. */
  predicate CleanRow(currentYear: int, b: AmountBands, row: RentRow)
  {
    Eligible(currentYear, row) && HasPositiveAmounts(row) && WithinBands(row, b)
  }

  /** Reclassification and imputation keep every row eligible: they only
      rewrite type columns, the rewrites stay inside the enumerations, and
      an imputed sub-type is one already seen on an eligible row (or
      "Studio"). */
  lemma RewritesKeepEligible(currentYear: int, rows: seq<RentRow>)
    requires forall row :: row in rows ==> Eligible(currentYear, row)
    ensures forall row :: row in RentImputation.ImputePropertySubType(RentRules.UpdatingPropertyTypesStage(rows)) ==>
      Eligible(currentYear, row)
  {
    var reclassified := RentRules.UpdatingPropertyTypesStage(rows);
    var imputed := RentImputation.ImputePropertySubType(reclassified);
    forall row | row in reclassified ensures Eligible(currentYear, row) {
      var i :| 0 <= i < |reclassified| && reclassified[i] == row;
      assert rows[i] in rows;
    }
    forall row | row in imputed ensures Eligible(currentYear, row) {
      var i :| 0 <= i < |imputed| && imputed[i] == row;
      ImputeRowKeepsEligible(currentYear, reclassified, reclassified[i]);
    }
  }

  lemma ImputeRowKeepsEligible(currentYear: int, stats: seq<RentRow>, row: RentRow)
    requires forall seen :: seen in stats ==> Eligible(currentYear, seen)
    requires Eligible(currentYear, row)
    ensures Eligible(currentYear, RentImputation.ImputeRow(stats, row))
  {
    if row.cls.subType.None? {
      RentImputation.ImputedWasObserved(stats, row);
    }
  }

  /** The eligible rows, in input order, each copy kept. */
  function EligibleRows(currentYear: int, rows: seq<RentRow>): seq<RentRow>
  {
    Filter((x: RentRow) => Eligible(currentYear, x), rows)
  }

  /** One row through the rule table alone. */
  function Reclassified(x: RentRow): RentRow
  {
    x.(cls := RentRules.ApplyRules(RentRules.UpdatingPropertyTypes, x.cls))
  }

  /** The table imputation takes its group statistics from: the eligible
      rows after reclassification. */
  function Statistics(currentYear: int, rows: seq<RentRow>): seq<RentRow>
  {
    Map(Reclassified, EligibleRows(currentYear, rows))
  }

  /** The eligible rows after both rewriting stages, in order. */
  function Rewrites(currentYear: int, rows: seq<RentRow>): seq<RentRow>
  {
    RentImputation.ImputePropertySubType(RentRules.UpdatingPropertyTypesStage(EligibleRows(currentYear, rows)))
  }

  /** `u` is what reclassification and imputation make of `x` when the
      group statistics come from `stats`: every column outside the
      classification is `x`'s; the classification is the rule table's
      output for `x`, except that a sub-type the rules leave null is
      replaced by what imputation computes from `stats`. */
  predicate RewrittenFrom(u: RentRow, x: RentRow, stats: seq<RentRow>)
  {
    var c := RentRules.ApplyRules(RentRules.UpdatingPropertyTypes, x.cls);
    u.(cls := x.cls) == x && u.cls.(subType := c.subType) == c &&
    (c.subType.Some? ==> u.cls == c) &&
    (c.subType.None? ==> u == RentImputation.ImputeRow(stats, Reclassified(x)))
  }

  /** The five row filters after the date window keep exactly the eligible
      rows. */
  lemma FiltersSelectEligible(currentYear: int, rows: seq<RentRow>)
    ensures RowFilters(FilteringRentContracts(currentYear, rows)) == EligibleRows(currentYear, rows)
  {
    var date := (row: RentRow) => InDateWindow(currentYear, row.startDate);
    FilterFilter(PassesRowFilters, date, (x: RentRow) => Eligible(currentYear, x), rows);
  }

  /** The reclassification stage maps every row through the rule table. */
  lemma StageIsReclassified(rows: seq<RentRow>)
    ensures RentRules.UpdatingPropertyTypesStage(rows) == Map(Reclassified, rows)
  {
  }

  /** Row by row, the two rewriting stages turn each row into its rewrite,
      with statistics from the reclassified table. */
  lemma StagesRewrite(rows: seq<RentRow>)
    ensures var out := RentImputation.ImputePropertySubType(RentRules.UpdatingPropertyTypesStage(rows));
      |out| == |rows| && forall i :: 0 <= i < |rows| ==> RewrittenFrom(out[i], rows[i], Map(Reclassified, rows))
  {
    var reclassified := RentRules.UpdatingPropertyTypesStage(rows);
    var out := RentImputation.ImputePropertySubType(reclassified);
    StageIsReclassified(rows);
    forall i | 0 <= i < |rows| ensures RewrittenFrom(out[i], rows[i], reclassified) {
      assert reclassified[i] == Reclassified(rows[i]);
      assert out[i] == RentImputation.ImputeRow(reclassified, reclassified[i]);
    }
  }

  /** The amount band applied to rows rewritten pairwise from `src`: each
      survivor was rewritten from a row of `src`, and each row of `src`
      with positive amounts inside both bands has a survivor rewritten
      from it (the rewrites never touch the amounts). */
  lemma BandOverRewrites(src: seq<RentRow>, out: seq<RentRow>, stats: seq<RentRow>, b: AmountBands)
    requires |out| == |src| && forall i :: 0 <= i < |src| ==> RewrittenFrom(out[i], src[i], stats)
    ensures forall u :: u in AmountOutliersRemoval(out, b) ==> exists x :: x in src && RewrittenFrom(u, x, stats)
    ensures forall x :: x in src && HasPositiveAmounts(x) && WithinBands(x, b) ==>
      exists u :: u in AmountOutliersRemoval(out, b) && RewrittenFrom(u, x, stats)
  {
    forall u | u in AmountOutliersRemoval(out, b) ensures exists x :: x in src && RewrittenFrom(u, x, stats) {
      var i :| 0 <= i < |out| && out[i] == u;
      assert src[i] in src;
    }
    forall x | x in src && HasPositiveAmounts(x) && WithinBands(x, b)
      ensures exists u :: u in AmountOutliersRemoval(out, b) && RewrittenFrom(u, x, stats)
    {
      var i :| 0 <= i < |src| && src[i] == x;
      assert out[i] in out;
    }
  }

  /** The whole row pipeline, position by position: the output is the
      amount band applied to a sequence whose i-th row is the rewrite of
      the i-th eligible row. `RewrittenFrom` fixes each such row, so order
      and the number of copies follow. */
  lemma RowsAligned(currentYear: int, b: AmountBands, rows: seq<RentRow>)
    ensures var e, w := EligibleRows(currentYear, rows), Rewrites(currentYear, rows);
      |w| == |e| &&
      (forall i :: 0 <= i < |e| ==> RewrittenFrom(w[i], e[i], Statistics(currentYear, rows))) &&
      Rows(currentYear, b, rows) == AmountOutliersRemoval(w, b)
  {
    FiltersSelectEligible(currentYear, rows);
    StagesRewrite(EligibleRows(currentYear, rows));
  }

  /** Every output row was rewritten from an eligible input row, and every
      eligible input row with positive amounts inside both bands yields an
      output row rewritten from it. */
  lemma RowsProvenance(currentYear: int, b: AmountBands, rows: seq<RentRow>)
    ensures forall u :: u in Rows(currentYear, b, rows) ==>
      exists x :: x in rows && Eligible(currentYear, x) && RewrittenFrom(u, x, Statistics(currentYear, rows))
    ensures forall x :: x in rows && Eligible(currentYear, x) && HasPositiveAmounts(x) && WithinBands(x, b) ==>
      exists u :: u in Rows(currentYear, b, rows) && RewrittenFrom(u, x, Statistics(currentYear, rows))
  {
    var e := EligibleRows(currentYear, rows);
    var imputed := RentImputation.ImputePropertySubType(RentRules.UpdatingPropertyTypesStage(e));
    FiltersSelectEligible(currentYear, rows);
    assert Rows(currentYear, b, rows) == AmountOutliersRemoval(imputed, b);
    StagesRewrite(e);
    BandOverRewrites(e, imputed, Statistics(currentYear, rows), b);
  }

  function Rows(currentYear: int, b: AmountBands, rows: seq<RentRow>): (r: seq<RentRow>)
    ensures |r| <= |rows|
    ensures forall row :: row in r ==> CleanRow(currentYear, b, row)
  {
    var dated := FilteringRentContracts(currentYear, rows);
    var filtered := RowFilters(dated);
    var reclassified := RentRules.UpdatingPropertyTypesStage(filtered);
    var imputed := RentImputation.ImputePropertySubType(reclassified);
    var r := AmountOutliersRemoval(imputed, b);
    SubseqLength(filtered, dated);
    SubseqLength(dated, rows);
    SubseqLength(r, imputed);
    RewritesKeepEligible(currentYear, filtered);
    r
  }

  /** Conversely, an eligible row that the rules leave alone, with a known
      sub-type and amounts inside both bands, is kept, whatever its area:
      the reachable pipeline applies no area bound. */
  lemma {:induction false} SettledRowKept(currentYear: int, b: AmountBands, rows: seq<RentRow>, row: RentRow)
    requires row in rows && Eligible(currentYear, row)
    requires RentRules.ApplyRules(RentRules.UpdatingPropertyTypes, row.cls) == row.cls
    requires row.cls.subType.Some?
    requires HasPositiveAmounts(row) && WithinBands(row, b)
    ensures row in Rows(currentYear, b, rows)
  {
    var dated := FilteringRentContracts(currentYear, rows);
    var filtered := RowFilters(dated);
    assert row in filtered;
    SettledRowUnchanged(filtered, row);
  }

  /** A row the rules leave alone and whose sub-type is known comes out of
      reclassification and imputation unchanged. */
  lemma SettledRowUnchanged(rows: seq<RentRow>, row: RentRow)
    requires row in rows
    requires RentRules.ApplyRules(RentRules.UpdatingPropertyTypes, row.cls) == row.cls
    requires row.cls.subType.Some?
    ensures row in RentImputation.ImputePropertySubType(RentRules.UpdatingPropertyTypesStage(rows))
  {
    var reclassified := RentRules.UpdatingPropertyTypesStage(rows);
    var imputed := RentImputation.ImputePropertySubType(reclassified);
    var i :| 0 <= i < |rows| && rows[i] == row;
    assert reclassified[i] == row;
    assert imputed[i] == row;
  }

  /** Reclassification is idempotent (`RentRules.ReclassificationIdempotent`),
      but the rows leaving imputation need not be settled: imputation runs
      after the rules and can give a Flat the sub-type "Penthouse", which
      rule 8 would rewrite again. Here `a` is a Flat Penthouse of project P
      with area 100, which the rules turn into a Penthouse; `b` is a Flat of
      P with area 100 and no sub-type, which the rules leave alone and
      imputation then labels "Penthouse". */
  lemma ImputationCanUnsettle(a: RentRow, b: RentRow)
    requires a.projectName == Some("P") && a.actualArea == Some(100.0)
    requires a.cls.busType == Some("Unit") && a.cls.propType == Some("Flat") && a.cls.subType == Some("Penthouse")
    requires b.projectName == Some("P") && b.actualArea == Some(100.0)
    requires b.cls.busType == Some("Unit") && b.cls.propType == Some("Flat") && b.cls.subType.None?
    ensures var out := RentImputation.ImputePropertySubType(RentRules.UpdatingPropertyTypesStage([a, b]));
      out[1].cls.propType == Some("Flat") && out[1].cls.subType == Some("Penthouse") &&
      !RentRules.Settled(out[1].cls)
  {
    var reclassified := RentRules.UpdatingPropertyTypesStage([a, b]);
    var a', b' := reclassified[0], reclassified[1];
    RentRules.PenthouseOutcome(a.cls);
    assert a'.cls.subType == Some("Penthouse") && a'.projectName == Some("P") && a'.actualArea == Some(100.0);
    RentRules.Unfold(b.cls);
    assert b'.cls == b.cls;
    assert b' == b;
    RentImputation.GroupAreasMembers(reclassified, "P", "Penthouse", 100.0);
    assert RentImputation.Imputable(reclassified, b', "Penthouse");
    forall s | RentImputation.Imputable(reclassified, b', s) ensures s == "Penthouse" {
      var xs := RentImputation.GroupAreas(reclassified, "P", s);
      RentImputation.GroupAreasMembers(reclassified, "P", s, xs[0]);
    }
    RentImputation.OnlyCandidate(reclassified, b', "Penthouse");
    var out := RentImputation.ImputePropertySubType(reclassified);
    assert RentRules.Matches(RentRules.UpdatingPropertyTypes[7].when, out[1].cls);
  }

  /** None of the names dropped by name ends in "_ar", so the Arabic
      pruning before the drop cannot remove them. */
  lemma DroppedNamesNotArabic()
    ensures forall n :: n in DroppedByName ==> !IsArabic(n)
  {
    assert !IsArabic("property_usage_en") by { assert "property_usage_en"[14] != 'a'; }
    assert !IsArabic("no_of_prop") by { assert "no_of_prop"[8] != 'a'; }
    assert !IsArabic("line_number") by { assert "line_number"[9] != 'a'; }
  }

  function Header(cols: seq<string>): (r: Option<seq<string>>)
    ensures r.Some? <==> forall n :: n in DroppedByName ==> n in cols
    ensures r.Some? ==> IsSubseq(r.value, cols)
    ensures r.Some? ==> forall c :: c in r.value <==> c in cols && !IsArabic(c) && !IsAmenity(c) && c !in DroppedByName
  {
    var noArabic := RemovingArabicCols(cols);
    DroppedNamesNotArabic();
    match DropColumns(noArabic, DroppedByName)
    case None => None
    case Some(kept) =>
      var r := RemovingAmenitiesColumns(kept);
      SubseqTransitive(kept, noArabic, cols);
      SubseqTransitive(r, kept, cols);
      Some(r)
  }

  /** `run_cleaning`: aborts exactly when a column it drops by name is
      missing; otherwise the master output is the full output restricted to
      rows with a project number, every output row passed every filter and
      was rewritten from an eligible input row, and every eligible input
      row with amounts inside both bands is represented. */
  function RunCleaning(currentYear: int, b: AmountBands, t: RentTable): (out: Option<RentOutputs>)
    ensures out.Some? <==> forall n :: n in DroppedByName ==> n in t.columns
    ensures out.Some? ==> |out.value.contracts| <= |t.rows|
    ensures out.Some? ==> forall row :: row in out.value.contracts ==> CleanRow(currentYear, b, row)
    ensures out.Some? ==> forall u :: u in out.value.contracts ==>
      exists x :: x in t.rows && Eligible(currentYear, x) && RewrittenFrom(u, x, Statistics(currentYear, t.rows))
    ensures out.Some? ==> forall x :: x in t.rows && Eligible(currentYear, x) && HasPositiveAmounts(x) && WithinBands(x, b) ==>
      exists u :: u in out.value.contracts && RewrittenFrom(u, x, Statistics(currentYear, t.rows))
    ensures out.Some? ==>
      var e, w := EligibleRows(currentYear, t.rows), Rewrites(currentYear, t.rows);
      |w| == |e| &&
      (forall i :: 0 <= i < |e| ==> RewrittenFrom(w[i], e[i], Statistics(currentYear, t.rows))) &&
      out.value.contracts == AmountOutliersRemoval(w, b)
    ensures out.Some? ==> IsSubseq(out.value.masterProject, out.value.contracts)
    ensures out.Some? ==> out.value.masterProject == MasterProjectRows(out.value.contracts)
    ensures out.Some? ==> forall row :: row in out.value.masterProject <==>
      row in out.value.contracts && row.projectNumber.Some?
    ensures out.Some? ==> forall c :: c in out.value.columns <==>
      c in t.columns && !IsArabic(c) && !IsAmenity(c) && c !in DroppedByName
  {
    match Header(t.columns)
    case None => None
    case Some(cols) =>
      var rows := Rows(currentYear, b, t.rows);
      RowsProvenance(currentYear, b, t.rows);
      RowsAligned(currentYear, b, t.rows);
      Some(RentOutputs(cols, rows, MasterProjectRows(rows)))
  }
}
