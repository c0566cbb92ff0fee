/** `TransactionsDataCleaner.run_cleaning`: the transaction stages, the
    project-name lookup, the projections of the projects and developers
    tables, the two joins and the final selection, with the column
    checks that make pandas abort. The current year is a parameter. */
module TxnPipeline {
  import opened Wrappers
  import opened Seqs
  import opened Columns
  import opened TxnCleaning
  import opened TxnMerge

  /** The three input tables, each with its header. */
  datatype TxnInputs = TxnInputs(
    txnColumns: seq<string>, txns: seq<Txn>,
    projectColumns: seq<string>, projects: seq<Project>,
    developerColumns: seq<string>, developers: seq<Developer>)

  /** The four tables the cleaner writes. */
  datatype TxnOutputs = TxnOutputs(
    transactions3yColumns: seq<string>,
    transactions3y: seq<Txn>,                        // transactions_3y
    projectsDevelopers: seq<ProjectDev>,             // projects_developers
    mergedAuto: seq<(Txn, Option<ProjectDev>)>,      // transactions_merged_auto
    mergedCleaned: seq<CleanedTxn>)                  // transactions_merged_cleaned

  /** The transaction columns selected, in this order, after pruning. */
  const TxnColumnsToKeep: seq<string> := [
    "instance_date", "transaction_id", "trans_group_id", "trans_group_en", "procedure_id", "procedure_name_en",
    "reg_type_id", "reg_type_en", "property_usage_en", "property_type_id", "property_type_en",
    "property_sub_type_id", "property_sub_type_en", "area_id", "area_name_en", "master_project_en",
    "project_number", "project_name_en", "building_name_en", "rooms_en", "has_parking", "procedure_area",
    "meter_sale_price", "actual_worth"]

  /** A recent residential sale of a Villa or Unit. */
  predicate SoldRecently(currentYear: int, t: Txn)
  {
    RecentEnough(currentYear, t.instanceDate) && IsSales(t) && IsSell(t) && IsResidential(t) && IsVillaOrUnit(t)
  }

  /** Every transaction that reaches the joins: a recent residential sale
      of a Villa or Unit, inside its type's area bounds, and with some
      location field present. */
  predicate KeptTxn(currentYear: int, t: Txn)
  {
    SoldRecently(currentYear, t) && AreaWithinTypeBounds(t) && !HasNoLocation(t)
  }

  /** The reclassification keeps a row a recent residential sale of a
      Villa or Unit. */
  lemma ReclassifyKeepsSold(currentYear: int, rows: seq<Txn>)
    requires forall t :: t in rows ==> SoldRecently(currentYear, t)
    ensures forall t :: t in ReclassifyStage(rows) ==> SoldRecently(currentYear, t)
  {
    var r := ReclassifyStage(rows);
    forall t | t in r ensures SoldRecently(currentYear, t) {
      var i :| 0 <= i < |r| && r[i] == t;
      assert rows[i] in rows;
    }
  }

  /** The transaction rows after every row stage, in source order: exactly
      the recent residential Villa/Unit sales, reclassified, that then lie
      inside their type's area bounds and have a location. */
  function Transactions(currentYear: int, rows: seq<Txn>): (r: seq<Txn>)
    ensures r == Filter(Survives, Map(Reclassify, Filter((t: Txn) => SoldRecently(currentYear, t), rows)))
    ensures |r| <= |rows|
    ensures forall t :: t in r ==> KeptTxn(currentYear, t)
    ensures forall u :: u in r <==>
      exists t :: t in rows && SoldRecently(currentYear, t) && u == Reclassify(t) &&
        AreaWithinTypeBounds(u) && !HasNoLocation(u)
  {
    var recent := FilteringByYear(currentYear, rows);
    var sales := SalesFilters(recent);
    var reclassified := ReclassifyStage(sales);
    var bounded := AreaOutlierRemoval(reclassified);
    var located := DropNullLocationObservations(bounded);
    SubseqLength(sales, recent);
    SubseqLength(recent, rows);
    SubseqLength(bounded, reclassified);
    SubseqLength(located, bounded);
    ReclassifyKeepsSold(currentYear, sales);
    StagesMembers(currentYear, rows);
    StagesExact(currentYear, rows);
    located
  }

  /** A reclassified sale reaches the joins when it lies inside its type's
      area bounds and has a location. */
  predicate Survives(u: Txn)
  {
    AreaWithinTypeBounds(u) && !HasNoLocation(u)
  }

  /** The row stages as one pipeline over sequences: select the recent
      sales, reclassify each, select the survivors. Order and the number
      of copies of each row follow. */
  lemma StagesExact(currentYear: int, rows: seq<Txn>)
    ensures DropNullLocationObservations(AreaOutlierRemoval(ReclassifyStage(SalesFilters(FilteringByYear(currentYear, rows))))) ==
      Filter(Survives, Map(Reclassify, Filter((t: Txn) => SoldRecently(currentYear, t), rows)))
  {
    var recent := (t: Txn) => RecentEnough(currentYear, t.instanceDate);
    var sold := (t: Txn) => SoldRecently(currentYear, t);
    FilterFilter(PassesSalesFilters, recent, sold, rows);
    var reclassified := Map(Reclassify, Filter(sold, rows));
    FilterFilter((t: Txn) => !HasNoLocation(t), AreaWithinTypeBounds, Survives, reclassified);
  }

  /** Membership through the row stages: what survives is the
      reclassification of a recent sale that then passes the area and
      location tests. */
  lemma StagesMembers(currentYear: int, rows: seq<Txn>)
    ensures forall u :: u in DropNullLocationObservations(AreaOutlierRemoval(ReclassifyStage(SalesFilters(FilteringByYear(currentYear, rows))))) <==>
      exists t :: t in rows && SoldRecently(currentYear, t) && u == Reclassify(t) &&
        AreaWithinTypeBounds(u) && !HasNoLocation(u)
  {
    var sales := SalesFilters(FilteringByYear(currentYear, rows));
    assert forall t :: t in sales <==> t in rows && SoldRecently(currentYear, t);
  }

  /** Conversely, a kept transaction that the reclassification leaves
      alone reaches the joins. */
  lemma {:induction false} SettledTxnKept(currentYear: int, rows: seq<Txn>, t: Txn)
    requires t in rows && KeptTxn(currentYear, t) && Reclassify(t) == t
    ensures t in Transactions(currentYear, rows)
  {
    var recent := FilteringByYear(currentYear, rows);
    var sales := SalesFilters(recent);
    var reclassified := ReclassifyStage(sales);
    assert t in sales;
    var i :| 0 <= i < |sales| && sales[i] == t;
    assert reclassified[i] == t;
    assert t in reclassified;
  }

  /** The header of `transactions_3y`, or None when a selected column is
      missing after pruning. */
  function Transactions3yHeader(cols: seq<string>): Option<seq<string>>
  {
    SelectColumns(PruneTransactionColumns(cols), TxnColumnsToKeep)
  }

  /** The projects selection after the lookup has added `project_name_en`. */
  function ProjectsHeader(cols: seq<string>): Option<seq<string>>
  {
    SelectColumns(WithColumn(cols, "project_name_en"), ProjectColumns)
  }

  /** Each row of the cleaned merge names a project and carries the
      columns of a kept transaction. */
  lemma CleanedFromKept(currentYear: int, txns: seq<Txn>, pds: seq<ProjectDev>)
    requires forall t :: t in txns ==> KeptTxn(currentYear, t)
    ensures forall c :: c in SelectColumnsFromMerged(MergeTransactionsProjects(txns, pds)) ==>
      c.projectNumber.Some? && exists t :: KeptTxn(currentYear, t) && FromTxn(c, t)
  {
    var merged := MergeTransactionsProjects(txns, pds);
    forall c | c in SelectColumnsFromMerged(merged)
      ensures exists t :: KeptTxn(currentYear, t) && FromTxn(c, t)
    {
      var pair :| pair in merged && FromTxn(c, pair.0);
      assert KeptTxn(currentYear, pair.0);
    }
  }

  /** `run_cleaning`: aborts exactly when a selected column is missing;
      otherwise the 3-year output is the recent rows, `projects_developers`
      is the renamed projects joined with the developers, the automatic
      merge is the remaining transactions joined with it, and the cleaned
      merge is the projection of the merged rows with a project number,
      each one a kept transaction. */
  function RunCleaning(currentYear: int, inp: TxnInputs): (out: Option<TxnOutputs>)
    ensures out.Some? <==>
      (forall c :: c in TxnColumnsToKeep ==> c in PruneTransactionColumns(inp.txnColumns)) &&
      (forall c :: c in ProjectColumns ==> c in inp.projectColumns || c == "project_name_en") &&
      (forall c :: c in DeveloperColumns ==> c in inp.developerColumns)
    ensures out.Some? ==> out.value.transactions3yColumns == TxnColumnsToKeep
    ensures out.Some? ==> IsSubseq(out.value.transactions3y, inp.txns)
    ensures out.Some? ==> forall t :: t in out.value.transactions3y <==>
      t in inp.txns && t.instanceDate.Some? && t.instanceDate.value.year >= currentYear - 3
    ensures out.Some? ==> forall t :: t in inp.txns ==>
      multiset(out.value.transactions3y)[t] == if RecentEnough(currentYear, t.instanceDate) then multiset(inp.txns)[t] else 0
    ensures out.Some? ==> |out.value.projectsDevelopers| >= |inp.projects|
    ensures out.Some? ==> forall pair :: pair in out.value.mergedAuto ==> KeptTxn(currentYear, pair.0)
    ensures out.Some? ==> forall t :: t in Transactions(currentYear, inp.txns) ==>
      exists pair :: pair in out.value.mergedAuto && pair.0 == t
    ensures out.Some? ==> forall c :: c in out.value.mergedCleaned ==>
      c.projectNumber.Some? && exists t :: KeptTxn(currentYear, t) && FromTxn(c, t)
    // how the outputs are tied to each other
    ensures out.Some? ==>
      out.value.projectsDevelopers ==
      MergeProjectsDevelopers(MapProjectNames(Transactions(currentYear, inp.txns), inp.projects), inp.developers)
    ensures out.Some? ==>
      out.value.mergedAuto ==
      MergeTransactionsProjects(Transactions(currentYear, inp.txns), out.value.projectsDevelopers)
    ensures out.Some? ==> out.value.mergedCleaned == SelectColumnsFromMerged(out.value.mergedAuto)
  {
    match Transactions3yHeader(inp.txnColumns)
    case None => None
    case Some(header) =>
      var recent := FilteringByYear(currentYear, inp.txns);
      var txns := Transactions(currentYear, inp.txns);
      var projects := MapProjectNames(txns, inp.projects);
      if ProjectsHeader(inp.projectColumns).None? then None
      else if SelectColumns(inp.developerColumns, DeveloperColumns).None? then None
      else
        var pds := MergeProjectsDevelopers(projects, inp.developers);
        var merged := MergeTransactionsProjects(txns, pds);
        var cleaned := SelectColumnsFromMerged(merged);
        CleanedFromKept(currentYear, txns, pds);
        Some(TxnOutputs(header, recent, pds, merged, cleaned))
  }
}
