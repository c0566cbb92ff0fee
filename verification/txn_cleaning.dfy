/** The row stages of the transactions cleaner (`TransactionsDataCleaner`):
    the year filter, the sales filters, the two-rule reclassification, the
    per-type area bounds and the null-location filter. */
module TxnCleaning {
  import opened Wrappers
  import opened Seqs
  import opened Strings
  import RentCleaning

  /** One transaction, restricted to the columns the stages read or keep. */
  datatype Txn = Txn(
    instanceDate: Option<Date>,   // instance_date, already parsed; None when unparseable
    transactionId: Option<string>,
    transGroup: Option<string>,   // trans_group_en
    procedure: Option<string>,    // procedure_name_en
    regType: Option<string>,      // reg_type_en
    usage: Option<string>,        // property_usage_en
    propTypeId: Option<int>,      // property_type_id
    propType: Option<string>,     // property_type_en
    subTypeId: Option<int>,       // property_sub_type_id
    subType: Option<string>,      // property_sub_type_en
    areaId: Option<int>,
    areaName: Option<string>,
    masterProject: Option<string>,
    projectNumber: Option<int>,
    projectName: Option<string>,
    buildingName: Option<string>,
    rooms: Option<string>,
    hasParking: Option<int>,
    procedureArea: Option<real>,
    meterSalePrice: Option<real>,
    actualWorth: Option<real>)

  // ---------------------------------------------------------------------
  // Year filter

  /** `year >= current year - 3`, with no upper bound; a null date fails
      (NaT compares false). */
  predicate RecentEnough(currentYear: int, d: Option<Date>)
  {
    match d
    case None => false
    case Some(date) => date.year >= currentYear - 3
  }

  /** The transaction window is the rent window without its upper end:
      every start date the rent cleaner keeps is kept here too, a date after
      the current year is kept here but not there, and a date kept for one
      current year is kept for every earlier one. */
  lemma YearWindowsCompared(currentYear: int, d: Option<Date>)
    ensures RentCleaning.InDateWindow(currentYear, d) ==> RecentEnough(currentYear, d)
    ensures RecentEnough(currentYear, d) <==>
      RentCleaning.InDateWindow(currentYear, d) || (d.Some? && d.value.year > currentYear)
    ensures forall earlier :: earlier <= currentYear && RecentEnough(currentYear, d) ==> RecentEnough(earlier, d)
  {
  }

  function FilteringByYear(currentYear: int, rows: seq<Txn>): (r: seq<Txn>)
    ensures IsSubseq(r, rows)
    ensures forall t :: t in r <==> t in rows && t.instanceDate.Some? && t.instanceDate.value.year >= currentYear - 3
    ensures forall t :: t in rows ==>
      multiset(r)[t] == if RecentEnough(currentYear, t.instanceDate) then multiset(rows)[t] else 0
  {
    Filter((t: Txn) => RecentEnough(currentYear, t.instanceDate), rows)
  }

  // ---------------------------------------------------------------------
  // Sales filters

  predicate IsSales(t: Txn) { t.transGroup == Some("Sales") }
  predicate IsSell(t: Txn) { t.procedure == Some("Sell") || t.procedure == Some("Sell - Pre registration") }
  predicate IsResidential(t: Txn) { t.usage == Some("Residential") }
  predicate IsVillaOrUnit(t: Txn) { t.propType == Some("Villa") || t.propType == Some("Unit") }

  predicate PassesSalesFilters(t: Txn)
  {
    IsSales(t) && IsSell(t) && IsResidential(t) && IsVillaOrUnit(t)
  }

  /** The four filters in source order keep exactly the rows passing all
      of them, in order. */
  function SalesFilters(rows: seq<Txn>): (r: seq<Txn>)
    ensures r == Filter(PassesSalesFilters, rows)
    ensures IsSubseq(r, rows)
    ensures forall t :: t in r <==> t in rows && PassesSalesFilters(t)
  {
    var r1 := Filter(IsSales, rows);
    var r2 := Filter(IsSell, r1);
    var r3 := Filter(IsResidential, r2);
    var r4 := Filter(IsVillaOrUnit, r3);
    var p2 := (t: Txn) => IsSales(t) && IsSell(t);
    var p3 := (t: Txn) => p2(t) && IsResidential(t);
    FilterFilter(IsSell, IsSales, p2, rows);
    FilterFilter(IsResidential, p2, p3, rows);
    FilterFilter(IsVillaOrUnit, p3, PassesSalesFilters, rows);
    r4
  }

  // ---------------------------------------------------------------------
  // Reclassification

  /** `str.contains("townhouse", case=False, na=False)`. */
  predicate IsTownhouseProject(name: Option<string>)
  {
    name.Some? && Contains(Lower(name.value), "townhouse")
  }

  /** Rule 1: a townhouse project makes the row a Villa (id 4). */
  function TownhouseRule(t: Txn): Txn
  {
    if IsTownhouseProject(t.projectName) then t.(propTypeId := Some(4), propType := Some("Villa")) else t
  }

  /** Rule 2: a Villa whose sub-type is Flat gets sub-type Villa (id 4). */
  function VillaFlatRule(t: Txn): Txn
  {
    if t.propType == Some("Villa") && t.subType == Some("Flat") then t.(subTypeId := Some(4), subType := Some("Villa")) else t
  }

  /** Both rules on one row: only the four type columns can change; a
      townhouse project ends as Villa/4 whatever its type was; a Villa with
      sub-type Flat ends with sub-type Villa/4; the type stays Villa or
      Unit. */
  function Reclassify(t: Txn): (r: Txn)
    ensures r.(propTypeId := t.propTypeId, propType := t.propType, subTypeId := t.subTypeId, subType := t.subType) == t
    ensures IsTownhouseProject(t.projectName) ==> r.propType == Some("Villa") && r.propTypeId == Some(4)
    ensures !IsTownhouseProject(t.projectName) ==> r.propType == t.propType && r.propTypeId == t.propTypeId
    ensures r.propType == Some("Villa") && t.subType == Some("Flat") ==> r.subType == Some("Villa") && r.subTypeId == Some(4)
    ensures !(r.propType == Some("Villa") && t.subType == Some("Flat")) ==> r.subType == t.subType && r.subTypeId == t.subTypeId
    ensures IsVillaOrUnit(t) ==> IsVillaOrUnit(r)
  {
    VillaFlatRule(TownhouseRule(t))
  }

  /** The reclassification stage as the source runs it: rule 1 over every
      row, then rule 2 over every row. */
  function ReclassifyStage(rows: seq<Txn>): (r: seq<Txn>)
    ensures r == Map(Reclassify, rows)
    ensures |r| == |rows|
    ensures forall i :: 0 <= i < |rows| ==> r[i] == Reclassify(rows[i])
    ensures forall u :: u in r <==> exists t :: t in rows && u == Reclassify(t)
  {
    MapMap(VillaFlatRule, TownhouseRule, Reclassify, rows);
    var r := Map(VillaFlatRule, Map(TownhouseRule, rows));
    forall u ensures u in r <==> exists t :: t in rows && u == Reclassify(t) {
      if u in r {
        var i :| 0 <= i < |r| && r[i] == u;
        assert rows[i] in rows;
      }
      if exists t :: t in rows && u == Reclassify(t) {
        var t :| t in rows && u == Reclassify(t);
        var i :| 0 <= i < |rows| && rows[i] == t;
        assert r[i] == u;
      }
    }
    r
  }

  /** Running both rules again on their output changes nothing. */
  lemma ReclassifyIdempotent(t: Txn)
    ensures Reclassify(Reclassify(t)) == Reclassify(t)
  {
  }

  /** A null project name never matches the townhouse rule. */
  lemma NullNameNeverTownhouse(t: Txn)
    requires t.projectName.None?
    ensures Reclassify(t).propType == t.propType
  {
  }

  /** "ABC Townhouses" matches, whatever its letter case. */
  lemma TownhouseExample()
    ensures IsTownhouseProject(Some("ABC Townhouses"))
  {
    var low := Lower("ABC Townhouses");
    assert low[4..13] == "townhouse";
    assert OccursAt(low, "townhouse", 4);
    ContainsIffOccurs(low, "townhouse");
  }

  // ---------------------------------------------------------------------
  // Area outliers

  /** `filter_procedure_area_by_type`: a Unit needs an area in [21, 2988],
      a Villa one in [47, 10062], any other type fails; a null area fails
      (NaN compares false). */
  predicate AreaWithinTypeBounds(t: Txn)
  {
    if t.propType == Some("Unit") then
      t.procedureArea.Some? && 21.0 <= t.procedureArea.value && t.procedureArea.value <= 2988.0
    else if t.propType == Some("Villa") then
      t.procedureArea.Some? && 47.0 <= t.procedureArea.value && t.procedureArea.value <= 10062.0
    else false
  }

  /** A row inside its type's bounds is a Villa or a Unit with an area in
      [21, 10062]; and a Villa or Unit whose area lies in [47, 2988], the
      band the two types share, is inside its bounds both before and after
      the reclassification, so that stage cannot drop it. */
  lemma AreaBoundsAndTypes(t: Txn)
    ensures AreaWithinTypeBounds(t) ==>
      IsVillaOrUnit(t) && t.procedureArea.Some? && 21.0 <= t.procedureArea.value <= 10062.0
    ensures IsVillaOrUnit(t) && t.procedureArea.Some? && 47.0 <= t.procedureArea.value <= 2988.0 ==>
      AreaWithinTypeBounds(t) && AreaWithinTypeBounds(Reclassify(t))
  {
  }

  /** The bounds are checked after the reclassification, and that order
      matters: a Unit of area 30 in a townhouse project passes the Unit
      bounds, but it has become a Villa, whose bounds start at 47. */
  lemma TownhouseUnitDropped(t: Txn)
    requires t.propType == Some("Unit") && t.projectName == Some("ABC Townhouses") && t.procedureArea == Some(30.0)
    ensures AreaWithinTypeBounds(t)
    ensures !AreaWithinTypeBounds(Reclassify(t))
  {
    TownhouseExample();
  }

  function AreaOutlierRemoval(rows: seq<Txn>): (r: seq<Txn>)
    ensures IsSubseq(r, rows)
    ensures forall t :: t in r <==> t in rows && AreaWithinTypeBounds(t)
    ensures forall t :: t in rows ==> multiset(r)[t] == if AreaWithinTypeBounds(t) then multiset(rows)[t] else 0
  {
    Filter(AreaWithinTypeBounds, rows)
  }

  // ---------------------------------------------------------------------
  // Null locations

  predicate HasNoLocation(t: Txn)
  {
    t.rooms.None? && t.buildingName.None? && t.projectNumber.None? && t.masterProject.None?
  }

  function DropNullLocationObservations(rows: seq<Txn>): (r: seq<Txn>)
    ensures IsSubseq(r, rows)
    ensures forall t :: t in r <==>
      (t in rows && (t.rooms.Some? || t.buildingName.Some? || t.projectNumber.Some? || t.masterProject.Some?))
    ensures forall t :: t in rows ==> multiset(r)[t] == if HasNoLocation(t) then 0 else multiset(rows)[t]
  {
    Filter((t: Txn) => !HasNoLocation(t), rows)
  }
}
