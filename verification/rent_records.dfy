/** One row of the rent-contracts table, restricted to the columns the
    cleaning stages read or write. The six Ejari classification columns
    (business property type, property type, property sub-type, each with
    its numeric id) are grouped in `Classification`, the only part the
    reclassification rules touch. */
module RentRecords {
  import opened Wrappers

  datatype Classification = Classification(
    busTypeId: Option<int>,     // ejari_bus_property_type_id
    busType: Option<string>,    // ejari_bus_property_type_en
    propTypeId: Option<int>,    // ejari_property_type_id
    propType: Option<string>,   // ejari_property_type_en
    subTypeId: Option<int>,     // ejari_property_sub_type_id
    subType: Option<string>)    // ejari_property_sub_type_en

  datatype RentRow = RentRow(
    startDate: Option<Date>,    // contract_start_date, already parsed; None when unparseable
    endDate: Option<Date>,      // contract_end_date, already parsed
    usage: Option<string>,      // property_usage_en
    noOfProp: Option<int>,      // no_of_prop
    lineNumber: Option<int>,    // line_number
    cls: Classification,
    projectNumber: Option<int>, // project_number
    projectName: Option<string>,// project_name_en
    areaName: Option<string>,   // area_name_en
    actualArea: Option<real>,   // actual_area
    contractAmount: Option<real>,
    annualAmount: Option<real>)

  /** Business property types kept by the residential filter. */
  const BusTypes: set<string> := {"Unit", "Villa"}

  /** Property types kept by the property-type filter. */
  const PropTypes: set<string> := {"Flat", "Villa", "Studio", "Complex Villas", "Arabian House", "Penthouse"}

  /** Sub-types that mark a non-residential property. */
  const ExcludedSubTypes: set<string> :=
    {"Office", "Room in labor Camp", "Hotel", "Pharmacy", "Boardroom", "Shop", "Commercial villa"}

  /** Both top-level classification columns hold one of their enumerated
      values (neither is null). */
  predicate InEnums(c: Classification)
  {
    c.busType.Some? && c.busType.value in BusTypes &&
    c.propType.Some? && c.propType.value in PropTypes
  }

  /** `~isin(excluded)` on the sub-type: a null sub-type is not in the set,
      so it passes. */
  predicate NotExcluded(c: Classification)
  {
    !(c.subType.Some? && c.subType.value in ExcludedSubTypes)
  }
}
