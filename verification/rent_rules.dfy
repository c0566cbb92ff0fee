/** The property-type reclassification of rent contracts, as an ordered
    table of eight conditional rewrites. Each rule tests the current values
    of the business type, property type and sub-type for equality with
    literals (a null cell never equals a literal) and, when all its tests
    pass, overwrites a fixed set of classification columns with fixed
    values. The source applies each rule to the whole table before the
    next one, so a later rule sees what earlier rules wrote. */
module RentRules {
  import opened Wrappers
  import opened Seqs
  import opened RentRecords

  /** Equality tests; `None` means the rule does not test that column. */
  datatype Guard = Guard(bus: Option<string>, prop: Option<string>, sub: Option<string>)

  /** Values written; `None` means the rule leaves that column alone. */
  datatype Assign = Assign(
    busTypeId: Option<int>, busType: Option<string>,
    propTypeId: Option<int>, propType: Option<string>,
    subTypeId: Option<int>, subType: Option<string>)

  datatype Rule = Rule(when: Guard, writes: Assign)

  predicate Passes(cell: Option<string>, test: Option<string>)
  {
    test.None? || cell == test
  }

  predicate Matches(g: Guard, c: Classification)
  {
    Passes(c.busType, g.bus) && Passes(c.propType, g.prop) && Passes(c.subType, g.sub)
  }

  function Over<T>(w: Option<T>, v: Option<T>): Option<T>
  {
    if w.Some? then w else v
  }

  function Write(a: Assign, c: Classification): Classification
  {
    Classification(
      Over(a.busTypeId, c.busTypeId), Over(a.busType, c.busType),
      Over(a.propTypeId, c.propTypeId), Over(a.propType, c.propType),
      Over(a.subTypeId, c.subTypeId), Over(a.subType, c.subType))
  }

  function ApplyRule(rule: Rule, c: Classification): Classification
  {
    if Matches(rule.when, c) then Write(rule.writes, c) else c
  }

  /** The rules applied one after the other to a single row. */
  function ApplyRules(rules: seq<Rule>, c: Classification): Classification
    decreases |rules|
  {
    if |rules| == 0 then c else ApplyRules(rules[1..], ApplyRule(rules[0], c))
  }

  const NoTest: Option<string> := None
  const Keep: Assign := Assign(None, None, None, None, None, None)

  /** The eight rewrites, in source order. */
  const UpdatingPropertyTypes: seq<Rule> := [
    // Unit + Villa -> Flat (842)
    Rule(Guard(Some("Unit"), Some("Villa"), NoTest),
         Keep.(propType := Some("Flat"), propTypeId := Some(842))),
    // Villa + Flat -> Villa (841)
    Rule(Guard(Some("Villa"), Some("Flat"), NoTest),
         Keep.(propType := Some("Villa"), propTypeId := Some(841))),
    // Villa with sub-type Studio -> Unit (2) / Flat (842)
    Rule(Guard(NoTest, Some("Villa"), Some("Studio")),
         Keep.(busTypeId := Some(2), busType := Some("Unit"), propTypeId := Some(842), propType := Some("Flat"))),
    // Villa with sub-type Duplex -> Unit (2) / Flat (842)
    Rule(Guard(NoTest, Some("Villa"), Some("Duplex")),
         Keep.(busType := Some("Unit"), busTypeId := Some(2), propType := Some("Flat"), propTypeId := Some(842))),
    // Unit + Arabian House -> business type Villa (4)
    Rule(Guard(Some("Unit"), Some("Arabian House"), NoTest),
         Keep.(busType := Some("Villa"), busTypeId := Some(4))),
    // Unit + Complex Villas -> business type Villa (4)
    Rule(Guard(Some("Unit"), Some("Complex Villas"), NoTest),
         Keep.(busType := Some("Villa"), busTypeId := Some(4))),
    // Villa + Complex Villas with sub-type Duplex -> Unit (2) / Flat (842)
    Rule(Guard(Some("Villa"), Some("Complex Villas"), Some("Duplex")),
         Keep.(busTypeId := Some(2), busType := Some("Unit"), propTypeId := Some(842), propType := Some("Flat"))),
    // Flat with sub-type Penthouse -> Penthouse (352361946), sub-type Penthouse (621)
    Rule(Guard(NoTest, Some("Flat"), Some("Penthouse")),
         Keep.(propTypeId := Some(352361946), propType := Some("Penthouse"),
               subTypeId := Some(621), subType := Some("Penthouse")))
  ]

  // ---------------------------------------------------------------------
  // Which columns a rule touches

  datatype Column = BusTypeId | BusType | PropTypeId | PropType | SubTypeId | SubType
  datatype Cell = IdCell(id: Option<int>) | LabelCell(text: Option<string>)

  function Get(c: Classification, col: Column): Cell
  {
    match col
    case BusTypeId => IdCell(c.busTypeId)
    case BusType => LabelCell(c.busType)
    case PropTypeId => IdCell(c.propTypeId)
    case PropType => LabelCell(c.propType)
    case SubTypeId => IdCell(c.subTypeId)
    case SubType => LabelCell(c.subType)
  }

  /** The column list of a rule's assignment. */
  function Writes(a: Assign): set<Column>
  {
    (if a.busTypeId.Some? then {BusTypeId} else {}) +
    (if a.busType.Some? then {BusType} else {}) +
    (if a.propTypeId.Some? then {PropTypeId} else {}) +
    (if a.propType.Some? then {PropType} else {}) +
    (if a.subTypeId.Some? then {SubTypeId} else {}) +
    (if a.subType.Some? then {SubType} else {})
  }

  /** A rule changes no column outside its column list, and a matching rule
      leaves every listed column holding the listed value. */
  lemma RuleFrame(rule: Rule, c: Classification, col: Column)
    ensures col !in Writes(rule.writes) ==> Get(ApplyRule(rule, c), col) == Get(c, col)
    ensures Matches(rule.when, c) && col in Writes(rule.writes) ==> Get(ApplyRule(rule, c), col) == Get(Write(rule.writes, c), col)
    ensures !Matches(rule.when, c) ==> ApplyRule(rule, c) == c
  {
  }

  /** The column lists of the eight rules, as the source names them. */
  lemma TableColumns()
    ensures Writes(UpdatingPropertyTypes[0].writes) == {PropType, PropTypeId}
    ensures Writes(UpdatingPropertyTypes[1].writes) == {PropType, PropTypeId}
    ensures Writes(UpdatingPropertyTypes[2].writes) == {BusTypeId, BusType, PropTypeId, PropType}
    ensures Writes(UpdatingPropertyTypes[3].writes) == {BusTypeId, BusType, PropTypeId, PropType}
    ensures Writes(UpdatingPropertyTypes[4].writes) == {BusType, BusTypeId}
    ensures Writes(UpdatingPropertyTypes[5].writes) == {BusType, BusTypeId}
    ensures Writes(UpdatingPropertyTypes[6].writes) == {BusTypeId, BusType, PropTypeId, PropType}
    ensures Writes(UpdatingPropertyTypes[7].writes) == {PropTypeId, PropType, SubTypeId, SubType}
  {
  }

  // ---------------------------------------------------------------------
  // Enumerations are preserved

  /** A rule that writes a business type writes Unit or Villa, one that
      writes a property type writes Flat, Villa or Penthouse, and one that
      writes a sub-type writes none of the excluded ones. */
  predicate WritesWithinEnums(rule: Rule)
  {
    (rule.writes.busType.Some? ==> rule.writes.busType.value in {"Unit", "Villa"}) &&
    (rule.writes.propType.Some? ==> rule.writes.propType.value in {"Flat", "Villa", "Penthouse"}) &&
    (rule.writes.subType.Some? ==> rule.writes.subType.value !in ExcludedSubTypes)
  }

  lemma TableWritesWithinEnums()
    ensures forall i :: 0 <= i < |UpdatingPropertyTypes| ==> WritesWithinEnums(UpdatingPropertyTypes[i])
  {
  }

  lemma {:induction false} ApplyRulesPreservesEnums(rules: seq<Rule>, c: Classification)
    requires forall i :: 0 <= i < |rules| ==> WritesWithinEnums(rules[i])
    ensures InEnums(c) ==> InEnums(ApplyRules(rules, c))
    ensures NotExcluded(c) ==> NotExcluded(ApplyRules(rules, c))
    decreases |rules|
  {
    if |rules| > 0 {
      ApplyRulesPreservesEnums(rules[1..], ApplyRule(rules[0], c));
    }
  }

  /** The reclassification keeps both enumerations: a row whose business
      type is Unit/Villa and whose property type is one of the six kept
      types still satisfies both afterwards; and it never writes an
      excluded sub-type. */
  lemma ReclassificationPreservesEnums(c: Classification)
    ensures InEnums(c) ==> InEnums(ApplyRules(UpdatingPropertyTypes, c))
    ensures NotExcluded(c) ==> NotExcluded(ApplyRules(UpdatingPropertyTypes, c))
  {
    TableWritesWithinEnums();
    ApplyRulesPreservesEnums(UpdatingPropertyTypes, c);
  }

  // ---------------------------------------------------------------------
  // Idempotence

  /** No rule of the table matches. */
  predicate Settled(c: Classification)
  {
    forall i :: 0 <= i < |UpdatingPropertyTypes| ==> !Matches(UpdatingPropertyTypes[i].when, c)
  }

  lemma {:induction false} NoMatchNoChange(rules: seq<Rule>, c: Classification)
    requires forall i :: 0 <= i < |rules| ==> !Matches(rules[i].when, c)
    ensures ApplyRules(rules, c) == c
    decreases |rules|
  {
    if |rules| > 0 {
      NoMatchNoChange(rules[1..], c);
    }
  }

  /** The table applied once, rule by rule. */
  lemma Unfold(c: Classification)
    ensures ApplyRules(UpdatingPropertyTypes, c) ==
      var t := UpdatingPropertyTypes;
      ApplyRule(t[7], ApplyRule(t[6], ApplyRule(t[5], ApplyRule(t[4],
        ApplyRule(t[3], ApplyRule(t[2], ApplyRule(t[1], ApplyRule(t[0], c))))))))
  {
    var t := UpdatingPropertyTypes;
    var c1 := ApplyRule(t[0], c);
    var c2 := ApplyRule(t[1], c1);
    var c3 := ApplyRule(t[2], c2);
    var c4 := ApplyRule(t[3], c3);
    var c5 := ApplyRule(t[4], c4);
    var c6 := ApplyRule(t[5], c5);
    var c7 := ApplyRule(t[6], c6);
    var c8 := ApplyRule(t[7], c7);
    assert ApplyRules(t[1..], c1) == ApplyRules(t[2..], c2) by { assert t[1..][1..] == t[2..]; }
    assert ApplyRules(t[2..], c2) == ApplyRules(t[3..], c3) by { assert t[2..][1..] == t[3..]; }
    assert ApplyRules(t[3..], c3) == ApplyRules(t[4..], c4) by { assert t[3..][1..] == t[4..]; }
    assert ApplyRules(t[4..], c4) == ApplyRules(t[5..], c5) by { assert t[4..][1..] == t[5..]; }
    assert ApplyRules(t[5..], c5) == ApplyRules(t[6..], c6) by { assert t[5..][1..] == t[6..]; }
    assert ApplyRules(t[6..], c6) == ApplyRules(t[7..], c7) by { assert t[6..][1..] == t[7..]; }
    assert ApplyRules(t[7..], c7) == c8 by { assert t[7..][1..] == []; }
  }

  /** After one pass no rule matches any more. */
  lemma ReclassifiedIsSettled(c: Classification)
    ensures Settled(ApplyRules(UpdatingPropertyTypes, c))
  {
    Unfold(c);
  }

  /** Running the rule sequence a second time on its output changes
      nothing. */
  lemma ReclassificationIdempotent(c: Classification)
    ensures ApplyRules(UpdatingPropertyTypes, ApplyRules(UpdatingPropertyTypes, c))
         == ApplyRules(UpdatingPropertyTypes, c)
  {
    var once := ApplyRules(UpdatingPropertyTypes, c);
    ReclassifiedIsSettled(c);
    NoMatchNoChange(UpdatingPropertyTypes, once);
  }

  // ---------------------------------------------------------------------
  // Specific outcomes

  /** Rule 1: a Unit labelled Villa becomes a Flat with id 842. */
  lemma UnitVillaRule(c: Classification)
    requires c.busType == Some("Unit") && c.propType == Some("Villa")
    ensures ApplyRule(UpdatingPropertyTypes[0], c) == c.(propType := Some("Flat"), propTypeId := Some(842))
  {
  }

  /** The whole stage on a Unit labelled Villa: Flat/842 unless the
      sub-type is Penthouse, in which case the last rule turns the new Flat
      into a Penthouse. */
  lemma UnitVillaOutcome(c: Classification)
    requires c.busType == Some("Unit") && c.propType == Some("Villa")
    ensures c.subType != Some("Penthouse") ==>
      ApplyRules(UpdatingPropertyTypes, c) == c.(propType := Some("Flat"), propTypeId := Some(842))
    ensures c.subType == Some("Penthouse") ==>
      ApplyRules(UpdatingPropertyTypes, c) ==
        c.(propType := Some("Penthouse"), propTypeId := Some(352361946), subTypeId := Some(621))
  {
    Unfold(c);
  }

  /** Order matters: a Villa-business Flat with sub-type Studio is first
      relabelled Villa by rule 2, then caught by rule 3 and ends as a
      Unit/Flat. With rules 2 and 3 swapped it would stay a Villa. */
  lemma StudioUnderVillaOutcome(c: Classification)
    requires c.busType == Some("Villa") && c.propType == Some("Flat") && c.subType == Some("Studio")
    ensures ApplyRules(UpdatingPropertyTypes, c) ==
      c.(busTypeId := Some(2), busType := Some("Unit"), propTypeId := Some(842), propType := Some("Flat"))
    ensures ApplyRule(UpdatingPropertyTypes[1], ApplyRule(UpdatingPropertyTypes[2], c)).propType == Some("Villa")
  {
    Unfold(c);
  }

  /** Rule 8 and the whole stage on a Flat with sub-type Penthouse whose
      business type is not Villa (a Villa business type would first be
      relabelled by rule 2). */
  lemma PenthouseOutcome(c: Classification)
    requires c.propType == Some("Flat") && c.subType == Some("Penthouse")
    ensures ApplyRule(UpdatingPropertyTypes[7], c) ==
      c.(propTypeId := Some(352361946), propType := Some("Penthouse"), subTypeId := Some(621))
    ensures c.busType != Some("Villa") ==>
      ApplyRules(UpdatingPropertyTypes, c) ==
        c.(propTypeId := Some(352361946), propType := Some("Penthouse"), subTypeId := Some(621))
  {
    Unfold(c);
  }

  // ---------------------------------------------------------------------
  // The stage over a table

  /** One rule applied to every row, leaving the other columns alone. */
  function ApplyRuleToRow(rule: Rule): RentRow -> RentRow
  {
    (row: RentRow) => row.(cls := ApplyRule(rule, row.cls))
  }

  /** The source's order of evaluation: each rule over the whole table,
      then the next rule over the result. */
  function ApplyRulesToTable(rules: seq<Rule>, rows: seq<RentRow>): seq<RentRow>
    decreases |rules|
  {
    if |rules| == 0 then rows else ApplyRulesToTable(rules[1..], Map(ApplyRuleToRow(rules[0]), rows))
  }

  /** Rule-by-rule over the table equals the whole rule sequence row by
      row. */
  lemma {:induction false} TableOrderIsRowOrder(rules: seq<Rule>, rows: seq<RentRow>)
    ensures ApplyRulesToTable(rules, rows) == Map((row: RentRow) => row.(cls := ApplyRules(rules, row.cls)), rows)
    decreases |rules|
  {
    if |rules| == 0 {
      assert forall row: RentRow :: row.(cls := ApplyRules(rules, row.cls)) == row;
      MapIdentity(rows);
    } else {
      var m1 := Map(ApplyRuleToRow(rules[0]), rows);
      TableOrderIsRowOrder(rules[1..], m1);
      MapMap((row: RentRow) => row.(cls := ApplyRules(rules[1..], row.cls)), ApplyRuleToRow(rules[0]),
             (row: RentRow) => row.(cls := ApplyRules(rules, row.cls)), rows);
    }
  }

  lemma {:induction false} MapIdentity(rows: seq<RentRow>)
    ensures Map((row: RentRow) => row.(cls := ApplyRules([], row.cls)), rows) == rows
  {
  }

  /** `updating_property_types`: the row count is unchanged, each row is
      the rule sequence applied to it, and no column outside the
      classification changes. */
  function UpdatingPropertyTypesStage(rows: seq<RentRow>): (r: seq<RentRow>)
    ensures |r| == |rows|
    ensures forall i :: 0 <= i < |rows| ==> r[i].cls == ApplyRules(UpdatingPropertyTypes, rows[i].cls)
    ensures forall i :: 0 <= i < |rows| ==> r[i].(cls := rows[i].cls) == rows[i]
    ensures forall i :: 0 <= i < |rows| ==> InEnums(rows[i].cls) ==> InEnums(r[i].cls)
    ensures forall i :: 0 <= i < |rows| ==> NotExcluded(rows[i].cls) ==> NotExcluded(r[i].cls)
  {
    TableOrderIsRowOrder(UpdatingPropertyTypes, rows);
    forall i | 0 <= i < |rows|
      ensures InEnums(rows[i].cls) ==> InEnums(ApplyRules(UpdatingPropertyTypes, rows[i].cls))
      ensures NotExcluded(rows[i].cls) ==> NotExcluded(ApplyRules(UpdatingPropertyTypes, rows[i].cls))
    {
      ReclassificationPreservesEnums(rows[i].cls);
    }
    ApplyRulesToTable(UpdatingPropertyTypes, rows)
  }
}
