/** Sub-type imputation for rent contracts (`impute_property_sub_type`).

    Before any row changes, the table is grouped by (project name, sub-type)
    and each group's observed `actual_area` range [min, max] is computed.
    Rows with a null project name or a null sub-type form no group (pandas
    `groupby` drops null keys); null areas are skipped by min/max, and a
    group whose areas are all null has no range. A row whose sub-type is
    null takes the sub-type of the first group of its own project whose
    range contains its area; groups are visited in sorted key order, so the
    first match is the least sub-type in Python string order. No match
    leaves the sub-type null. Afterwards one hard-coded rule turns the
    still-null sub-type of a SANDHURST HOUSE flat of area 47..48 into
    "Studio". Only the sub-type label changes; its id column is left as is. */
module RentImputation {
  import opened Wrappers
  import opened Seqs
  import opened Strings
  import opened RentRecords

  predicate InGroup(row: RentRow, project: string, subType: string)
  {
    row.projectName == Some(project) && row.cls.subType == Some(subType)
  }

  /** The non-null areas of the group (project, subType), in row order. */
  function GroupAreas(rows: seq<RentRow>, project: string, subType: string): seq<real>
    decreases |rows|
  {
    if |rows| == 0 then []
    else if InGroup(rows[0], project, subType) && rows[0].actualArea.Some? then
      [rows[0].actualArea.value] + GroupAreas(rows[1..], project, subType)
    else GroupAreas(rows[1..], project, subType)
  }

  /** The group's areas are exactly the non-null areas of its rows. */
  lemma {:induction false} GroupAreasMembers(rows: seq<RentRow>, project: string, subType: string, a: real)
    ensures a in GroupAreas(rows, project, subType) <==>
      exists row :: row in rows && InGroup(row, project, subType) && row.actualArea == Some(a)
    decreases |rows|
  {
    if |rows| > 0 {
      GroupAreasMembers(rows[1..], project, subType, a);
      assert forall row :: row in rows <==> row == rows[0] || row in rows[1..];
    }
  }

  function MinOf(xs: seq<real>): (m: real)
    requires |xs| > 0
    ensures m in xs && forall x :: x in xs ==> m <= x
  {
    if |xs| == 1 then xs[0]
    else
      var rest := MinOf(xs[1..]);
      assert forall x :: x in xs ==> x == xs[0] || x in xs[1..];
      if xs[0] <= rest then xs[0] else rest
  }

  function MaxOf(xs: seq<real>): (m: real)
    requires |xs| > 0
    ensures m in xs && forall x :: x in xs ==> x <= m
  {
    if |xs| == 1 then xs[0]
    else
      var rest := MaxOf(xs[1..]);
      assert forall x :: x in xs ==> x == xs[0] || x in xs[1..];
      if xs[0] >= rest then xs[0] else rest
  }

  /** The group (project, subType) has a range and `area` lies in it. */
  predicate RangeContains(rows: seq<RentRow>, project: string, subType: string, area: real)
  {
    var xs := GroupAreas(rows, project, subType);
    |xs| > 0 && MinOf(xs) <= area <= MaxOf(xs)
  }

  /** A group's range contains `area` exactly when the group holds an
      observed area at or below it and one at or above it. */
  lemma RangeContainsIff(rows: seq<RentRow>, project: string, subType: string, area: real)
    ensures RangeContains(rows, project, subType, area) <==>
      (exists lo :: lo in GroupAreas(rows, project, subType) && lo <= area) &&
      (exists hi :: hi in GroupAreas(rows, project, subType) && area <= hi)
  {
    var xs := GroupAreas(rows, project, subType);
    if RangeContains(rows, project, subType, area) {
      var lo, hi := MinOf(xs), MaxOf(xs);
      assert lo in xs && lo <= area;
      assert hi in xs && area <= hi;
    }
    if (exists lo :: lo in xs && lo <= area) && (exists hi :: hi in xs && area <= hi) {
      var lo :| lo in xs && lo <= area;
      var hi :| hi in xs && area <= hi;
      assert MinOf(xs) <= lo && hi <= MaxOf(xs);
      assert RangeContains(rows, project, subType, area);
    }
  }

  /** The sub-types observed together with `project`, with repeats. */
  function ProjectSubTypes(rows: seq<RentRow>, project: string): (r: seq<string>)
    ensures forall s :: s in r <==> exists row :: row in rows && InGroup(row, project, s)
    decreases |rows|
  {
    if |rows| == 0 then []
    else
      var rest := ProjectSubTypes(rows[1..], project);
      assert forall row :: row in rows <==> row == rows[0] || row in rows[1..];
      if rows[0].projectName == Some(project) && rows[0].cls.subType.Some? then
        var s0 := rows[0].cls.subType.value;
        assert InGroup(rows[0], project, s0);
        [s0] + rest
      else rest
  }

  /** The least candidate, in string order, whose group range contains
      `area`; `None` when no candidate's does. */
  function LeastMatch(rows: seq<RentRow>, project: string, area: real, cands: seq<string>): (r: Option<string>)
    ensures r.Some? <==> exists s :: s in cands && RangeContains(rows, project, s, area)
    ensures r.Some? ==> r.value in cands && RangeContains(rows, project, r.value, area)
    ensures r.Some? ==> forall s :: s in cands && RangeContains(rows, project, s, area) ==> LexLe(r.value, s)
    decreases |cands|
  {
    if |cands| == 0 then None
    else
      var rest := LeastMatch(rows, project, area, cands[1..]);
      assert forall s :: s in cands <==> s == cands[0] || s in cands[1..];
      if RangeContains(rows, project, cands[0], area) then
        if rest.None? then
          LexLeReflexive(cands[0]);
          Some(cands[0])
        else if LexLe(cands[0], rest.value) then
          LexLeReflexive(cands[0]);
          LeastBelow(rows, project, area, cands[0], rest.value, cands[1..]);
          Some(cands[0])
        else
          LexLeTotal(cands[0], rest.value);
          rest
      else rest
  }

  lemma LeastBelow(rows: seq<RentRow>, project: string, area: real, a: string, b: string, cands: seq<string>)
    requires LexLe(a, b)
    requires forall s :: s in cands && RangeContains(rows, project, s, area) ==> LexLe(b, s)
    ensures forall s :: s in cands && RangeContains(rows, project, s, area) ==> LexLe(a, s)
  {
    forall s | s in cands && RangeContains(rows, project, s, area)
      ensures LexLe(a, s)
    {
      LexLeTransitive(a, b, s);
    }
  }

  /** A sub-type `s` can be imputed for `row` from the statistics of
      `stats`: the row has a project and an area, and the group (its
      project, s) has a range containing that area. */
  predicate Imputable(stats: seq<RentRow>, row: RentRow, s: string)
  {
    row.projectName.Some? && row.actualArea.Some? &&
    RangeContains(stats, row.projectName.value, s, row.actualArea.value)
  }

  /** The least sub-type, over all groups of `project`, whose range holds
      `area`. */
  function LeastGroup(stats: seq<RentRow>, project: string, area: real): (r: Option<string>)
    ensures r.Some? <==> exists s :: RangeContains(stats, project, s, area)
    ensures r.Some? ==> RangeContains(stats, project, r.value, area)
    ensures r.Some? ==> forall s :: RangeContains(stats, project, s, area) ==> LexLe(r.value, s)
  {
    var cands := ProjectSubTypes(stats, project);
    CandidatesCover(stats, project, area);
    LeastMatch(stats, project, area, cands)
  }

  /** The sub-type after project-based imputation, with group statistics
      taken from `stats`. */
  function ImputeSubType(stats: seq<RentRow>, row: RentRow): (r: Option<string>)
    ensures row.cls.subType.Some? ==> r == row.cls.subType
    ensures row.cls.subType.None? ==> (r.Some? <==> exists s :: Imputable(stats, row, s))
    ensures row.cls.subType.None? && r.Some? ==>
      Imputable(stats, row, r.value) && forall s :: Imputable(stats, row, s) ==> LexLe(r.value, s)
  {
    if row.cls.subType.Some? then row.cls.subType
    else if row.projectName.None? || row.actualArea.None? then None
    else
      var p, a := row.projectName.value, row.actualArea.value;
      var r := LeastGroup(stats, p, a);
      assert (exists s :: Imputable(stats, row, s)) ==> r.Some? by {
        if exists s :: Imputable(stats, row, s) {
          var s :| Imputable(stats, row, s);
          assert RangeContains(stats, p, s, a);
        }
      }
      assert r.Some? ==> Imputable(stats, row, r.value);
      r
  }

  /** Every group whose range contains an area is among the candidates. */
  lemma CandidatesCover(stats: seq<RentRow>, project: string, area: real)
    ensures forall s :: RangeContains(stats, project, s, area) ==> s in ProjectSubTypes(stats, project)
  {
    forall s | RangeContains(stats, project, s, area)
      ensures s in ProjectSubTypes(stats, project)
    {
      var xs := GroupAreas(stats, project, s);
      GroupAreasMembers(stats, project, s, xs[0]);
    }
  }

  function ImputeRowByProject(stats: seq<RentRow>, row: RentRow): RentRow
  {
    row.(cls := row.cls.(subType := ImputeSubType(stats, row)))
  }

  /** The SANDHURST HOUSE rule: a Flat of that project whose sub-type is
      still null and whose area lies in [47, 48] becomes a Studio. */
  predicate IsSandhurstStudio(row: RentRow)
  {
    row.cls.propType == Some("Flat") && row.projectName == Some("SANDHURST HOUSE") &&
    row.cls.subType.None? && row.actualArea.Some? && 47.0 <= row.actualArea.value <= 48.0
  }

  function SandhurstRule(row: RentRow): RentRow
  {
    if IsSandhurstStudio(row) then row.(cls := row.cls.(subType := Some("Studio"))) else row
  }

  /** One row through the stage: project-based imputation against the
      statistics of `stats`, then the SANDHURST rule. Only the sub-type
      label may change; a known sub-type is kept; a null one takes the
      least group sub-type whose range holds the row's area; if there is
      none it stays null, unless the SANDHURST rule applies. */
  function ImputeRow(stats: seq<RentRow>, row: RentRow): (r: RentRow)
    ensures r.(cls := r.cls.(subType := row.cls.subType)) == row
    ensures row.cls.subType.Some? ==> r == row
    ensures forall s :: row.cls.subType.None? && Imputable(stats, row, s) ==>
      r.cls.subType.Some? && Imputable(stats, row, r.cls.subType.value) && LexLe(r.cls.subType.value, s)
    ensures row.cls.subType.None? && (forall s :: !Imputable(stats, row, s)) ==>
      r.cls.subType == (if IsSandhurstStudio(row) then Some("Studio") else None)
  {
    SandhurstRule(ImputeRowByProject(stats, row))
  }

  /** Imputation invents no sub-type: a filled-in sub-type was observed on
      a row of the statistics table with the same project, or is the
      SANDHURST "Studio". */
  lemma ImputedWasObserved(stats: seq<RentRow>, row: RentRow)
    requires row.cls.subType.None?
    ensures ImputeRow(stats, row).cls.subType.Some? ==>
      ImputeRow(stats, row).cls.subType == Some("Studio") ||
      exists seen :: seen in stats && seen.projectName == row.projectName && seen.cls.subType == ImputeRow(stats, row).cls.subType
  {
    var s := ImputeSubType(stats, row);
    if s.Some? {
      var xs := GroupAreas(stats, row.projectName.value, s.value);
      GroupAreasMembers(stats, row.projectName.value, s.value, xs[0]);
    }
  }

  /** The whole stage, as the source runs it: the project pass over every
      row (statistics from the table as it was before the stage), then the
      SANDHURST rule over every row. */
  function ImputePropertySubType(rows: seq<RentRow>): (r: seq<RentRow>)
    ensures |r| == |rows|
    ensures forall i :: 0 <= i < |rows| ==> r[i] == ImputeRow(rows, rows[i])
  {
    var byProject := Map((row: RentRow) => ImputeRowByProject(rows, row), rows);
    MapMap(SandhurstRule, (row: RentRow) => ImputeRowByProject(rows, row), (row: RentRow) => ImputeRow(rows, row), rows);
    Map(SandhurstRule, byProject)
  }

  /** Concrete case: with one observed Studio of area 40 and one
      "1bed room+Hall" of area 70 in project P, a row of P with null
      sub-type and area 40 becomes a Studio, one of area 55 stays null. */
  lemma ImputationExample(studio: RentRow, oneBed: RentRow, q1: RentRow, q2: RentRow)
    requires studio.projectName == Some("P") && studio.cls.subType == Some("Studio") && studio.actualArea == Some(40.0)
    requires oneBed.projectName == Some("P") && oneBed.cls.subType == Some("1bed room+Hall") && oneBed.actualArea == Some(70.0)
    requires q1.projectName == Some("P") && q1.cls.subType == None && q1.actualArea == Some(40.0)
    requires q2.projectName == Some("P") && q2.cls.subType == None && q2.actualArea == Some(55.0)
    ensures ImputeRow([studio, oneBed, q1, q2], q1).cls.subType == Some("Studio")
    ensures ImputeRow([studio, oneBed, q1, q2], q2).cls.subType == None
  {
    var rows := [studio, oneBed, q1, q2];
    ExampleRanges(rows);
    GroupAreasMembers(rows, "P", "Studio", 40.0);
    assert 40.0 in GroupAreas(rows, "P", "Studio");
    assert Imputable(rows, q1, "Studio");
    OnlyCandidate(rows, q1, "Studio");
    NoCandidate(rows, q2);
  }

  /** When exactly one group's range holds the row's area, that group's
      sub-type is imputed. */
  lemma OnlyCandidate(stats: seq<RentRow>, row: RentRow, s: string)
    requires row.cls.subType.None? && Imputable(stats, row, s)
    requires forall t :: Imputable(stats, row, t) ==> t == s
    ensures ImputeRow(stats, row).cls.subType == Some(s)
  {
  }

  /** When no group's range holds the row's area, and the SANDHURST rule
      does not apply, the sub-type stays null. */
  lemma NoCandidate(stats: seq<RentRow>, row: RentRow)
    requires row.cls.subType.None? && !IsSandhurstStudio(row)
    requires forall t :: !Imputable(stats, row, t)
    ensures ImputeRow(stats, row).cls.subType.None?
  {
  }

  /** In the example table the only ranges of P are the single points 40
      (Studio) and 70 (1bed room+Hall). */
  lemma ExampleRanges(rows: seq<RentRow>)
    requires |rows| == 4
    requires rows[0].projectName == Some("P") && rows[0].cls.subType == Some("Studio") && rows[0].actualArea == Some(40.0)
    requires rows[1].projectName == Some("P") && rows[1].cls.subType == Some("1bed room+Hall") && rows[1].actualArea == Some(70.0)
    requires rows[2].cls.subType == None && rows[3].cls.subType == None
    ensures forall s, a :: RangeContains(rows, "P", s, a) ==>
      (s == "Studio" && a == 40.0) || (s == "1bed room+Hall" && a == 70.0)
  {
    forall s, a | RangeContains(rows, "P", s, a)
      ensures (s == "Studio" && a == 40.0) || (s == "1bed room+Hall" && a == 70.0)
    {
      var xs := GroupAreas(rows, "P", s);
      var lo, hi := MinOf(xs), MaxOf(xs);
      GroupAreasMembers(rows, "P", s, lo);
      GroupAreasMembers(rows, "P", s, hi);
    }
  }
}
