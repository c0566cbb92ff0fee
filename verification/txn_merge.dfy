/** The second half of the transactions cleaner: the project-name lookup
    built from the transactions, the projections of the projects and
    developers tables, the two left joins and the final selection of the
    merged rows that name a project. */
module TxnMerge {
  import opened Wrappers
  import opened Seqs
  import opened Joins
  import opened TxnCleaning

  /** One row of the projects table, restricted to the columns kept. */
  datatype Project = Project(
    projectNumber: Option<int>,
    projectName: Option<string>,          // project_name_en, overwritten by the lookup
    developerNumber: Option<int>,
    developerName: Option<string>,        // developer_name (the projects table's own)
    masterDeveloperNumber: Option<int>,
    masterDeveloperName: Option<string>,
    projectStart: Option<string>,
    projectEnd: Option<string>,
    status: Option<string>,
    percentCompleted: Option<real>,
    completionDate: Option<string>,
    areaId: Option<int>,
    areaName: Option<string>,
    masterProject: Option<string>)

  /** One row of the developers table, restricted to the columns kept. */
  datatype Developer = Developer(developerNumber: Option<int>, developerName: Option<string>)

  /** One row of `projects_developers`: a project with the name of its
      developer from the developers table (developer_name_en). */
  datatype ProjectDev = ProjectDev(
    projectNumber: Option<int>,
    projectName: Option<string>,
    developerName: Option<string>,
    areaId: Option<int>,
    areaName: Option<string>,
    masterProject: Option<string>,
    projectStart: Option<string>,
    projectEnd: Option<string>,
    status: Option<string>,
    percentCompleted: Option<real>,
    completionDate: Option<string>)

  /** One row of `transactions_merged_cleaned`. Area and project name are
      the transaction's own (the `_x` columns); developer and project
      dates come from the matched project, null when there is none. */
  datatype CleanedTxn = CleanedTxn(
    instanceDate: Option<Date>,
    transactionId: Option<string>,
    regType: Option<string>,
    propType: Option<string>,
    propTypeId: Option<int>,
    areaId: Option<int>,
    areaName: Option<string>,
    projectNumber: Option<int>,
    projectName: Option<string>,
    rooms: Option<string>,
    hasParking: Option<int>,
    procedureArea: Option<real>,
    meterSalePrice: Option<real>,
    actualWorth: Option<real>,
    developerName: Option<string>,
    projectStart: Option<string>,
    projectEnd: Option<string>,
    completionDate: Option<string>,
    status: Option<string>,
    percentCompleted: Option<real>)

  // ---------------------------------------------------------------------
  // Project-name lookup

  /** Row `j` is the first transaction carrying project number `n`. */
  predicate FirstRowOf(rows: seq<Txn>, n: int, j: int)
  {
    0 <= j < |rows| && rows[j].projectNumber == Some(n) &&
    forall k :: 0 <= k < j ==> rows[k].projectNumber != Some(n)
  }

  /** The dictionary built from the rows with a project number, keeping the
      first row of each number. Built from the back, so an earlier row
      overwrites a later one. */
  function ProjectNameMap(rows: seq<Txn>): map<int, Option<string>>
    decreases |rows|
  {
    if |rows| == 0 then map[]
    else
      var m := ProjectNameMap(rows[1..]);
      match rows[0].projectNumber
      case None => m
      case Some(n) => m[n := rows[0].projectName]
  }

  /** The keys are exactly the project numbers that occur, and each maps to
      the name on the first row carrying it. */
  lemma {:induction false} ProjectNameMapFirst(rows: seq<Txn>, n: int)
    ensures n in ProjectNameMap(rows) <==> exists j :: 0 <= j < |rows| && rows[j].projectNumber == Some(n)
    ensures forall j :: FirstRowOf(rows, n, j) ==> n in ProjectNameMap(rows) && ProjectNameMap(rows)[n] == rows[j].projectName
    decreases |rows|
  {
    if |rows| > 0 {
      var tail := rows[1..];
      ProjectNameMapFirst(tail, n);
      if rows[0].projectNumber != Some(n) {
        if exists j :: 0 <= j < |rows| && rows[j].projectNumber == Some(n) {
          var j :| 0 <= j < |rows| && rows[j].projectNumber == Some(n);
          assert tail[j - 1].projectNumber == Some(n);
        }
        if exists j :: 0 <= j < |tail| && tail[j].projectNumber == Some(n) {
          var j :| 0 <= j < |tail| && tail[j].projectNumber == Some(n);
          assert rows[j + 1].projectNumber == Some(n);
        }
        forall j | FirstRowOf(rows, n, j)
          ensures n in ProjectNameMap(rows) && ProjectNameMap(rows)[n] == rows[j].projectName
        {
          assert FirstRowOf(tail, n, j - 1);
        }
      }
    }
  }

  /** A number that occurs has a first row. */
  lemma {:induction false} FirstRowExists(rows: seq<Txn>, n: int, j: int)
    requires 0 <= j < |rows| && rows[j].projectNumber == Some(n)
    ensures exists f :: FirstRowOf(rows, n, f)
    decreases j
  {
    if exists k :: 0 <= k < j && rows[k].projectNumber == Some(n) {
      var k :| 0 <= k < j && rows[k].projectNumber == Some(n);
      FirstRowExists(rows, n, k);
    } else {
      assert FirstRowOf(rows, n, j);
    }
  }

  /** `Series.map(dict)`: a null or unknown number gives null. */
  function Lookup(m: map<int, Option<string>>, k: Option<int>): Option<string>
  {
    if k.Some? && k.value in m then m[k.value] else None
  }

  /** `map_project_names`: every project's name is replaced by the name on
      the first transaction with its number, and by null when no
      transaction carries it or the project has no number; nothing else
      changes. */
  function MapProjectNames(txns: seq<Txn>, projects: seq<Project>): (r: seq<Project>)
    ensures |r| == |projects|
    ensures forall i :: 0 <= i < |projects| ==> r[i].(projectName := projects[i].projectName) == projects[i]
    ensures forall i, j ::
      (0 <= i < |projects| && projects[i].projectNumber.Some? && FirstRowOf(txns, projects[i].projectNumber.value, j))
      ==> r[i].projectName == txns[j].projectName
    ensures forall i ::
      (0 <= i < |projects| && forall j :: 0 <= j < |txns| ==> txns[j].projectNumber != projects[i].projectNumber)
      ==> r[i].projectName.None?
    // the dictionary is built after dropping null numbers, so a null number finds nothing
    ensures forall i :: 0 <= i < |projects| && projects[i].projectNumber.None? ==> r[i].projectName.None?
  {
    var m := ProjectNameMap(txns);
    var r := Map((p: Project) => p.(projectName := Lookup(m, p.projectNumber)), projects);
    assert forall i :: 0 <= i < |projects| && projects[i].projectNumber.Some? ==>
      var n := projects[i].projectNumber.value;
      (n in m <==> exists j :: 0 <= j < |txns| && txns[j].projectNumber == Some(n)) &&
      (forall j :: FirstRowOf(txns, n, j) ==> n in m && m[n] == txns[j].projectName)
    by {
      forall i | 0 <= i < |projects| && projects[i].projectNumber.Some? {
        ProjectNameMapFirst(txns, projects[i].projectNumber.value);
      }
    }
    r
  }

  // ---------------------------------------------------------------------
  // Projections

  /** The projects columns kept by `clean_projects`. */
  const ProjectColumns: seq<string> := [
    "project_number", "project_name_en", "developer_number", "developer_name",
    "master_developer_number", "master_developer_name", "project_start_date",
    "project_end_date", "project_status", "percent_completed", "completion_date",
    "area_id", "area_name_en", "master_project_en"]

  /** The developers columns kept by `clean_developers`. */
  const DeveloperColumns: seq<string> := ["developer_number", "developer_name_en"]

  /** Assigning a column adds it at the end unless it already exists. */
  function WithColumn(cols: seq<string>, name: string): (r: seq<string>)
    ensures name in r
    ensures forall c :: c in r <==> c in cols || c == name
  {
    if name in cols then cols else cols + [name]
  }

  // ---------------------------------------------------------------------
  // Joins

  /** The `projects_developers` row for one join pair: the project's
      columns and the developer's name, null when there is no developer. */
  function Finalize(pair: (Project, Option<Developer>)): ProjectDev
  {
    var p := pair.0;
    ProjectDev(p.projectNumber, p.projectName,
               if pair.1.Some? then pair.1.value.developerName else None,
               p.areaId, p.areaName, p.masterProject, p.projectStart, p.projectEnd,
               p.status, p.percentCompleted, p.completionDate)
  }

  /** `q` carries the project columns of `p` unchanged. */
  predicate Describes(q: ProjectDev, p: Project)
  {
    q.projectNumber == p.projectNumber && q.projectName == p.projectName &&
    q.areaId == p.areaId && q.areaName == p.areaName && q.masterProject == p.masterProject &&
    q.projectStart == p.projectStart && q.projectEnd == p.projectEnd && q.status == p.status &&
    q.percentCompleted == p.percentCompleted && q.completionDate == p.completionDate
  }

  /** A developer name on `q` is that of a developer with `p`'s developer
      number. */
  predicate NamedBy(q: ProjectDev, p: Project, developers: seq<Developer>)
  {
    q.developerName.Some? ==>
      exists d :: d in developers && d.developerNumber == p.developerNumber && d.developerName == q.developerName
  }

  function ProjectsJoin(projects: seq<Project>, developers: seq<Developer>): seq<(Project, Option<Developer>)>
  {
    LeftJoin(projects, developers, (p: Project) => p.developerNumber, (d: Developer) => d.developerNumber)
  }

  /** `merge_projects_developers` then `finalize_projects_developers`:
      every distinct project appears and none is invented (how often each
      copy appears is `ProjectsJoinCounts` and `ProjectsPairedCount`); a
      developer name is present only when it
      comes from a developer with the project's developer number; each
      matching developer contributes a row carrying its name, and a project
      with no matching developer keeps one row with a null name. */
  function MergeProjectsDevelopers(projects: seq<Project>, developers: seq<Developer>): (r: seq<ProjectDev>)
    ensures |r| >= |projects|
    ensures forall p :: p in projects ==> exists q :: q in r && Describes(q, p)
    ensures forall q :: q in r ==> exists p :: p in projects && Describes(q, p) && NamedBy(q, p, developers)
    // a matching developer's name is filled in
    ensures forall p, d :: p in projects && d in developers && d.developerNumber == p.developerNumber ==>
      Finalize((p, Some(d))) in r
    // a project with no matching developer appears with a null developer name
    ensures forall p :: p in projects && (forall d :: d in developers ==> d.developerNumber != p.developerNumber) ==>
      Finalize((p, None)) in r
  {
    var join := ProjectsJoin(projects, developers);
    var r := Map(Finalize, join);
    forall p | p in projects ensures exists q :: q in r && Describes(q, p) {
      var pair :| pair in join && pair.0 == p;
      var i :| 0 <= i < |join| && join[i] == pair;
      assert r[i] in r && Describes(r[i], p);
    }
    forall q | q in r
      ensures exists p :: p in projects && Describes(q, p) && NamedBy(q, p, developers)
    {
      var i :| 0 <= i < |r| && r[i] == q;
      assert join[i] in join;
      var p := join[i].0;
      assert p in projects && Describes(q, p);
      if q.developerName.Some? {
        var d := join[i].1.value;
        assert d in developers && d.developerNumber == p.developerNumber;
      }
    }
    DeveloperNamesFilled(projects, developers);
    r
  }

  /** The pairs behind the last two facts of `MergeProjectsDevelopers`. */
  lemma DeveloperNamesFilled(projects: seq<Project>, developers: seq<Developer>)
    ensures forall p, d :: p in projects && d in developers && d.developerNumber == p.developerNumber ==>
      Finalize((p, Some(d))) in Map(Finalize, ProjectsJoin(projects, developers))
    ensures forall p :: p in projects && (forall d :: d in developers ==> d.developerNumber != p.developerNumber) ==>
      Finalize((p, None)) in Map(Finalize, ProjectsJoin(projects, developers))
  {
    var join := ProjectsJoin(projects, developers);
    forall p, d | p in projects && d in developers && d.developerNumber == p.developerNumber
      ensures Finalize((p, Some(d))) in Map(Finalize, join)
    {
      MapMember(Finalize, join, (p, Some(d)));
    }
    forall p | p in projects && (forall d :: d in developers ==> d.developerNumber != p.developerNumber)
      ensures Finalize((p, None)) in Map(Finalize, join)
    {
      var pair :| pair in join && pair.0 == p;
      assert pair == (p, None);
      MapMember(Finalize, join, pair);
    }
  }

  /** With no developer number repeated in the developers table, the merge
      is one row per project, in project order. */
  lemma MergeProjectsDevelopersUnique(projects: seq<Project>, developers: seq<Developer>)
    requires forall i, j :: 0 <= i < j < |developers| ==> developers[i].developerNumber != developers[j].developerNumber
    ensures |MergeProjectsDevelopers(projects, developers)| == |projects|
    ensures forall i :: 0 <= i < |projects| ==> Describes(MergeProjectsDevelopers(projects, developers)[i], projects[i])
  {
    LeftJoinUniqueKeys(projects, developers, (p: Project) => p.developerNumber, (d: Developer) => d.developerNumber);
  }

  /** The multiplicities of `merge_projects_developers`, part one. The
      merged table is the finalized join, row for row; a project with no
      developer of its number appears unpaired once per copy of it, and a
      project with such a developer never appears unpaired, so it gets no
      row with a null developer name from the join. */
  lemma ProjectsJoinCounts(projects: seq<Project>, developers: seq<Developer>, p: Project)
    ensures MergeProjectsDevelopers(projects, developers) == Map(Finalize, ProjectsJoin(projects, developers))
    ensures (forall d :: d in developers ==> d.developerNumber != p.developerNumber) ==>
      multiset(ProjectsJoin(projects, developers))[(p, None)] == multiset(projects)[p]
    ensures (exists d :: d in developers && d.developerNumber == p.developerNumber) ==>
      (p, None) !in ProjectsJoin(projects, developers)
  {
    if forall d :: d in developers ==> d.developerNumber != p.developerNumber {
      UnpairedCount(projects, developers, (p: Project) => p.developerNumber, (d: Developer) => d.developerNumber, p);
    }
  }

  /** Part two: a project appears with a developer of its number once per
      pair of copies of the two. */
  lemma ProjectsPairedCount(projects: seq<Project>, developers: seq<Developer>, p: Project, d: Developer)
    requires d.developerNumber == p.developerNumber
    ensures multiset(ProjectsJoin(projects, developers))[(p, Some(d))] == multiset(projects)[p] * multiset(developers)[d]
  {
    PairedCount(projects, developers, (p: Project) => p.developerNumber, (d: Developer) => d.developerNumber, p, d);
  }

  /** `merge_transactions_projects`: every transaction appears, paired
      with each project row of equal project number, or unpaired (once per
      copy) when there is none. */
  function MergeTransactionsProjects(txns: seq<Txn>, pds: seq<ProjectDev>): (r: seq<(Txn, Option<ProjectDev>)>)
    ensures |r| >= |txns|
    ensures forall t :: t in txns ==> exists pair :: pair in r && pair.0 == t
    ensures forall pair :: pair in r ==> pair.0 in txns
    ensures forall pair :: pair in r && pair.1.Some? ==> pair.1.value in pds && pair.1.value.projectNumber == pair.0.projectNumber
    ensures forall t, q :: t in txns && q in pds && q.projectNumber == t.projectNumber ==> (t, Some(q)) in r
    ensures forall pair :: pair in r && pair.1.None? ==> forall q :: q in pds ==> q.projectNumber != pair.0.projectNumber
  {
    LeftJoin(txns, pds, (t: Txn) => t.projectNumber, (q: ProjectDev) => q.projectNumber)
  }

  /** The multiplicities of `merge_transactions_projects`, part one: a
      transaction with no project row of its number appears unpaired once
      per copy of it. */
  lemma MergeUnpairedCount(txns: seq<Txn>, pds: seq<ProjectDev>, t: Txn)
    requires forall q :: q in pds ==> q.projectNumber != t.projectNumber
    ensures multiset(MergeTransactionsProjects(txns, pds))[(t, None)] == multiset(txns)[t]
  {
    UnpairedCount(txns, pds, (t: Txn) => t.projectNumber, (q: ProjectDev) => q.projectNumber, t);
  }

  /** Part two: a transaction appears with a project row of its number
      once per pair of copies of the two. */
  lemma MergePairedCount(txns: seq<Txn>, pds: seq<ProjectDev>, t: Txn, q: ProjectDev)
    requires q.projectNumber == t.projectNumber
    ensures multiset(MergeTransactionsProjects(txns, pds))[(t, Some(q))] == multiset(txns)[t] * multiset(pds)[q]
  {
    PairedCount(txns, pds, (t: Txn) => t.projectNumber, (q: ProjectDev) => q.projectNumber, t, q);
  }

  // ---------------------------------------------------------------------
  // Final selection

  function ToCleaned(pair: (Txn, Option<ProjectDev>)): CleanedTxn
  {
    var t := pair.0;
    var q := pair.1;
    CleanedTxn(t.instanceDate, t.transactionId, t.regType, t.propType, t.propTypeId,
               t.areaId, t.areaName, t.projectNumber, t.projectName, t.rooms,
               t.hasParking, t.procedureArea, t.meterSalePrice, t.actualWorth,
               if q.Some? then q.value.developerName else None,
               if q.Some? then q.value.projectStart else None,
               if q.Some? then q.value.projectEnd else None,
               if q.Some? then q.value.completionDate else None,
               if q.Some? then q.value.status else None,
               if q.Some? then q.value.percentCompleted else None)
  }

  /** The projection keeps the transaction's own columns. */
  predicate FromTxn(c: CleanedTxn, t: Txn)
  {
    c.instanceDate == t.instanceDate && c.transactionId == t.transactionId &&
    c.regType == t.regType && c.propType == t.propType && c.propTypeId == t.propTypeId &&
    c.areaId == t.areaId && c.areaName == t.areaName && c.projectNumber == t.projectNumber &&
    c.projectName == t.projectName && c.rooms == t.rooms && c.hasParking == t.hasParking &&
    c.procedureArea == t.procedureArea && c.meterSalePrice == t.meterSalePrice &&
    c.actualWorth == t.actualWorth
  }

  /** `select_columns_from_merged`: project every merged row, then drop
      the rows without a project number. Equivalently, the projection of
      exactly the merged rows whose transaction names a project, in
      order. */
  function SelectColumnsFromMerged(merged: seq<(Txn, Option<ProjectDev>)>): (r: seq<CleanedTxn>)
    ensures r == Map(ToCleaned, Filter((pair: (Txn, Option<ProjectDev>)) => pair.0.projectNumber.Some?, merged))
    ensures forall c :: c in r ==> c.projectNumber.Some?
    ensures forall c :: c in r ==> exists pair :: pair in merged && FromTxn(c, pair.0)
  {
    var keep := (pair: (Txn, Option<ProjectDev>)) => pair.0.projectNumber.Some?;
    FilterMap((c: CleanedTxn) => c.projectNumber.Some?, ToCleaned, keep, merged);
    var kept := Filter(keep, merged);
    var r := Map(ToCleaned, kept);
    forall c | c in r ensures exists pair :: pair in merged && FromTxn(c, pair.0) {
      var i :| 0 <= i < |r| && r[i] == c;
      assert kept[i] in kept;
    }
    Filter((c: CleanedTxn) => c.projectNumber.Some?, Map(ToCleaned, merged))
  }
}
