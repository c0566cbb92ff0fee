# Dubai rent-contract and sales-transaction cleaners, modelled in Dafny

This project models the two batch cleaners of the repository:

- `RentContractsDataCleaner` (src/rent_contracts_cleaning.py) is the rent-contracts cleaner.
- `TransactionsDataCleaner` (src/transactions_cleaning.py) is the sales-transactions cleaner.

A table is a sequence of immutable row records. A missing cell (pandas
NaN/NaT/None) is `Option.None`. A table's header is its ordered list of
column names.

Every pandas step becomes one of four things:

- a boolean-mask selection `df[mask]` is `Seqs.Filter`, with the mask as a predicate that spells out how pandas treats a null;
- a row-wise assignment is `Seqs.Map`;
- a dictionary lookup is a `map`;
- a left join is `Joins.LeftJoin`.

A column that pandas would not find (a `KeyError`) makes the pipeline
function return `None`.

Modules:

- `Wrappers`: `Option` and the parsed `Date`.
- `Seqs`: `Filter`, `Map`, the order-preserving subsequence relation, and fusion lemmas (two filters are one filter; a filter after a map is a map after a filter).
- `Strings`: prefix, suffix and substring tests, ASCII lower-casing, and Python's code-point order on `str`.
- `Columns`: header pruning by name, `drop(columns=...)` and `df[list]`.
- `RentRecords`, `RentRules`, `RentImputation`, `RentCleaning`: the rent cleaner. `RentRules` is the ordered table of eight `.loc` rewrites. `RentImputation` is the sub-type imputation.
- `Joins`: `merge(..., how="left")`.
- `TxnCleaning`, `TxnMerge`, `TxnPipeline`: the transactions cleaner.

Three inputs are parameters:

- the current year, because the source reads `datetime.now()`;
- the four amount percentiles, because the source computes them with `quantile`;
- the parsed dates, because the source uses `pd.to_datetime(..., errors="coerce")` (unparseable dates are `None`).

In `impute_property_sub_type`, rent rows are grouped by (project, sub-type)
for the min/max area statistics. pandas `groupby` drops null keys and sorts
the groups. So the "first matching group" the source returns is the one
whose sub-type is least in Python's string order. `RentImputation` states
it that way.

The rent cleaner has a class-level method that is never called:
`impute_property_subtype_general` (declared without `self`, and no code
calls it). Its body returns at line 199, so lines 199-269 cannot run
either. That code holds:

- the rent area bounds;
- the sub-type lower-casing and renaming;
- the sub-type id remap;
- the tenant-column drop.

These steps read as part of the rent pipeline, but none of them is
executed. The model follows the code that runs, so rent outputs carry no
area bound. `RentCleaning.SettledRowKept` states this: its precondition
says nothing about the area.

The rent reclassification is idempotent on its own
(`RentRules.ReclassificationIdempotent`), but only at that stage.
Imputation runs after the rules and can give a Flat the sub-type
"Penthouse", which the last rule would rewrite again. So the final rent
rows need not be settled under the rules; `RentCleaning.ImputationCanUnsettle`
exhibits two such rows.

## Model

| member | source | states |
|---|---|---|
| RentCleaning.InDateWindow | src/rent_contracts_cleaning.py:28-32 | a start date is kept iff it is non-null and its year is one of the current year and the three before it |
| RentCleaning.FilteringRentContracts | src/rent_contracts_cleaning.py:22-32 | the result is an order-preserving subsequence of the input; a row is in it iff it is an input row whose start date is non-null with year in [cy-3, cy]; such a row keeps all its copies and any other row keeps none |
| Columns.RemovingArabicCols | src/rent_contracts_cleaning.py:34-37 | the header keeps, in order, exactly the names not ending in "_ar" |
| Columns.RemovingAmenitiesColumns | src/rent_contracts_cleaning.py:290-295 | the header keeps, in order, exactly the names not containing "nearest" anywhere |
| Columns.RentPruningExact | src/rent_contracts_cleaning.py:36-37 | the two rent prunings together are one selection of the names that are neither Arabic nor amenity columns |
| Columns.DropColumns | src/rent_contracts_cleaning.py:44-54 | `drop(columns=names)` succeeds iff every name is present; then it keeps, in order, exactly the other names |
| RentCleaning.RowFilters | src/rent_contracts_cleaning.py:39-73 | the five filter stages in sequence equal one selection: usage "Residential", no_of_prop 1, line_number 1, business type Unit/Villa, property type one of the six, and sub-type not excluded (a null sub-type passes) |
| RentCleaning.RowFiltersExact | src/rent_contracts_cleaning.py:39-73 | the composition of the five stage functions equals the single conjunctive selection |
| RentRules.RuleFrame | src/rent_contracts_cleaning.py:75-131 | a rule changes only the columns it names; a rule whose guard fails changes nothing |
| RentRules.TableColumns | src/rent_contracts_cleaning.py:75-131 | the exact set of columns each of the eight rewrites writes, in source order |
| RentRules.TableWritesWithinEnums | src/rent_contracts_cleaning.py:75-131 | every rewrite writes business type Unit/Villa, property type Flat/Villa/Penthouse, and no excluded sub-type |
| RentRules.ApplyRulesPreservesEnums | src/rent_contracts_cleaning.py:75-131 | any rule sequence with such writes keeps the business/property enumerations and the sub-type exclusion |
| RentRules.ReclassificationPreservesEnums | src/rent_contracts_cleaning.py:75-131 | the eight rules keep both enumerations and never introduce an excluded sub-type |
| RentRules.NoMatchNoChange | src/rent_contracts_cleaning.py:75-131 | when no guard matches, the rule sequence is the identity |
| RentRules.ReclassifiedIsSettled | src/rent_contracts_cleaning.py:75-131 | after one pass of the eight rules no guard matches any more |
| RentRules.ReclassificationIdempotent | src/rent_contracts_cleaning.py:75-131 | running the eight rules a second time on their own output changes nothing |
| RentRules.UnitVillaRule | src/rent_contracts_cleaning.py:77-81 | rule one turns business Unit with property type Villa into Flat/842 and changes nothing else |
| RentRules.UnitVillaOutcome | src/rent_contracts_cleaning.py:77-131 | a Unit/Villa row ends as Flat/842 unless its sub-type is Penthouse, in which case it ends as Penthouse/352361946 with sub-type id 621 |
| RentRules.StudioUnderVillaOutcome | src/rent_contracts_cleaning.py:84-95 | business Villa, type Flat, sub-type Studio ends as Unit/2/Flat/842, because rule two first rewrites it to Villa, which rule three then catches |
| RentRules.PenthouseOutcome | src/rent_contracts_cleaning.py:126-131 | a Flat with sub-type Penthouse becomes Penthouse/352361946 with sub-type id 621 |
| RentRules.TableOrderIsRowOrder | src/rent_contracts_cleaning.py:75-131 | applying the rules one column-wide `.loc` at a time over the table equals applying the whole sequence row by row |
| RentRules.UpdatingPropertyTypesStage | src/rent_contracts_cleaning.py:75-131 | the row count is unchanged, only the classification columns change, and both enumerations and the sub-type exclusion are preserved |
| RentImputation.GroupAreasMembers | src/rent_contracts_cleaning.py:135-140 | a group's observed areas are exactly the non-null areas of the rows with that project and sub-type |
| RentImputation.MinOf | src/rent_contracts_cleaning.py:138 | the group minimum is one of the areas and is at most each of them |
| RentImputation.MaxOf | src/rent_contracts_cleaning.py:138 | the group maximum is one of the areas and is at least each of them |
| RentImputation.RangeContainsIff | src/rent_contracts_cleaning.py:153-156 | an area is inside a group's [min, max] iff the group observed an area at or below it and one at or above it |
| RentImputation.ProjectSubTypes | src/rent_contracts_cleaning.py:149-152 | the candidate sub-types are exactly those observed with a non-null value for the project |
| RentImputation.LeastMatch | src/rent_contracts_cleaning.py:153-156 | the scan finds a sub-type iff some candidate's range holds the area, and it finds the least such one in string order |
| RentImputation.LeastGroup | src/rent_contracts_cleaning.py:149-156 | the chosen group holds the area, and no group of the project that holds it sorts before it |
| RentImputation.CandidatesCover | src/rent_contracts_cleaning.py:149-152 | every group whose range holds the area is among the project's candidates |
| RentImputation.ImputeSubType | src/rent_contracts_cleaning.py:143-158 | a known sub-type is returned unchanged; a null one becomes a value iff some group of the row's project holds its area, and then it is the least such group |
| RentImputation.ImputeRow | src/rent_contracts_cleaning.py:143-172 | only the sub-type label changes; a known sub-type is kept; a null one takes the least matching group; with no match it becomes "Studio" exactly when the SANDHURST HOUSE rule holds (Flat, area in [47, 48]), and otherwise stays null |
| RentImputation.ImputedWasObserved | src/rent_contracts_cleaning.py:143-172 | an imputed sub-type was observed on a row of the same project, or is the SANDHURST "Studio" |
| RentImputation.ImputePropertySubType | src/rent_contracts_cleaning.py:160-172 | the stage maps every row through the project pass and then the SANDHURST pass, with statistics taken from the table as it was before the stage |
| RentImputation.ImputationExample | src/rent_contracts_cleaning.py:133-172 | with a Studio of area 40 and a 1-bed of area 70 in project P, a null-sub-type row of P with area 40 becomes Studio, and one with area 55 stays null |
| RentCleaning.AmountOutliersRemoval | src/rent_contracts_cleaning.py:271-288 | given the percentile bounds, a row is kept iff both amounts are non-null and positive and both lie in their closed bands; the order is preserved |
| RentCleaning.MasterProjectRows | src/rent_contracts_cleaning.py:297-301 | the master-project output holds exactly the rows with a non-null project number, in order, each with all its copies |
| RentCleaning.ImputeRowKeepsEligible | src/rent_contracts_cleaning.py:133-172 | imputation against a table of eligible rows keeps an eligible row eligible; no excluded sub-type is imputed |
| RentCleaning.RewritesKeepEligible | src/rent_contracts_cleaning.py:75-172 | reclassification followed by imputation keeps every row inside the date window, the row filters, and both enumerations |
| RentCleaning.Rows | src/rent_contracts_cleaning.py:307-317 | every output row is in the date window, passes every row filter, has enumerated types, has no excluded sub-type, and has positive amounts inside the bands |
| RentCleaning.FiltersSelectEligible | src/rent_contracts_cleaning.py:22-73 | the date window followed by the row filters selects exactly the eligible rows, in order and with their copies |
| RentCleaning.StagesRewrite | src/rent_contracts_cleaning.py:75-172 | row by row, reclassification then imputation keep every column outside the classification and yield the rule table's classification; where the rules leave the sub-type known it is kept, and where they leave it null the row is imputed against the statistics of the whole reclassified table |
| RentCleaning.BandOverRewrites | src/rent_contracts_cleaning.py:271-288 | over rows rewritten pairwise, the amount band keeps only rewrites of source rows, and keeps a rewrite of every source row with positive in-band amounts |
| RentCleaning.RowsAligned | src/rent_contracts_cleaning.py:307-317 | the stage outputs before the amount band are aligned one to one with the eligible input rows, each the rewrite of its partner with imputation over the reclassified eligible rows, and the final rows are the band applied to them; so order and copies are fixed |
| RentCleaning.RowsProvenance | src/rent_contracts_cleaning.py:307-317 | every output row is a rewrite of an eligible input row, and every eligible input row with positive amounts in both bands has a rewrite in the output |
| RentCleaning.ImputationCanUnsettle | src/rent_contracts_cleaning.py:126-172 | a Flat/Penthouse row and a Flat row with null sub-type, same project and area: the second leaves imputation as Flat/"Penthouse", on which rule 8 would fire again |
| RentCleaning.SettledRowKept | src/rent_contracts_cleaning.py:307-317 | an eligible input row that the rules leave alone, with a known sub-type and in-band amounts, is kept whatever its area |
| RentCleaning.SettledRowUnchanged | src/rent_contracts_cleaning.py:75-172 | such a row passes reclassification and imputation unchanged |
| RentCleaning.Header | src/rent_contracts_cleaning.py:34-54 | the output header exists iff the three columns dropped by name are present; it then holds, in order, exactly the names that are not Arabic, not amenity columns, and not dropped |
| RentCleaning.RunCleaning | src/rent_contracts_cleaning.py:307-319 | the pipeline aborts exactly when a column dropped by name is missing; otherwise every output row is clean and is a rewrite of an eligible input row, every eligible input row with in-band amounts has a rewrite in the output, the output is the amount band over the one-to-one rewrites of the eligible rows (imputation included), and the master output is the selection of the rows with a project number |
| Joins.LeftJoin | src/transactions_cleaning.py:137 | no left row is lost or invented; paired rows have equal keys; every equal-key pair appears; an unpaired left row has no partner |
| Joins.LeftJoinUniqueKeys | src/transactions_cleaning.py:137 | with distinct right keys, the join has one row per left row, in left order |
| Joins.AtMostOnePartner | src/transactions_cleaning.py:137 | with distinct right keys, a left row has at most one partner |
| Joins.UnpairedCount | src/transactions_cleaning.py:137 | a left row with no partner occurs unpaired exactly as often as it occurs on the left |
| Joins.PairedCount | src/transactions_cleaning.py:137 | a left row and a right row with equal keys occur paired exactly (left count × right count) times |
| TxnCleaning.YearWindowsCompared | src/transactions_cleaning.py:28 | the transaction date window contains the rent window; it differs from it exactly by the future-dated rows (year above the current year), which it keeps; it only grows as the current year decreases |
| TxnCleaning.FilteringByYear | src/transactions_cleaning.py:26-29 | the kept rows are an order-preserving subsequence; a row is kept iff its date is non-null with year ≥ cy-3, with all its copies |
| Columns.PruneTransactionColumns | src/transactions_cleaning.py:31-39 | the header keeps, in order, exactly the names that do not end in "_ar", do not start with "nearest", and do not contain "parties" |
| Columns.TransactionPruningExact | src/transactions_cleaning.py:31-39 | the three prunings are one selection by the conjunction of the name tests |
| Columns.AmenityTestsDiffer | src/transactions_cleaning.py:36 | "dist_nearest_metro" counts as an amenity column for rent but not for transactions, where the test is a prefix test |
| Columns.SelectThenDrop | src/transactions_cleaning.py:42-81 | after a successful `df[list]`, dropping names from the list never aborts and leaves the list without them, and any selection of listed names succeeds with exactly those names |
| TxnCleaning.SalesFilters | src/transactions_cleaning.py:52-66 | the four filters equal one selection: group "Sales", procedure Sell or Sell - Pre registration, usage Residential, type Villa or Unit |
| TxnCleaning.Reclassify | src/transactions_cleaning.py:68-78 | only the four type columns change; a townhouse project becomes Villa/4; otherwise the type is kept; a Villa with sub-type Flat gets sub-type Villa/4; Villa/Unit stays Villa/Unit |
| TxnCleaning.ReclassifyStage | src/transactions_cleaning.py:68-78 | rule one over all rows and then rule two over all rows equals both rules applied row by row, position by position; a row is in the output iff it is the reclassification of an input row |
| TxnCleaning.ReclassifyIdempotent | src/transactions_cleaning.py:68-78 | rerunning both rules on their own output changes nothing |
| TxnCleaning.NullNameNeverTownhouse | src/transactions_cleaning.py:69-72 | a null project name never triggers the townhouse rule |
| TxnCleaning.TownhouseExample | src/transactions_cleaning.py:70 | "ABC Townhouses" matches the case-insensitive townhouse test |
| TxnCleaning.AreaBoundsAndTypes | src/transactions_cleaning.py:83-97 | a row inside its type's bounds is a Villa or Unit with area in [21, 10062]; a Villa or Unit with area in [47, 2988] is inside its bounds before and after reclassification |
| TxnCleaning.TownhouseUnitDropped | src/transactions_cleaning.py:68-99 | a Unit of area 30 in project "ABC Townhouses" is inside the Unit bounds, but its reclassification to Villa falls below the Villa bound, so it is dropped |
| TxnCleaning.AreaOutlierRemoval | src/transactions_cleaning.py:99 | the kept rows are exactly the rows satisfying the area predicate, in order, each with all its copies |
| TxnCleaning.DropNullLocationObservations | src/transactions_cleaning.py:101-108 | a row is dropped iff rooms, building name, project number and master project are all null; a kept row keeps all its copies, in order |
| TxnPipeline.ReclassifyKeepsSold | src/transactions_cleaning.py:68-78 | reclassification keeps a recent residential Villa/Unit sale one |
| TxnPipeline.Transactions | src/transactions_cleaning.py:164-167 | a row reaches the joins iff it is the reclassification of a recent residential Villa/Unit sale of the input and, after reclassification, lies inside its type's area bounds and has a location; exactly: the recent sales, in input order and with their copies, are reclassified one by one and then those in bounds with a location are kept |
| TxnPipeline.StagesMembers | src/transactions_cleaning.py:25-108 | the same membership statement for the composition of the row stages |
| TxnPipeline.StagesExact | src/transactions_cleaning.py:25-108 | the composition of the row stages is one selection of recent sales, one reclassification of each, and one selection by area bounds and location |
| TxnPipeline.SettledTxnKept | src/transactions_cleaning.py:164-167 | conversely, such an input row that reclassification leaves alone reaches the joins |
| TxnMerge.ProjectNameMapFirst | src/transactions_cleaning.py:110-116 | the lookup's keys are exactly the project numbers that occur, each mapped to the name on the first row that carries it |
| TxnMerge.FirstRowExists | src/transactions_cleaning.py:112-114 | a project number that occurs has a first row |
| TxnMerge.MapProjectNames | src/transactions_cleaning.py:110-118 | each project's name is overwritten with the name on the first transaction of its number, or null when none carries it (always null for a project with a null number); nothing else changes |
| TxnMerge.WithColumn | src/transactions_cleaning.py:118 | assigning `project_name_en` makes it a column and adds no other |
| TxnMerge.MergeProjectsDevelopers | src/transactions_cleaning.py:135-145 | every project appears with its own columns; no row is invented; a developer name comes from a developer with the project's developer number; every matching developer's name is filled in on a row of its project; a project with no matching developer appears with a null developer name |
| TxnMerge.DeveloperNamesFilled | src/transactions_cleaning.py:135-145 | the last two facts, stated over the join followed by the column selection |
| TxnMerge.ProjectsJoinCounts | src/transactions_cleaning.py:135-145 | the merged table is the finalized join row for row; a project with no developer of its number appears unpaired once per copy of it; a project with such a developer never appears unpaired |
| TxnMerge.ProjectsPairedCount | src/transactions_cleaning.py:135-137 | a project and a developer of its number occur paired once per pair of copies (project count × developer count) |
| TxnMerge.MergeProjectsDevelopersUnique | src/transactions_cleaning.py:135-137 | with unique developer numbers, the merge is one row per project, in order |
| TxnMerge.MergeTransactionsProjects | src/transactions_cleaning.py:148-150 | every transaction appears; pairs match on project number; every matching pair is present; an unmatched transaction has no partner |
| TxnMerge.MergeUnpairedCount | src/transactions_cleaning.py:148-150 | a transaction with no project row of its number occurs unpaired once per copy of it |
| TxnMerge.MergePairedCount | src/transactions_cleaning.py:148-150 | a transaction and a project row of its number occur paired once per pair of copies |
| TxnMerge.SelectColumnsFromMerged | src/transactions_cleaning.py:153-161 | dropping null project numbers after the projection equals projecting exactly the merged rows whose transaction has a project number; each output row carries its transaction's own columns |
| TxnPipeline.CleanedFromKept | src/transactions_cleaning.py:153-161 | every cleaned merged row names a project and carries the columns of a kept transaction |
| TxnPipeline.RunCleaning | src/transactions_cleaning.py:164-174 | the pipeline aborts exactly when a selected column is missing (transactions after pruning, projects after the name column is added, developers); otherwise `transactions_3y` is the recent rows, each with all its copies, `projects_developers` is the renamed projects joined with the developers, the automatic merge is the kept transactions joined with `projects_developers`, the cleaned merge is the selection from that merge, and every cleaned row names a project and comes from a kept transaction |

## Left out

- Reading and writing CSV files, building paths and `os.makedirs` are left out because they are file I/O. The `to_csv` calls become the fields of the output records.
- src/download_data.py is not part of this model. It downloads the raw files over HTTP.
- Date parsing (`pd.to_datetime` with `errors="coerce"`) is left out because it is library behaviour. Dates arrive already parsed, with `None` for an unparseable value.
- `datetime.now()` is replaced by the `currentYear` parameter.
- The quantile computation (src/rent_contracts_cleaning.py:279-280) uses pandas' floating-point interpolation, so it is left out. The four bounds are the `AmountBands` parameter. Amounts are `real`, with no floating-point rounding.
- The rent cleaner's unreachable code (src/rent_contracts_cleaning.py:183-269) is not modelled because it never runs. No rent-output area bound, sub-type renaming, id remap or tenant-column drop is claimed.
- The `area_subtype_stats` grouping (src/rent_contracts_cleaning.py:175-180) runs but its result is never used, so it is not modelled. When the `area_name_en` column is missing, this grouping makes pandas raise `KeyError`. The model does not abort there.
- Column reordering lists and the `_x`/`_y` suffixes of the joins are left out. Rows are records, so order and suffixes only matter where a field is chosen. The cleaned merge takes the transaction's own area and project name (the `_x` columns).
- The townhouse test lower-cases ASCII letters only. Python's full Unicode case folding is not modelled.
- TxnPipeline.RunCleaning: when no transaction row reaches `area_outlier_removal`, the model gives empty tables. What pandas' `apply(axis=1)` on an empty frame returns is library behaviour, and an abort there is not modelled.
- TxnPipeline.RunCleaning does not model that `transactions_3y.csv` is already written when a later step aborts. The model returns `None` for the whole run.
- RentCleaning.RunCleaning checks only the three columns dropped by name. The model's rows always carry the columns the stages merely read (dates, type labels, project, area, amounts). So a missing read column, which makes pandas raise, is not modelled.
- The numeric type ids are `int`. pandas stores some of them as floats (2.0, 4.0, 842.0 in the rewrites). The model does not distinguish 842 from 842.0.
- Rows carry only the columns the stages read or the outputs keep. Other columns pass through the stages untouched and are left out.
