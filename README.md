# TrainDB incremental query core, modelled in Dafny

TrainDB can answer an aggregate query incrementally over a partitioned table.
The first request plans one query per partition, scans partition 0 and returns
a merged answer. Each later `rows` request scans (or, on the parallel path,
collects) one more partition, appends its rows to the accumulated rows
(`totalRes`), and merges all of them again with the aggregate helpers. This
project models that engine and the helpers around it:

- `result_cursor.dfy` (module `ResultCursor`): `TrainDBResultFromListData`
  as a class. It is a forward-only cursor over an optional list of rows that
  can be rewound. Its getters are functions and `next`/`rewind` are methods
  on the `cursor` field.
- `string_order.dfy` (module `StringOrder`): `compareStrings`, the comparator
  of string MIN and MAX. The lemmas show that its sign is lexicographic order.
- `merge.dfy` (module `Merge`): `executeIncrementalCount`, `Sum`, `Avg`,
  `Min` and `Max`, and the loop that builds the merged row with one helper
  call per aggregate. Each helper is a method that rewinds the cursor and
  loops while `next()` returns true. Each is proved equal to a specification
  function: a left fold over all rows that stops at the first exception.
- `merge_laws.dfy` (module `MergeLaws`): what those folds mean.
  - Totals add up across partitions.
  - Numeric MIN/MAX is the true extreme when no cell is 0.
  - String MIN/MAX is the least (greatest) string.
  - The parallel path's per-aggregate catch changes nothing when nothing throws.
  - A merged row has one value per aggregate.
  - Small worked cases are proved as lemmas.
- `plan.dfy` (module `Plan`): the planning half of `executeIncremental`.
  - The select list becomes a per-partition projection.
  - The FROM name is split into schema and table by a `StringTokenizer` on `[`, `.` and `]`.
  - The dialect is `url.split(":")[1]`.
  - The partition list is looked up in the schemas' partition maps.
  - One SQL string is built per partition, per dialect.
- `coordinator.dfy` (module `Coordinator`): the `TaskCoordinator` fields as a
  class. The three entry points `executeIncremental`, `executeIncrementalNext`
  and `executeIncrementalNextParallel` are methods, plus the command dispatch
  in front of them. Each method is proved equal to a step function (`Start`,
  `Next`, `NextParallel`, `Dispatch`) on a snapshot of the fields.
- `coordinator_laws.dfy` (module `CoordinatorLaws`): the step functions as a
  state machine.
  - Each step preserves the validity invariant.
  - The conditions under which the index advances are stated as exact (if-and-only-if) characterisations.
  - A sequential or parallel run accumulates every partition's rows exactly once, in plan order.
  - The parallel scale never changes.
- `schema_manager.dfy` (module `SchemaNames`): `SchemaManager` as a class.
  - It has three name-to-list multimaps, filled by `loadDataSource`.
  - `toFullyQualifiedTableName` resolves 1-, 2- and 3-part names against the
    maps, with if-and-only-if characterisations of success.
  - The singleton holder is its own class.
- `catalog.dfy` (module `Catalog`): three helpers of `JDOCatalogContext`.
  - The JDOQL filter builder `setFilterPatterns`.
  - The in-place column-name de-duplication of `trainModel`.
  - The join-table candidate selection of `getJoinSynopses`: the `retainAll`
    intersection and the MJoin size filter.
- `common.dfy` (module `Common`): `Option`, `Result` and the exceptions, and
  the `java.lang.String` operations the core needs.

Inputs the core takes from code that is not modelled become parameters:
- Calcite's parser: `parse: string -> Option<Statement>`.
- The JDBC scan of one partition query: `scan`.
- The rounded floating average of the scaled totals: `average`, given the
  integer totals and the factor's scale.
- The parallel path's double factor: `ratio`.
- A data source's metadata: `describe`.
- MJoin queries: `idsOf` and `joinCount`.

The step functions take the merge as a parameter of type `Merger`, so the
state-machine laws hold for any merge. The class passes `MergeWith(average)`,
the modelled merge loop.

Several behaviours of the code are modelled as written:
- A new statement does not clear the futures list; futures left from an
  earlier parallel statement stay at its head.
- The reset of the plan, rows, header and aggregate calls happens before
  planning. A statement that then fails to plan leaves an empty plan.
- The approximate flag is set before parsing, so it changes even when the
  parse fails.
- On the sequential paths the factor is integer division
  (`totalPartitionCnt / (saveQueryIdx + 1)` on `int`s), so `(int)(total *
  factor)` is exact.
- On the parallel path the factor is `N / (N + 1)` for a plan of N
  partitions, because the index already equals N. It never changes
  afterwards, because that path never moves the index.
- When a merge helper throws `TrainDBException` on the sequential paths, it
  is printed and swallowed. The call returns the labels with no rows and does
  not advance the index. The next request scans the same partition again and
  appends its rows a second time.
- On the parallel path each aggregate has its own catch. An aggregate that
  throws contributes nothing, and AVG's extra `j++` is then skipped.
- `compareStrings` returns the character or length difference, not -1/0/1.
  Its sign is still exactly lexicographic order.
- Numeric MIN/MAX start from 0 and treat 0 as "unset": MIN of 0 and 5 is 5.
- The column type is taken from the first row's value. A null there is
  `JAVA_OBJECT`, which every merge helper rejects with `TrainDBException`.
- The FROM lookup compares schema names with `equals(schemaName)`. An
  unqualified name (schemaName null) therefore never finds a partition list,
  and the statement is rejected as "partitioned table only".
- Loading the same data source twice (`refreshDataSource`) gives its name
  and its schemas' names two candidates each, so names through them no
  longer resolve.
- `TrainDBListResultSet`, the class the merge helpers read, is not part of
  this model. The helpers read the rows through the modelled
  `TrainDBResultFromListData` cursor, which has the same list-backed shape:
  `rewind`, `next`, `getValue`, `getColumnType`, `getColumnCount` and
  `getRowCount`.
- The merge loop condition re-reads `res.getColumnCount()` on every pass.
  The rows do not change during the loop, so the model reads it once.

## Model

| member | source | states |
|---|---|---|
| ResultCursor.Cell | traindb-core/src/main/java/traindb/engine/TrainDBResultFromListData.java:97-103 | reading a cell succeeds exactly when the column is inside the row, yields that cell, and otherwise throws IndexOutOfBounds |
| ResultCursor.ResultFromListData.constructor | traindb-core/src/main/java/traindb/engine/TrainDBResultFromListData.java:26-34 | the result is stored, the cursor starts at -1, and the header is kept only for a non-null result |
| ResultCursor.ResultFromListData.Empty | traindb-core/src/main/java/traindb/engine/TrainDBResultFromListData.java:36-42 | the empty result is empty, with no rows and no columns |
| ResultCursor.ResultFromListData.GetColumnCount | traindb-core/src/main/java/traindb/engine/TrainDBResultFromListData.java:49-58 | 0 without rows (also for an absent result), otherwise the size of the first row |
| ResultCursor.ResultFromListData.GetColumnName | traindb-core/src/main/java/traindb/engine/TrainDBResultFromListData.java:61-67 | succeeds exactly for a present result and an index inside the header, and returns that header entry |
| ResultCursor.ResultFromListData.GetColumnType | traindb-core/src/main/java/traindb/engine/TrainDBResultFromListData.java:69-82 | the type of the first row's cell (String varchar, Integer int, else JAVA_OBJECT); throws "empty result" without rows and IndexOutOfBounds outside the first row |
| ResultCursor.ResultFromListData.RowCount | traindb-core/src/main/java/traindb/engine/TrainDBResultFromListData.java:88-94 | 0 for an absent result, the list size otherwise |
| ResultCursor.ResultFromListData.GetValue | traindb-core/src/main/java/traindb/engine/TrainDBResultFromListData.java:97-103 | the current row's cell; throws "empty result" for an absent result; otherwise behaves as a list lookup in the current row |
| ResultCursor.ResultFromListData.WasNull | traindb-core/src/main/java/traindb/engine/TrainDBResultFromListData.java:105-107 | always true, because lastValueRead is never assigned |
| ResultCursor.ResultFromListData.Next | traindb-core/src/main/java/traindb/engine/TrainDBResultFromListData.java:109-128 | moves by one and returns true exactly when the result is present and the cursor is before the last row (which is what hasNext reported); otherwise returns false and stays; always false for an absent result |
| ResultCursor.ResultFromListData.Rewind | traindb-core/src/main/java/traindb/engine/TrainDBResultFromListData.java:130-132 | the cursor goes back to -1 |
| ResultCursor.ReplayRows | traindb-core/src/main/java/traindb/engine/TrainDBResultFromListData.java:109-132 | after rewind, next() returns true exactly rowCount times, visiting every row once in order, and stops on the last row with nothing further |
| StringOrder.CompareStrings | traindb-core/src/main/java/traindb/prepare/TrainDBPrepareImpl.java:1574-1592 | the comparison is 0 exactly when the strings are equal |
| StringOrder.Antisymmetric | traindb-core/src/main/java/traindb/prepare/TrainDBPrepareImpl.java:1574-1592 | swapping the arguments negates the result |
| StringOrder.PrefixComparesByLength | traindb-core/src/main/java/traindb/prepare/TrainDBPrepareImpl.java:1583-1591 | when one string is a prefix of the other the result is the length difference |
| StringOrder.NegativeIffLexLess | traindb-core/src/main/java/traindb/prepare/TrainDBPrepareImpl.java:1574-1592 | the result is negative exactly when the first string is lexicographically smaller (independent definition) |
| StringOrder.Transitive | traindb-core/src/main/java/traindb/prepare/TrainDBPrepareImpl.java:1574-1592 | "less than" under the comparator is transitive |
| StringOrder.AtMostTransitive | traindb-core/src/main/java/traindb/prepare/TrainDBPrepareImpl.java:1574-1592 | "at most" under the comparator is transitive |
| StringOrder.AtMostTotal | traindb-core/src/main/java/traindb/prepare/TrainDBPrepareImpl.java:1574-1592 | any two strings are comparable, so MIN/MAX have a well-defined answer |
| Merge.Labels | traindb-core/src/main/java/traindb/prepare/TrainDBPrepareImpl.java:1076-1080 | one header label per recorded aggregate call, in order, AVG counted once |
| Merge.FoldFailureSticks | traindb-core/src/main/java/traindb/prepare/TrainDBPrepareImpl.java:1309-1326 | once a row throws inside a helper's loop, the helper's outcome is that exception whatever rows follow |
| Merge.IncrementalCount | traindb-core/src/main/java/traindb/prepare/TrainDBPrepareImpl.java:1301-1328 | COUNT is the scaled total of the column over all accumulated rows; non-integer columns throw |
| Merge.IncrementalSum | traindb-core/src/main/java/traindb/prepare/TrainDBPrepareImpl.java:1330-1377 | integer SUM is the scaled total of the column over all accumulated rows; non-integer columns throw |
| Merge.IntegerTotal | traindb-core/src/main/java/traindb/prepare/TrainDBPrepareImpl.java:1339-1368 | the shared rewind/while(next) loop yields the scaled total, read type first, with the first failing cell's exception |
| Merge.IncrementalAvg | traindb-core/src/main/java/traindb/prepare/TrainDBPrepareImpl.java:1379-1454 | AVG reads the sum column and the count column after it over all rows, and yields the oracle's rounded quotient of the two totals under this request's factor, so the inexact parallel factor can change the result |
| Merge.TotalAt | traindb-core/src/main/java/traindb/prepare/TrainDBPrepareImpl.java:1316-1317 | one loop pass extends the running total by the current row |
| Merge.IntAt | traindb-core/src/main/java/traindb/prepare/TrainDBPrepareImpl.java:1316 | the (int) cast of the current cell: an Integer unboxes, a String fails the cast, null does not unbox |
| Merge.PairAt | traindb-core/src/main/java/traindb/prepare/TrainDBPrepareImpl.java:1401-1410 | one AVG pass extends both running totals by the current row |
| Merge.IntExtremeAt | traindb-core/src/main/java/traindb/prepare/TrainDBPrepareImpl.java:1475-1480 | one numeric MIN/MAX pass, with 0 as "unset" |
| Merge.StrExtremeAt | traindb-core/src/main/java/traindb/prepare/TrainDBPrepareImpl.java:1484-1489 | one string MIN/MAX pass: keep the first, replace only when strictly better under compareStrings |
| Merge.IncrementalMin | traindb-core/src/main/java/traindb/prepare/TrainDBPrepareImpl.java:1456-1513 | MIN over all accumulated rows as the specified fold, by the column type of the first row |
| Merge.IncrementalMax | traindb-core/src/main/java/traindb/prepare/TrainDBPrepareImpl.java:1515-1572 | MAX over all accumulated rows as the specified fold, by the column type of the first row |
| Merge.IncrementalExtreme | traindb-core/src/main/java/traindb/prepare/TrainDBPrepareImpl.java:1464-1512 | the shared MIN/MAX helper: integer fold, string fold, or "not supported" for any other type |
| Merge.IntExtremeLoop | traindb-core/src/main/java/traindb/prepare/TrainDBPrepareImpl.java:1466-1481 | the numeric loop leaves the fold of every row in intMin/intMax |
| Merge.StrExtremeLoop | traindb-core/src/main/java/traindb/prepare/TrainDBPrepareImpl.java:1466-1491 | the string loop leaves the fold of every row in stringMin/stringMax |
| Merge.MergeOne | traindb-core/src/main/java/traindb/prepare/TrainDBPrepareImpl.java:1090-1109 | the switch on the aggregate kind calls the matching helper |
| Merge.MergeAt | traindb-core/src/main/java/traindb/prepare/TrainDBPrepareImpl.java:1266-1291 | one loop pass: the aggregate's value is prepended to the rest of the row, a swallowed exception emits nothing, an escaping one aborts the row; the column advances |
| Merge.MergeRow | traindb-core/src/main/java/traindb/prepare/TrainDBPrepareImpl.java:1085-1112 | the merge loop yields the specified merged row: one helper per aggregate, AVG taking two columns |
| MergeLaws.TotalOfConcat | traindb-core/src/main/java/traindb/prepare/TrainDBPrepareImpl.java:1301-1328 | the total over the accumulated rows plus a new partition is the sum of the two totals, the first failure winning |
| MergeLaws.IntExtremeIsExtreme | traindb-core/src/main/java/traindb/prepare/TrainDBPrepareImpl.java:1456-1572 | without zeros in the column, numeric MIN (MAX) is a value of the column no greater (smaller) than any other |
| MergeLaws.PairFoldIsTotals | traindb-core/src/main/java/traindb/prepare/TrainDBPrepareImpl.java:1395-1411 | AVG's running pair exists exactly when the sum column and the count column both total, and is then the pair of those two totals |
| MergeLaws.FoldConcat | traindb-core/src/main/java/traindb/prepare/TrainDBPrepareImpl.java:1395-1434 | a helper's pass over the accumulated rows plus a new partition continues from the pass over the accumulated rows, the first failure winning |
| MergeLaws.ZeroIsUnset | traindb-core/src/main/java/traindb/prepare/TrainDBPrepareImpl.java:1475-1480 | for any rows, once numeric MIN or MAX holds 0 the rows before make no difference: the result is the pass over the remaining rows from the start |
| MergeLaws.LeadingZeroIsSkipped | traindb-core/src/main/java/traindb/prepare/TrainDBPrepareImpl.java:1534-1539 | for any rows whose first cell is 0, numeric MIN or MAX is that of the rows after it, so the next value overwrites the 0 whatever its sign |
| MergeLaws.MinTreatsZeroAsUnset | traindb-core/src/main/java/traindb/prepare/TrainDBPrepareImpl.java:1476-1480 | worked case of the 0-as-unset rule: MIN of 0 and 5 is 5 |
| MergeLaws.MaxTreatsZeroAsUnset | traindb-core/src/main/java/traindb/prepare/TrainDBPrepareImpl.java:1535-1539 | worked case of the 0-as-unset rule: MAX of 0 and -3 is -3 |
| MergeLaws.StrExtremeIsBest | traindb-core/src/main/java/traindb/prepare/TrainDBPrepareImpl.java:1456-1572 | on a string column, MIN (MAX) is a value of the column at most (at least) every other under the comparator |
| MergeLaws.CatchingAgreesWithoutFailures | traindb-core/src/main/java/traindb/prepare/TrainDBPrepareImpl.java:1263-1294 | when the sequential merge succeeds, the parallel path's per-aggregate catch gives the same row |
| MergeLaws.OneValuePerAggregate | traindb-core/src/main/java/traindb/prepare/TrainDBPrepareImpl.java:1085-1112 | for rows shaped like the projection, a successful merge has one value per aggregate, AVG consuming two columns |
| MergeLaws.ExactSumOfFourPartitions | traindb-core/src/main/java/traindb/prepare/TrainDBPrepareImpl.java:1330-1377 | exact SUM of partition sums 55, 155, 255, 355 is 820 |
| MergeLaws.ApproximateCountOfHalfTheData | traindb-core/src/main/java/traindb/prepare/TrainDBPrepareImpl.java:1301-1328 | approximate COUNT after two of four partitions (25 and 25) is 100 |
| MergeLaws.StringMinOfTwoPartitions | traindb-core/src/main/java/traindb/prepare/TrainDBPrepareImpl.java:1456-1513 | string MIN of "al" and "ann" is "al" |
| MergeLaws.StringMaxOfTwoPartitions | traindb-core/src/main/java/traindb/prepare/TrainDBPrepareImpl.java:1515-1572 | string MAX of "al" and "ann" is "ann" |
| MergeLaws.StringMinOfPrefix | traindb-core/src/main/java/traindb/prepare/TrainDBPrepareImpl.java:1456-1513 | the shorter of two strings sharing a prefix is the MIN |
| Plan.KindOf | traindb-core/src/main/java/traindb/prepare/TrainDBPrepareImpl.java:950-965 | an operator is taken as an aggregate only when it equals that aggregate's name ignoring case |
| Plan.KindOfIff | traindb-core/src/main/java/traindb/prepare/TrainDBPrepareImpl.java:950-965 | an operator denotes an aggregate exactly when it equals that aggregate's name ignoring case, in both directions |
| Plan.RewriteFailsIffSomeItemFails | traindb-core/src/main/java/traindb/prepare/TrainDBPrepareImpl.java:934-971 | the select loop throws exactly when some item throws on its own |
| Plan.RewriteSnocFault | traindb-core/src/main/java/traindb/prepare/TrainDBPrepareImpl.java:936-971 | one more item keeps the loop clean exactly when it was clean and the item rewrites |
| Plan.RewriteStopsAtFirstFailure | traindb-core/src/main/java/traindb/prepare/TrainDBPrepareImpl.java:936-971 | the exception is the first failing item's, and only the calls before it are recorded |
| Plan.RewriteShape | traindb-core/src/main/java/traindb/prepare/TrainDBPrepareImpl.java:934-971 | on success one aggregate is recorded per call item, and the column list is the items' projections separated by " ," |
| Plan.RewriteRecordsKinds | traindb-core/src/main/java/traindb/prepare/TrainDBPrepareImpl.java:950-964 | on success the recorded aggregate calls are exactly the kinds of the call items, in select-list order |
| Plan.AvgProjectsSumAndCount | traindb-core/src/main/java/traindb/prepare/TrainDBPrepareImpl.java:962-964 | AVG records one call but projects sum(c), count(c) |
| Plan.UpperOtherFunctionRejected | traindb-core/src/main/java/traindb/prepare/TrainDBPrepareImpl.java:965-969 | a non-aggregate call stops the loop with "aggregate function only", after recording the calls before it |
| Plan.CountOfOneColumn | traindb-core/src/main/java/traindb/prepare/TrainDBPrepareImpl.java:950-952 | COUNT(c) records COUNT and projects count(c) |
| Plan.UpperIsNoAggregate | traindb-core/src/main/java/traindb/prepare/TrainDBPrepareImpl.java:950-965 | UPPER matches none of the aggregate names |
| Plan.Tokens | traindb-core/src/main/java/traindb/prepare/TrainDBPrepareImpl.java:981 | tokens are non-empty runs without `[`, `.`, `]`; a name not ending in a delimiter has a token |
| Plan.TokensCoverStripped | traindb-core/src/main/java/traindb/prepare/TrainDBPrepareImpl.java:981 | tokenising loses exactly the delimiter characters |
| Plan.TokensOfPlain | traindb-core/src/main/java/traindb/prepare/TrainDBPrepareImpl.java:981 | a name without delimiters is one token |
| Plan.TokensAfterDelimiter | traindb-core/src/main/java/traindb/prepare/TrainDBPrepareImpl.java:981 | a plain run after a delimiter is one more token |
| Plan.TableRef | traindb-core/src/main/java/traindb/prepare/TrainDBPrepareImpl.java:978-987 | one token names the table only, two name schema and table, any other count leaves both null |
| Plan.QualifiedName | traindb-core/src/main/java/traindb/prepare/TrainDBPrepareImpl.java:981-987 | "schema.table" gives that schema and table; a bare table name gives no schema |
| Plan.Fields | traindb-core/src/main/java/traindb/prepare/TrainDBPrepareImpl.java:991 | a string has at least one ':'-field |
| Plan.FieldsOfColonFree | traindb-core/src/main/java/traindb/prepare/TrainDBPrepareImpl.java:991 | a string without ':' is its own only field |
| Plan.FieldsRoundTrip | traindb-core/src/main/java/traindb/prepare/TrainDBPrepareImpl.java:991 | joining the fields with ':' gives the string back |
| Plan.FieldsAppend | traindb-core/src/main/java/traindb/prepare/TrainDBPrepareImpl.java:991 | the fields of s:t are the fields of s followed by those of t |
| Plan.TrimTrailingEmpty | traindb-core/src/main/java/traindb/prepare/TrainDBPrepareImpl.java:991 | split keeps a prefix of the fields and drops exactly the trailing empty ones |
| Plan.DialectIsSecondField | traindb-core/src/main/java/traindb/prepare/TrainDBPrepareImpl.java:989-991 | the dialect exists exactly when some field after the first is non-empty, and it is the second field |
| Plan.DialectOfShortUrl | traindb-core/src/main/java/traindb/prepare/TrainDBPrepareImpl.java:991 | "jdbc:d" has fields jdbc and d and dialect d |
| Plan.DialectOfUrl | traindb-core/src/main/java/traindb/prepare/TrainDBPrepareImpl.java:991 | "jdbc:d:..." has dialect d whatever follows |
| Plan.SecondFieldIsDialect | traindb-core/src/main/java/traindb/prepare/TrainDBPrepareImpl.java:991 | a URL whose second field is a non-empty d has dialect d |
| Plan.FindPartitions | traindb-core/src/main/java/traindb/prepare/TrainDBPrepareImpl.java:993-1014 | the loop over the schemas leaves the specified partition list and key |
| Plan.LookupFindsLastMatch | traindb-core/src/main/java/traindb/prepare/TrainDBPrepareImpl.java:993-1020 | no list exactly when no schema of that name maps the table; otherwise the list of the last such schema |
| Plan.UnqualifiedNameHasNoPartitions | traindb-core/src/main/java/traindb/prepare/TrainDBPrepareImpl.java:998-1000 | with a null schema name no partition list is found |
| Plan.KeyOnlyForBigquery | traindb-core/src/main/java/traindb/prepare/TrainDBPrepareImpl.java:1009-1010 | the partition key is only read for bigquery |
| Plan.PlanQueries | traindb-core/src/main/java/traindb/prepare/TrainDBPrepareImpl.java:1022-1039 | one query per partition, in partition-list order |
| Plan.QueriesProjectColumns | traindb-core/src/main/java/traindb/prepare/TrainDBPrepareImpl.java:1024-1036 | every query starts with "select " and the rewritten columns |
| Plan.PostgresQueryNamesPartition | traindb-core/src/main/java/traindb/prepare/TrainDBPrepareImpl.java:1024-1026 | a postgresql query reads from schema.partition |
| Plan.OtherDialectQueryNamesPartition | traindb-core/src/main/java/traindb/prepare/TrainDBPrepareImpl.java:1033-1035 | other dialects read from table partition(p) |
| Plan.BigqueryQueryIsKeyRange | traindb-core/src/main/java/traindb/prepare/TrainDBPrepareImpl.java:1027-1032 | a bigquery query selects key >= p_k and, except for the last partition, key < p_(k+1) |
| Plan.Factor | traindb-core/src/main/java/traindb/prepare/TrainDBPrepareImpl.java:1042-1044 | the factor is 1 when not approximate, otherwise the integer quotient of the partition count by the partitions merged |
| Plan.PlanShape | traindb-core/src/main/java/traindb/prepare/TrainDBPrepareImpl.java:928-1039 | a plan exists only for a clean rewrite of a schema-qualified partitioned table, with one query per partition and one call per aggregate item |
| Coordinator.MergedRows | traindb-core/src/main/java/traindb/prepare/TrainDBPrepareImpl.java:1082-1112 | the merge yields no row without accumulated rows and one merged row otherwise |
| Coordinator.Scans | traindb-core/src/main/java/traindb/prepare/TrainDBPrepareImpl.java:1116-1119 | one scan outcome per query, in order |
| Coordinator.TaskCoordinator.constructor | traindb-core/src/main/java/traindb/prepare/TrainDBPrepareImpl.java:903-926 | a fresh coordinator has nothing planned and no futures list, and is valid |
| Coordinator.TaskCoordinator.Execute | traindb-core/src/main/java/traindb/prepare/TrainDBPrepareImpl.java:873-886 | the command sets the parallel flag; "rows" goes to the next-partition entry points, anything else starts a statement |
| Coordinator.TaskCoordinator.AppendRows | traindb-core/src/main/java/traindb/prepare/TrainDBPrepareImpl.java:1169-1181 | the partition's rows are appended to totalRes in order |
| Coordinator.TaskCoordinator.CurrentLabels | traindb-core/src/main/java/traindb/prepare/TrainDBPrepareImpl.java:1187-1190 | the header loop yields one label per recorded call |
| Coordinator.TaskCoordinator.MergeTotal | traindb-core/src/main/java/traindb/prepare/TrainDBPrepareImpl.java:1192-1221 | wrapping totalRes and running the merge loop yields the specified merged rows |
| Coordinator.TaskCoordinator.RewriteSelectList | traindb-core/src/main/java/traindb/prepare/TrainDBPrepareImpl.java:934-971 | the select loop records exactly the specified calls and column list, or stops with the first failing item |
| Coordinator.TaskCoordinator.BuildPlan | traindb-core/src/main/java/traindb/prepare/TrainDBPrepareImpl.java:1022-1039 | the plan loop appends exactly the per-partition queries |
| Coordinator.TaskCoordinator.DispatchScans | traindb-core/src/main/java/traindb/prepare/TrainDBPrepareImpl.java:1114-1120 | one future per remaining partition is queued in order, and the index reaches the last partition |
| Coordinator.TaskCoordinator.ExecuteIncremental | traindb-core/src/main/java/traindb/prepare/TrainDBPrepareImpl.java:888-1132 | the new state and result are those of the Start step |
| Coordinator.TaskCoordinator.ResetStatement | traindb-core/src/main/java/traindb/prepare/TrainDBPrepareImpl.java:903-926 | index 0 and empty plan, rows, header and calls; nothing else changes |
| Coordinator.TaskCoordinator.PlanStatementInto | traindb-core/src/main/java/traindb/prepare/TrainDBPrepareImpl.java:928-1039 | the stored calls and plan are the specified plan's, and it reports planning's exception exactly when planning fails |
| Coordinator.TaskCoordinator.RunFirstPartition | traindb-core/src/main/java/traindb/prepare/TrainDBPrepareImpl.java:1041-1057 | the new state and result are those of the FirstPartition step |
| Coordinator.TaskCoordinator.RecordFirst | traindb-core/src/main/java/traindb/prepare/TrainDBPrepareImpl.java:1062-1080 | partition 0's rows go to totalRes and one label per call to the header |
| Coordinator.TaskCoordinator.FinishFirst | traindb-core/src/main/java/traindb/prepare/TrainDBPrepareImpl.java:1059-1131 | the new state and result are those of the FirstMerge step |
| Coordinator.TaskCoordinator.ExecuteIncrementalNext | traindb-core/src/main/java/traindb/prepare/TrainDBPrepareImpl.java:1134-1233 | the new state and result are those of the Next step |
| Coordinator.TaskCoordinator.ExecuteIncrementalNextParallel | traindb-core/src/main/java/traindb/prepare/TrainDBPrepareImpl.java:1235-1299 | the new state and result are those of the NextParallel step |
| Coordinator.RewriteStaysFailed | traindb-core/src/main/java/traindb/prepare/TrainDBPrepareImpl.java:966-969 | once the select loop has thrown, later items change nothing |
| CoordinatorLaws.StartPreservesValid | traindb-core/src/main/java/traindb/prepare/TrainDBPrepareImpl.java:888-1132 | starting a statement keeps the index within the plan and the partition count equal to the plan's length once past partition 0 |
| CoordinatorLaws.FirstPartitionPreservesValid | traindb-core/src/main/java/traindb/prepare/TrainDBPrepareImpl.java:1041-1131 | the first partition leaves a valid state |
| CoordinatorLaws.NextPreservesValid | traindb-core/src/main/java/traindb/prepare/TrainDBPrepareImpl.java:1134-1233 | a sequential request keeps the state valid |
| CoordinatorLaws.NextParallelPreservesValid | traindb-core/src/main/java/traindb/prepare/TrainDBPrepareImpl.java:1235-1299 | a parallel request keeps the state valid |
| CoordinatorLaws.DispatchPreservesValid | traindb-core/src/main/java/traindb/prepare/TrainDBPrepareImpl.java:873-886 | whatever the command, the state stays valid |
| CoordinatorLaws.NextStep | traindb-core/src/main/java/traindb/prepare/TrainDBPrepareImpl.java:1134-1233 | a sequential request keeps the plan and futures, only appends rows, and moves the index by at most one, only on success |
| CoordinatorLaws.NextAdvancesIff | traindb-core/src/main/java/traindb/prepare/TrainDBPrepareImpl.java:1148-1224 | the index advances exactly when a partition is left, its scan succeeds and its merge succeeds, and the partition's rows are then appended |
| CoordinatorLaws.NextAfterLastPartition | traindb-core/src/main/java/traindb/prepare/TrainDBPrepareImpl.java:1155-1158 | past the last partition the request changes nothing and returns no rows under the stored header |
| CoordinatorLaws.NextBeforeStart | traindb-core/src/main/java/traindb/prepare/TrainDBPrepareImpl.java:1148-1153 | with index at most 0 the request throws "partitioned table only" and changes nothing |
| CoordinatorLaws.SwallowedMergeRepeatsPartition | traindb-core/src/main/java/traindb/prepare/TrainDBPrepareImpl.java:1169-1229 | a swallowed merge exception returns the labels with no rows and keeps the index, so the next request appends the same partition again |
| CoordinatorLaws.NextParallelStep | traindb-core/src/main/java/traindb/prepare/TrainDBPrepareImpl.java:1246-1298 | a parallel request keeps plan and index, pops the oldest future and appends its rows (none when it failed) |
| CoordinatorLaws.NextParallelDrained | traindb-core/src/main/java/traindb/prepare/TrainDBPrepareImpl.java:1248-1298 | with nothing queued the request changes nothing and returns no rows |
| CoordinatorLaws.NextParallelBeforeStart | traindb-core/src/main/java/traindb/prepare/TrainDBPrepareImpl.java:1246-1248 | without a futures list the request throws a NullPointerException |
| CoordinatorLaws.NextParallelKeepsScale | traindb-core/src/main/java/traindb/prepare/TrainDBPrepareImpl.java:1257-1259 | a parallel request does not change the scale the next one uses |
| CoordinatorLaws.RowsCommandNeverPlans | traindb-core/src/main/java/traindb/prepare/TrainDBPrepareImpl.java:873-886 | "rows" keeps plan, calls, header and approximate flag, and only sets the parallel flag |
| CoordinatorLaws.StartUnparsed | traindb-core/src/main/java/traindb/prepare/TrainDBPrepareImpl.java:888-901 | a parse failure throws after setting the approximate flag and changes nothing else |
| CoordinatorLaws.StartPlanningFailure | traindb-core/src/main/java/traindb/prepare/TrainDBPrepareImpl.java:903-1020 | a planning failure throws planning's exception after the reset, leaving an empty plan, rows and header and the futures as they were |
| CoordinatorLaws.StartOfPlanned | traindb-core/src/main/java/traindb/prepare/TrainDBPrepareImpl.java:888-1041 | a planned statement proceeds to partition 0 from the reset state holding the plan and its calls |
| CoordinatorLaws.FirstPartitionMerged | traindb-core/src/main/java/traindb/prepare/TrainDBPrepareImpl.java:1041-1131 | a scanned and merged partition 0 fills totalRes and the header, sets the index by the parallel flag, and queues the rest when parallel |
| CoordinatorLaws.StartSequential | traindb-core/src/main/java/traindb/prepare/TrainDBPrepareImpl.java:888-1131 | a sequential start stores the plan, keeps exactly partition 0's rows, and leaves the index at 1 |
| CoordinatorLaws.StartParallel | traindb-core/src/main/java/traindb/prepare/TrainDBPrepareImpl.java:1114-1123 | a parallel start queues partitions 1..N-1 in order after any earlier futures and leaves the index at N |
| CoordinatorLaws.ParallelRatioIsFixed | traindb-core/src/main/java/traindb/prepare/TrainDBPrepareImpl.java:1257-1259 | after an approximate parallel start over N partitions every parallel request scales by N / (N + 1) |
| CoordinatorLaws.ParallelDrain | traindb-core/src/main/java/traindb/prepare/TrainDBPrepareImpl.java:1246-1295 | n parallel requests pop n futures and append their rows in queue order |
| CoordinatorLaws.ParallelRunGathersAllPartitions | traindb-core/src/main/java/traindb/prepare/TrainDBPrepareImpl.java:1114-1299 | a parallel statement drained by N-1 requests accumulates every partition's rows exactly once, in plan order, leaving nothing queued |
| CoordinatorLaws.SequentialDrain | traindb-core/src/main/java/traindb/prepare/TrainDBPrepareImpl.java:1134-1233 | n advancing sequential requests append the next n partitions' rows in order |
| CoordinatorLaws.SequentialRunGathersAllPartitions | traindb-core/src/main/java/traindb/prepare/TrainDBPrepareImpl.java:1134-1233 | a sequential statement whose requests all advance accumulates every partition's rows exactly once, in plan order; the request after the last changes nothing |
| SchemaNames.Connect | traindb-core/src/main/java/traindb/schema/SchemaManager.java:69-79 | the connected data source wraps the DataSource it was built from |
| SchemaNames.Named | traindb-core/src/main/java/traindb/schema/SchemaManager.java:145 | a lookup by name finds an element with that name, and finds nothing exactly when none has it |
| SchemaNames.AddToListMap | traindb-core/src/main/java/traindb/schema/SchemaManager.java:101-108 | the value is appended to the key's list (created when absent); other keys keep their lists |
| SchemaNames.AddAllAppends | traindb-core/src/main/java/traindb/schema/SchemaManager.java:89-108 | adding entries only appends, in order, under each key |
| SchemaNames.AddAllConcat | traindb-core/src/main/java/traindb/schema/SchemaManager.java:89-99 | adding two runs of entries is adding the first, then the second |
| SchemaNames.AddAllKeeps | traindb-core/src/main/java/traindb/schema/SchemaManager.java:89-108 | adding entries keyed by their element's name keeps every list keyed |
| SchemaNames.SchemaEntries | traindb-core/src/main/java/traindb/schema/SchemaManager.java:91-93 | each schema is recorded under its own name, in order |
| SchemaNames.TableEntriesOf | traindb-core/src/main/java/traindb/schema/SchemaManager.java:94-97 | each table of a schema is recorded under its own name, in order |
| SchemaNames.TableEntries | traindb-core/src/main/java/traindb/schema/SchemaManager.java:91-98 | the table entries of the schemas are keyed by table name |
| SchemaNames.TableEntriesHave | traindb-core/src/main/java/traindb/schema/SchemaManager.java:91-98 | every table of every schema is among the entries |
| SchemaNames.AddDataSourceKeepsKeyed | traindb-core/src/main/java/traindb/schema/SchemaManager.java:89-99 | loading keeps every map's lists keyed by their elements' names |
| SchemaNames.AddDataSourceRecords | traindb-core/src/main/java/traindb/schema/SchemaManager.java:89-99 | loading only appends, and records the data source and each schema under its name |
| SchemaNames.AddDataSourceRecordsTable | traindb-core/src/main/java/traindb/schema/SchemaManager.java:94-97 | loading records each table of each schema under its name |
| SchemaNames.Resolve | traindb-core/src/main/java/traindb/schema/SchemaManager.java:130-190 | a resolved name has three parts; "invalid identifier length" exactly for lengths outside 1..3; "invalid name" for every other failure |
| SchemaNames.OnePartUsesDefaultSchema | traindb-core/src/main/java/traindb/schema/SchemaManager.java:139-162 | a 1-part name resolves as the 2-part name under the default schema |
| SchemaNames.TwoPartIff | traindb-core/src/main/java/traindb/schema/SchemaManager.java:151-162 | a 2-part name resolves exactly when one schema carries the name and has the table; the answer is that schema's data source, the schema and the table |
| SchemaNames.ThreePartIff | traindb-core/src/main/java/traindb/schema/SchemaManager.java:163-180 | a 3-part name resolves exactly when one data source carries the name, it has the schema and the schema has the table |
| SchemaNames.ResolvedEchoesRequest | traindb-core/src/main/java/traindb/schema/SchemaManager.java:185-189 | with keyed maps the answer ends with the requested table and schema (the default schema for 1 part) and, for 3 parts, the requested data source |
| SchemaNames.ReloadBreaksResolution | traindb-core/src/main/java/traindb/schema/SchemaManager.java:85-87 | after loading the same data source twice, no name through it or its schemas resolves |
| SchemaNames.SchemaManager.constructor | traindb-core/src/main/java/traindb/schema/SchemaManager.java:52-59 | empty maps and no data source |
| SchemaNames.SchemaManager.AddDataSourceToMaps | traindb-core/src/main/java/traindb/schema/SchemaManager.java:89-99 | the maps become the specified load of the data source |
| SchemaNames.SchemaManager.AddSchemasOf | traindb-core/src/main/java/traindb/schema/SchemaManager.java:91-98 | the schema loop adds every schema and every table of them |
| SchemaNames.SchemaManager.AddTablesOf | traindb-core/src/main/java/traindb/schema/SchemaManager.java:94-97 | the table loop adds every table of the schema |
| SchemaNames.SchemaManager.LoadDataSource | traindb-core/src/main/java/traindb/schema/SchemaManager.java:69-79 | the data source is connected, recorded in the maps and becomes the current one |
| SchemaNames.SchemaManager.RefreshDataSource | traindb-core/src/main/java/traindb/schema/SchemaManager.java:85-87 | the current DataSource is loaded again on top of the maps; with none loaded, a NullPointerException, the maps unchanged and still no current data source |
| SchemaNames.SchemaManager.ToFullyQualifiedTableName | traindb-core/src/main/java/traindb/schema/SchemaManager.java:130-190 | the answer is the specified resolution against the current maps |
| SchemaNames.SchemaManagerHolder.constructor | traindb-core/src/main/java/traindb/schema/SchemaManager.java:38 | no instance before the first call |
| SchemaNames.SchemaManagerHolder.GetInstance | traindb-core/src/main/java/traindb/schema/SchemaManager.java:61-67 | the first call creates an empty manager; every later call returns that same instance |
| Catalog.Clauses | traindb-catalog/src/main/java/traindb/catalog/JDOCatalogContext.java:918-926 | one clause per entry, in iteration order |
| Catalog.TerminatedIsJoinPlusSeparator | traindb-catalog/src/main/java/traindb/catalog/JDOCatalogContext.java:918-929 | the builder holds the clauses joined by " && " plus one trailing " && ", the part the substring strips |
| Catalog.SetFilterPatterns | traindb-catalog/src/main/java/traindb/catalog/JDOCatalogContext.java:916-931 | no filter for an empty map; otherwise the clauses joined by " && " |
| Catalog.StringValueNotEscaped | traindb-catalog/src/main/java/traindb/catalog/JDOCatalogContext.java:920-921 | a String value becomes key.matches('v') with v inserted verbatim |
| Catalog.SingleIdFilter | traindb-catalog/src/main/java/traindb/catalog/JDOCatalogContext.java:922-924 | a single id filter is key == id |
| Catalog.FilterSeparators | traindb-catalog/src/main/java/traindb/catalog/JDOCatalogContext.java:918-929 | n entries give n clauses with one " && " between neighbours |
| Catalog.DedupSameNames | traindb-catalog/src/main/java/traindb/catalog/JDOCatalogContext.java:300-307 | the de-duplicated list has the same names as before |
| Catalog.DedupNoDuplicates | traindb-catalog/src/main/java/traindb/catalog/JDOCatalogContext.java:300-307 | the de-duplicated list has no duplicates |
| Catalog.DedupKeepsFirstOccurrences | traindb-catalog/src/main/java/traindb/catalog/JDOCatalogContext.java:300-307 | the de-duplicated list is the first occurrences in their original order (independent definition) |
| Catalog.DedupOfDistinct | traindb-catalog/src/main/java/traindb/catalog/JDOCatalogContext.java:301-306 | a list without duplicates is left unchanged |
| Catalog.DedupIdempotent | traindb-catalog/src/main/java/traindb/catalog/JDOCatalogContext.java:300-307 | de-duplicating twice is de-duplicating once |
| Catalog.DedupExtend | traindb-catalog/src/main/java/traindb/catalog/JDOCatalogContext.java:303-306 | one more name is either already kept (and removed) or appended |
| Catalog.ColumnNames.constructor | traindb-catalog/src/main/java/traindb/catalog/JDOCatalogContext.java:292 | the list holds the caller's names |
| Catalog.ColumnNames.RemoveDuplicates | traindb-catalog/src/main/java/traindb/catalog/JDOCatalogContext.java:300-307 | the in-place iterator loop leaves exactly the de-duplicated list |
| Catalog.Retain | traindb-catalog/src/main/java/traindb/catalog/JDOCatalogContext.java:250 | retainAll keeps exactly the elements also in the other list |
| Catalog.RetainKeepInAll | traindb-catalog/src/main/java/traindb/catalog/JDOCatalogContext.java:247-251 | narrowing by one more table's ids keeps exactly the ids in every list so far |
| Catalog.CommonIdsAreInAll | traindb-catalog/src/main/java/traindb/catalog/JDOCatalogContext.java:239-252 | the intersection is the first table's ids that every table has, in the first table's order |
| Catalog.KeepInAllMembers | traindb-catalog/src/main/java/traindb/catalog/JDOCatalogContext.java:239-252 | an id is kept exactly when it is in the first list and in every list |
| Catalog.JoinTableIds | traindb-catalog/src/main/java/traindb/catalog/JDOCatalogContext.java:239-255 | null exactly without base tables; otherwise the intersection of the tables' id lists |
| Catalog.WithCount | traindb-catalog/src/main/java/traindb/catalog/JDOCatalogContext.java:258-264 | an id is kept exactly when its MJoin count equals the base-table count |
| Catalog.SizeMatched | traindb-catalog/src/main/java/traindb/catalog/JDOCatalogContext.java:258-264 | the size-filter loop keeps exactly the specified ids, in order |
| Catalog.JoinCandidates | traindb-catalog/src/main/java/traindb/catalog/JDOCatalogContext.java:239-264 | null exactly without base tables; otherwise an id is a candidate exactly when it is in every base table's list and its MJoin count equals the number of base tables |

## Left out

- Calcite: parsing is the oracle `parse`. The statement tree is the small
  `Statement` datatype. `convertResultToSignature` and the metadata and
  Avatica helpers are not modelled; a response is the header and the rows.
- JDBC row fetching, including the DECIMAL-to-`getInt` conversion: a
  partition scan is the oracle `scan`, which yields integer, string and
  NULL cells or fails (SQLException).
- A scan that fails part-way, after some rows were appended, is not
  modelled. A scan either fails before appending anything or yields all its
  rows.
- Concurrency: the thread pool, `IncrementalScanTask` and `Future.get`
  blocking are left out. A queued future is its precomputed outcome, popped
  in FIFO order; an `ExecutionException` is an outcome with no rows.
- Floating point: AVG's double products, division and `Math.round` are the
  oracle `average`. It is given the integer totals and the factor's scale.
  The model does not say how the factor and the totals combine. With the
  integer factor of the sequential paths the factor cancels exactly. With the
  inexact double `N / (N + 1)` of the parallel path it may not: for N = 2, sum
  7 and count 2 the doubles give 3.4999999999999996, which rounds to 3, not
  4. The parallel path's `(int)(total * factor)` is the oracle `ratio`.
- `Long` and floating cells: `getObject` returns a `Long` for a BIGINT
  column, for example PostgreSQL's `count(...)`, and a `Double` for a
  floating one. The scan oracle yields only Integer, String and null cells,
  so these are not modelled:
  - the BIGINT branches of COUNT, SUM and AVG, with their `intValue()`
    truncation, and AVG's `instanceof Long` test on the count cell;
  - the `(int)` unboxing of a `Long` or `Double` in the numeric MIN/MAX
    branch, which throws `ClassCastException`;
  - the FLOAT/DOUBLE branches of COUNT, SUM and AVG.
- Merge.IncrementalCount: Java 32-bit `int` overflow of the accumulators and
  of the `(int)` casts is not modelled, because integers are unbounded.
  Accumulated totals are exact sums.
- Merge.IncrementalSum: the same 32-bit overflow is not modelled.
- Merge.IncrementalAvg: the same overflow is not modelled.
- The cursor position a helper leaves behind when it throws is not stated,
  because every helper rewinds before reading.
- Merge.IncrementalExtreme: the source switches on the column type inside
  the loop. The model switches once before the loop. This is the same
  computation, because the type is read once before the loop in both.
- TrainDBListResultSet is not part of this model. The helpers read through
  the modelled `TrainDBResultFromListData`.
- The `getMetaData` and `getColumnTypeNamePy` getters of
  `TrainDBResultFromListData` are left out. They are metadata wrappers only.
- Case folding is ASCII only, for ASCII input under a non-Turkic locale.
  Java's folding goes further, and the model differs from it in two ways:
  - `equalsIgnoreCase` also folds 'ı' (U+0131) and 'İ' (U+0130) onto 'i' and
    'ſ' (U+017F) onto 's'. So "mın" and "ſum" are MIN and SUM in the source,
    while `Plan.KindOf` rejects them as not aggregates.
  - `sql.toLowerCase()` uses the default locale. Under a Turkish locale
    "APPROXIMATE" lowers to "approxımate", so the source does not take the
    statement as approximate, while `Plan.IsApproximate` does.
- StringOrder.CompareStrings: strings are sequences of Unicode scalar values,
  while `charAt` and `length()` work on UTF-16 code units. The two orders
  agree on characters up to U+FFFF. Above that they can differ: the source
  compares a surrogate, so "\uFFFF" is greater than "\U00010000" there and
  smaller here.
- Map iteration order: the sub-schema map and each partition map are
  sequences in iteration order. So are the HashMap entries and the filter
  map entries.
- SchemaManager's read/write locks, `lockRead`/`unlockRead`,
  `getCurrentSchema`, the Calcite root schema (`rootSchema`) and the
  `CatalogStore` are left out.
- JDOCatalogContext's persistence manager, transactions and queries are left
  out. The MJoin lookups of `getJoinSynopses` are the functions `idsOf`
  (already filtered by column names) and `joinCount`. The synopsis collection
  after the size filter is not modelled.
- The model runners (FastAPI, file, Py4J), `CsvTableScan`, and query and
  task logging are left out. They are I/O and wrappers outside the core.
