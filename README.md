# Food-sales ingest, modelled in Dafny

The job reads a FoodSales spreadsheet and loads it into PostgreSQL in one batch.

**Read.** The sheet must carry nine required headers. The reader casts every column to its type: the ID is stripped, the date is parsed, the text columns are rendered, Qty becomes a nullable integer and the prices are parsed. It drops rows that are empty or look like a header: an ID that is empty after stripping, no date, no total price, or a blank region, category or product. An empty ID cell renders as the text `nan` and passes the ID test; empty rows fall to the date and total-price tests. It truncates dates to days. It then drops rows with a negative qty, unit price or total price, and warns with their count.

**Load.** Inside one transaction the job:
1. ensures the production table exists;
2. creates its staging clone (`LIKE ... INCLUDING ALL`) if missing, truncates it and bulk-inserts the clean rows in chunks;
3. merges staging into production with `ON CONFLICT (id) DO NOTHING`, counting the rows inserted;
4. drops the staging table.

**Exit codes.** A failed read exits 1 before any connection is made. A failed database step rolls the whole transaction back and exits 2.

**Modules.**
- `Wrappers`: `Option`, `Result` and `Outcome`.
- `Text`: Python's `str.strip` and its whitespace set.
- `Seqs`: order-preserving filtering and mapping, with an index-based characterisation of what a filter keeps.
- `Records`: the production row (`SaleRecord`), its CHECK constraints and the ranges of its column types.
- `Validate`: the reader (`read_foodsales`).
- `Storage`: the database.
  - `Store` is the value of the two tables.
  - `Ensured`, `LoadStageSpec`, `MergeSpec` and `Dropped` give the statements' effects as functions.
  - The class `Database` has one method per statement, each proved against those functions. `LoadStage` keeps the chunk loop of `to_sql`.
  - A transaction is a private copy taken by `Begin` and written back by `Commit`.
- `Ingest`: the body of `main`. `Transaction` and `Execute` are its specification. The method `Ingest` runs it on a `Database` and is proved equal to `Run`.
- `Scenario`: a five-row example of the read passes.

**Duplicate ids.** One might expect first-write-wins for two rows of one sheet sharing an `id`. It holds only across runs. Within one sheet, the staging clone copies the primary key, so it rejects the second row during the load, and the whole run rolls back with exit code 2 (`Ingest.DuplicateIdRollsBack`). In the same way, a price of `10^16` or more overflows `numeric(18,2)`, and a qty beyond 32 bits overflows `integer`. The reader lets both through, but the staging insert fails and the run exits 2 (`Ingest.OverflowRollsBack`).

## Model

| member | source | states |
|---|---|---|
| Validate.Missing | ingest/ingest_foodsales.py:70-71 | a header is reported missing exactly when it is required and absent from the sheet |
| Validate.ReadFoodSales | ingest/ingest_foodsales.py:64-117 | reading fails with `MissingColumns` exactly when a required header is absent; the error carries the missing headers and all the headers found |
| Validate.ReadSucceedsIff | ingest/ingest_foodsales.py:70-87 | reading succeeds exactly when all headers are present and the Qty cast succeeds; every other read error is the failed Qty cast |
| Validate.CoerceAll | ingest/ingest_foodsales.py:79-87 | the casts succeed exactly when every Qty cell is blank or a whole number within the `Int64` range, keep one row per input row, and otherwise fail with `QtyCastFailed` |
| Validate.CastQty | ingest/ingest_foodsales.py:85 | the cast Qty is NULL exactly when the numeric parse failed, and otherwise equals the parsed number and lies in the `Int64` range |
| Validate.CoerceRow | ingest/ingest_foodsales.py:79-87 | the coerced ID has no surrounding whitespace (stripping it again changes nothing); Qty is NULL exactly when its parse failed, and otherwise equals the parsed number |
| Validate.Admitted | ingest/ingest_foodsales.py:90-97 | the mask admits a row exactly when its ID is non-empty, its date and total price are present, and its region, category and product are not all whitespace (no mention of `strip`) |
| Validate.RowsComplete | ingest/ingest_foodsales.py:70-76 | once every required header is present, every row has a cell under each of them |
| Validate.ToRecord | ingest/ingest_foodsales.py:101-104 | a row keeps its date exactly when its timestamp parsed |
| Validate.Passes | ingest/ingest_foodsales.py:107-113 | the removed count is the number of admitted rows minus the number kept |
| Validate.PassesInInputOrder | ingest/ingest_foodsales.py:90-112 | the clean set is exactly the records of the input rows that pass both the mask and the negativity filter, unaltered and in input order |
| Validate.CleanRowsValid | ingest/ingest_foodsales.py:90-112 | every clean row has a non-empty ID without surrounding whitespace, a date, a total price, non-blank region, category and product, and satisfies the CHECK constraints |
| Validate.RemovedCountsNegativeRows | ingest/ingest_foodsales.py:107-115 | the removed count is the number of admitted rows with a negative value; the warning is logged exactly when such a row exists |
| Text.TrimStart | ingest/ingest_foodsales.py:79 | the result is a suffix of the input, the part cut off is all whitespace, and the result does not start with whitespace |
| Text.TrimEnd | ingest/ingest_foodsales.py:79 | the result is a prefix of the input, the part cut off is all whitespace, and the result does not end with whitespace |
| Text.Strip | ingest/ingest_foodsales.py:94-96 | the stripped text neither starts nor ends with whitespace |
| Text.StripEmptyIffBlank | ingest/ingest_foodsales.py:94-96 | `strip()` yields the empty string exactly when the text is all whitespace |
| Text.StripIdempotent | ingest/ingest_foodsales.py:79 | stripping a stripped text changes nothing |
| Seqs.Filter | ingest/ingest_foodsales.py:98 | the kept elements come from the input, satisfy the predicate, and every element that satisfies it is kept |
| Seqs.KeptIndices | ingest/ingest_foodsales.py:98 | the positions of the satisfying elements, strictly increasing, with none missing |
| Seqs.FilterAtKeptIndices | ingest/ingest_foodsales.py:98 | a filter keeps exactly the elements at the satisfying positions, unaltered and in order |
| Seqs.FilterFilter | ingest/ingest_foodsales.py:98-112 | the two passes in sequence equal one pass with the conjunction |
| Seqs.FilterPartition | ingest/ingest_foodsales.py:107-113 | the kept and the dropped elements add up to the input's length |
| Seqs.FilterDropsNone | ingest/ingest_foodsales.py:113-114 | a filter drops nothing exactly when every element satisfies the predicate |
| Seqs.FilterMapSeq | ingest/ingest_foodsales.py:101-112 | filtering after the date truncation equals truncating after filtering |
| Records.NonNegative | ingest/ingest_foodsales.py:108-112 | a row passes the negativity test, which is also the three CHECK constraints of lines 137-139, exactly when none of its present qty, unit price and total price values is negative |
| Records.Representable | ingest/ingest_foodsales.py:133-135 | a row that fits the column types has every present value of magnitude below the `numeric(18,2)` bound `10^16 - 0.005` |
| Storage.Ensured | ingest/ingest_foodsales.py:120-149 | the production table exists afterwards; an existing table and the staging table are untouched; a new table is empty |
| Storage.EnsuredIdempotent | ingest/ingest_foodsales.py:123-126 | ensuring twice is ensuring once, and ensuring keeps the constraints |
| Storage.InsertRows | ingest/ingest_foodsales.py:164-172 | a successful insert appends the rows in order; a failing one fails on a column overflow, a CHECK constraint or the primary key |
| Storage.InsertRowsOkIff | ingest/ingest_foodsales.py:156-172 | the staging insert succeeds exactly when the rows fit the column types, satisfy the CHECK constraints, share no id among themselves and reuse no id already there |
| Storage.LoadStageSpec | ingest/ingest_foodsales.py:155-172 | with no table to clone from the load fails with an undefined table; a successful load leaves production alone and staging holding exactly the rows; it never fails with a backend fault |
| Storage.InsertRowsAppend | ingest/ingest_foodsales.py:164-172 | inserting `a + b` is inserting `a` and then `b`, errors included, so chunking does not change the outcome |
| Storage.LoadStageResult | ingest/ingest_foodsales.py:152-172 | the load succeeds exactly when a table exists to clone from and the rows fit the staging table (distinct ids, column types, CHECK constraints), and afterwards staging holds exactly the given rows |
| Storage.MergeRows | ingest/ingest_foodsales.py:176-187 | the insert-or-ignore merge keeps every existing key and reports at most as many inserted rows as were staged |
| Storage.MergeRowsKeys | ingest/ingest_foodsales.py:174-183 | after the merge the keys are the old keys plus the staged ids |
| Storage.MergeRowsKeepsExisting | ingest/ingest_foodsales.py:182-183 | no existing production row is changed or removed |
| Storage.MergeRowsCount | ingest/ingest_foodsales.py:185-187 | the reported count is the number of rows the merge added |
| Storage.MergeRowsInsertsStaged | ingest/ingest_foodsales.py:178-183 | with distinct staged ids, every staged row with a new id is stored as staged |
| Storage.MergeRowsNothingNew | ingest/ingest_foodsales.py:182-183 | staged rows whose ids all exist insert nothing and change nothing |
| Storage.MergeRowsIdempotent | ingest/ingest_foodsales.py:174-187 | a second merge of the same rows inserts 0 and leaves the table unchanged |
| Storage.MergeRowsKeyed | ingest/ingest_foodsales.py:126-139 | the merge keeps production keyed by id, within its column types and within the CHECK constraints |
| Storage.MergeSpec | ingest/ingest_foodsales.py:174-187 | the merge fails, with an undefined table, exactly when a table is missing; on success staging is unchanged, every production key is kept, and the count is at most the number of staged rows |
| Storage.Dropped | ingest/ingest_foodsales.py:229 | the staging table is gone and production is unchanged |
| Storage.Database.Begin | ingest/ingest_foodsales.py:215 | a new transaction object that sees the current state |
| Storage.Database.Commit | ingest/ingest_foodsales.py:215-231 | the database takes the transaction's state |
| Storage.Database.EnsureSchemaAndTables | ingest/ingest_foodsales.py:120-149 | the new state is `Ensured` of the old |
| Storage.Database.InsertChunk | ingest/ingest_foodsales.py:164-172 | one multi-row insert: it appends the chunk on success and changes nothing on failure |
| Storage.Database.LoadStage | ingest/ingest_foodsales.py:152-172 | the chunked load ends in the state and outcome of `LoadStageSpec` (one insert of all the rows), and production is unchanged |
| Storage.Database.MergeStageToProd | ingest/ingest_foodsales.py:174-187 | the new state and the inserted count are those of `MergeSpec`; on error nothing changes |
| Storage.Database.DropStage | ingest/ingest_foodsales.py:229 | the new state is `Dropped` of the old |
| Ingest.RunOutcome.ExitCode | ingest/ingest_foodsales.py:196-241 | exit 0 exactly on success, 1 exactly on a read failure, 2 exactly on a database failure |
| Ingest.Execute | ingest/ingest_foodsales.py:196-241 | a non-zero exit leaves the store as it was; exit 1 exactly when reading failed; on success staging is gone and production exists |
| Ingest.Run | ingest/ingest_foodsales.py:189-241 | a non-zero exit leaves the store as it was; exit 1 exactly when `read_foodsales` fails |
| Ingest.Ingest | ingest/ingest_foodsales.py:189-241 | the new database state and the outcome are those of `Run` on the old state |
| Ingest.Transaction | ingest/ingest_foodsales.py:213-231 | the `with eng.begin()` block commits only when the backend refuses no step, and then staging is gone and production exists; a backend fault names a refused step; a refused CREATE fails first |
| Ingest.MissingColumnExitsOne | ingest/ingest_foodsales.py:70-73 | a missing header ends the run with exit 1, reports the missing and found headers, and changes nothing |
| Ingest.TransactionCommitsIff | ingest/ingest_foodsales.py:213-241 | the transaction commits exactly when no step fails in the backend and the rows fit the staging table: distinct ids, values within the column types, CHECK constraints |
| Ingest.RunSucceedsIff | ingest/ingest_foodsales.py:196-241 | a run exits 0 exactly when the read succeeds, no step fails in the backend, the clean ids are distinct and every clean value fits its column type; otherwise the store is unchanged |
| Ingest.DuplicateIdRollsBack | ingest/ingest_foodsales.py:155-172 | two clean rows with one id make the run exit 2 and leave the store unchanged |
| Ingest.OverflowRollsBack | ingest/ingest_foodsales.py:133-135 | a clean row whose qty overflows `integer` or whose price overflows `numeric(18,2)` makes the run exit 2 and leaves the store unchanged (the insert at lines 164-172 fails) |
| Ingest.RunSuccessEffect | ingest/ingest_foodsales.py:213-236 | after success production keeps every old row, gains exactly the clean ids, stores each new-id row as read, and `inserted` is the number of rows added; staging is gone |
| Ingest.RunIdempotent | ingest/ingest_foodsales.py:174-187 | running the same sheet again after a success inserts 0 rows and leaves the store as it was |
| Ingest.RunKeepsValid | ingest/ingest_foodsales.py:126-139 | a run keeps production keyed by id, within its column types and free of negative qty, unit price and total price |
| Scenario.PassesFive | ingest/ingest_foodsales.py:90-113 | of five rows where the third fails the mask and the fourth is negative, the clean set is rows 1, 2 and 5, and 1 row is reported removed |
| Scenario.SamplePasses | ingest/ingest_foodsales.py:90-113 | on five concrete coerced rows, one with an empty region text and one with a negative quantity, both passes keep three rows and report one removed |

## Left out

- The command line, the `.env` lookup and the module-level configuration are not modelled. The schema, table names and header row are fixed; the header row only decides which spreadsheet row gives the headers.
- Logging is not modelled as output. What the log lines report is returned instead: the negativity warning is `Cleaned.Warns`; the `[READ] Rows after cleaning`, `[MERGE] inserted=` and `[GOAL] DONE` counts are the fields of `Done(rowsIn, removed, inserted)`.
- Opening the workbook (`pd.read_excel` with openpyxl) is not modelled. The model takes the parsed sheet as a value: headers, and per row a map from header to cell.
- pandas parsing is not modelled. Each cell carries the results of `astype(str)`, `to_datetime(errors="coerce")` and `to_numeric(errors="coerce")` as given data. This includes the rendering of an empty cell as the text `nan`, which then passes the blank test.
- Validate.CoerceAll: the `Int64` cast in pandas is modelled as failing on a value that is not whole or lies outside the 64-bit range. Other pandas failures are not distinguished.
- The column rename (`id`, `date`, ...) is folded into the field names of `SaleRecord`.
- The `numeric(18,2)` rounding of stored prices to cents. Stored prices are exact reals. The overflow of the column is modelled (`Records.Representable`).
- `CREATE SCHEMA IF NOT EXISTS` and the four `CREATE INDEX IF NOT EXISTS` statements. They create no rows and do not change the outcome of the later statements, so the schema is taken to exist.
- The guard `WHERE s.id IS NOT NULL` is always true, because ids are strings (never NULL) and the staging clone has the primary key. Its filter is therefore not modelled.
- A staging table left by an earlier run is assumed to have been cloned from production, with the same primary key and CHECK constraints.
- Connectivity, privileges and other backend failures are modelled as a parameter: the set of steps the backend refuses. Engine creation and the connection string are not modelled. Engine creation (lines 209-211) runs outside both `try` blocks, so a bad URL or a missing driver ends the program with an unhandled exception and status 1. The claim "exit 1 exactly when the read fails" is about the modelled steps only.
- Concurrent runs, and the race between runs sharing a staging table, are not modelled. The model is single-threaded.
- Storage.Database.LoadStage: requires a positive chunk size. How pandas treats a zero or negative `chunksize` is not part of this model.
- Ingest.Ingest: requires a positive chunk size, for the same reason.
- Whitespace is Python's `str.isspace` set. There is no Unicode normalisation.
