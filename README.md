# wise_rock_assessment ETL: a verified model of the load pipeline

This project models the core of a small ETL, wise_rock_assessment. The ETL reads records from a
paginated REST API (and, in a variant that `main` currently leaves switched off,
from flat files). It replaces the contents of a PostgreSQL staging schema with them. Each run
truncates every table (with `CASCADE`) and reloads it in batches, in a
hand-written order that must respect the foreign keys. The foreign keys are
declared by two Alembic revisions.

The model is organised like the program:

- `schema.dfy` (`Schema`). The nineteen staging tables, their primary keys, the one unique index
  (oil_price's `(period, series)`) and the foreign keys the two revisions declare. Also the reference graph: `Cascade(t)` is the set of tables that
  `TRUNCATE ... CASCADE` empties, and `ParentsFirst` says an order lists every table after the
  tables it references.
- `migrations.dfy` (`Migrations`). The two revisions as sequences of `create_table` /
  `drop_table` steps over a set of tables. A `Database` class runs them, and a step that fails
  rolls the whole revision back.
- `load_spec.dfy` (`LoadSpec`). Specification functions for the loader:
  - the key projections and the `ON CONFLICT DO NOTHING` insert, which skips a row that
    conflicts on the primary key or on a unique index;
  - the batch slices and the retry loop's event trace;
  - the rows a table holds after a load.
- `loader.dfy` (`Loader`). `PostgresLoader`: a class whose `tables` map is the database. Its
  methods `TruncateTable` and `LoadDataframe` (with the batch loop and the retry loop) change
  that map in place. They are proved against `LoadSpec`.
- `text.dfy` (`PyText`). `str(n)`, `int(s)` and `s.split(c)[1]`, as the API's HTTP headers use
  them.
- `api_extractor.dfy` (`ApiExtractor`). The endpoint-to-table map, `API_LOAD_ORDER`, the cached
  access token, the pagination loop and `extract_all`. The imperative `ApiExtractor` class is
  proved against the pure functions `GetToken`, `FetchFrom` and `Extract`.
- `transformer.dfy`, `extractor.dfy`. Column lower-casing, the `activeflag` cast, and the
  file-stem naming rule, all pure.
- `pipeline.dfy` (`Pipeline`). `run_api_pipeline`, `run_csv_pipeline` and `main`, as methods over
  the loader and the extractor. They are proved against the recursive function `RunOver`.

Every outside party is a parameter:

- `reply` is the authentication server's answer.
- `respond(e, offset)` is the REST server's answer to a page request.
- `refuses(t)` says whether the database refuses a TRUNCATE.
- `connects(t)` says whether `engine.connect()` succeeds for the batch loop of table t.
- `fails(t, batch, attempt)` says whether an insert attempt fails.
- `columns(e)` gives the keys of an endpoint's JSON records.

Three behaviours of the code a reader might not expect; the model follows the code:

- `main` runs only the API pipeline. The call to `run_csv_pipeline` is commented out (main.py:80).
- `load_dataframe` does not clear the table itself. The caller truncates first. A batch size of 0
  raises `ZeroDivisionError` on a non-empty frame, and a negative one loads nothing. The
  connection for the batch loop is opened outside the retry loop's `try`, so a failure to open it
  ends the load and the run; only insert attempts are retried.
- `_fetch_all_from_endpoint` aborts the whole extraction on a `Content-Range` total that is not a
  number (a `ValueError`, which is not caught). Authentication fails with a `KeyError` when the
  reply has no `access_token`.

## Model

| member | source | states |
|---|---|---|
| Extractor.GenerateTableName | src/etl/extractor.py:24-37 | `ac_property` becomes `stg_aries__ac_property`; any other stem s becomes `stg_pro_count__` + s; every name starts with `stg_` and ends with the stem |
| Extractor.GenerateTableNameInjective | src/etl/extractor.py:30-37 | distinct file stems give distinct table names, so no extracted file overwrites another in the data map |
| Transformer.CleanColumnNames | src/etl/transformer.py:10-16 | the same number of columns, column i becomes the lower-case form of name i, every name is lower case, rows unchanged, well-formedness kept |
| Transformer.CleanColumnNamesIdempotent | src/etl/transformer.py:10-16 | cleaning twice gives the same frame as cleaning once |
| Transformer.TransformCompletionData | src/etl/transformer.py:18-42 | identity without an `activeflag` column; raises exactly when an `activeflag` cell has no 64-bit integer value (an integer in the int64 range, a boolean, or a string `int()` reads as a number in that range has one; a missing value or a number outside int64 has none); otherwise same columns and shape, each `activeflag` cell becomes true exactly when its integer is nonzero, other cells unchanged |
| Transformer.NumeralFlagCasts | src/etl/transformer.py:40 | an `activeflag` stored as the text of a number n casts to n when n < 2^63, and makes the cast raise otherwise |
| Transformer.TransformCompletionDataIdempotent | src/etl/transformer.py:33-42 | transforming the transformed frame changes nothing |
| Schema.UniqueColumns | alembic/versions/94e05b8cef7f_create_api_staging_tables.py:174-190 | every table's unique constraints start with its primary key; oil_price alone has a second one, the unique index on `(period, series)` |
| Schema.ForeignKeysTargetPrimaryKeys | alembic/versions/57c1110b92dd_create_staging_tables_and_views.py:100-131 | every foreign key references its target's whole primary key, column for column (the composite state/county key included) |
| Schema.TargetsAreParents | alembic/versions/94e05b8cef7f_create_api_staging_tables.py:94-142 | the target of every declared foreign key is among the table's referenced tables |
| Schema.ParentsAreTargets | alembic/versions/94e05b8cef7f_create_api_staging_tables.py:94-142 | every referenced table is the target of a declared foreign key |
| Schema.CascadeClosed | src/etl/loader.py:37 | a table with a foreign key into a table the CASCADE empties is emptied too |
| Schema.CascadeLeast | src/etl/loader.py:37 | the CASCADE empties nothing beyond the closure of the truncated table under referencing |
| Schema.CascadeSparesEarlier | src/etl/api_extractor.py:23-35 | in a parents-first order, truncating a table never empties a table listed before it |
| Schema.NoCycle | alembic/versions/57c1110b92dd_create_staging_tables_and_views.py:121-131 | the reference graph has no cycle: no chain of foreign keys leads from a table back to itself |
| Migrations.ApplyStep | alembic/versions/57c1110b92dd_create_staging_tables_and_views.py:31-35 | a create that succeeds adds a table that was absent; a drop that succeeds removes a table that was present |
| Migrations.ApplyStepKeepsConsistent | alembic/versions/57c1110b92dd_create_staging_tables_and_views.py:100-131 | a step that succeeds on a schema whose foreign keys all resolve leaves such a schema |
| Migrations.ApplyStepsKeepsConsistent | alembic/versions/57c1110b92dd_create_staging_tables_and_views.py:21-160 | running any step sequence never leaves a foreign key pointing at a missing table |
| Migrations.CreatesSucceed | alembic/versions/94e05b8cef7f_create_api_staging_tables.py:21-191 | creating new tables in an order where each one's targets exist succeeds and adds exactly those tables |
| Migrations.DropsSucceed | alembic/versions/94e05b8cef7f_create_api_staging_tables.py:193-203 | dropping tables in an order where each one's referencing tables are gone succeeds and removes exactly those tables |
| Migrations.CreatesExistingFail | alembic/versions/57c1110b92dd_create_staging_tables_and_views.py:21-145 | creating a list of tables one of which already exists fails, so the transaction rolls back |
| Migrations.DropsMissingFail | alembic/versions/57c1110b92dd_create_staging_tables_and_views.py:147-160 | dropping a list of tables one of which is missing fails, so the transaction rolls back |
| Migrations.ReverseCanDrop | alembic/versions/94e05b8cef7f_create_api_staging_tables.py:193-203 | the reverse of a parents-first creation order drops children before parents |
| Migrations.RevisionChain | alembic/versions/94e05b8cef7f_create_api_staging_tables.py:15-16 | the API revision builds on `57c1110b92dd`, which builds on nothing |
| Migrations.DowngradesReverseUpgrades | alembic/versions/57c1110b92dd_create_staging_tables_and_views.py:147-160 | each downgrade drops exactly the tables its upgrade creates, in exactly the reverse order (both revisions) |
| Migrations.StagingParentsFirst | alembic/versions/57c1110b92dd_create_staging_tables_and_views.py:31-131 | all nine targets of the completion table's foreign keys are created before it |
| Migrations.StagingNoDuplicates | alembic/versions/57c1110b92dd_create_staging_tables_and_views.py:31-131 | the staging upgrade creates each table once |
| Migrations.ApiParentsFirst | alembic/versions/94e05b8cef7f_create_api_staging_tables.py:62-144 | the well header is created before job, job report and survey point, and job before job report |
| Migrations.ApiNoDuplicates | alembic/versions/94e05b8cef7f_create_api_staging_tables.py:27-190 | the API upgrade creates each table once |
| Migrations.CreateThenDropReverse | alembic/versions/94e05b8cef7f_create_api_staging_tables.py:21-203 | creating a parents-first sequence and then dropping it in reverse restores the schema |
| Migrations.StagingUpgradeThenDowngrade | alembic/versions/57c1110b92dd_create_staging_tables_and_views.py:21-160 | on a consistent schema without its tables, the staging upgrade adds exactly its ten tables and the downgrade restores the schema |
| Migrations.ApiUpgradeThenDowngrade | alembic/versions/94e05b8cef7f_create_api_staging_tables.py:21-203 | the same for the API revision and its nine tables |
| Migrations.ParentsFirstConsistent | alembic/versions/57c1110b92dd_create_staging_tables_and_views.py:31-131 | the tables of a parents-first order reference only one another |
| Migrations.RevisionsDisjoint | alembic/versions/94e05b8cef7f_create_api_staging_tables.py:27-190 | the two revisions create disjoint sets of tables |
| Migrations.UpgradeFromEmpty | alembic/versions/94e05b8cef7f_create_api_staging_tables.py:15-16 | upgrading an empty database through both revisions succeeds and creates all nineteen tables |
| Migrations.Database.Run | alembic/versions/57c1110b92dd_create_staging_tables_and_views.py:21-160 | runs the steps in order inside one transaction: success exactly when every step succeeds, and the schema then is the steps' result; otherwise the schema is unchanged |
| Migrations.Database.StagingUpgrade | alembic/versions/57c1110b92dd_create_staging_tables_and_views.py:21-145 | it succeeds exactly when `ApplySteps` of the revision's creates does, and the schema is then that result, otherwise unchanged; on a consistent schema without the staging tables it succeeds and adds exactly them; when any staging table already exists it fails and changes nothing |
| Migrations.Database.StagingDowngrade | alembic/versions/57c1110b92dd_create_staging_tables_and_views.py:147-160 | it succeeds exactly when `ApplySteps` of the revision's drops does, and the schema is then that result, otherwise unchanged; after a staging upgrade from a consistent schema it restores that schema; when any staging table is missing it fails and changes nothing |
| Migrations.Database.ApiUpgrade | alembic/versions/94e05b8cef7f_create_api_staging_tables.py:21-191 | it succeeds exactly when `ApplySteps` of the revision's creates does, and the schema is then that result, otherwise unchanged; on a consistent schema without the API tables it succeeds and adds exactly them; when any API table already exists it fails and changes nothing |
| Migrations.Database.ApiDowngrade | alembic/versions/94e05b8cef7f_create_api_staging_tables.py:193-203 | it succeeds exactly when `ApplySteps` of the revision's drops does, and the schema is then that result, otherwise unchanged; after an API upgrade from a consistent schema it restores that schema; when any API table is missing it fails and changes nothing |
| LoadSpec.KeyOfSupplied | src/etl/loader.py:74-78 | a record has a conflict key exactly when it supplies a non-NULL value for every key column, and the key is its value under each key column, in order |
| LoadSpec.InsertIgnoringAppends | src/etl/loader.py:74-79 | the duplicate-skipping insert only appends: old rows stay in place and every new row comes from the batch |
| LoadSpec.InsertIgnoringKeys | src/etl/loader.py:74-79 | under any column list, the insert keeps every key the table held and adds only keys of the batch |
| LoadSpec.InsertIgnoringCovers | src/etl/loader.py:74-79 | every batch row ends up in the table or conflicts with a row of it on the primary key or a unique index |
| LoadSpec.InsertIgnoringKeepsKeysUnique | src/etl/loader.py:74-79 | the insert never breaks a unique constraint: the primary key and every unique index stay unique |
| LoadSpec.InsertPresentIsNoOp | src/etl/loader.py:74-79 | a batch whose every row conflicts with the table changes nothing |
| LoadSpec.InsertIgnoringIdempotent | src/etl/loader.py:74-79 | inserting the same batch twice leaves the table as inserting it once, when every row has a key under some unique constraint |
| LoadSpec.NumBatches | src/etl/loader.py:54 | `(n + size - 1) // size` is the ceiling of n / size: zero for no rows, otherwise `(r - 1) * size < n <= r * size` |
| LoadSpec.Batches | src/etl/loader.py:60-61 | there are `NumBatches` slices, each non-empty and at most `size` long |
| LoadSpec.BatchesFlatten | src/etl/loader.py:60-61 | the slices, concatenated in order, are exactly the input |
| LoadSpec.BatchAt | src/etl/loader.py:60-62 | slice k starts at offset k * size, inside the input, and is `rows[k*size : k*size + size]` |
| LoadSpec.LoadFromIsLoadRows | src/etl/loader.py:60-62 | the offset loop as written loads the same rows as inserting the slices one after another |
| LoadSpec.RetryEventsAttempts | src/etl/loader.py:65 | one slice gets at most `retries` attempts |
| LoadSpec.RetryEventsWithin | src/etl/loader.py:65-85 | every attempt of one slice's retry loop is for that table and slice, numbered below `retries` |
| LoadSpec.RetryEventsOrder | src/etl/loader.py:82-90 | a wait is always followed by another attempt, and nothing follows a commit |
| LoadSpec.ExhaustedBatchWaits | src/etl/loader.py:84-90 | a slice that exhausts its retries has `retries` failed attempts and `retries - 1` waits |
| LoadSpec.RetryEventsCommit | src/etl/loader.py:65-82 | the trace records a commit exactly when the table exists and some attempt within the budget succeeds |
| LoadSpec.EveryBatchAttempted | src/etl/loader.py:60-91 | an exhausted slice does not stop the load: slices 1..num_batches each get between 1 and `retries` attempts, and no other slice number is attempted |
| LoadSpec.LoadRowsKeys | src/etl/loader.py:59-90 | under any column list, a load keeps every key the table held and adds only keys of the frame |
| LoadSpec.LoadRowsCovers | src/etl/loader.py:59-90 | when every slice commits, each row of the frame is in the table or conflicts with a row of it on the primary key or a unique index (for oil_price, on `(period, series)` too) |
| LoadSpec.LoadRowsKeysExact | src/etl/loader.py:59-90 | for a table whose only unique constraint is its primary key (all but oil_price), when every slice commits the table holds exactly its old keys plus every key of the frame |
| LoadSpec.LoadRowsKeepsKeysUnique | src/etl/loader.py:59-90 | a load keeps every unique constraint of the table, the oil_price `(period, series)` index included, whichever slices commit |
| LoadSpec.LoadRowsSameCommits | src/etl/loader.py:64-90 | two loads in which the same slices commit leave the same rows, whichever attempts fail on the way |
| LoadSpec.LoadRowsKeepsExisting | src/etl/loader.py:74-79 | rows present before a load are never removed or overwritten |
| LoadSpec.LoadRowsNothingCommitted | src/etl/loader.py:84-90 | when no slice commits, the table is unchanged |
| LoadSpec.TruncateCascadeEffect | src/etl/loader.py:36-38 | TRUNCATE ... CASCADE drops no table, empties the table and every table that references it, and leaves all others as they were |
| LoadSpec.LoadingKeepsKeysUnique | src/etl/loader.py:44-92 | a whole `load_dataframe`, on every path (skipped, raised, loaded), leaves every table of the database within its unique constraints |
| LoadSpec.TruncateKeepsKeysUnique | src/etl/loader.py:36-38 | truncation keeps every unique constraint |
| Loader.PostgresLoader.TruncateTable | src/etl/loader.py:30-42 | fails with the re-raised error exactly when the table is missing or the server refuses, and then changes nothing; otherwise the database is `TruncateCascade` of the old one and the log records the truncation |
| Loader.PostgresLoader.LoadDataframe | src/etl/loader.py:44-92 | the outcome, tables and log are `Loading`'s: an empty frame changes nothing; size 0 raises ZeroDivisionError exactly on a non-empty frame; a connection that cannot be opened raises before any batch and changes nothing; a negative size then loads nothing; otherwise the table gets `LoadRows` of the frame's slices and the log is the retry trace of slices 1..num_batches; every unique constraint is kept |
| Loader.PostgresLoader.InsertBatches | src/etl/loader.py:59-62 | the batch loop leaves the database `LoadTablesFrom(old, 0)` and logs `NumBatches` slices' retry traces |
| Loader.PostgresLoader.LoadBatchAt | src/etl/loader.py:60-62 | the slice at offset k * size is numbered `i // size + 1 = k + 1` and goes to the retry loop |
| Loader.PostgresLoader.InsertBatch | src/etl/loader.py:64-90 | the retry loop's log is the slice's retry trace; the table gets the duplicate-skipping insert when an attempt commits, otherwise it is unchanged |
| PyText.ParseNatToString | src/etl/api_extractor.py:90 | `int(str(n)) == n` |
| PyText.SecondFieldOf | src/etl/api_extractor.py:90 | `split(c)[1]` of `a + c + b` with no other `c` is `b` |
| ApiExtractor.EndpointTableInjective | src/etl/api_extractor.py:11-21 | no two endpoints feed the same table |
| ApiExtractor.InvertedMapUndoes | src/etl/api_extractor.py:111 | the inverted map sends each endpoint's table back to that endpoint |
| ApiExtractor.InvertedMapKeys | src/etl/api_extractor.py:111 | the inverted map's keys are exactly the forward map's values |
| ApiExtractor.LoadOrderIsMapped | src/etl/api_extractor.py:111-113 | a table is in `API_LOAD_ORDER` exactly when the inverted map has it, so the lookup never fails |
| ApiExtractor.ApiLoadOrderParentsFirst | src/etl/api_extractor.py:25-35 | every table of the API load order comes after the tables it references |
| ApiExtractor.ApiLoadOrderUserBeforeNote | src/etl/api_extractor.py:27-31 | user comes before note in the API load order, as the order's comment asks, although no foreign key links the two |
| ApiExtractor.ApiLoadOrderNoDuplicates | src/etl/api_extractor.py:25-35 | the API load order lists each table once |
| ApiExtractor.GetTokenCaches | src/etl/api_extractor.py:50-65 | a request is sent exactly when no non-empty token is cached; a failure leaves the cache as it was; a token obtained is cached and served afterwards without a request |
| ApiExtractor.RangeHeaderReadsBack | src/etl/api_extractor.py:80 | the `Range` header holds a `-`, and the numbers before and after it read back as the first and last row asked for |
| ApiExtractor.PageRequestsAt | src/etl/api_extractor.py:76-80 | the k-th page request asks for rows `1000k` to `1000k + 999`: offsets step by the page size |
| ApiExtractor.TotalsBoundedStep | src/etl/api_extractor.py:87-96 | after an answer on which the loop goes on, that answer's total is within the bound, and the loop from the next offset, with the page's records added, meets the premise again |
| ApiExtractor.StoppingLoopIsBounded | src/etl/api_extractor.py:75-99 | a loop that stops within k requests meets the premise with the largest total its first k answers report, whatever the server answers at offsets it never asks for |
| ApiExtractor.EveryLoopStops | src/etl/api_extractor.py:103-117 | when every endpoint's loop stops within k requests, one bound serves all endpoints, so `extract_all`'s premise holds |
| ApiExtractor.PageStepCarries | src/etl/api_extractor.py:84-95 | a round goes on only after a non-empty page with a numeric total not yet reached, and what it goes on or stops with is the records so far plus the page's records |
| ApiExtractor.LoopIsReceived | src/etl/api_extractor.py:79-99 | a loop whose round carries returns exactly the records of the pages it received, in order |
| ApiExtractor.FetchIsReceived | src/etl/api_extractor.py:79-101 | the fetch returns exactly the concatenation of the pages received, also when a network error ends it early |
| ApiExtractor.FetchRound | src/etl/api_extractor.py:84-99 | one round: an empty page, a network error, a page without a total or a reached total stop the loop; a total that is not a number raises; otherwise it goes on from the next offset with one more request |
| ApiExtractor.FirstAnswerStops | src/etl/api_extractor.py:84-99 | when the first answer stops the loop (a network error, an empty page, no numeric total, or a total already reached), the premise holds whatever comes later, and the fetch is that one request and its outcome |
| ApiExtractor.UnpaginatedFetch | src/etl/api_extractor.py:88-95 | an endpoint whose first answer is a page without a numeric total meets the loop's premise, and its fetch sends one request and returns that answer's records |
| ApiExtractor.Pages | src/etl/api_extractor.py:77 | the number of requests for n records is 1 when there are none, otherwise the ceiling of n / 1000 |
| ApiExtractor.PostgrestServes | src/etl/api_extractor.py:72 | the server's answer to an exact-count request, with a `first-last/total` header, is a correct answer whose total reads back |
| ApiExtractor.ServerPageStep | src/etl/api_extractor.py:84-96 | against a correct answer, the next slice of 1000 is added, and the loop stops exactly at the end of the records |
| ApiExtractor.FetchFromServer | src/etl/api_extractor.py:67-101 | against a server holding n records, the fetch returns all of them, in order, with `Pages(n)` requests |
| ApiExtractor.PagesExample | src/etl/api_extractor.py:77 | 2500 records take 3 requests, 2000 take 2, none take 1 |
| ApiExtractor.ExtractOverTable | src/etl/api_extractor.py:109-117 | after a successful loop, a table of the order is in the map exactly when its fetch returned records, as a frame of them; other tables are as before |
| ApiExtractor.ExtractCollects | src/etl/api_extractor.py:103-117 | a successful `extract_all` holds exactly the load-order tables whose endpoint returned records, each as a frame of those records |
| ApiExtractor.ApiExtractor.constructor | src/etl/api_extractor.py:42-48 | a new extractor has no cached token and has sent nothing |
| ApiExtractor.ApiExtractor.GetAccessToken | src/etl/api_extractor.py:50-65 | returns, caches and sends what `GetToken` says |
| ApiExtractor.ApiExtractor.FetchAllFromEndpoint | src/etl/api_extractor.py:67-101 | the token first (a raise propagates), then the fetch loop's result; the cache and the requests sent are those of `FetchAll` |
| ApiExtractor.ApiExtractor.FetchPages | src/etl/api_extractor.py:75-99 | the `while True` loop returns the fetch loop's result from offset 0 and sends exactly its page requests, in order |
| ApiExtractor.ApiExtractor.FetchPage | src/etl/api_extractor.py:80-99 | one round sends the request for `offset..offset + 999` and decides as `PageStep` |
| ApiExtractor.ApiExtractor.ExtractAll | src/etl/api_extractor.py:103-117 | the result, the token cache and the requests sent are those of `Extract` |
| ApiExtractor.ApiExtractor.ExtractTables | src/etl/api_extractor.py:109-117 | the loop over the load order matches `ExtractOver`: a raise ends it, and a non-empty result is stored under its table |
| ApiExtractor.ApiExtractor.ExtractTable | src/etl/api_extractor.py:113-116 | one table: a fetch that raises is reported; otherwise a non-empty result is stored under the table and an empty one is skipped |
| Pipeline.CsvLoadOrderParentsFirst | main.py:20-27 | all nine tables the completion table references come before it in `CSV_LOAD_ORDER` |
| Pipeline.CsvLoadOrderNoDuplicates | main.py:21-27 | `CSV_LOAD_ORDER` lists each table once |
| Pipeline.StepEffect | main.py:49-61 | one turn drops no table and leaves every table outside the cascade unchanged; when it completes, the table holds exactly its prepared frame loaded into an empty table, and the tables referencing it are empty |
| Pipeline.RunOverKeys | main.py:45-64 | a load loop creates and drops no table |
| Pipeline.RunOverCompletes | main.py:45-64 | with positive batch sizes, a loop completes exactly when every table with data exists, accepts the truncation, prepares without raising and, when its prepared frame is not empty, gets its connection; a failure carries the truncation's, the connection's or the preparation's exception |
| Pipeline.RunOverEffect | main.py:49-61 | over a parents-first order: an untouched table keeps its rows; on completion a loaded table holds exactly its fresh load (no later truncation reaches it), and a table emptied only by a cascade is empty |
| Pipeline.RunOverIdempotent | main.py:45-64 | a second run with the same data after a completed one, against a server that refuses no TRUNCATE the first accepted, opens every connection the first opened, and commits the same slices (whichever attempts fail), completes and leaves every table the same |
| Pipeline.FreshSameCommits | src/etl/loader.py:64-90 | a table's fresh load depends on failed attempts only through which slices commit |
| Pipeline.ApiCascadeWithin | src/etl/api_extractor.py:25-35 | a truncation in the API loop never reaches a table outside the API load order |
| Pipeline.EtlEffect | main.py:76-81 | after a successful extraction, the API loop drops no table and leaves the flat-file tables unchanged; on completion an endpoint's table holds exactly its records, under lower-cased column names, loaded into an empty table |
| Pipeline.ProcessTable | main.py:50-61 | one turn on the loader: prepare (a raise propagates), truncate (a failure propagates), load, as `Step` states; key constraints kept |
| Pipeline.RunOverStep | main.py:49-50 | a table without data is skipped; a failed turn ends the loop; otherwise the loop goes on from what the turn left |
| Pipeline.LoadInOrder | main.py:49-61 | the loop over an order leaves the loader as `RunOver` says |
| Pipeline.RunApiPipeline | main.py:45-64 | `run_api_pipeline` on the loader is `ApiRun`: API order, lower-cased columns, batch size 500 for notes and 5000 otherwise |
| Pipeline.RunCsvPipeline | main.py:29-43 | `run_csv_pipeline` on the loader is `CsvRun`: CSV order, lower-cased columns, the `activeflag` cast for the completion table only, default batch size |
| Pipeline.RunEtl | main.py:66-87 | extraction then the API loop; an extraction that raises is re-raised and leaves the database untouched; otherwise the outcome and the database are `ApiRun`'s |

## Left out

- HTTP, authentication and the database server are oracle parameters, not code. The server's
  answers do not depend on the token sent. The Supabase URL, headers other than `Range`, and the
  session object are not modelled.
- `ApiExtractor.ApiExtractor.FetchPages`: the `while True` loop is proved to stop under the premise
  `TotalsBounded`: every answer the loop asks for and goes on after reports a total of at most
  the ghost parameter `limit`. Answers at offsets the loop never asks for do not count.
  `StoppingLoopIsBounded` and `EveryLoopStops` show that the premise holds whenever the loop stops
  within some number of requests. So the only servers left out are those on which the source's
  loop itself never stops (each page goes on, with ever larger totals).
- The ghost parameters `fetched`, `round` and `fetch` only name the specification functions
  (`FetchesAt`, `PageStep`, `Fetches`). Their requires clauses say they are those functions.
- JSON decoding errors are folded into `NetworkError`. With current `requests` they are a
  `RequestException` and end the loop the same way. A JSON body that is not a list, and an
  `access_token` that is `null` or not a string, are not modelled.
- `int()` is modelled for ASCII digits and ASCII whitespace only. Unicode digits and spaces are
  not modelled.
- The request log records each page request's first and last row. The header text is the
  separate function `RangeHeader`.
- pandas frames are a column list plus rows of scalars. The frame `pd.DataFrame(records)` builds
  takes its columns from the `columns` parameter. Floating-point values, and `astype(int)` on
  them, are not modelled.
- `Transformer.LowerChar`: lower-cases ASCII letters only, not Unicode case mapping.
- `CsvExtractor.extract_all` and its constructor are file I/O and are not modelled. So is the CSV
  extraction that `main` runs before the API extraction (main.py:76): `RunEtl` starts at the API
  extraction.
- `time.sleep(2)` is a `Wait` event. Printing, logging and log files are left out.
- The `RESTART IDENTITY` of the TRUNCATE, the non-unique `create_index` calls, column types and the connection's
  isolation level are left out. `src/config.py` and `src/database.py` are not part of this model.
- A row that lacks a key column, or holds NULL in one, is treated as never conflicting on that
  key (the database generates a missing `id`; NULLs are distinct in a unique index).
  Duplicate-skip idempotence is stated only for rows that carry some whole key. A NULL in a
  primary-key column violates NOT NULL; that failure is left to the `fails` oracle.
- `api_extractor` being `None` when no settings load is not modelled.
