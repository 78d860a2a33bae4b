# Verified model of the change-data pipeline

This project models, in Dafny, how World Bank observations travel from the source API through
PostgreSQL, Debezium, Redpanda and ClickHouse into the dbt marts, and proves what each stage
promises. `dafny verify dfyconfig.toml` checks all of it.

The modules follow the path of the data.

| module | part of the system |
|---|---|
| `ApiClient` | pagination, retries, the fixture fetcher and the fixture recorder |
| `Gate` | record constructors, row checks, the three gates, batch assertions |
| `Loader` | the change-detecting upsert and the transactional `PostgresLoader.load` |
| `Ingest` | the three ingest handlers and `main` |
| `Model` | keys, columns, source hash, and a table's change log |
| `Landing` | typed views, ReplacingMergeTree merges, `FINAL`, the current-state read, quarantine |
| `Cdc` | source, connector and consumer as one state machine with restarts, crashes and merges |
| `Warehouse` | the incremental delete+insert fact with its 48 hour lookback |
| `Pipeline` | change data capture and fact builds, statement by statement, interleaved |
| `Schedule` | runs that do happen: driving the pipeline to a chosen state |
| `Features` | the country-year pivot and its completeness accounting |
| `Reconcile` | the parity and reconciliation gates, which compare counts |
| `EndToEnd` | loader, pipeline, fact and features put together |

## How the system is modelled

- A source table is its change log; position p of the log determines the table as of p
  (`Model.SourceAt`). Log sequence numbers increase strictly along a key and are otherwise
  unordered, because transactions interleave.
- `Cdc` is a state machine. The connector re-sends from its last acknowledged position after a
  restart. The consumer makes a block visible in the event log and in the typed table in two
  separate steps and commits its offset afterwards, so a crash may fall between any two of them,
  and both copies are at-least-once. Merges of either table happen at any time and may drop any
  rows that leave a row of the same key that is at least as new. `FINAL` returns any newest row of
  each key: redelivered copies tie and differ in their arrival stamp.
- A build of the fact is three steps: it selects into a temporary relation, deletes, and inserts.
  Capture steps may come between them, the build may be killed between them, and the dimensions a
  build reads may hold anything.
- Every theorem about runs is about an arbitrary finite run from the empty state, with no bound on
  its length, on redeliveries, on crashes, on merges or on killed builds. Where a theorem needs
  rows, dimensions or kills to be timely, that is a premise on the run (`Pipeline.TimelyRun`), and
  for each of the three a run shows that it is needed (`Schedule.LookbackIsTight`,
  `Schedule.LateDimensionIsTight`, `Schedule.KilledBuildCanLose`).
- `Loader.PostgresLoader` is a class over a committed and a working database. Any statement may
  fail: the functions `fails` in the contracts are arbitrary, and the proofs cover each of them.
- `Ingest.IngestAll` takes what each stream's pagination gave as a parameter, either rows or the
  kind of exception that ended it.

## What is proved

1. Prefix consistency. In every run, any current-state read equals the source table as of one log
   position, and positions never move back (`Cdc.PrefixConsistency`); once the pipeline is drained
   the read is the source table (`Cdc.DrainedReadIsSource`). Order, repetition, stamps and merges
   are irrelevant to what is read (`Landing.OrderFreeConvergence`).
2. Incremental equals rebuild. A build shows what a full rebuild shows on exactly the keys that
   are staged and join, or that the fact did not hold (`Warehouse.BuildAgrees`). The invariant it
   rests on is exact: it holds if and only if no choice of FINAL can lose a row
   (`Warehouse.SettledIsExact`). In every timely run each finished build agrees with the source at
   the position it read at (`Pipeline.EveryBuildAgrees`). 48 hours is the exact tolerance for late
   rows and for late dimensions (`Schedule.LookbackIsTight`, `Schedule.LateDimensionIsTight`), and
   the retry of a build killed after its DELETE is safe under an exact condition
   (`Warehouse.RetryIsSafe`).
3. The loader is all-or-nothing, keeps its ledger balanced over every sequence of calls, and
   refines the row-at-a-time map update for every chunk size (`Loader.PostgresLoader.Load`,
   `UpsertAll`).
4. The gates give the loader what it relies on. `main` loads a prefix of the selected streams,
   each loaded table is the merge of its gated batch, the exit code tells the cause of a stop, and
   without faults a stream loads if and only if its batch is loadable (`Ingest.IngestAll`).
5. Pagination has one meaning, bounded by the first page count, and replaying a recording
   reproduces it exactly when the server stops within the recorder's 50 pages or with an empty
   page 51 (`ApiClient.RecordReplayRoundTrip`).
6. The pivot is lossless and its counts conserve the fact's values (`Features`).
7. The reconciliation gate is sound over a history, in all runs or in the timely ones alone, if and
   only if no key is outlived: a key alive before is alive still, unless no key is
   (`Reconcile.CountGateIsExactOverRuns`). The parity gate is sound over a history if and only if a
   read with as many keys as a sample has the same keys (`Reconcile.ParityIsExact`). Histories
   without deletes satisfy the first, and the second as well if their keys are complete.
8. Put together, a drained pipeline shows in fact and features exactly what the loader committed
   (`EndToEnd`).

## Where the code falls short of what it says

Each of these is proved, with the exact condition where there is one.

- A DELETE must disappear from the marts according to README.md:154. An incremental build never
  removes a key: it equals the rebuild if and only if every key that the fact already held is still
  staged and joins (`Warehouse.BuildIsRebuild`). Over runs, a build leaves source keys only if and
  only if it found source keys only (`Pipeline.BuildIsExact`), and for every key deleted between two
  positions there is a run that still shows it (`Schedule.DeleteStaysInFact`).
- dbt/models/marts/fct_indicator_observation.sql:24-33 calls a retried build idempotent. The retry of
  a build that died between its DELETE and its INSERT shows every row if FINAL picks the same copies
  (`Warehouse.RetryOverSameView`). Whatever FINAL picks, it does so if and only if no live copy of a
  deleted key is more than 48 hours older than a row the DELETE left (`Warehouse.RetryIsSafe`), and
  every history with two live keys has a run in which a redelivered copy makes it fail
  (`Schedule.KilledBuildCanLose`).
- A row whose dimension arrives more than 48 hours after its own stamp can be left out for good
  (`Schedule.LateDimensionIsTight`, `Warehouse.LostStays`); the parity gate waits for observations only.
- The parity gate can pass while sampled keys are missing. It is sound if no delete lies between the
  sample and the position read (`Reconcile.ParityGateIsSound`), and over a whole history exactly
  under its condition of item 7 above. Whenever a key is deleted while all keys are complete, and the
  next insert is of a key not alive before, there is a run that fools it
  (`Reconcile.ParityFooledByDelete`).
- The reconciliation gate compares counts, so a dropped row and a stray one cancel. Right after a
  build it passes if and only if as many fact keys were left unrefreshed as staged rows were dropped
  by the joins (`Reconcile.CountGateIsExact`). Without deletes it is the comparison of key sets in
  every state of every run (`Reconcile.CountGateWithoutDeletes`). Over any history it is that exactly
  under its condition of item 7; whenever a key is outlived there is a timely run, ending in a killed
  build, that fools it (`Reconcile.KillFools`). A build that misses the dimensions of fresh rows can
  fool it as well, without a kill (`Reconcile.MissingDimensionsFool`). Only if builds find every
  dimension and are never killed after a DELETE does the weaker condition do that positions with
  equally many live keys have the same live keys (`Reconcile.CountGateUndisturbed`).
- The gates let exceptions out: a row that is not an object, an infinite date, an oversized number, an
  infinite decimal count or topics that cannot be iterated end the whole gate instead of rejecting
  the row (`Gate.AbortsExactly`).
- A decimal count outside `smallint` passes the gate and fails the load
  (`Ingest.GatedBatchFits`). A NaN or Infinity token in a rejected payload is not valid `jsonb`, so
  recording that rejection fails the load as well (`Loader.PostgresLoader.Load`).
- A recording is cut after 50 pages (`ApiClient.RecordReplayRoundTrip`), and the recorder raises on
  page counts given as text, which the client accepts (`ApiClient.DrainedButNotRecorded`).
- `feature_count` counts every value of the group, not only those of configured indicators as the
  comment at dbt/models/marts/agg_country_year_features.sql:73-75 says; the two agree if and only
  if the group has no value of an unconfigured indicator (`Features.CountIsColumns`).

## Model

| member | source | states |
|---|---|---|
| Model.ValidAppend | sql/clickhouse/002_raw_cdc.sql:178-181 | A legal change whose number is the latest of its key keeps the log a history the source can have produced. |
| Landing.RenderThenType | sql/clickhouse/002_raw_cdc.sql:452-473 | Typing a message loses nothing of the change: the filter admits it iff its key is complete, and the row carries key, LSN, deletion mark and columns, also through the Int16 year. |
| Landing.Int16Wraps | sql/clickhouse/002_raw_cdc.sql:290 | Writing a year into the Int16 column keeps it if it fits and otherwise its residue modulo 65536. |
| Landing.OperationTells | sql/clickhouse/002_raw_cdc.sql:465-467 | Table name, operation code and deletion mark of a message tell the table and the kind of the change; a snapshot message, operation r, is filtered and typed as the insert of the same row and not quarantined with a complete key. |
| Landing.FinalExists | sql/clickhouse/002_raw_cdc.sql:185-189 | Every bag of row versions has a FINAL read, so the theorems over all FINAL reads are not empty. |
| Landing.MergeKeepsMeaning | sql/clickhouse/002_raw_cdc.sql:175-189 | No background merge changes which set of changes a landing table represents. |
| Landing.FinalIsLatest | sql/clickhouse/002_raw_cdc.sql:178-181 | FINAL finds, for each complete key, a row carrying the change with the highest LSN, however copies tie. |
| Landing.FinalWinner | sql/clickhouse/002_raw_cdc.sql:178-181 | Conversely, whatever FINAL returns carries the last change of its key. |
| Landing.SameChangesSameRead | dbt/macros/ch_current_state.sql:26-30 | Two landing tables that represent the same changes give the same current-state read, whatever copies and merge states they hold. |
| Landing.DeliveryAddsChange | sql/clickhouse/002_raw_cdc.sql:452-473 | Delivering a message adds exactly its change to what the table represents, however often it was delivered before. |
| Landing.OrderFreeConvergence | sql/clickhouse/002_raw_cdc.sql:27-42 | The same set of events in any order, with any repetition, stamps and interleaved merges, reads the same. |
| Landing.TypedOrQuarantined | sql/clickhouse/002_raw_cdc.sql:497-527 | A message that names its topic's table is typed or quarantined, with a known operation never both; its reason is the incomplete key if the operation is known and the operation otherwise. |
| Cdc.CarriedBetween | sql/clickhouse/002_raw_cdc.sql:27-30 | In a topic without gaps, every log position between two reaches is carried by a message between them, so a redelivered block contains whatever was not yet covered. |
| Cdc.BlockAddsChanges | sql/clickhouse/002_raw_cdc.sql:452-473 | Flushing a block to the typed table adds the changes of its messages and nothing else. |
| Cdc.FlushTypedKeeps | sql/clickhouse/002_raw_cdc.sql:27-30 | A flush, first or redelivered, moves the readable position to the block's reach, never back. |
| Cdc.FlushEventsKeeps | sql/clickhouse/002_raw_cdc.sql:385-397 | A flush to the event log keeps it a gapless prefix of the topic and never shortens it. |
| Cdc.MergeEventsKeeps | sql/clickhouse/002_raw_cdc.sql:69-71 | Merges of the event log, confined to a month or not, lose no offset. |
| Cdc.SendKeeps | cdc/connectors/postgres-source.json:80-89 | A connector that resumes from its recorded position never leaves a gap in the topic. |
| Cdc.StepKeeps | sql/clickhouse/002_raw_cdc.sql:24-42 | Each of the twelve steps keeps the invariant, with positions that do not decrease. |
| Cdc.WinnerIsSource | sql/clickhouse/002_raw_cdc.sql:178-181 | The change with the highest LSN of a key decides whether the source holds the key and with which columns. |
| Cdc.ReadIsSource | dbt/macros/ch_current_state.sql:26-30 | Under the invariant, every current-state read is the source table as of the position, restricted to complete keys. |
| Cdc.PrefixConsistency | sql/clickhouse/002_raw_cdc.sql:24-42 | Monotone prefix consistency: along any run every read equals the source as of a position that never moves back and is at least what the consumer committed. |
| Cdc.DrainedReadIsSource | dbt/macros/ch_current_state.sql:26-30 | When all changes are sent and committed, the read is the source table itself. |
| Cdc.CommittedIsNotLost | sql/clickhouse/002_raw_cdc.sql:399-404 | A committed message is in the typed table, or superseded there by a later version, or in quarantine as an incomplete key. |
| Cdc.EventLogIsTopicPrefix | sql/clickhouse/002_raw_cdc.sql:27-42 | In any run a FINAL read of the event log holds each message of a topic prefix exactly once with its payload, at least up to the committed offset, and no committed message is lost. |
| Warehouse.FactTable.Delete | dbt/models/marts/fct_indicator_observation.sql:24-33 | The DELETE leaves the rows whose keys are not in the temporary relation, and does nothing on the first build. |
| Warehouse.FactTable.Build | dbt/models/marts/fct_indicator_observation.sql:1-11 | A build that is not killed leaves the table that `Built` specifies, and one killed between its statements the table that `Halved` specifies; every row it adds carries a staged row's key, columns and stamp, the country's columns as country and the indicator's as indicator. |
| Warehouse.SelectJoins | dbt/models/marts/fct_indicator_observation.sql:66-96 | The SELECT gives, for each staged row of the window whose references the dimensions hold and for no other, a row with its key, observation columns and stamp, the columns the dimensions hold for its country and those they hold for its indicator. |
| Warehouse.BuildJoins | dbt/models/marts/fct_indicator_observation.sql:66-96 | Every row of the fact after a build was there before or is such a join of a staged row. |
| Warehouse.BuildJoinsAll | dbt/models/marts/fct_indicator_observation.sql:66-96 | Every staged row of the window that joins is in the fact after the build, so joined. |
| Warehouse.SelectIs | dbt/models/marts/fct_indicator_observation.sql:42-97 | The SELECT returns the staged rows inside the window that join both dimensions, one row each and nothing else. |
| Warehouse.BuiltIs | dbt/models/marts/fct_indicator_observation.sql:24-33 | After a build the fact holds the selected rows and every earlier row of another key. |
| Warehouse.BuildKeepsGrain | dbt/models/marts/fct_indicator_observation.sql:17-28 | Neither a build nor one killed after its DELETE duplicates a natural key. |
| Warehouse.ArrivalKeeps | dbt/models/marts/fct_indicator_observation.sql:35-40 | Rows that become visible within 48 hours of their stamp cannot fall behind the window of what is loaded. |
| Warehouse.MergeKeeps | dbt/models/marts/fct_indicator_observation.sql:35-40 | Background merges between builds do not disturb the incremental invariant. |
| Warehouse.MaxSyncedIs | dbt/macros/ch_current_state.sql:68-75 | The boundary of the window is taken at the greatest loaded arrival stamp. |
| Warehouse.BuildShows | dbt/models/marts/fct_indicator_observation.sql:42-53 | Every staged row that joins is in the fact after the build: selected now, or behind the window and loaded before. |
| Warehouse.BuildAgrees | dbt/models/marts/fct_indicator_observation.sql:35-40 | Incremental equals rebuild, key by key: unique keys, and the observation columns of the full rebuild on a key iff it is staged and joins or was not in the fact. |
| Warehouse.BuildSettles | dbt/models/marts/fct_indicator_observation.sql:88-96 | Whatever dimension rows are missing, a build keeps the invariant iff no row it could not join falls behind the window of the rows it selects and those it keeps. |
| Warehouse.BuildKeeps | dbt/models/marts/fct_indicator_observation.sql:42-99 | So a build that misses dimensions only for rows of the last 48 hours keeps what the next build relies on. |
| Warehouse.HalfSettles | dbt/models/marts/fct_indicator_observation.sql:24-33 | A build killed after its DELETE keeps the invariant iff no live copy of a deleted key is more than 48 hours older than a row left. |
| Warehouse.SettledIsExact | dbt/macros/ch_current_state.sql:56-75 | The invariant holds iff no copy that FINAL may pick can be lost by the next build. |
| Warehouse.RetryOverSameView | dbt/models/marts/fct_indicator_observation.sql:24-28 | A build killed after its DELETE and retried over the same staging view shows every staged row that joins. |
| Warehouse.RetryIsSafe | dbt/models/marts/fct_indicator_observation.sql:24-28 | Its retry is complete for every choice of FINAL iff no live copy of a deleted key is more than 48 hours older than a row the DELETE left. |
| Warehouse.KeysAfterBuild | dbt/models/marts/fct_indicator_observation.sql:24-28 | The fact's keys after a build are those it had and the staged ones that join. |
| Warehouse.BuildIsRebuild | README.md:154 | An incremental build equals the full rebuild altogether iff every key of the fact is still staged and joins. |
| Warehouse.SecondBuildChangesNothing | dbt/models/marts/fct_indicator_observation.sql:24-27 | An immediate second build changes no observation column of a key, whichever copies FINAL picks, if the dimensions still hold its references or still lack them. |
| Warehouse.UnstagedStays | dbt/models/marts/fct_indicator_observation.sql:24-28 | A build leaves keys that are not staged, or lack a dimension row, as they were. |
| Warehouse.BehindWindowIsIgnored | dbt/macros/ch_current_state.sql:56-66 | What the fact shows for a row behind the window does not change, right or wrong. |
| Schedule.LookbackIsTight | dbt/macros/ch_current_state.sql:56-75 | For any visibility delay beyond 48 hours there is a run after which a staged row that joins is not loaded, by the next build or any later one, until new rows arrive. |
| Schedule.LateDimensionIsTight | dbt/models/marts/fct_indicator_observation.sql:88-96 | For any delay of a dimension row beyond 48 hours there is a run, without any delay of the rows themselves, after which a row that refers to it is not loaded, now or later, although it now joins. |
| Warehouse.LostStays | dbt/macros/ch_current_state.sql:56-75 | A key that is behind the window of a row that stays in the fact stays out of it under every further build, whatever FINAL picks and whatever the dimensions hold. |
| Warehouse.DeletedKeySurvives | README.md:154 | A key of the fact that is no longer staged stays in the fact with its columns, and a rebuild would not have it. |
| Schedule.DeleteStaysInFact | README.md:154 | For every history and every key alive at one position and deleted at a later one, there is a run that builds at the first and whose next build at the second still keeps the key. |
| Pipeline.RunGrounded | dbt/models/marts/fct_indicator_observation.sql:17-28 | In every state of every run, timely or not, the fact has unique keys and holds only keys that the source has had. |
| Pipeline.CdcStepMaintains | dbt/models/marts/fct_indicator_observation.sql:35-40 | Every step of change data capture, redelivery and merges included, keeps the incremental invariant. |
| Pipeline.KillIsTimely | dbt/models/marts/fct_indicator_observation.sql:24-33 | What is required of a kill after the DELETE is that no live copy of a deleted key is more than 48 hours older than a row left. |
| Schedule.KilledBuildCanLose | dbt/models/marts/fct_indicator_observation.sql:24-33 | In every history with two live keys there is a run, without late rows or missing dimensions and timely in every step but the kill it ends with, after which some copy that FINAL may pick is lost to the retry. |
| Pipeline.StagedAreSource | dbt/macros/ch_current_state.sql:26-30 | The staging view's keys are the source's complete keys as of the read's position. |
| Pipeline.BuildMeansThat | dbt/models/marts/fct_indicator_observation.sql:42-99 | What a build will leave: for a source key that joins, the source's columns as of the read; for any other key, what the fact showed before. |
| Pipeline.NoDeletesNoStrays | dbt/models/marts/fct_indicator_observation.sql:42-99 | If the source deleted nothing, the fact holds source keys only, in every run. |
| Pipeline.BuildIsExact | README.md:154 | After a build the fact has source keys only iff it had source keys only before. |
| Pipeline.EveryBuildAgrees | sql/clickhouse/002_raw_cdc.sql:24-42 | In every timely interleaving of writes, redeliveries, crashes, merges, builds and killed builds, each finished build agrees with the source at the position it read at; positions never move back and cover the committed offsets. |
| Features.GrainIsUnique | dbt/models/marts/agg_country_year_features.sql:13-15 | One row for each country and year that has facts and a country row, and no other. |
| Features.PivotIsLossless | dbt/models/marts/agg_country_year_features.sql:60-82 | With unique fact keys a column holds a value iff the fact holds that value for the country, year and indicator, so unpivoting returns the facts. |
| Features.ColumnsAreCovered | dbt/models/marts/agg_country_year_features.sql:69-77 | The populated columns are as many as the group's values of configured indicators. |
| Features.CountIsColumns | dbt/models/marts/agg_country_year_features.sql:73-79 | feature_slots is the number of columns; feature_count is never below the populated ones, and equals them and stays within the slots iff no value belongs to an unconfigured indicator. |
| Features.FeatureCountsConserve | dbt/models/marts/agg_country_year_features.sql:60-103 | The feature counts sum to the non-null facts that have a country row. |
| Gate.CleanTextIsClean | ingest/contracts.py:111-124 | Cleaned text is non-empty, has no space at either end and is a fixed point of cleaning. |
| Gate.SpacesAre | ingest/contracts.py:123 | The characters stripped are the 29 that Python takes for whitespace. |
| Gate.CleansIs | ingest/contracts.py:111-124 | clean_text gives the text between the outer spaces, null iff there is none, and nothing else does. |
| Gate.ReadsIs | ingest/contracts.py:135-156 | to_float gives the double a field holds, as a number or as text, and null for no number, a boolean or other text. |
| Gate.ReadsIntIs | ingest/contracts.py:159-161 | to_int gives that double rounded toward zero, if it is finite. |
| Gate.DescribesIs | ingest/contracts.py:206-328 | A constructor gives a record iff the record holds its row field by field: cleaned id, name and attributes and both parsed coordinates for a country; cleaned id, name and attributes for an indicator; cleaned iso3 and indicator, truncated year and decimal count, parsed value and the vintage of the response for an observation. |
| Gate.ValidExactly | ingest/checks.py:76-117 | A row is valid, with this record, iff the record holds it field by field, its ids are allowed, latitude and longitude are null or in [-90, 90] and [-180, 180], the year is in 1960..2100 and the value null or finite. |
| Gate.InvalidExactly | ingest/checks.py:76-117 | A row is invalid for the first check that its record fails, or for the contract iff no record holds it and it does not end the gate. |
| Gate.GateRows | ingest/checks.py:125-201 | The gate's two lists are the first valid rows of each key and all other rows with their reasons, in order; an exception leaves it iff some row aborts. What a valid row is and holds is stated by the rows above, field by field. |
| Gate.GatePartition | ingest/checks.py:125-201 | Nothing is lost or doubled, accepted keys are pairwise distinct, and accepted records are exactly the first valid occurrences. |
| Gate.ValidIsAccepted | ingest/checks.py:138-145 | Every valid row's key is accepted, at its first valid occurrence. |
| Gate.AcceptedDescribe | ingest/checks.py:125-201 | Every accepted record holds one of the rows field by field and is permitted, and no earlier row gives a permitted record of its key. |
| Gate.PermittedIsAccepted | ingest/checks.py:125-201 | Every row that gives a permitted record has its key among the accepted ones. |
| Gate.RejectedAre | ingest/checks.py:125-201 | The rejections are rows in their order, each with its own payload: an invalid row with its reason, a valid one as a duplicate of an earlier valid row. |
| Gate.AcceptedAreAdmitted | ingest/checks.py:76-117 | An accepted record has a complete key inside the allowed sets, a year in 1960..2100 and a null or finite value. |
| Gate.AbortsExactly | ingest/contracts.py:159-161 | For every stream and every row, the row ends the whole gate iff it is not an object, or its key is usable and a coordinate is oversized, the topics cannot be iterated, a value is oversized or a decimal count infinite, or its date is infinite. |
| Gate.GateAborts | ingest/checks.py:125-201 | An exception leaves a gate iff one of its rows is such a row. |
| Gate.AcceptableKeeps | ingest/checks.py:235-249 | A batch that passes keeps at least 95 percent of the floor. |
| Gate.AcceptableExactly | ingest/checks.py:235-249 | A batch passes iff it has the floor and at most five percent of its rows were rejected. |
| Loader.CountsAddUp | ingest/load_postgres.py:180-183 | Inserted, updated and unchanged partition the batch. |
| Loader.EmitKeeps | sql/oltp/001_schema.sql:52-60 | Each write keeps the table equal to the replay of its change log, with increasing sequence numbers. |
| Loader.UpsertAccounts | ingest/load_postgres.py:153-157 | Whatever batch a statement is given, it returns one flag for each emitted change, at most one for each row. |
| Loader.EffectIsOriginal | ingest/load_postgres.py:153-157 | With distinct keys, whether a record inserts, updates or does nothing depends only on the table before the load. |
| Loader.ApplyMerges | ingest/load_postgres.py:153-157 | The row-at-a-time specification writes each record iff it is new or its hash differs, and keeps every other row. |
| Loader.ChunkRefines | ingest/load_postgres.py:168-184 | A statement over any chunk of a distinct, fitting batch succeeds, continues the specification and returns the insert and update counts. |
| Loader.QuietReingest | sql/oltp/001_schema.sql:52-57 | Applying the same records again leaves table and log as they are and finds every record unchanged. |
| Loader.SecondLoadIsQuiet | sql/oltp/001_schema.sql:52-57 | A second load of a batch inserts and updates nothing and emits no change event. |
| Loader.LoadedTableAgrees | ingest/contracts.py:164-180 | Skipping rows by hash loses nothing: after a load the table holds every record's columns and hash. |
| Loader.WrittenRowIs | ingest/load_postgres.py:153-157 | A row is written iff its key is new or its digest differs, and then holds the record's columns, their digest and the time of the load; otherwise it is the row from before. |
| Loader.CountsAreKeys | ingest/load_postgres.py:180-183 | With distinct keys, inserted is the number of keys the table lacked and updated the number of those it held with another digest. |
| Loader.UpsertKeepsHashes | ingest/load_postgres.py:153-157 | The loader keeps every stored digest the digest of its row. |
| Loader.NewKeyTwiceFails | ingest/checks.py:138-140 | The upsert does not collapse duplicates: a statement that meets a new key twice fails, so the gate's check is a precondition. |
| Loader.WriteTwiceFails | ingest/checks.py:138-140 | More generally, a statement fails that meets again the key of a record it inserts or changes. |
| Loader.UnreferencedFails | sql/oltp/001_schema.sql:106-109 | A statement fails that would insert an observation without its country or its indicator. |
| Loader.RefsAre | ingest/load_postgres.py:319-333 | The known keys of a dimension are exactly the ids of its rows. |
| Loader.UnsafeIs | ingest/load_postgres.py:198-202 | A rejected payload is refused by jsonb iff it holds a NaN or an infinity as a number. |
| Loader.LoadBalances | ingest/load_postgres.py:269-297 | Success keeps the ledger: watermark written = emitted changes = inserted + updated over success rows, watermark seen = rows seen, reject rows = rejected. |
| Loader.FailureBalances | ingest/load_postgres.py:298-312 | A failure row changes no sum of the ledger. |
| Loader.PostgresLoader.constructor | sql/oltp/001_schema.sql:152-194 | The empty database satisfies the invariant. |
| Loader.PostgresLoader.Execute | ingest/load_postgres.py:177-178 | One statement either does what the upsert specifies or changes nothing. |
| Loader.PostgresLoader.UpsertAll | ingest/load_postgres.py:168-184 | For every chunk size, table, log and counts are those of the row-at-a-time specification; without it the account still balances; distinct fitting batches fail only by one of the statements issued being lost. |
| Loader.PostgresLoader.RecordRejections | ingest/load_postgres.py:187-202 | All rejections are stored in order, and it fails only by a lost statement or an invalid jsonb payload. |
| Loader.PostgresLoader.RecordFailure | ingest/load_postgres.py:298-312 | The committed state gains exactly one failed row, or nothing if that bookkeeping fails too. |
| Loader.PostgresLoader.LoadBody | ingest/load_postgres.py:264-297 | An error-free body holds the whole load in the working state, uncommitted. |
| Loader.PostgresLoader.FinishRun | ingest/load_postgres.py:269-297 | The running row becomes the success row and the watermark advances; `Loader.LoadedIs` gives both field by field. |
| Loader.LoadedIs | ingest/load_postgres.py:269-297 | A committed load adds one run with its stream, times, status success, rows seen and the inserted, updated, unchanged and rejected counts each in its own column; one reject row for each rejection, in order, with its reason and payload; and a watermark with this time and cursor and the counts added; all else stays. |
| Loader.FailedIs | ingest/load_postgres.py:303-311 | A rolled back load adds one run with its stream, times and status failed that counts nothing; all else stays. |
| Loader.PostgresLoader.Load | ingest/load_postgres.py:230-316 | All or nothing: the committed state is unchanged, or gains one failed row, or is the whole load with audit row, rejects and watermark as `CommittedAs` writes them out field by field; never a running row. With distinct fitting records inserted and updated are the numbers of absent and of changed keys, and without faults it commits iff every rejected payload is valid jsonb. |
| Ingest.GatedBatchFits | ingest/checks.py:97-117 | A gated batch has distinct keys and cannot break a foreign key or the year CHECK; it fits iff its decimal counts are in smallint. |
| Ingest.LoadKeepsReferential | sql/oltp/001_schema.sql:104-109 | Loading an admitted batch keeps every observation referenced, in range and null or finite. |
| Ingest.PerIndicator | ingest/run.py:132-134 | The dictionary holds exactly the indicators that some accepted observation names in its key, each with the number of those observations. |
| Ingest.EachOnce | ingest/run.py:63-64 | Distinct dimension keys give as many ids as records, so a complete set is complete once. |
| Ingest.PassedIsAdmitted | ingest/run.py:51-141 | A batch past both assertions holds, for a dimension, a record with key id for each configured id and no other, each once; for observations, at least 950 records and for each configured indicator one whose key names it. |
| Ingest.ReadyExactly | ingest/run.py:51-141 | A fetched stream passes iff no row ends the gate, it has as many rows as are configured, or 1000 observations, at most five percent of them are rejected, and every configured id has an accepted record that names it. |
| Ingest.AbortsByRows | ingest/run.py:180-190 | Whether main ends with an uncaught exception before a load depends on the fetched rows alone, and exactly as the gates' condition on single rows says. |
| Ingest.Screen | ingest/run.py:51-141 | The whole outcome before the load: an exception iff a row aborts or the fetch raised another error, the gated batch iff the ratio and floor hold and no configured id is missing, and otherwise a gate failure. |
| Ingest.FitsIsLoadable | ingest/checks.py:97-117 | A batch past the assertions fits the tables iff its decimal counts are in smallint, and can be loaded iff its rejected payloads are valid jsonb as well. |
| Ingest.LoadScreened | ingest/run.py:141-147 | The load of a batch past the assertions: the table becomes its merge and the audit row tells its counts, or nothing is loaded; without a lost statement it loads iff the batch is loadable. |
| Ingest.IngestStream | ingest/run.py:51-147 | Without a lost statement a handler returns iff its batch is loadable; then its table is the row-at-a-time merge of the gated, complete batch. It stops iff the fetch or an assertion failed, and anything but a return has loaded nothing. |
| Ingest.ReingestIsQuiet | ingest/run.py:51-147 | Ingesting the same rows of a stream again, gate included, inserts and updates nothing and leaves table and change log as they are. |
| Ingest.DimensionsArrive | ingest/run.py:59-68 | A dimension stream that loads brings every configured id into the database, and no stream takes a dimension row away. |
| Ingest.RunHandler | ingest/run.py:171-190 | One handler after the streams already loaded: it adds its own table and success row, or stops the run for a stated cause; a gate or contract failure changes nothing at all. |
| Ingest.IngestAll | ingest/run.py:150-196 | The loaded streams are a prefix of the selected ones in dependency order; each of their tables is the merge of its batch and has its success row, in order, the others are unchanged; exit 0 iff all are loaded, 2 iff the next one failed a contract or an assertion, and without faults the next one was not loadable. |
| ApiClient.Fetcher.Get | ingest/api_client.py:188-204 | A recording answers request after request with its pages in order, then empty pages, whatever page is asked for, and moves only its own cursor. |
| ApiClient.NextAnswerIs | ingest/api_client.py:188-204 | A live fetcher gives the server's answer; a recording gives its response at the cursor and moves it on by one, past its end a well-made response without rows; a path without a recording is refused. |
| ApiClient.Fetcher.Paginate | ingest/api_client.py:233-289 | The pages are all pages up to the first empty, refused or last one by the first count, for live servers and recordings, and a recording moves on once for each fetch; `ApiClient.DrainsAre` says what that is in terms of the responses. |
| ApiClient.ParsedIs | ingest/contracts.py:67-103 | A response is refused iff it is not an array of two or more with an object with sound metadata and an integer page count first and null or a list second; otherwise its page has all rows, the vintage and the page count of the response. |
| ApiClient.DrainsAre | ingest/api_client.py:256-289 | Page i of a drain has all rows, the vintage and the page count of response i; every response before the last one fetched is well made, has rows and does not reach the first count; the last one is refused, empty, reaches the first count, or is number 10000. |
| ApiClient.DrainedRows | ingest/api_client.py:256-289 | The rows a drain yields are the rows of the responses, one after the other: none is lost, added or reordered. |
| ApiClient.DrainsOnce | ingest/api_client.py:233-289 | What pagination yields, how it ends and how many fetches it takes are determined by the server. |
| ApiClient.FetchBound | ingest/api_client.py:284-289 | At most max(1, first count, but no more than 10000) fetches, and the guard is hit only if the first count is beyond it. |
| ApiClient.LaterCountsAreIgnored | ingest/api_client.py:236-250 | A server that changes its page count after page 1 is drained the same. |
| ApiClient.GetWithRetry | ingest/api_client.py:123-161 | At most five attempts; the first one that is not retryable decides, and it gives up iff the first five are all retryable; a JSON null counts as no body and is never handed on. |
| ApiClient.RetriedAre | ingest/api_client.py:129-161 | No response, a server error, a body that is not JSON and a JSON null are tried again; any other 4xx, and a success with a JSON body, are final. |
| ApiClient.RequestBound | ingest/api_client.py:123-161 | A whole pagination makes at least one request and at most five for each page fetched, and at most five times max(1, min(first count, 10000)) in all. |
| ApiClient.FetchPages | scripts/record_fixtures.py:57-87 | The recording is pages 1 to the first stop or 50; it raises iff some page reached is one it cannot handle. |
| ApiClient.DecideIs | scripts/record_fixtures.py:76-86 | The recorder stops at an error envelope, at a response without rows, and at the page count of the first response, taken as one if zero, null, absent or false. |
| ApiClient.ErrorEnvelopeIsRecorded | scripts/record_fixtures.py:76-78 | An error envelope is recorded as it is, the recorder does not raise, and draining the replay is refused at the first fetch. |
| ApiClient.DrainInsideRecording | ingest/api_client.py:188-204 | Where the client stops within the recording, draining the replay is draining the server, errors included. |
| ApiClient.DrainPastRecording | ingest/api_client.py:200-203 | Otherwise the recording is 50 pages, and the replay ends complete after them. |
| ApiClient.RecordReplayRoundTrip | scripts/record_fixtures.py:57-87 | Recording then replaying gives the same pages and the same ending iff one of the server's first 50 pages is refused, empty or the last by its first count, or its page 51 is empty. |
| ApiClient.FetchersRoundTrip | ingest/api_client.py:180-204 | The same for the fetchers: draining a fresh fixture fetcher over a recording gives what draining the live fetcher gives, under the same condition. |
| ApiClient.SmallServersRoundTrip | scripts/record_fixtures.py:57-87 | In particular for every server whose first page count is at most 50. |
| ApiClient.DrainedButNotRecorded | scripts/record_fixtures.py:80-84 | Of the servers the client drains to the end, the recorder raises on exactly those with rows and a page count given as text. |
| Reconcile.CountGateIsExact | dags/utils/gates.py:187-209 | Against the view the build read, whatever its joins dropped: the gate passes iff as many fact keys were left unrefreshed as staged keys were dropped, the key sets are equal iff these are the same keys, and the fact shows what a rebuild shows iff none was left unrefreshed. |
| Reconcile.CountGateWhenCovered | dags/utils/gates.py:187-209 | After a build that drops no staged row the gate passes iff the fact equals the rebuild. |
| Reconcile.CountGateWithoutDeletes | dags/utils/gates.py:187-209 | Without deletes the count gate is the comparison of key sets in every state of every run, against any staging view of that state. |
| Reconcile.CountGateHoldsEverywhere | dags/utils/gates.py:187-209 | If no key is outlived, the gate is the comparison of key sets in every state of every run, against every staging view of it, under late rows, missing dimensions and killed builds alike. |
| Reconcile.CountGateIsExactOverRuns | dags/utils/gates.py:187-209 | Over any history it is sound in all runs, and likewise in all timely runs, iff no key is outlived: a key alive before is alive still, unless no key is. |
| Reconcile.KillFools | dags/utils/gates.py:187-209 | Whenever a key is outlived there is a timely run, ending in a killed build, after which the gate passes and the key sets differ. |
| Reconcile.MissingDimensionsFool | dags/utils/gates.py:204-209 | Whenever the keys that join at one position are as many as those alive at a later one, and not the same, there is a timely run without kills that passes with different keys. |
| Reconcile.CountGateUndisturbed | dags/utils/gates.py:187-209 | The special case of runs whose builds find every dimension and are not killed after a DELETE: sound in all of them iff positions with equally many live complete keys have the same. |
| Reconcile.CountsCanCancel | dags/utils/gates.py:187-209 | For every two positions with equally many live complete keys, and not the same, there is an undisturbed run that builds at the one, stages at the other, and passes with different keys. |
| Reconcile.GateCdcParity | dags/utils/gates.py:68-97 | The gate passes with the first count that reaches the expected one, and fails iff the source is empty or no poll reaches it. |
| Reconcile.SampleIsAll | dags/utils/gates.py:68-89 | If a read with as many keys as a sample always has the same keys, a read with more has all of them. |
| Reconcile.MoreIsAll | dags/utils/gates.py:187-209 | If equally many live complete keys are always the same, more of them means all of them. |
| Reconcile.ParityGateIsSound | dags/utils/gates.py:68-89 | The landed count is read as of a position at or after the committed one; if no delete lies between it and the sample and the count reaches the expected one, every complete key in PostgreSQL at the sample is in the landing table. |
| Reconcile.ParityIsExact | dags/utils/gates.py:68-89 | Over any history, incomplete keys included, the gate is sound in all runs iff a position with as many complete keys as another has keys has just these. |
| Reconcile.CompleteIdentify | dags/utils/gates.py:68-89 | Where all keys are complete, as those the loader writes are, that condition says that positions with equally many live keys have the same. |
| Reconcile.PollForParity | dags/utils/gates.py:68-97 | Along a run over such a history, the polling gate passes only after a poll whose read found every sampled key. |
| Reconcile.ParityFooledByDelete | dags/utils/gates.py:68-89 | For every history in which a key is deleted while all live keys are complete, and the next insert is of a key not alive before, there is a run in which the gate passes and that key has not landed. |
| Reconcile.NoDeletesNoneOutlived | dags/utils/gates.py:187-209 | Histories without deletes outlive no key. |
| Reconcile.NoneOutlivedIdentifies | dags/utils/gates.py:187-209 | Where no key is outlived, positions with equally many live complete keys have the same. |
| Reconcile.NoDeletesIdentify | dags/utils/gates.py:187-209 | Histories without deletes satisfy both conditions. |
| Reconcile.IdentifyingIsNotEnough | dags/utils/gates.py:204-209 | The converse fails: over a history that inserts two keys and deletes one, counts identify the key sets, and for any two keys that some dimensions tell apart a timely run without kills passes with the deleted key in the fact and the live one missing. |
| Reconcile.OneForAnotherFools | dags/utils/gates.py:187-209 | Insert one key, delete it, insert another: for any two complete keys there are runs over this history that fool the one gate and the other. |
| EndToEnd.FactShowsDatabase | docs/design-report.md:62 | After any timely run, late dimensions and killed builds in it included, a finished build that read a drained landing table and joined it shows every committed observation once, with its columns, and nothing else. |
| EndToEnd.FeaturesShowDatabase | dbt/models/marts/agg_country_year_features.sql:60-103 | A feature column holds a value iff a committed observation does. |
| EndToEnd.DrainedDimensionsCover | dbt/models/marts/fct_indicator_observation.sql:88-96 | Once the three tables are drained, the dimensions hold both references of every staged observation, so the inner joins drop nothing. |
| EndToEnd.DimensionsHoldAll | dbt/models/marts/dim_country.sql:27-43 | The dimensions hold each committed country and indicator with its own columns, and no other. |
| EndToEnd.LoaderMessagesAreTyped | sql/clickhouse/002_raw_cdc.sql:399-404 | Every change the loader commits produces a message that is typed and never quarantined. |

## Left out

- Debezium, Kafka, PostgreSQL and ClickHouse internals: only the step semantics the repository
  states. One partition for each topic, as the connector configures; a replication slot that is
  never lost; no new snapshot.
- Cdc.PrefixConsistency: the three business tables are separate instances of the machine; nothing
  is said about reading two tables at one moment.
- Cdc.MergeEventsKeeps: the event log's TTL is not modelled, nor `ops.cdc_freshness`, which reads
  without FINAL and may count duplicates.
- Pipeline.EveryBuildAgrees: that rows become visible, and dimension rows arrive, within 48 hours of
  a row's stamp, and that a build killed after its DELETE leaves no row more than 48 hours younger
  than a copy it deleted, are premises; the code does not enforce them. The model lets a flush carry
  any stamp of the tolerated past, also one older than the flush before it.
- Warehouse.BuildAgrees: denormalised dimension columns are outside the agreement, because a change
  to a dimension alone does not refresh them.
- Warehouse.KeysAfterBuild: incremental builds do not remove keys deleted at the source; this is
  stated, not repaired.
- Reconcile.CountGateIsExactOverRuns: soundness is asked of states without a build under way, as the
  gate runs after the builds; a killed build leaves such a state too.
- Reconcile.GateCdcParity: time is the number of polls before the deadline.
- Landing.RenderThenType: the landing state is a value in a state machine, not a mutable table;
  timestamp and date parsing, `_source_ts` and `_op` are not modelled.
- The heartbeat table and its topic.
- Gate.GateRows: three functions of the same shape are one loop with their own constructor, check
  and key. Reason texts are an enumeration, and payloads keep only what the constructors read.
- Gate.AbortsExactly: JSON parsing and float rounding are not modelled; a value is finite, NaN
  or infinite. Text that is given as a number is represented by what parsing it yields.
- Loader.LoadedTableAgrees: SHA-256 is taken to be injective on the business fields.
- Loader.PostgresLoader.Load: `ingested_at`, `pages_fetched`, `error_message` and identity values
  other than run ids are left out; a failed commit is taken as not committed; text that PostgreSQL
  cannot store, such as a NUL character, is not modelled.
- Loader.PostgresLoader.Execute: constraints are checked row by row, so which of two errors in one
  statement is reported may differ; that the statement fails does not.
- Ingest.IngestStream: the three handlers are one method over the stream; the order of topics and
  the nested fields of a record are part of its text columns.
- ApiClient.Fetcher.Paginate: draining is one call, where the source is a generator that its
  callers always drain; two paths with the same file name are not modelled.
- ApiClient.RecordReplayRoundTrip: the server is deterministic, and recorder and client use the
  same page size. HTTP transport and backoff times are left out, and so is the recorder's single
  retry of a body that is not JSON.
- Features.FeatureCountsConserve: `feature_completeness_pct` is a rounded quotient of two modelled
  columns, and `max_series_vintage` is a plain maximum.
- Airflow graphs, lag and slot gates, alerting, dashboards, deployment and configuration.
