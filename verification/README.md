# Verification of the AAP gateway's stateful components

A Dafny 4.11 model of the parts of the gateway whose correctness depends on sequences of steps: data moved
between services by a command that may die at any request, columns rewritten while they are being paged, a
cache kept in step with its tables by signals, and limits that must hold over whole runs. `dafny verify
dfyconfig.toml` checks everything.

Each component is described twice: by functions that say what one step does to the state, and, where the
program changes things in place, by a class whose methods have the program's loops and are proved to compute
those functions. The theorems are about the functions, over every input and every run. Databases are maps
keyed by primary key; upstream services, the database's free choices (page contents, row order, which row
DISTINCT ON picks), clocks and failures are parameters, so a theorem holds for all of them.

| file | component |
|---|---|
| `ResourceMigration.dfy` | the resource loop of `migrate_service_data`: pages, reconciliation, bulk updates with retries |
| `RoleCursor.dfy` | role assignments under a persisted cursor |
| `UserGroups.dfy`, `UserMerge.dfy`, `UserMergeRun.dfy` | merging partially migrated users |
| `UserMigration.dfy` | merge and resource loops composed |
| `Superusers.dfy`, `SuperuserSync.dfy` | superuser consistency after the migration |
| `MigrateCommand.dfy` | the phases of the command and its completion flag |
| `Envelope.dfy`, `KeyRotation.dfy` | the encryption envelope and secret-key rotation |
| `InventoryHistory.dfy`, `UpgradeRunner.dfy` | the migration-inventory checker and the upgrade runner |
| `Cooldown.dfy`, `ServicePopulate.dfy` | the per-issuer cooldown and the conditional write of service ids |
| `ClusterNames.dfy`, `ClusterTexts.dfy` | canonical names and tags |
| `XdsDocuments.dfy`, `XdsListeners.dfy`, `XdsEntries.dfy`, `XdsBlocks.dfy` | the Envoy documents |
| `XdsCache.dfy`, `XdsViews.dfy` | the cache of the discovery views and its invalidation |
| `XdsWrites.dfy`, `XdsBuilds.dfy`, `XdsStraddles.dfy` | writes that send no signal, and builds that overlap commits |
| `Sessions.dfy`, `SessionSignals.dfy` | the limit on concurrent sessions |
| `StringOrder.dfy`, `Sets.dfy`, `Wrappers.dfy` | shared helpers |

## Where the code and its documentation differ

The model follows the code.

- The `CursorStore` docstring speaks of an immutable filter; the loop moves `id__gt` with every page.
- The superuser step announces that Controller and gateway "should match exactly". Extra superusers of the
  gateway are kept (`Superusers.SameSuperusersIff`), and of several Controllers only the last is read.
- `populate_service_id` calls its cap sufficient because there is one cluster for each service type. Nothing
  enforces that, and it counts API routes, not clusters; `ServicePopulate.IsProbedIff` says which are reached.
- `can_accounts_be_merged` builds but does not raise its error for an account and itself.

## What turned out not to hold

Each has a lemma with the failing inputs and one with the exact condition.

- The resource loop never ends if a gateway row already has an item's ansible_id and the upstream service id
  (`ResourceMigration.EndsIffNoneStuck`, `ResourceMigration.SomeLoopRunsForever`). For users the merge rules this
  out (`UserMigration.UserLoopsTerminate`).
- With pages of one, the system user alone on a page hides the remaining items
  (`ResourceMigration.EveryEndIsEmptyIff`, `ResourceMigration.InconclusiveEnd`).
- A page that names one (actor, role) pair twice duplicates a global assignment (`RoleCursor.NoDuplicatesIff`,
  `RoleCursor.RepeatedPairDuplicates`).
- An encrypted JSON `null` is neither rotated nor reported as skipped (`KeyRotation.NullIsLeftBehindSilently`,
  `KeyRotation.RotationPreservesMeaning`).
- An exception other than the runner's own leaves the snapshot database behind (`UpgradeRunner.LeftBehindIff`,
  `UpgradeRunner.EscapeLeavesDatabaseBehind`).
- The cap of four probes can hide a matching cluster (`ServicePopulate.IsProbedIff`,
  `ServicePopulate.RoutesOfOneClusterHideTheNext`).
- A route tagged `*` shares its canonical name with an untagged one, and the HTTPS flag is not part of the name
  (`XdsDocuments.CdsIsDeterminedIff`, `XdsDocuments.SomeNamesDisagree`).
- Writes of preferences and service types leave stale cache entries (`XdsWrites.PreferenceWriteIsHarmlessIff`,
  `XdsWrites.TypeWriteIsHarmlessIff`), and so do builds that straddle a commit (`XdsStraddles.StraddleIsCoherentIff`,
  `XdsStraddles.StraddlingBuildCanBeStale`).
- A user promoted in the gateway during the superuser step is demoted in Hub and EDA in the same step
  (`Superusers.PromotedIsDemoted`, `Superusers.NormalEnd`).
- Extending an expired session's expiry date can break the session limit (`Sessions.AlwaysBoundedIff`,
  `Sessions.RevivalAddsOne`).

## Assumptions

- Encryption is symbolic: a token opens under the key that made it and no other, and each encryption has its
  own nonce. The envelope marker is `$encrypted$`, as django-ansible-base defines it.
- Unique fields of a gateway table are its map key, so the unique constraint itself is the database's.
- UUIDs are texts in canonical form. Time is a non-decreasing real.
- An upstream service keeps the ansible_ids of its rows unique: it refuses an update that would repeat one, and it
  may refuse any other update too.
- Every HTTP call and every handler is one step; inside `link_account` and `migrate_account` the transaction
  restores the gateway's rows, and what the upstream services keep of a failed merge is not part of the state.
- `resource_names` reaches the discovery views as one form text, which Django's `__in` reads as the collection
  of its characters; so a request for named resources is answered with nothing and not cached.
- The session limit is unset or at least -1, as the preference's range says.

## Model

| member | source | states |
|---|---|---|
| `ResourceMigration.RetriesAreBounded` | aap_gateway_api/management/commands/_migrate_service_data/resource_migration.py:283-382 | a chunk is tried at most three times, sleeps at most 2^(tries-1) - 1 seconds in all with none after the last try, and the statement after the retry loop is never reached |
| `ResourceMigration.AnswersDecide` | aap_gateway_api/management/commands/_migrate_service_data/resource_migration.py:283-397 | a request is repeated exactly after a 502, 503 or 504, a network error or text that is not JSON, while tries are left; its last answer decides whether the count, nothing, a permanent failure or the death of the process is the result |
| `ResourceMigration.ChunksCoverTheInput` | aap_gateway_api/management/commands/_migrate_service_data/resource_migration.py:245-266 | the chunks sent are consecutive pieces of the input from its start, each of 1 to 1000 items; if none fails they are the whole input |
| `ResourceMigration.BulkKeeps` | aap_gateway_api/management/commands/_migrate_service_data/resource_migration.py:245-382 | any predicate on the two sides that every single upstream update keeps survives a whole bulk update, however requests fail, repeat or kill the process; updates address upstream rows by the ansible_id they had when the page was fetched |
| `ResourceMigration.HitsOwnRow` | aap_gateway_api/management/commands/_migrate_service_data/resource_migration.py:225-243 | an update changes the ansible_id it addresses, so a repeated one may name an id that another row has by then; with unique ids upstream, one that can be carried out still reaches only the row it was made for |
| `ResourceMigration.PageKeepsAgreement` | aap_gateway_api/management/commands/_migrate_service_data/resource_migration.py:119-189 | one page keeps the agreement of the two sides in ansible_id and data and the uniqueness of upstream ids, never rewrites a gateway row, and gives every row it creates the gateway's service id |
| `ResourceMigration.LoopKeepsAgreement` | aap_gateway_api/management/commands/_migrate_service_data/resource_migration.py:517-558 | after any number of turns every upstream row ever updated has the ansible_id and the data of the gateway row with its key, although retries address rows by ids that the updates change |
| `ResourceMigration.ExecutionsKeepAgreement` | aap_gateway_api/management/commands/_migrate_service_data/resource_migration.py:465-558 | the same over any number of crashed, failed and repeated executions of the command |
| `ResourceMigration.LoopMerges` | aap_gateway_api/management/commands/_migrate_service_data/resource_migration.py:119-189 | after any number of turns the gateway has its old rows and copies of items under its own service id, and every upstream row is as it was or, if it was listed, has the gateway row's ansible_id and data, and the service id of a gateway row that already had its ansible_id, else the gateway's |
| `ResourceMigration.ExecutionsMerge` | aap_gateway_api/management/commands/_migrate_service_data/resource_migration.py:465-558 | the same over any number of crashed, failed and repeated executions against one service |
| `ResourceMigration.BulkShrinks` | aap_gateway_api/management/commands/_migrate_service_data/resource_migration.py:384-397 | if anything is counted as updated, an item of the fetched page has left the list, and no row is lost or renamed |
| `ResourceMigration.Terminates` | aap_gateway_api/management/commands/_migrate_service_data/resource_migration.py:517-558 | if no listed item is stuck, the loop stops after at most 3r + 1 page fetches for r migratable items, whatever upstream answers |
| `ResourceMigration.FinishedMeansMigrated` | aap_gateway_api/management/commands/_migrate_service_data/resource_migration.py:517-558 | on a normal end, where such an end is conclusive, only the system user is left under the filter and every item that was to be migrated has exactly the fields the merge should give it |
| `ResourceMigration.EveryEndIsEmptyIff` | aap_gateway_api/management/commands/_migrate_service_data/resource_migration.py:519-535 | a normal end leaves nothing to migrate, over all pages upstream may serve and all its answers, exactly when nothing was to be migrated, pages hold at least two items, or pages hold one and the system user is not listed |
| `ResourceMigration.InconclusiveEnd` | aap_gateway_api/management/commands/_migrate_service_data/resource_migration.py:519-535 | in every other case the very first page may be the system user alone, and the loop ends with all items left |
| `ResourceMigration.StuckNeverFinishes` | aap_gateway_api/management/commands/_migrate_service_data/resource_migration.py:165-181 | an item whose gateway row already has its ansible_id and the upstream service id stays listed for ever, so the loop has no normal end |
| `ResourceMigration.StuckLoopsForever` | aap_gateway_api/management/commands/_migrate_service_data/resource_migration.py:517-558 | with a faultless upstream whose ids do not cross and whose new items can be created, such a loop does not end at all: every page counts as progress, so the stall counter stays at zero |
| `ResourceMigration.EndsIffNoneStuck` | aap_gateway_api/management/commands/_migrate_service_data/resource_migration.py:517-558 | with a faultless upstream whose ids do not cross and whose new items can be created (the gateway does not use their ids, and no other upstream row has their keys), the loop ends exactly when no migratable item is stuck |
| `ResourceMigration.SomeLoopRunsForever` | aap_gateway_api/management/commands/_migrate_service_data/resource_migration.py:165-181 | a concrete upstream and gateway with one item for which the loop never ends |
| `ResourceMigration.CrossedIdsStall` | aap_gateway_api/management/commands/_migrate_service_data/resource_migration.py:384-397 | if every item is to get an id that another row has, nothing is updated and the loop gives up after three pages |
| `ResourceMigration.CreateSucceedsIff` | aap_gateway_api/management/commands/_migrate_service_data/resource_migration.py:416-463 | the local transaction of a page commits exactly when the new items have keys and ansible_ids that are new and different from each other |
| `ResourceMigration.Migrator.SendOneChunk` | aap_gateway_api/management/commands/_migrate_service_data/resource_migration.py:369-382 | the retry loop computes SendChunk, the number of tries and the seconds slept included: at most three tries, and 2^(tries-1) - 1 seconds |
| `ResourceMigration.Migrator.SendAll` | aap_gateway_api/management/commands/_migrate_service_data/resource_migration.py:245-266 | the chunking loop computes SendBulk, the list of chunks sent included |
| `ResourceMigration.Migrator.RunPage` | aap_gateway_api/management/commands/_migrate_service_data/resource_migration.py:399-463 | reconciling, creating and sending one page computes ProcessPage |
| `ResourceMigration.Migrator.TakeTurn` | aap_gateway_api/management/commands/_migrate_service_data/resource_migration.py:517-558 | one turn of the `while True` loop computes Turn, counters included |
| `ResourceMigration.Migrator.MigrateResource` | aap_gateway_api/management/commands/_migrate_service_data/resource_migration.py:465-558 | the loop itself terminates within its fetch bound, in the state that many turns lead to |
| `RoleCursor.PageSettles` | aap_gateway_api/management/commands/_migrate_service_data/role_assignments.py:112-199 | after a page that is not cut short every item with a known role and actor has its row: for the object it names by ansible_id, or else by key, or system-wide if it names none; a page cut anywhere loses nothing, and no page adds a row that no item asks for |
| `RoleCursor.UnchangedIffSettled` | aap_gateway_api/management/commands/_migrate_service_data/role_assignments.py:162-287 | processing a page changes nothing exactly when all its items are settled, so pages may be processed again from any earlier cursor |
| `RoleCursor.NoDuplicatesIff` | aap_gateway_api/management/commands/_migrate_service_data/role_assignments.py:201-241 | a page leaves the global assignments free of duplicates exactly when they were before and no two of its items ask for a row that is missing locally |
| `RoleCursor.RepeatedPairDuplicates` | aap_gateway_api/management/commands/_migrate_service_data/role_assignments.py:201-241 | a page naming one pair twice leaves two equal global rows: null object roles escape the unique constraint |
| `RoleCursor.CursorIsCrashSafe` | aap_gateway_api/management/commands/_migrate_service_data/role_assignments.py:42-91 | after any sequence of runs with failed requests, cursor reads (start from 0), cursor writes (old row kept) and crashes, every included id up to the persisted cursor that was there when its window was fetched is created or deliberately skipped |
| `RoleCursor.NormalEndCoversAll` | aap_gateway_api/management/commands/_migrate_service_data/role_assignments.py:57-91 | a run that ends normally has covered every included id upstream still has at its last request |
| `RoleCursor.RunStartsAtCursor` | aap_gateway_api/management/commands/_migrate_service_data/cursor_store.py:64-78 | a run starts where the persisted cursor stands, or at 0 if there is none or it cannot be read |
| `RoleCursor.LastCursorIsPersisted` | aap_gateway_api/management/commands/_migrate_service_data/role_assignments.py:82-89 | a run that completes and could always write its cursor leaves the end of its last page persisted |
| `RoleCursor.OnePage` | aap_gateway_api/management/commands/_migrate_service_data/role_assignments.py:82-91 | a page whose last item has no id is created, but the cursor stays and the run ends with an error |
| `RoleCursor.RerunChangesNothing` | aap_gateway_api/management/commands/_migrate_service_data/role_assignments.py:42-91 | over settled tables that no longer change, a further run from whatever cursor, cut wherever it may be, changes nothing |
| `RoleCursor.CompletedThenStable` | aap_gateway_api/management/commands/_migrate_service_data/role_assignments.py:42-91 | once a run has completed over tables that do not change, every later run is without effect |
| `RoleCursor.BulkLookupAgrees` | aap_gateway_api/management/commands/_migrate_service_data/role_assignments.py:93-160 | the three bulk lookups of a page find for an item exactly what a lookup of its own would |
| `RoleCursor.CollectUniqueIds` | aap_gateway_api/management/commands/_migrate_service_data/role_assignments.py:93-110 | the three sets are exactly the role names, actors and objects given on the page |
| `RoleCursor.ResolvePage` | aap_gateway_api/management/commands/_migrate_service_data/role_assignments.py:162-199 | resolving a page by bulk lookup classifies every item as Resolve does, in order |
| `RoleCursor.RoleMigrator.BulkCreateGlobals` | aap_gateway_api/management/commands/_migrate_service_data/role_assignments.py:201-241 | creates exactly the wanted pairs that were not there before the page |
| `RoleCursor.RoleMigrator.BulkCreateObjects` | aap_gateway_api/management/commands/_migrate_service_data/role_assignments.py:243-287 | creates the wanted object assignments whose object role exists, existing ones ignored and those without a role skipped |
| `RoleCursor.RoleMigrator.TakePage` | aap_gateway_api/management/commands/_migrate_service_data/role_assignments.py:57-91 | one page: create, advance the cursor, slide the filter |
| `RoleCursor.RoleMigrator.PaginateAndCreate` | aap_gateway_api/management/commands/_migrate_service_data/role_assignments.py:42-91 | the paging loop leaves the tables, the persisted cursor and the log that Paginate describes |
| `Envelope.DecryptIff` | aap_gateway_api/utils/encryption.py:49-62 | the parser accepts exactly: the marker, an optional encoding tag, the one algorithm, and a token that opens under the key |
| `Envelope.RoundTrip` | aap_gateway_api/utils/encryption.py:40-62 | the parser undoes the printer under the same key and refuses it under any other |
| `KeyRotation.StringKeepsMeaning` | aap_gateway_api/management/commands/rotate_secret_key.py:373-388 | a string is re-encrypted exactly when it has a non-null cleartext under the old key, and then has it under the new key and not under the old; it is skipped exactly when it has the marker but no cleartext under the old key |
| `KeyRotation.RotationPreservesMeaning` | aap_gateway_api/management/commands/rotate_secret_key.py:358-414 | a column value is replaced by ciphertext of the same cleartext, quoted only where a jsonb column is read back quoted; every other value is left as it was |
| `KeyRotation.NullIsLeftBehindSilently` | aap_gateway_api/management/commands/rotate_secret_key.py:321-388 | a sealed JSON null stays under the old key and is not counted as skipped |
| `KeyRotation.CountedIffChanged` | aap_gateway_api/management/commands/rotate_secret_key.py:358-371 | a value is counted exactly when it is changed |
| `KeyRotation.SecondRotationIsIdle` | aap_gateway_api/management/commands/rotate_secret_key.py:373-388 | what was rotated once is not re-encrypted again |
| `KeyRotation.OrderedIsEnumeration` | aap_gateway_api/management/commands/rotate_secret_key.py:416-440 | the rows above a key, as the paged query orders them, are increasing and are each non-null row once |
| `KeyRotation.OrderedAfter` | aap_gateway_api/management/commands/rotate_secret_key.py:336-356 | rewriting the column while paging does not change which rows come next |
| `KeyRotation.NextPage` | aap_gateway_api/management/commands/rotate_secret_key.py:336-356 | a page follows the visited rows, repeats none of them, and leaves exactly the rest to the next query |
| `KeyRotation.ColumnKeepsMeaning` | aap_gateway_api/management/commands/rotate_secret_key.py:336-388 | every row of a rotated column keeps its meaning |
| `KeyRotation.CountIsNumberChanged` | aap_gateway_api/management/commands/rotate_secret_key.py:336-371 | the reported count is the number of rows that changed |
| `KeyRotation.SkippedIsNumberUnreadable` | aap_gateway_api/management/commands/rotate_secret_key.py:321-388 | the reported skips are the rows with the marker that do not open under the old key |
| `KeyRotation.NothingLeftToRotate` | aap_gateway_api/management/commands/rotate_secret_key.py:336-388 | a second rotation of a column with the same old key reports zero |
| `KeyRotation.NothingLeftInDatabase` | aap_gateway_api/management/commands/rotate_secret_key.py:117-178 | a second rotation of a rotated database, columns, authenticators and preferences, with the same old key and any nonces reports zero |
| `KeyRotation.FieldsKeepMeaning` | aap_gateway_api/management/commands/rotate_secret_key.py:192-217 | each encrypted field of a configuration keeps its cleartext under the new key and nothing else in it changes |
| `KeyRotation.AuthenticatorKeepsMeaning` | aap_gateway_api/management/commands/rotate_secret_key.py:160-217 | a configuration that can be read keeps every field under the new key; it is counted exactly when some listed field holds a secret of the old key, and rewritten only then; one that cannot be read is left alone |
| `KeyRotation.RotatedPointwise` | aap_gateway_api/management/commands/rotate_secret_key.py:145-178 | the whole rotation rotates every column and every authenticator, each by itself |
| `KeyRotation.Rotator.ReencryptRows` | aap_gateway_api/management/commands/rotate_secret_key.py:358-371 | one fetched page: exactly its rows are rewritten, unless the run is dry |
| `KeyRotation.Rotator.PaginatedReencrypt` | aap_gateway_api/management/commands/rotate_secret_key.py:336-356 | the paging loop terminates for any page size, handles every non-null row once, and a dry run reports the same numbers and writes nothing |
| `KeyRotation.FieldsAreCounted` | aap_gateway_api/management/commands/rotate_secret_key.py:192-217 | the numbers reported for a configuration: a name counts where it first meets a secret, and is skipped where its value does not open under the old key or was rotated under an earlier mention |
| `KeyRotation.Rotator.ReencryptFields` | aap_gateway_api/management/commands/rotate_secret_key.py:192-217 | the field loop rewrites a configuration in place as FieldsKeepMeaning describes |
| `KeyRotation.Rotator.RotateAuthenticators` | aap_gateway_api/management/commands/rotate_secret_key.py:160-178 | the configurations in turn, each stored only if changed and not dry |
| `KeyRotation.Rotator.RotateAll` | aap_gateway_api/management/commands/rotate_secret_key.py:117-120 | the three parts add up to the reported totals |
| `KeyRotation.Handle` | aap_gateway_api/management/commands/rotate_secret_key.py:98-141 | with a custom key the rotation goes to that key, or is refused if it is missing, empty or the old one; otherwise it goes to the generated key, or is refused if that is the old one |
| `InventoryHistory.SeenIsFirst` | tools/scripts/migration_upgrade.py:118-121 | the fold remembers exactly the enforced migrations applied so far, with the stage and fingerprint of their first application |
| `InventoryHistory.StageViolationsIff` | tools/scripts/migration_upgrade.py:123-152 | at one stage a violation is reported exactly for a breach: seen earlier or now, and absent or of another fingerprint, and not allowed by policy |
| `InventoryHistory.HistoryIff` | tools/scripts/migration_upgrade.py:106-159 | the reported violations of a history are exactly its breaches, each of the right kind |
| `InventoryHistory.EnforcedIff` | tools/scripts/migration_upgrade.py:119-120 | a migration is enforced exactly if an enforced app without a dot is all of it or stands before its first dot |
| `InventoryHistory.ExceptionsIff` | tools/scripts/migration_upgrade.py:125-157 | the exceptions are sorted, without repetition, and exactly what the policy allows in some stage, with its text |
| `InventoryHistory.HistoryIsOrdered` | tools/scripts/migration_upgrade.py:123-152 | the report goes by stage and within a stage by migration, so no pair is reported twice |
| `InventoryHistory.IncrementalIsSegment` | tools/scripts/migration_upgrade.py:482-486 | with distinct stage names, what the runner keeps for the prefix ending in a stage is that stage's segment of the whole report |
| `InventoryHistory.AllStagesPassIff` | tools/scripts/migration_upgrade.py:482-486 | every stage passes its own check exactly when the comparison of the whole history is empty |
| `InventoryHistory.SelectedExceptions` | tools/scripts/migration_upgrade.py:482 | selecting exceptions by the text before the colon selects exactly the exceptions of the stage |
| `InventoryHistory.ObserveApplied` | tools/scripts/migration_upgrade.py:117-121 | the loop over applied migrations keeps first applications |
| `InventoryHistory.JudgeSeen` | tools/scripts/migration_upgrade.py:123-152 | the loop over seen migrations reports what Reports lists, in order |
| `InventoryHistory.InventoryEvents` | tools/scripts/migration_upgrade.py:106-154 | the accumulating loop returns the specified violations and the sorted distinct exceptions |
| `UpgradeRunner.RunIsSafe` | tools/scripts/migration_upgrade.py:244-327 | for every run, whatever its commands, checkouts and summary writes do: a recorded snapshot name is dropped exactly once unless an unhandled exception escaped; stages after a successful round trip start with the restored database; the results are a prefix of the stages with only the last not passed |
| `UpgradeRunner.LeftBehindIff` | tools/scripts/migration_upgrade.py:279-327 | the snapshot database is left behind exactly if the first stage that does not pass lets an exception other than the runner's own escape while a name is stored: after the round trip in its checkout, its commands, its fixture check or on closing its log, or inside the round trip or on closing that log |
| `UpgradeRunner.EscapeLeavesDatabaseBehind` | tools/scripts/migration_upgrade.py:396-491 | a concrete run of two stages that leaves the database behind |
| `UpgradeRunner.NormalEndIff` | tools/scripts/migration_upgrade.py:244-327 | a run ends normally exactly if its configuration is valid, preparation works, every stage passes and the last summary is written; it then ends on the restored database if it has a round trip, else on the original one |
| `UpgradeRunner.NormalEndKeepsData` | tools/scripts/migration_upgrade.py:493-632 | in a run that ends normally the state restored in the round trip equals the dumped one, the restored database is the one used afterwards, and every later stage saw the fixture that was dumped |
| `UpgradeRunner.ResultsIff` | tools/scripts/migration_upgrade.py:279-321 | exactly the stages up to the first that does not pass have a result: passed, failed, or pending if an exception escaped; one whose checkout escapes has none |
| `UpgradeRunner.RefusedIff` | tools/scripts/migration_upgrade.py:244-278 | a run is refused before anything is done exactly if it has no stages, two of one name, or a round trip after no stage or the last |
| `UpgradeRunner.NormalEndHasCleanHistory` | tools/scripts/migration_upgrade.py:482-491 | a run that ends normally has a clean history as a whole |
| `UpgradeRunner.MigrationUpgradeRunner.RunStageBody` | tools/scripts/migration_upgrade.py:396-491 | one stage: inventory, policy, then round trip or fixture check |
| `UpgradeRunner.MigrationUpgradeRunner.RunOneStage` | tools/scripts/migration_upgrade.py:279-321 | one stage with its result, its cleanup and its summary |
| `UpgradeRunner.MigrationUpgradeRunner.RunAll` | tools/scripts/migration_upgrade.py:244-327 | the loop over stages ends in the state Run describes |
| `Cooldown.CooldownTable.CheckAndSet` | aap_gateway_api/utils/service_id_sync.py:28-59 | prunes in place, refuses when full or too soon, else records the call |
| `Cooldown.RefinesFullMemory` | aap_gateway_api/utils/service_id_sync.py:44-59 | the self-pruning dictionary decides every call as a limiter that remembers every admission ever made |
| `Cooldown.TableIsBounded` | aap_gateway_api/utils/service_id_sync.py:45-53 | the table never exceeds 1000 entries |
| `Cooldown.AdmissionsAreSpaced` | aap_gateway_api/utils/service_id_sync.py:55-58 | two admissions of one issuer are at least 60 s apart, despite pruning |
| `Cooldown.WindowIssuersAreDistinct` | aap_gateway_api/utils/service_id_sync.py:55-58 | in a window shorter than 60 s all admitted issuers are different |
| `Cooldown.WindowIsBounded` | aap_gateway_api/utils/service_id_sync.py:45-58 | any window shorter than 60 s admits at most 1000 calls |
| `Cooldown.NothingAdmittedBeforeSixty` | aap_gateway_api/utils/service_id_sync.py:55-56 | a never-seen issuer is refused while the clock reads below 60 |
| `ServicePopulate.RunIsGood` | aap_gateway_api/utils/service_id_sync.py:141-157 | over every interleaving of any number of calls: an id once set is never overwritten, no two clusters get one id, and what a call returned still has its issuer as its id |
| `ServicePopulate.SameClusterIffSameIssuer` | aap_gateway_api/utils/service_id_sync.py:148-152 | two calls that return a cluster return the same one exactly if they look for the same issuer |
| `ServicePopulate.IdsAreReported` | aap_gateway_api/utils/service_id_sync.py:144-148 | an id is only ever set from the answer of the service of that very cluster |
| `ServicePopulate.MatchSets` | aap_gateway_api/utils/service_id_sync.py:144-152 | an answer with the issuer from a null cluster sets the id and returns the cluster, unless another cluster has the id: then the constraint makes the call return nothing |
| `ServicePopulate.LoserReturnsTheSame` | aap_gateway_api/utils/service_id_sync.py:148-152 | a call that another has forestalled at a cluster with the same issuer returns that cluster too, whatever others do in between |
| `ServicePopulate.DeadEnds` | aap_gateway_api/utils/service_id_sync.py:148-157 | an error ends a call without a cluster, and so does having none left; a cluster taken by another issuer leads on to the next |
| `ServicePopulate.CallEnds` | aap_gateway_api/utils/service_id_sync.py:141-157 | a call for n candidates returns within 2n + 1 steps of its own, whatever the others do |
| `ServicePopulate.IsProbedIff` | aap_gateway_api/utils/service_id_sync.py:132-139 | a cluster with an eligible API route is probed exactly when fewer than four eligible routes belong to clusters with a smaller key, however routes of one cluster are ordered |
| `ServicePopulate.RoutesOfOneClusterHideTheNext` | aap_gateway_api/utils/service_id_sync.py:128-138 | four API routes of one cluster hide every later cluster |
| `ServicePopulate.ServiceClusters.Populate` | aap_gateway_api/utils/service_id_sync.py:132-157 | alone, a call returns and sets the first cluster that is probed and whose service answers with the issuer, unless a cluster has that id already, and changes nothing else |
| `UserGroups.GroupsPartition` | aap_gateway_api/management/commands/_migrate_service_data/user_merge.py:91-127 | two listed accounts share a group exactly when their names are equal once a leading `galaxy_` or `eda_` is cut off; each group is led by an account of the earliest service type in it, and together they are as many as were listed |
| `UserGroups.GroupsApart` | aap_gateway_api/management/commands/_migrate_service_data/user_merge.py:91-127 | no user is in two groups or twice in one |
| `UserMerge.LinkAllIff` | aap_gateway_api/utils/user_migration.py:92-158 | linking accounts into one succeeds exactly when no two have a service in common, none of the others is the system user and every call succeeds; then their rows all belong to it and they are gone |
| `UserMerge.MergeGroupIff` | aap_gateway_api/management/commands/_migrate_service_data/user_merge.py:129-179 | the same for a group with its pre-check and the migration of its head |
| `UserMerge.MergeGroupsIff` | aap_gateway_api/management/commands/_migrate_service_data/user_merge.py:79-84 | the same for all groups: merging one does not change what another needs |
| `UserMerge.MergedGroupsIsFinal` | aap_gateway_api/management/commands/_migrate_service_data/user_merge.py:79-84 | merging group by group gives the result read off the groups at once |
| `UserMerge.MergeIff` | aap_gateway_api/management/commands/_migrate_service_data/user_merge.py:16-89 | the exact condition on the initial database under which the whole merge ends normally |
| `UserMerge.NormalEnd` | aap_gateway_api/management/commands/_migrate_service_data/user_merge.py:16-89 | on a normal end no user resource keeps a foreign service id; every partially migrated user is merged into one of the same person and of no later service type, which is the only one of the person left and has all their metadata rows; other users are as before |
| `UserMerge.MergeConserves` | aap_gateway_api/utils/user_migration.py:119-158 | however the merge ends, no metadata row is lost or changes its service, each belongs to an existing user, and users only go away by being merged |
| `UserMergeRun.UserMerger.CanAccountsBeMerged` | aap_gateway_api/utils/user_migration.py:16-47 | raises exactly when the two accounts share a service; it never returns false, and an account and itself are refused only if it has a row |
| `UserMergeRun.UserMerger.LinkAccount` | aap_gateway_api/utils/user_migration.py:92-158 | one transaction: rows moved one by one, account deleted, services told, or everything as before |
| `UserMergeRun.UserMerger.Reassign` | aap_gateway_api/utils/user_migration.py:123-126 | the row loop succeeds exactly if no service clashes and every lookup succeeds |
| `UserMergeRun.UserMerger.MigrateAccount` | aap_gateway_api/utils/user_migration.py:50-89 | one transaction: the account is the gateway's afterwards, or as before |
| `UserMergeRun.UserMerger.MergeUserGroup` | aap_gateway_api/management/commands/_migrate_service_data/user_merge.py:129-179 | check, link and migrate, returning the number merged |
| `UserMergeRun.UserMerger.CorrelateUsers` | aap_gateway_api/management/commands/_migrate_service_data/user_merge.py:91-127 | the nested loops fill the dict of groups |
| `UserMergeRun.UserMerger.CollectUsers` | aap_gateway_api/management/commands/_migrate_service_data/user_merge.py:48-63 | accounts by service type; an unknown service id ends the run |
| `UserMergeRun.UserMerger.MergePartiallyMigratedUsers` | aap_gateway_api/management/commands/_migrate_service_data/user_merge.py:16-89 | the whole phase computes Merge; the count check at its end, which the method carries out, never fails |
| `UserMigration.UserLoopsTerminate` | aap_gateway_api/management/commands/migrate_service_data.py:218-230 | after a normal merge, the user loop of every later service stops within its fetch bound, whatever earlier services did |
| `UserMigration.UserLoopsMigrate` | aap_gateway_api/management/commands/migrate_service_data.py:218-230 | and if it ends normally where that is conclusive, every user it was to migrate has the ansible_id of the gateway user of its name |
| `UserMigration.ServicesKeepOwn` | aap_gateway_api/management/commands/_migrate_service_data/resource_migration.py:416-463 | no resource loop gives a gateway row a foreign service id |
| `Superusers.CollectIs` | aap_gateway_api/management/commands/_migrate_service_data/superuser_sync.py:124-163 | the names collected are exactly the superusers on the pages, however they are split |
| `Superusers.PagesDemote` | aap_gateway_api/management/commands/_migrate_service_data/superuser_sync.py:219-242 | whenever the paging stops rows were only demoted; if it ends, no listed superuser outside the snapshot is left, and unlisted rows are unchanged |
| `Superusers.GatewayOnlyGrows` | aap_gateway_api/management/commands/_migrate_service_data/superuser_sync.py:88-122 | however the step ends the gateway only gains superusers that the last Controller lists, and only listed superusers of Hub and EDA whom the gateway did not have are demoted |
| `Superusers.NormalEnd` | aap_gateway_api/management/commands/_migrate_service_data/superuser_sync.py:88-122 | after a normal end the gateway's superusers are those it had and those the last Controller lists; a listed user of Hub or EDA is a superuser exactly if it was one there and in the gateway before |
| `Superusers.SameSuperusersIff` | aap_gateway_api/management/commands/_migrate_service_data/superuser_sync.py:92-94 | Controller and gateway match exactly only if Controller listed all the gateway already had |
| `Superusers.PromotedIsDemoted` | aap_gateway_api/management/commands/_migrate_service_data/superuser_sync.py:102-122 | a user promoted in the gateway in this run is demoted in Hub and EDA, because the snapshot is older |
| `Superusers.MissingUsersIff` | aap_gateway_api/management/commands/_migrate_service_data/superuser_sync.py:187-204 | the step stops for missing users exactly when every page of Controller can be fetched and one of its superusers is no gateway user; the others have been promoted by then and nobody demoted |
| `SuperuserSync.Synchroniser.CollectControllerSuperusers` | aap_gateway_api/management/commands/_migrate_service_data/superuser_sync.py:124-163 | the paging loop |
| `SuperuserSync.Synchroniser.EnsureControllerGatewaySuperusers` | aap_gateway_api/management/commands/_migrate_service_data/superuser_sync.py:165-207 | collect, then promote all who exist, then complain about the rest |
| `SuperuserSync.Synchroniser.DemoteExtraSuperusers` | aap_gateway_api/management/commands/_migrate_service_data/superuser_sync.py:209-242 | the demoting page loop of one service |
| `SuperuserSync.Synchroniser.EnsureSuperuserConsistency` | aap_gateway_api/management/commands/_migrate_service_data/superuser_sync.py:88-122 | the whole step computes Ensure |
| `MigrateCommand.FlagMeansDone` | aap_gateway_api/management/commands/migrate_service_data.py:218-230 | a run that newly sets the completion flag leaves every gateway user row its own; in the gateway as it is at the end, no service has a user left to migrate and each it had to migrate carries the id of the gateway user of that name; every listed superuser of Controller, Hub and EDA is one of the gateway |
| `MigrateCommand.CompletesIff` | aap_gateway_api/management/commands/migrate_service_data.py:196-230 | a run is skipped if the flag is set and no rerun is asked for, and does nothing without its user or services; otherwise it completes, and sets the flag, exactly if the merge, every service and the superuser step go well |
| `MigrateCommand.RunSettles` | aap_gateway_api/management/commands/migrate_service_data.py:232-253 | what a service's loop settled stays settled while later services add gateway rows |
| `MigrateCommand.SyncedMeansNothingLeft` | aap_gateway_api/management/commands/_migrate_service_data/resource_migration.py:13-41 | a service skipped as already synchronised has no user to migrate |
| `MigrateCommand.SyncedIff` | aap_gateway_api/management/commands/_migrate_service_data/resource_migration.py:13-41 | a service passes as synchronised exactly if nothing is left to migrate and its registry has rows |
| `MigrateCommand.ProcessAllServices` | aap_gateway_api/management/commands/migrate_service_data.py:232-253 | every service is tried whatever happened before it, each slug lands in the collection of its ending, and none failed exactly if all succeeded |
| `ClusterNames.SameNameIff` | aap_gateway_api/models/route.py:138-155 | two routes have one canonical name exactly when cluster, port and tags up to order agree, or one has no tags and the other the single tag `*` |
| `ClusterNames.SameTagsSelectSame` | aap_gateway_api/models/route.py:174-179 | without that ambiguity, equal names select the same nodes |
| `ClusterNames.CollisionSelectsSameIff` | aap_gateway_api/models/service_node.py:31-32 | under it, the two routes agree on a node exactly when the node carries the tag `*` |
| `ClusterTexts.NameReads` | aap_gateway_api/models/route.py:141-153 | the name is `cluster-`, the key of the cluster, the port, and `nodes:` with the tags sorted and joined by commas, or `*` |
| `ClusterTexts.LeqIff` | aap_gateway_api/models/route.py:145-149 | tags are sorted by their texts: one that begins another comes first, else the first differing character decides |
| `ClusterTexts.SelectsIff` | aap_gateway_api/models/route.py:174-179 | a route selects a node exactly if it names no tags or they have one in common, a tag being a text between commas without the white space around it |
| `XdsEntries.ClustersSay` | aap_gateway_api/models/route.py:174-251 | a document has a cluster for each name in use, and each has the port, protocol and server name, the endpoints and the health check of a route of its name |
| `XdsEntries.ListenersSay` | aap_gateway_api/models/route.py:263-419 | a listener is `/up`, on the API port the redirects, then the blocks of its routes by rank; a block has the login and logout of a Controller, EDA or Hub route with gateway authentication, at their prefixes, to the gateway's cluster, and the route's own entry: its path, rewrite, cluster, timeouts, and external authorization checked with the service type, exempt for EDA, or disabled |
| `XdsEntries.EveryRouteIsServed` | aap_gateway_api/models/route.py:263-341 | every route of a port whose paths and name are not blank has its own entry on the port's listener |
| `XdsEntries.DocumentsExist` | aap_gateway_api/views/api/envoy/rest_control_plane.py:102-161 | whatever the tables hold, there is a cluster and a listener document for them |
| `XdsEntries.RedirectsSay` | aap_gateway_api/models/http_port.py:91-98 | there is a redirect from exactly the API paths without their trailing slashes, to the path of the last route that has it, and one from `/api` |
| `XdsEntries.GatewayNameSays` | aap_gateway_api/models/route.py:351-362 | logins go to the cluster of the first route of the first gateway cluster |
| `XdsEntries.PemsInTurn` | aap_gateway_api/views/api/envoy/rest_control_plane.py:171-187 | certificates are served in turn, each by itself |
| `XdsEntries.OnePem` | aap_gateway_api/views/api/envoy/rest_control_plane.py:171-187 | a certificate is served stripped, unless nothing is left of it |
| `XdsEntries.RequestSays` | aap_gateway_api/views/api/envoy/rest_control_plane.py:72-82 | an empty request or `*` asks for all names, any other for those that are one of its characters |
| `XdsDocuments.CdsIsUnique` | aap_gateway_api/views/api/envoy/rest_control_plane.py:72-82 | if the routes of each name agree, the cluster document does not depend on which route DISTINCT ON picks |
| `XdsDocuments.CdsIsDeterminedIff` | aap_gateway_api/views/api/envoy/rest_control_plane.py:72-82 | the tables determine the document exactly when they do, in HTTPS flag and selected nodes |
| `XdsDocuments.SomeNamesDisagree` | aap_gateway_api/models/route.py:138-155 | for every untagged route there are tables, one with another HTTPS flag and one with the tag `*` on a second route of the same name, where the document is not determined |
| `XdsDocuments.SameEndpointsIff` | aap_gateway_api/models/route.py:174-198 | two routes of one name have the same endpoints exactly when they select alike |
| `XdsListeners.ReferencedClustersAreDefined` | aap_gateway_api/models/route.py:263-419 | every cluster a listener refers to, for routes, login or logout, is defined by the cluster document of the same tables |
| `XdsListeners.RedirectsAreGood` | aap_gateway_api/models/http_port.py:91-98 | the redirects add the slash to their own path, no path has two, and every API path with a trailing slash has one |
| `XdsListeners.ListenerRedirects` | aap_gateway_api/models/http_port.py:82-100 | `/up` comes first, only the API port has redirects, and no redirect leads to another |
| `XdsBlocks.SameBlocks` | aap_gateway_api/models/route.py:263-419 | the entries of a listener determine the entries of each of its routes, one by one, and what stands before them |
| `XdsCache.CdsIgnoresPorts` | aap_gateway_api/signals/xds_cache.py:28-31 | the cluster document does not depend on ports or certificates |
| `XdsCache.LdsIgnoresNodes` | aap_gateway_api/signals/xds_cache.py:40-43 | the listener document does not depend on nodes or certificates |
| `XdsCache.ReadKeepsCoherence` | aap_gateway_api/views/api/envoy/rest_control_plane.py:72-82 | whatever resource names a request asks for, what gets cached is a whole document |
| `XdsCache.CommitKeepsCoherence` | aap_gateway_api/signals/xds_cache.py:16-49 | a commit touching only signalling models leaves in the cache only what is still right |
| `XdsCache.CacheIsCoherent` | aap_gateway_api/signals/xds_cache.py:16-49 | over every sequence of reads and signalled commits, each one step, a present entry is a document that could be rebuilt now; XdsBuilds and XdsStraddles drop the one-step reads and XdsWrites the signals |
| `XdsWrites.PreferenceKeepsClustersIff` | aap_gateway_api/models/service_cluster.py:217-243 | an unsignalled preference write leaves a cluster document right exactly when the request timeout stays or both values are at most the own timeout of every health-checked cluster in use |
| `XdsWrites.PreferenceKeepsListenersIff` | aap_gateway_api/models/route.py:253-280 | it leaves a listener document right exactly when, for every served route, request and idle timeout each stay or both values are at most the route's own |
| `XdsWrites.PreferenceWriteIsHarmlessIff` | aap_gateway_api/signals/xds_cache.py:16-49 | it keeps a coherent cache coherent exactly when the documents that are cached meet these conditions |
| `XdsWrites.SomePreferenceWriteLeavesStaleEntry` | aap_gateway_api/signals/xds_cache.py:16-49 | if listeners are cached and a route is served, or clusters are cached and one in use is health-checked, some request timeout makes the cached document stale |
| `XdsWrites.TypesKeepClustersIff` | aap_gateway_api/models/route.py:219-232 | an unsignalled service-type write leaves a cluster document right exactly when the ping URL of every health-checked cluster in use stays |
| `XdsWrites.TypesKeepListenersIff` | aap_gateway_api/models/route.py:302-419 | it leaves a listener document right exactly when the external authorization, the gateway's cluster and the login and logout paths of every served route stay, whatever orders the database chooses among equal ranks; the routes of a port have different paths, as the database's constraint says |
| `XdsWrites.TypeWriteIsHarmlessIff` | aap_gateway_api/signals/xds_cache.py:16-49 | it keeps a coherent cache coherent exactly when the documents that are cached meet these conditions |
| `XdsWrites.SomeTypeWriteLeavesStaleEntry` | aap_gateway_api/models/service_cluster.py:201-215 | for instance, for every served and rerouted route some login path of its type makes the cached listeners stale |
| `XdsBuilds.AtomicRead` | aap_gateway_api/views/api/envoy/rest_control_plane.py:102-129 | a read in one step is a build that is stored at once |
| `XdsBuilds.OverlappingReadsAreCoherent` | aap_gateway_api/views/api/envoy/rest_control_plane.py:72-161 | over every interleaving of builds, stores and signalled commits, if no commit touching a document's models falls between the start of a stored build and its end, a present entry is a document that could be rebuilt now |
| `XdsStraddles.StraddleIsCoherentIff` | aap_gateway_api/views/api/envoy/rest_control_plane.py:102-129 | whatever requests and commits come between the start and the end of a cluster build from tables that determine their clusters, storing it keeps a coherent cache coherent exactly when there was nothing to build or the commits have kept the cluster names in use and the cluster of each |
| `XdsStraddles.StraddlingBuildCanBeStale` | aap_gateway_api/views/api/envoy/rest_control_plane.py:102-129 | switching the health checks of any cluster in use during a build leaves a stale entry |
| `XdsStraddles.BuildWaits` | aap_gateway_api/views/api/envoy/rest_control_plane.py:108-129 | until it is stored, a build stays what it was when it began |
| `XdsStraddles.StoredListenersIff` | aap_gateway_api/views/api/envoy/rest_control_plane.py:138-161 | storing a listener build keeps a coherent cache coherent, for every order the database may have chosen among equal ranks, exactly when there was no port or the commits since have kept the ports, the entries of every route on them, and which route may come before which |
| `XdsStraddles.StoredCertificatesIff` | aap_gateway_api/views/api/envoy/rest_control_plane.py:171-187 | storing a build of the certificates keeps a coherent cache coherent exactly when the certificates, stripped and without empty ones, are the same as when it began |
| `XdsViews.ClusterConfigOf` | aap_gateway_api/models/route.py:174-251 | the cluster built for a route has its endpoints, port, TLS choice and server name, and its health check the effective timeout, interval and ping URL |
| `XdsViews.BuildClusters` | aap_gateway_api/views/api/envoy/rest_control_plane.py:108-124 | the loops of the CDS view build an answer to the request |
| `XdsViews.ListenerConfigOf` | aap_gateway_api/models/http_port.py:65-122 | up route, redirects, then the entries of the routes in order, with their effective timeouts and external authorization |
| `XdsViews.BuildListeners` | aap_gateway_api/views/api/envoy/rest_control_plane.py:143-155 | the loops of the LDS view build an answer to the request |
| `XdsViews.ControlPlane.ClusterDiscovery` | aap_gateway_api/views/api/envoy/rest_control_plane.py:102-129 | a CDS request is a legal ReadCds step; a hit answers with the cached document |
| `XdsViews.ControlPlane.ListenerDiscovery` | aap_gateway_api/views/api/envoy/rest_control_plane.py:138-161 | a LDS request is a legal ReadLds step |
| `XdsViews.ControlPlane.SecretDiscovery` | aap_gateway_api/views/api/envoy/rest_control_plane.py:171-187 | a SDS request is a ReadSds step |
| `XdsViews.ControlPlane.Commit` | aap_gateway_api/signals/xds_cache.py:16-49 | running the handlers one after the other deletes what Invalidate deletes for the set of touched models |
| `Sessions.NewestFirstIsUnique` | aap_gateway_api/models/user_session_membership.py:55 | the query has only one possible order of answer |
| `Sessions.LoginKeepsNewest` | aap_gateway_api/models/user_session_membership.py:51-61 | after a tracked login at most L + 1 sessions are active, those kept are newer than those evicted, and the new one is kept |
| `Sessions.LoginLeavesOthers` | aap_gateway_api/signals/session.py:65-69 | a login takes away nothing of another user |
| `Sessions.OtherEvents` | aap_gateway_api/signals/session.py:22-52 | other saves store the session only; a deleted session goes with its membership, a deleted user with all memberships but without the sessions |
| `Sessions.NeverOverLimit` | aap_gateway_api/signals/session.py:22-69 | over every run with a fixed limit L in which no save revives an expired session, no user ever has more than L + 1 active sessions |
| `Sessions.StepKeepsBoundIff` | aap_gateway_api/signals/session.py:22-72 | one event keeps the bound exactly unless it revives an expired tracked session of a user who already has more than L active ones |
| `Sessions.AlwaysBoundedIff` | aap_gateway_api/signals/session.py:22-72 | over all prefixes of every run the bound holds exactly when no event does so |
| `Sessions.RevivalAddsOne` | aap_gateway_api/signals/session.py:62-63 | reviving an expired tracked session adds one active session whatever the limit |
| `SessionSignals.SessionTables.GetActiveMembershipsOverLimit` | aap_gateway_api/models/user_session_membership.py:35-61 | computes the rows over the limit |
| `SessionSignals.SessionTables.SaveSession` | aap_gateway_api/signals/session.py:22-72 | the handler of a session save is the Save step |

## Left out

- HTTP, gRPC, Redis and ORM mechanics, logging and progress output: only their outcomes appear.
- Real cryptography, JWT and PEM parsing: see the assumptions.
- django-ansible-base (resource serializers, RBAC caches, authenticator plugins): its source is not part of this model.
- Deserialisation and validation of upstream resources: items arrive validated; which superuser flags are set while single users are migrated (superuser_sync.py:26-86) is not modelled.
- Legacy authenticators: a single deletion before the phases modelled here.
- Loading remote types and permissions: each service's failure is swallowed and nothing depends on it here.
- Authenticators of merged accounts: the merge never preserves them, and their rows go with the account.
- The branch of `_merge_user_group` for reported conflicts (user_merge.py:159-163): the check has no result but true, so it cannot be taken.
- Thresholds, outlier detection, DNS options, TLS parameters, host rewrites, mTLS matches and the remaining ext_authz flags of the Envoy documents: they are copied from single rows of models that signal.
- The order of clusters, listeners and endpoints inside a document: documents are maps.
- Writes that bypass `Route.save` and the signals (bulk updates): the canonical name and invalidation are only claimed for saves and deletes.
- Other writers of a cluster's service id than `populate_service_id`: `migrate_service_data` overwrites it unconditionally.
- White space other than blanks, tabs and line ends: `strip` here removes these only.
- UUID parsing of the issuer and of the fetched id: both arrive in canonical form or not at all.
- Venv creation and subprocess detail in the upgrade runner: each command succeeds, fails or raises.
- The text of violations, summaries and audit-log events.
- A session limit below -1: the slice would raise, and the preference does not admit it.
- XdsCache.CacheIsCoherent: takes each request and commit as one step and only commits whose models signal, because it is false otherwise; `XdsBuilds.OverlappingReadsAreCoherent` and the conditions in `XdsStraddles` and `XdsWrites` say what holds then.
- XdsStraddles.StoredListenersIff: speaks about the entries of the listeners; the number and HTTPS setting of a port are not part of a listener here, and paths are not blank, as the validation of routes demands.
- Sessions.NeverOverLimit: supposes that no save revives an expired session; `Sessions.AlwaysBoundedIff` has the exact condition.
- ResourceMigration.Terminates: supposes that no item is stuck, because the loop need not end otherwise (`ResourceMigration.EndsIffNoneStuck`).
- ResourceMigration.EndsIffNoneStuck: supposes ids that do not cross and new items that can be created, because a stuck loop may otherwise also stall or end in a conflict (`ResourceMigration.CrossedIdsStall`, `ResourceMigration.CreateSucceedsIff`).
- ResourceMigration.FinishedMeansMigrated: supposes that a normal end is conclusive, because it is false otherwise (`ResourceMigration.EveryEndIsEmptyIff`).
- MigrateCommand.FlagMeansDone: of the resources it speaks about users, and supposes that normal ends are conclusive as above; the superuser flags are arbitrary when the superuser step begins, so it holds however they were set before.
