# Splitting the `twofaccounts.uri` column

This project models the database migration
`database/migrations/2021_09_08_191139_split_twofaccounts_uri_in_multiple_columns.php`.
Before this migration, the `twofaccounts` table of the 2FA account manager keeps each
account's whole OTP configuration in one column, `uri`: an `otpauth://` provisioning URI,
encrypted when the deployment uses encryption. The migration does the following:

- `up()` adds six typed columns: `otp_type`, `secret`, `algorithm`, `digits`, `period` and
  `counter`. It declares the first four NOT NULL. On SQLite only, it retypes `account` and
  `uri` to text. It renames `uri` to `legacy_uri`.
- `up()` then backfills the typed columns row by row. Each row's legacy URI is decrypted if
  encryption is on, then decoded into an OTP token. The token's fields are written into the
  row, and the secret is re-encrypted if encryption is on. A row whose processing throws is
  logged and skipped, and the loop goes on.
- `down()` drops the six columns one by one and renames `legacy_uri` back to `uri`.

The project has six modules:

- `Wrappers`: `Option` and `Result`.
- `Schema`: the table as a value (declared columns, rows keyed by id, a cell being an
  optional text or integer) and the storage engine's DDL primitives as functions on it.
- `Record`: one iteration of the backfill. `Transform` maps a legacy cell to the fields
  written or to the stage that threw. `BackfillRow` is the row after that iteration.
- `MigrationSpec`: `up()`, the backfill and `down()` as functions on table values, and the
  lemmas relating them. These cover failure isolation, re-running the backfill, the restoring round trip
  and the admitted values of `otp_type`.
- `Storage`: the table as an object whose fields the DDL calls,
  `select('id', 'legacy_uri')->get()` and `where('id', …)->update(…)` change in place.
- `Migration`: `up()`, its `foreach` loop and `down()` as methods running those calls in
  source order. Each method is proved against the function in `MigrationSpec` that
  specifies it.

The collaborators are fields of an `Env` value, and each returns `None` when the real call
throws an `Exception`:

- `decrypt` stands for `Crypt::decryptString`.
- `decode` stands for `OTPHP\Factory::loadFromProvisioningUri`.
- `encrypt` stands for `Crypt::encryptString`.
- `rejects` stands for the storage engine refusing an update.
- `useEncryption` stands for the `useEncryption` setting.

The database driver check on line 19 is the parameter `isSqlite`. The select has no
`orderBy`, so the order in which the storage engine returns the rows is the parameter
`order`: any listing of the row ids, each id once. The loop visits the rows in that order.
`MigrationSpec.BackfillSwept` shows that the resulting table does not depend on it. The ids
of the rows whose iteration threw and was logged are returned as `skipped`, in visiting
order.

The NOT NULL tightening (lines 33-38) runs right after the columns are added and before
the backfill (lines 57-80). `MigrationSpec.UpNotNullExactlyWhenBackfilled` states what
follows. After `up()`, a row satisfies those NOT NULL declarations exactly when its own
iteration succeeded.

## Model

| member | source | states |
|---|---|---|
| Schema.AddColumns | database/migrations/2021_09_08_191139_split_twofaccounts_uri_in_multiple_columns.php:24-31 | a schema block adding new columns declares exactly them in addition to the old ones, keeps the old declarations, keeps every row and gives each row a NULL cell in each new column |
| Schema.ChangeColumn | database/migrations/2021_09_08_191139_split_twofaccounts_uri_in_multiple_columns.php:33-50 | `->change()` sets the column's type and, when `nullable(...)` is given, its nullability, else keeps it; no other declaration and no cell changes |
| Schema.RenameColumn | database/migrations/2021_09_08_191139_split_twofaccounts_uri_in_multiple_columns.php:52-54 | `renameColumn` moves the declaration and every row's cell to the new name; everything else is unchanged |
| Schema.DropColumn | database/migrations/2021_09_08_191139_split_twofaccounts_uri_in_multiple_columns.php:90-112 | `dropColumn` removes the declaration and the column's cell from every row; everything else is unchanged |
| Schema.NullCells | database/migrations/2021_09_08_191139_split_twofaccounts_uri_in_multiple_columns.php:24-31 | a row gets NULL in each named column and keeps its other cells |
| Schema.Rename | database/migrations/2021_09_08_191139_split_twofaccounts_uri_in_multiple_columns.php:53 | a renamed map has the new key holding the old key's value and is otherwise the same |
| Record.OtpTypeName | database/migrations/2021_09_08_191139_split_twofaccounts_uri_in_multiple_columns.php:68 | the written type is "totp" exactly for a TOTP token and "hotp" for every other |
| Record.ParameterCell | database/migrations/2021_09_08_191139_split_twofaccounts_uri_in_multiple_columns.php:72-73 | the cell is NULL exactly when the token lacks the parameter, and holds its value otherwise |
| Record.TokenFields | database/migrations/2021_09_08_191139_split_twofaccounts_uri_in_multiple_columns.php:67-74 | the update writes exactly the six typed columns: totp/hotp by class, the given secret, the digest, the digits, and period/counter NULL exactly when the token has no such parameter |
| Record.Plaintext | database/migrations/2021_09_08_191139_split_twofaccounts_uri_in_multiple_columns.php:62 | without encryption the stored cell is decoded as it is; with encryption its decryption is, and a failed decryption stops the iteration |
| Record.StoredSecret | database/migrations/2021_09_08_191139_split_twofaccounts_uri_in_multiple_columns.php:69 | the written secret is the token's secret, encrypted exactly when encryption is on |
| Record.Transform | database/migrations/2021_09_08_191139_split_twofaccounts_uri_in_multiple_columns.php:61-79 | each failure kind occurs exactly when its stage (decrypt, decode, encrypt) throws; on success the fields are the six typed columns, `otp_type` is totp or hotp, and secret, algorithm and digits are not NULL |
| Record.TransformPlain | database/migrations/2021_09_08_191139_split_twofaccounts_uri_in_multiple_columns.php:62-74 | without encryption, an iteration succeeds exactly when the raw cell decodes and the update is accepted, and then writes the token's fields with the plain secret |
| Record.TransformEncrypted | database/migrations/2021_09_08_191139_split_twofaccounts_uri_in_multiple_columns.php:62-74 | with encryption, an iteration succeeds exactly when decryption, decoding of the plaintext and encryption of the secret all succeed and the update is accepted, and then writes the token's fields with the encrypted secret |
| Record.BackfillRow | database/migrations/2021_09_08_191139_split_twofaccounts_uri_in_multiple_columns.php:60-80 | a skipped row is left exactly as it was; otherwise its six typed cells hold the transformed fields and every other cell is unchanged |
| Record.BackfillRowKeys | database/migrations/2021_09_08_191139_split_twofaccounts_uri_in_multiple_columns.php:65-74 | on a row already holding the typed columns the iteration adds no column |
| Record.BackfillRowOtpType | database/migrations/2021_09_08_191139_split_twofaccounts_uri_in_multiple_columns.php:68 | an iteration leaves `otp_type` as it was or writes "totp" or "hotp" |
| Record.LegacyUriUntouched | database/migrations/2021_09_08_191139_split_twofaccounts_uri_in_multiple_columns.php:65-74 | the iteration never writes `legacy_uri` |
| Record.BackfillRowIdempotent | database/migrations/2021_09_08_191139_split_twofaccounts_uri_in_multiple_columns.php:60-80 | running an iteration a second time on its own result keeps its columns and rewrites no cell other than `secret`; without encryption it changes nothing |
| MigrationSpec.TypedDefinitions | database/migrations/2021_09_08_191139_split_twofaccounts_uri_in_multiple_columns.php:24-31 | the first schema block declares exactly the six typed columns, each nullable |
| MigrationSpec.AddTypedColumns | database/migrations/2021_09_08_191139_split_twofaccounts_uri_in_multiple_columns.php:24-31 | the six typed columns are added, all nullable, with NULL in every row; old declarations and cells are kept |
| MigrationSpec.TightenTypedColumns | database/migrations/2021_09_08_191139_split_twofaccounts_uri_in_multiple_columns.php:33-38 | `otp_type`, `secret`, `algorithm` and `digits` become NOT NULL; every other declaration and all rows are unchanged |
| MigrationSpec.RetypeToText | database/migrations/2021_09_08_191139_split_twofaccounts_uri_in_multiple_columns.php:41-50 | `account` and `uri` become text with their nullability kept; nothing else changes |
| MigrationSpec.RetypedColumns | database/migrations/2021_09_08_191139_split_twofaccounts_uri_in_multiple_columns.php:44-48 | the retyped columns are text, keep their nullability, and all other declarations are kept |
| MigrationSpec.UpDdlRow | database/migrations/2021_09_08_191139_split_twofaccounts_uri_in_multiple_columns.php:24-54 | after the DDL of `up()` a row has NULL typed cells, `legacy_uri` holding the old `uri`, and its other cells unchanged |
| MigrationSpec.UpDdl | database/migrations/2021_09_08_191139_split_twofaccounts_uri_in_multiple_columns.php:24-54 | the DDL of `up()` replaces `uri` by `legacy_uri`, adds the typed columns, keeps every row id and changes each row as UpDdlRow says |
| MigrationSpec.UpDdlColumns | database/migrations/2021_09_08_191139_split_twofaccounts_uri_in_multiple_columns.php:24-54 | after the DDL of `up()` four typed columns are NOT NULL and period/counter nullable; `legacy_uri` is the old `uri` declaration, retyped to text only on SQLite, as is `account`; all other columns are unchanged |
| Schema.ColumnCells | database/migrations/2021_09_08_191139_split_twofaccounts_uri_in_multiple_columns.php:57 | the selected column of the rows: one cell per row id, each that row's cell in the column |
| MigrationSpec.Sweep | database/migrations/2021_09_08_191139_split_twofaccounts_uri_in_multiple_columns.php:60-80 | a loop that rewrites the entry of each listed key in turn keeps the key set |
| MigrationSpec.SweepSnoc | database/migrations/2021_09_08_191139_split_twofaccounts_uri_in_multiple_columns.php:60-80 | one more iteration rewrites the entry of the next key from its current value and leaves the others as they were |
| MigrationSpec.SweepOutside | database/migrations/2021_09_08_191139_split_twofaccounts_uri_in_multiple_columns.php:60-80 | an entry whose key has not been visited yet is still the original one |
| MigrationSpec.SweepOnce | database/migrations/2021_09_08_191139_split_twofaccounts_uri_in_multiple_columns.php:60-80 | when each key is listed once, the loop leaves every visited entry as one application of the step to its original value, whatever the order |
| MigrationSpec.Filter | database/migrations/2021_09_08_191139_split_twofaccounts_uri_in_multiple_columns.php:76-79 | the kept elements are exactly the ones satisfying the test, and none repeats if none repeated before |
| MigrationSpec.FilterSnoc | database/migrations/2021_09_08_191139_split_twofaccounts_uri_in_multiple_columns.php:76-79 | one more element is appended to the kept ones exactly when it passes the test |
| MigrationSpec.BackfillStep | database/migrations/2021_09_08_191139_split_twofaccounts_uri_in_multiple_columns.php:60-80 | one iteration of the loop on a row holding `legacy_uri` is BackfillRow of that row |
| MigrationSpec.LoggedIds | database/migrations/2021_09_08_191139_split_twofaccounts_uri_in_multiple_columns.php:76-79 | the logged ids are exactly the visited rows whose iteration throws, each once |
| MigrationSpec.LoggedIdsSnoc | database/migrations/2021_09_08_191139_split_twofaccounts_uri_in_multiple_columns.php:76-79 | the next visited row is appended to the log exactly when its iteration throws |
| MigrationSpec.BackfillOneMore | database/migrations/2021_09_08_191139_split_twofaccounts_uri_in_multiple_columns.php:57-80 | the next row in select order is still as selected when its turn comes; its iteration replaces it by its backfilled form and logs it exactly when it throws |
| MigrationSpec.BackfillOrderIndependent | database/migrations/2021_09_08_191139_split_twofaccounts_uri_in_multiple_columns.php:60-80 | whatever the select order, the loop leaves every row as its own iteration leaves it |
| MigrationSpec.BackfillSwept | database/migrations/2021_09_08_191139_split_twofaccounts_uri_in_multiple_columns.php:57-80 | the loop over any listing of the rows ends on BackfillTable of the table it started on |
| MigrationSpec.UpDdlLegacyCells | database/migrations/2021_09_08_191139_split_twofaccounts_uri_in_multiple_columns.php:52-57 | after the DDL of `up()` every row has a `legacy_uri` cell, and the selected column is the old `uri` column |
| MigrationSpec.BackfillRows | database/migrations/2021_09_08_191139_split_twofaccounts_uri_in_multiple_columns.php:60-80 | the loop gives every selected row exactly its own iteration's result, independent of the other rows |
| MigrationSpec.BackfillTable | database/migrations/2021_09_08_191139_split_twofaccounts_uri_in_multiple_columns.php:57-80 | the backfill keeps the declarations and the row ids, keeps the table well formed and leaves each row as BackfillRow says |
| MigrationSpec.UpTable | database/migrations/2021_09_08_191139_split_twofaccounts_uri_in_multiple_columns.php:17-81 | the whole of `up()` leaves the UpDdl columns and every row as the backfill of its DDL-transformed self |
| MigrationSpec.UpKeepsLegacyUri | database/migrations/2021_09_08_191139_split_twofaccounts_uri_in_multiple_columns.php:52-74 | after `up()` every row's `legacy_uri` holds its original `uri` and no cell other than the typed ones was changed |
| MigrationSpec.UpBackfillOutcome | database/migrations/2021_09_08_191139_split_twofaccounts_uri_in_multiple_columns.php:60-80 | failure isolation: a skipped row keeps NULL in every typed cell, and every other row holds the fields derived from its own legacy URI |
| MigrationSpec.UpOtpType | database/migrations/2021_09_08_191139_split_twofaccounts_uri_in_multiple_columns.php:68 | after `up()` every `otp_type` cell is NULL, "totp" or "hotp" |
| MigrationSpec.UpRowNotNull | database/migrations/2021_09_08_191139_split_twofaccounts_uri_in_multiple_columns.php:33-80 | one row after `up()` holds values in the four NOT NULL columns exactly when its iteration succeeded |
| MigrationSpec.UpNotNullExactlyWhenBackfilled | database/migrations/2021_09_08_191139_split_twofaccounts_uri_in_multiple_columns.php:33-80 | after `up()`, exactly the rows whose iteration succeeded hold values in `otp_type`, `secret`, `algorithm` and `digits`; a logged row keeps NULL in the columns declared NOT NULL |
| MigrationSpec.DownDdlRow | database/migrations/2021_09_08_191139_split_twofaccounts_uri_in_multiple_columns.php:88-117 | after `down()` a row has lost its typed cells, `uri` holds the former `legacy_uri`, and other cells are unchanged |
| MigrationSpec.DropTypedColumns | database/migrations/2021_09_08_191139_split_twofaccounts_uri_in_multiple_columns.php:90-112 | the six drop blocks remove exactly the typed columns from the declarations and from every row |
| MigrationSpec.DownDdl | database/migrations/2021_09_08_191139_split_twofaccounts_uri_in_multiple_columns.php:88-117 | `down()` removes the typed columns, renames `legacy_uri` back to `uri` with its declaration, and keeps everything else |
| MigrationSpec.BackfillIdempotent | database/migrations/2021_09_08_191139_split_twofaccounts_uri_in_multiple_columns.php:57-80 | running the backfill again over a backfilled table keeps declarations and row ids and rewrites no cell other than `secret`; without encryption it gives the same table |
| MigrationSpec.DownUpRow | database/migrations/2021_09_08_191139_split_twofaccounts_uri_in_multiple_columns.php:17-117 | a row through `up()` and then `down()` comes back exactly, whether or not its iteration threw |
| MigrationSpec.DownAfterUpColumns | database/migrations/2021_09_08_191139_split_twofaccounts_uri_in_multiple_columns.php:17-117 | the declarations after `down()` following `up()` are the original ones, except `account` and `uri` are text on SQLite |
| MigrationSpec.DownReadyAfterUp | database/migrations/2021_09_08_191139_split_twofaccounts_uri_in_multiple_columns.php:88-117 | every DDL step of `down()` is applicable to the table `up()` leaves |
| MigrationSpec.DownAfterUpRows | database/migrations/2021_09_08_191139_split_twofaccounts_uri_in_multiple_columns.php:17-117 | `down()` after `up()` gives back every row exactly |
| MigrationSpec.DownAfterUp | database/migrations/2021_09_08_191139_split_twofaccounts_uri_in_multiple_columns.php:17-117 | `down()` after `up()` restores all rows, including `uri`, exactly; the schema is restored as well, except that on SQLite `account` and `uri` keep the text type |
| MigrationSpec.BackfilledRows | database/migrations/2021_09_08_191139_split_twofaccounts_uri_in_multiple_columns.php:60-80 | a table whose rows each hold their backfilled value is the backfilled table |
| Storage.TwofaccountsTable.AddColumns | database/migrations/2021_09_08_191139_split_twofaccounts_uri_in_multiple_columns.php:24-31 | the table object becomes Schema.AddColumns of its old value and stays well formed |
| Storage.TwofaccountsTable.ChangeColumn | database/migrations/2021_09_08_191139_split_twofaccounts_uri_in_multiple_columns.php:33-50 | the table object becomes Schema.ChangeColumn of its old value |
| Storage.TwofaccountsTable.RenameColumn | database/migrations/2021_09_08_191139_split_twofaccounts_uri_in_multiple_columns.php:52-54 | the table object becomes Schema.RenameColumn of its old value |
| Storage.TwofaccountsTable.DropColumn | database/migrations/2021_09_08_191139_split_twofaccounts_uri_in_multiple_columns.php:90-112 | the table object becomes Schema.DropColumn of its old value |
| Storage.TwofaccountsTable.SelectLegacyUris | database/migrations/2021_09_08_191139_split_twofaccounts_uri_in_multiple_columns.php:57 | the select returns, for each id in the engine's order, that id with its row's `legacy_uri` cell, and changes nothing |
| Storage.TwofaccountsTable.Update | database/migrations/2021_09_08_191139_split_twofaccounts_uri_in_multiple_columns.php:65-74 | only the row with the given id changes, and only in the given cells; an unknown id changes nothing |
| Migration.ProcessRecord | database/migrations/2021_09_08_191139_split_twofaccounts_uri_in_multiple_columns.php:61-79 | one iteration changes only its own row, leaving it as BackfillRow says, and reports a log exactly when the iteration threw |
| Migration.Backfill | database/migrations/2021_09_08_191139_split_twofaccounts_uri_in_multiple_columns.php:57-80 | the loop over the selected rows, in their order, leaves the table equal to BackfillTable of the old table, and logs, in visiting order and each once, exactly the rows whose iteration threw |
| Migration.Up | database/migrations/2021_09_08_191139_split_twofaccounts_uri_in_multiple_columns.php:17-81 | running the steps of `up()` in source order leaves the table equal to UpTable of the old table, and logs, in select order, exactly the rows whose original `uri` fails to go through |
| Migration.Down | database/migrations/2021_09_08_191139_split_twofaccounts_uri_in_multiple_columns.php:88-117 | running the steps of `down()` in source order leaves the table equal to DownDdl of the old table |

## Left out

- How the driver name is looked up (line 19). It is the parameter `isSqlite`.
- The `SettingService` lookup (line 58). `useEncryption` is read twice per iteration
  (lines 62 and 69) but is one boolean of `Env`. A setting that changes mid-iteration is not
  modelled.
- The encryption service and the OTP library. Their internals and failure reasons are
  collaborators outside this model: `decrypt`, `encrypt` and `decode` are arbitrary
  functions, and `None` means the call threw.
- `decode` covers the library's URI parsing and its defaults for missing parameters. Which
  token it yields for a URI is not modelled. `get_class($token) === 'OTPHP\TOTP'` is the
  flag `Token.isTotp`.
- Record.Transform: a `Throwable` that does not extend `Exception` escapes the `catch` and
  aborts the migration, for example a `TypeError` from passing a NULL cell to the decoder.
  The model treats every collaborator failure as a caught, logged one.
- The text of the log message (line 78). Only which rows were logged is kept.
- Schema.ChangeColumn: the model never enforces NOT NULL. It only changes the declaration.
  Whether the engine rejects the change, or fills in defaults, when the changed column
  already holds NULL values (lines 33-38 run when every existing row has NULL there) is
  engine behaviour this model does not capture. UpNotNullExactlyWhenBackfilled states
  which rows hold NULL in those columns afterwards.
- Column lengths (`string('otp_type', 10)`, `string('algorithm', 20)`), the range of the
  unsigned integer types and charset details. A declaration is its type name and
  nullability, and a value the engine would reject is covered by `rejects`.
- DDL failures. A schema step on a column that is missing or already exists throws, and the
  source does not catch it. The model demands applicability up front (`UpReady` and
  `DownReady`) rather than modelling an aborted migration.
- Transactions and concurrent writers. The migration runs alone, each update is
  independent, and partial completion is not rolled back.
- The row count `$affected` returned by the update (line 65), which the source never reads.
- The order of the select. The engine's order is the parameter `order`, which must list
  every row id once. Which order an engine actually uses is not modelled.
- Record.BackfillRowIdempotent: `encrypt` is a function, so the model's encryption is
  deterministic. `Crypt::encryptString` draws a fresh random IV on every call (line 69), so
  with encryption a second pass writes a different ciphertext of the same secret. The lemma
  therefore claims nothing about `secret` when encryption is on.
- MigrationSpec.BackfillIdempotent: for the same reason, with encryption it claims nothing
  about the `secret` cells of the re-run backfill.
