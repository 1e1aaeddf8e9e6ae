# SnowDDL schema cache refresh, modelled in Dafny

This project models the row-processing core of SnowDDL's `SchemaCache`
(`snowddl/cache/schema_cache.py`): the in-memory snapshot of which databases
and schemas exist in the Snowflake account, rebuilt by `reload()`.

A reload
1. runs the database listing through the user's database filters (an ordered
   list of `rows -> rows` plugins, any of which may raise),
2. keeps a database row only if its owner is the current role (or
   `ignore_ownership` is set), its `origin` is empty (not a share), and, when
   `include_databases` is set, `Ident(name)` is in that list,
3. turns every kept row into a database record stored under its name,
4. for each database in the dict's order, runs that database's schema listing
   through the schema filters, skips `INFORMATION_SCHEMA`, and stores a schema
   record under `"<database_name>.<name>"`,
5. merges the per-database schema maps with `dict.update`.

Records are normalised: an empty comment becomes `None`; `is_transient` and
`is_managed_access` are plain substring tests for `TRANSIENT` and
`MANAGED ACCESS` in the options text; the retention text is parsed with
`int()`, and at schema level falls back to 0 unless it is a digit string.

Files (one module each):
- `basics.dfy` — `Option` and `Result`.
- `text.dfy` — substring search proved equal to its specification, `isdigit`,
  `int()` on digit strings, and the decimal rendering that inverts it.
- `pipeline.dfy` — the filter pipeline and its composition laws.
- `keyed.dfy` — the shared "keep, key, store; later rows overwrite" loop and
  the dict's insertion order.
- `catalog.dfy` — rows, records, the visibility policy, record normalisation.
- `fan_out.dfy` — the in-order merge of the per-database schema maps.
- `schema_cache.dfy` — database and schema builders, `reload`, and the
  properties of the cache it produces.

Inputs the source obtains from elsewhere are parameters: the two catalog
listings (`Listings`: the database listing, and a function from database name
to its schema listing), the loaded filters (`Filters`), and the settings and
session role (`Policy`, whose `ident` field stands for `Ident(...)`, whose
definition is not part of this model).

The model follows the code in three places where a reader might expect otherwise:
- A failed reload is not atomic. Both maps are emptied first (lines 38-39). A
  database filter failure leaves them empty. A schema filter failure leaves
  the full database map and the schema maps of the databases merged before the
  first failing one, in the database map's order
  (`SchemaCache.ReloadPartialOnSchemaFailure`). Nothing is rolled back.
- The option markers are matched as substrings (`"NONTRANSIENT"` counts as
  transient), not as whole tokens (`Catalog.OptionMarkerExamples`).
- Schema keys use the row's own `database_name` (lines 100-101), not the
  database that was queried. A schema record's database is therefore a cached
  database whenever each listing reports the queried database and no filter
  rewrites `database_name` (`SchemaCache.ReloadSchemasWithinDatabases`).
  Otherwise it can name any database, cached or not.

## Model

| member | source | states |
|---|---|---|
| Pipeline.RunEmpty | snowddl/cache/schema_cache.py:49-50 | with no filters loaded, the rows pass through unchanged |
| Pipeline.RunSingle | snowddl/cache/schema_cache.py:49-50 | a one-filter pipeline gives exactly that filter's result, its failure included |
| Pipeline.RunAppend | snowddl/cache/schema_cache.py:49-50 | filters apply left to right as function composition: running `a + b` is running `a`, then `b` on its output, and a failure in `a` stops before `b` |
| Pipeline.RunPreserves | snowddl/cache/schema_cache.py:90-91 | a property of the rows that every filter stage keeps holds of the pipeline's output |
| Text.Contains | snowddl/cache/schema_cache.py:71 | the executable search returns true exactly when the needle occurs at some position of the text (Python's `in` on strings) |
| Text.ParseDecimalString | snowddl/cache/schema_cache.py:107 | `int(str(n)) == n` for every natural number |
| Text.DecimalStringParse | snowddl/cache/schema_cache.py:72 | `str(int(s)) == s` for a digit string without a leading zero |
| Text.DecimalStringOfParse | snowddl/cache/schema_cache.py:72 | for any digit string, `str(int(s))` is `s` with its leading zeros removed |
| Catalog.NormalizeComment | snowddl/cache/schema_cache.py:70 | the comment is `None` exactly when the row's comment is empty, and otherwise is the row's comment unchanged |
| Catalog.ToDatabaseRecord | snowddl/cache/schema_cache.py:67-73 | the record's name and owner are the row's; comment is `None` iff empty; transient iff `TRANSIENT` is a substring of options; the retention renders back to the row's digits without leading zeros |
| Catalog.ToSchemaRecord | snowddl/cache/schema_cache.py:100-108 | database and schema are the row's `database_name` and `name`; comment, transient and managed-access follow the empty and substring rules; a digit-string retention renders back to its digits, any other text gives 0 |
| Catalog.SchemaRetentionOfDecimal | snowddl/cache/schema_cache.py:107 | a retention text that renders a number parses to that number |
| Catalog.SchemaRetentionFallback | snowddl/cache/schema_cache.py:107 | an empty retention text, or one with a non-digit character, gives 0 |
| Catalog.SchemaRetentionExamples | snowddl/cache/schema_cache.py:107 | `"30"` gives 30; `"N/A"` and `""` give 0 |
| Catalog.OptionMarkerExamples | snowddl/cache/schema_cache.py:105-106 | `"TRANSIENT, MANAGED ACCESS"` carries both markers; `"NONTRANSIENT"` counts as transient; `"MANAGED"` is not managed access |
| Keyed.Index | snowddl/cache/schema_cache.py:54-67 | the keys of the built map are exactly the keys of the kept rows |
| Keyed.IndexLastWins | snowddl/cache/schema_cache.py:67 | the record under a key is the one built from the last kept row with that key |
| Keyed.IndexFromLastKept | snowddl/cache/schema_cache.py:67 | every stored record was built from the last kept row with its key |
| Keyed.FirstKeys | snowddl/cache/schema_cache.py:76 | the dict's iteration order lists each kept key exactly once, and nothing else |
| Keyed.FirstKeysOrder | snowddl/cache/schema_cache.py:67 | that order is first-insertion order: a key listed earlier was first stored before any row of a key listed later |
| SchemaCache.BuildDatabases | snowddl/cache/schema_cache.py:54-73 | a name is a key exactly when some filtered row with that name passes the visibility rule, and its record is built from such a row |
| SchemaCache.DatabaseLastWins | snowddl/cache/schema_cache.py:67 | a later visible row with the same name overwrites an earlier one |
| SchemaCache.SharesExcluded | snowddl/cache/schema_cache.py:59-61 | a name listed only by rows with a non-empty origin is never a key, whatever the owner or include list |
| SchemaCache.OwnershipEnforced | snowddl/cache/schema_cache.py:55-57 | without `ignore_ownership`, every database record's owner is the current role |
| SchemaCache.OwnershipIgnored | snowddl/cache/schema_cache.py:55-57 | with `ignore_ownership`, the keys are exactly the names of native, included rows: ownership excludes nothing |
| SchemaCache.IncludeListEnforced | snowddl/cache/schema_cache.py:63-65 | with a non-empty include list, the identifier of every key is in the list |
| SchemaCache.NoIncludeList | snowddl/cache/schema_cache.py:63-65 | with no include list, the keys are exactly the names of native rows that ownership allows |
| SchemaCache.OwnedDatabaseScenario | snowddl/cache/schema_cache.py:55-57 | with databases `A` (owned by the current role) and `B` (owned by another role), no include list and ownership not ignored, only `A` is cached |
| SchemaCache.DatabaseOrder | snowddl/cache/schema_cache.py:76 | the fan-out visits each database of the map exactly once and no other name |
| SchemaCache.DatabaseOrderIsInsertionOrder | snowddl/cache/schema_cache.py:67-76 | the fan-out visits databases in the order their names were first inserted into the database dict |
| SchemaCache.BuildSchemas | snowddl/cache/schema_cache.py:95-108 | a key is present exactly when some filtered row that is not `INFORMATION_SCHEMA` has that `database_name.name`, and its record is built from such a row |
| SchemaCache.SchemaKeyFormat | snowddl/cache/schema_cache.py:100-102 | every key is the record's `database + "." + schema`, and no record is the information schema |
| SchemaCache.InformationSchemaExcluded | snowddl/cache/schema_cache.py:96-98 | a key reached only by rows named `INFORMATION_SCHEMA` gets no record |
| SchemaCache.SchemaLastWins | snowddl/cache/schema_cache.py:100 | a later row with the same composite key overwrites an earlier one |
| FanOut.MergeFailure | snowddl/cache/schema_cache.py:76-77 | the merge fails exactly when some database's schema fetch fails |
| FanOut.MergeFirstFailure | snowddl/cache/schema_cache.py:76-77 | the error raised is the first failing database's in iteration order, and the merged entries are those of the databases before it |
| FanOut.MergeFrom | snowddl/cache/schema_cache.py:76-77 | every merged entry comes from the successful map of one of the databases |
| FanOut.MergeLastWins | snowddl/cache/schema_cache.py:77 | `update` lets a later database's map overwrite an earlier one's entry for the same key |
| FanOut.MergeCovers | snowddl/cache/schema_cache.py:77 | after a successful merge, every key of every database's map is present |
| SchemaCache.Reload | snowddl/cache/schema_cache.py:37-77 | a database filter failure is reported exactly when the database pipeline fails, and leaves both maps empty; every database key is its record's name; every schema key is its record's `database.schema` |
| SchemaCache.ReloadIgnoresPrior | snowddl/cache/schema_cache.py:37-39 | the result does not depend on the maps held before the reload |
| SchemaCache.ReloadIdempotent | snowddl/cache/schema_cache.py:37-39 | reloading again on the same listings, filters and settings gives the same maps |
| SchemaCache.ReloadDatabases | snowddl/cache/schema_cache.py:48-73 | once the database filters pass, the database map is the one built from their output (so its keys are exactly the names of the visible rows, and its records are the normalised records of those rows), and any failure is a schema filter failure |
| SchemaCache.FilteredReportQueried | snowddl/cache/schema_cache.py:89-91 | if the listing and every schema filter keep `database_name` equal to the queried database, so does the filtered output |
| SchemaCache.ReloadSchemasWithinDatabases | snowddl/cache/schema_cache.py:76-101 | under that condition every schema record's database is a key of the database map, even after a failed reload |
| SchemaCache.ReloadSucceeds | snowddl/cache/schema_cache.py:48-93 | a reload succeeds exactly when the database filters pass and the schema filters pass for every cached database |
| SchemaCache.ReloadSchemasAreUnion | snowddl/cache/schema_cache.py:76-77 | after a successful reload, a schema key is present exactly when the schema map of some cached database has it |
| SchemaCache.ReloadSchemaFrom | snowddl/cache/schema_cache.py:76-77 | every schema record, after a successful or a failed reload, is the record that the schema map of some cached database holds for its key |
| SchemaCache.ReloadSchemaLastWins | snowddl/cache/schema_cache.py:76-77 | `update` in the database map's order: when every cached database's schema filters pass, a key's record is that of the last database, in that order, whose schema map has the key |
| SchemaCache.ReloadPartialOnSchemaFailure | snowddl/cache/schema_cache.py:76-93 | a schema filter failure leaves the complete database map; the error is that of the first database, in the database map's order, whose schema filters fail; every database before it passed; and the schema map holds what those earlier databases produced |
| Pipeline.Run | snowddl/cache/schema_cache.py:48-52 | the `cur = f(cur)` loop: a failure carries a cause one of the filters raised, and filters that never raise give a pipeline that never fails; its composition laws are `Pipeline.RunEmpty`, `Pipeline.RunSingle` and `Pipeline.RunAppend` |
| FanOut.MergeAll | snowddl/cache/schema_cache.py:76-77 | the `executor.map` and `update` loop: an error that stops the merge is one a database's fetch returned; `FanOut.MergeFirstFailure`, `FanOut.MergeFrom`, `FanOut.MergeLastWins` and `FanOut.MergeCovers` state the rest |
| SchemaCache.DatabaseSchemas | snowddl/cache/schema_cache.py:79-110 | `_get_database_schemas`: it fails exactly when the schema filters fail, with their cause wrapped as a schema filter failure; on success a key is present exactly when some visible row (not `INFORMATION_SCHEMA`) of the filtered listing has it as `database_name.name`, its record is built from such a row, every key is its record's `database.schema` and no record is `INFORMATION_SCHEMA` |
| Catalog.SchemaRetention | snowddl/cache/schema_cache.py:107 | a digit-string retention gives the number that renders back to the text without leading zeros; any other text gives 0 |
| Text.ParseDecimal | snowddl/cache/schema_cache.py:72 | `int()` on a digit string: a string not starting with `0` has a positive value; `Text.ParseDecimalString` and `Text.DecimalStringOfParse` relate it to `str()` both ways |
| Text.IsDigits | snowddl/cache/schema_cache.py:107 | `str.isdigit()` on ASCII text: non-empty and every character a digit; `Catalog.SchemaRetention` and `Catalog.SchemaRetentionFallback` state what it selects |
| Catalog.OwnershipAllows | snowddl/cache/schema_cache.py:55-57 | a row owned by another role is skipped unless ownership is ignored; `SchemaCache.OwnershipEnforced` and `SchemaCache.OwnershipIgnored` state its effect on the cache |
| Catalog.IsShare | snowddl/cache/schema_cache.py:59-61 | a non-empty `origin` marks a share; `SchemaCache.SharesExcluded` states that shares are never cached |
| Catalog.Included | snowddl/cache/schema_cache.py:63-65 | with an include list, only names whose identifier is listed are kept; `SchemaCache.IncludeListEnforced` and `SchemaCache.NoIncludeList` state its effect |
| Catalog.DatabaseVisible | snowddl/cache/schema_cache.py:54-65 | the three skips together; `SchemaCache.BuildDatabases` keys exactly the filtered names some visible row carries |
| Catalog.SchemaVisible | snowddl/cache/schema_cache.py:96-98 | only `INFORMATION_SCHEMA` is skipped; `SchemaCache.InformationSchemaExcluded` states its effect |
| SchemaCache.SchemaKey | snowddl/cache/schema_cache.py:100 | the key `database_name.name`; `SchemaCache.SchemaKeyFormat` states that every key is its record's `database.schema` |

## Left out

- Loading filter plugins (lines 23-35) globs a directory and imports and runs Python files. The loaded filters enter the model as the given `Filters`, in load order.
- Construction (lines 11-21) is loading the filters and then one reload from empty maps. It is not modelled as a member of its own.
- The catalog queries and their SQL templates (lines 41-46 and 82-87) are remote calls. Their results are the given `Listings`. A failing query would propagate unwrapped, and that error path is not modelled.
- `executor.map` (line 76) runs the schema fetches in parallel. The model fetches in order, which is exact for the result: the executor yields results in input order and raises at the first failing one.
- Filters are modelled as eager functions. A filter written as a lazy generator would raise while rows are consumed, outside the `try` blocks at lines 48-52 and 89-93. That error would then escape unwrapped after some records were already stored. This is not modelled.
- Catalog.ToDatabaseRecord: requires a digit-string retention, for the reason given for SchemaCache.BuildDatabases below.
- SchemaCache.Reload: requires that the visible rows left by the database filters have digit-string retentions, for the reason given for SchemaCache.BuildDatabases below.
- SchemaCache.BuildDatabases: requires that every visible row after filtering has a digit-string retention, because `int()` on any other text raises (line 72). Python's `int()` also accepts surrounding whitespace, a sign and underscores. Those inputs, and the ValueError on the others, are not modelled.
- Catalog.ToSchemaRecord: `isdigit` is modelled on ASCII digits only. Python's `str.isdigit` also accepts other Unicode digits. For other decimal digits, such as fullwidth `"３０"`, `int()` then gives 30 where the model gives 0. For digits that are not decimal, such as superscript `"²"`, `int()` raises `ValueError` where the model gives 0.
- Row values are modelled as strings, not as Python `None`.
- `Ident(...)` is a parameter of the policy, because its definition is not part of this model.
- `snowddl/parser/tag.py` maps schema-validated parameters onto blueprint types that are not part of this model. It is left out.
