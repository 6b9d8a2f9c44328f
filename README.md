# GSB storage model

A Dafny model of the local store of a Google Safe Browsing client written
for WordPress (class `GSB_WP_Storage`). The store mirrors the "add" and "sub"
chunks of host-key prefixes per blacklist. It answers which prefixes are live
for a set of host keys. It caches confirmed full hashes for 45 minutes, and it
keeps the retry-and-backoff state of the sync client.

The four MySQL tables become fields of the class `Storage.GsbStorage`:

- `add`: a set of `(list_id, add_chunk_num, host_key, prefix)` rows.
- `sub`: a set of `(list_id, add_chunk_num, sub_chunk_num, host_key, prefix)` rows.
- `fullhash`: a map from `(list_id, fullhash)` to `(add_chunk_num, create_ts)`.
- `rfd`: the optional single retry-state row.

The field `timeout` is the in-memory next-attempt override. Each SQL
statement is a pure function over those values, in the modules `Tables`,
`Fullhash` and `ChunkIndex`. The class methods reassign the fields with those
functions. Their frames (`modifies this`add`, …) and `ensures` say that no
other table changes. The list catalogue is the module `ListCatalog`.

Modelling decisions:

- **Unknown list names.** `list2id` of an unknown name is PHP's null. The `%d`
  placeholders print it as 0, and the `%s` ones print it as `''`, which MySQL
  compares with the integer column as 0. So every statement that takes a list
  name works on list id 0 for an unknown name (`ListCatalog.ListIdInQuery`).
- **Empty arguments.** `hostkey_select_prefixes` tests its argument with PHP's
  `empty()`. That is true of `""`, of `"0"` and of an empty array, so those
  three return nothing (`Tables.IsEmptyArgument`).
- **Time.** Every `$now` is an explicit parameter.
- **Retry state before the first `rfd_set`.** `rfd_get` returns the row, or
  null when there is no row (`None`). It does not return an all-zero default.
- **Read-only operations.** `hostkey_select_prefixes`, `fullhash_exists`,
  `rfd_get` and `get_timeout` are the class functions `HostkeySelectPrefixes`,
  `FullhashExists`, `RfdGet` and `GetTimeout`. Each `ensures` ties the answer to
  the current fields through the table functions below, whose properties are
  proved as lemmas; the methods that change the fields state their new values.

## Model

| member | source | states |
|---|---|---|
| `ListCatalog.KeyLookup` | lib/GSB_WP_Storage.php:25-27 | an array lookup by key finds a value exactly when some pair has that key, and the value comes from such a pair |
| `ListCatalog.FirstKeyWithValue` | lib/GSB_WP_Storage.php:33-40 | the search by value returns "???" when no pair holds the id, and otherwise the key of the first pair holding it |
| `ListCatalog.ListToId` | lib/GSB_WP_Storage.php:14-27 | list2id answers exactly for the four catalogue names, with an id in 1..4 |
| `Tables.IsEmptyArgument` | lib/GSB_WP_Storage.php:119 | PHP `empty()` holds of a single key exactly when it is "" or "0", and of an array exactly when it has no element |
| `ListCatalog.ListIdInQuery` | lib/GSB_WP_Storage.php:147-151 | the list id a statement uses is the catalogue id, or 0 exactly when the name is unknown |
| `ListCatalog.IdToList` | lib/GSB_WP_Storage.php:33-40 | the foreach over the catalogue returns the same name as the search by value over the catalogue: the first name registered for the id, or "???" |
| `ListCatalog.ListEnumIsInjective` | lib/GSB_WP_Storage.php:14-19 | no two catalogue names are equal and no two ids are equal |
| `ListCatalog.LookupOfFoundKey` | lib/GSB_WP_Storage.php:25-40 | with distinct keys, looking up the key found for an id gives back that id |
| `ListCatalog.SearchOfFoundValue` | lib/GSB_WP_Storage.php:25-40 | with distinct ids, searching for the id found for a name gives back that name |
| `ListCatalog.ListNameOfListToId` | lib/GSB_WP_Storage.php:14-40 | id2list(list2id(name)) == name for every catalogue name |
| `ListCatalog.ListToIdOfListName` | lib/GSB_WP_Storage.php:14-40 | list2id(id2list(id)) == id for every id in 1..4 |
| `ListCatalog.ListNameOfUnknownId` | lib/GSB_WP_Storage.php:33-40 | every id outside 1..4 maps to "???" |
| `Sorting.Insert` | lib/GSB_WP_Storage.php:93 | inserting into a sorted sequence keeps it sorted and adds exactly that one value |
| `Sorting.Sort` | lib/GSB_WP_Storage.php:93 | asort's value order: the result is sorted and a permutation of the input |
| `Sorting.SortedWithoutDuplicatesIsStrict` | lib/GSB_WP_Storage.php:87-93 | sorting distinct rows yields a strictly increasing sequence |
| `Sorting.StrictlyIncreasingIsUnique` | lib/GSB_WP_Storage.php:87-94 | two strictly increasing sequences with the same elements are equal, so the listing does not depend on the database's row order |
| `ChunkIndex.AddChunkNums` | lib/GSB_WP_Storage.php:87 | the DISTINCT query yields exactly the add chunk numbers of the list's add rows |
| `ChunkIndex.SubChunkNums` | lib/GSB_WP_Storage.php:100 | the DISTINCT query yields exactly the sub chunk numbers of the list's sub rows |
| `ChunkIndex.ListChunks` | lib/GSB_WP_Storage.php:89-94 | pushing the rows in any order and sorting yields exactly those numbers, strictly increasing |
| `ChunkIndex.LeadingDigit` | lib/GSB_WP_Storage.php:104 | the first decimal digit of a number is below 10, and differs from the number when the number is 10 or more |
| `ChunkIndex.FirstCharAsInt` | lib/GSB_WP_Storage.php:104 | `(int)` of the first character of a chunk number lies in 0..9 and equals the number only for one-digit numbers |
| `ChunkIndex.SubChunkListingAsWritten` | lib/GSB_WP_Storage.php:100-107 | as written the listing is empty when the query has no row, and otherwise holds one value, the first character of one row |
| `ChunkIndex.SubChunkListingLosesChunks` | lib/GSB_WP_Storage.php:100-107 | with sub chunk 17 alone in the table, the listing as written is [1] and does not hold 17 |
| `ChunkIndex.SubChunkListingAsWrittenBounds` | lib/GSB_WP_Storage.php:100-107 | as written the listing never has more than one element, and never an element of 10 or more |
| `Tables.InsertIgnore` | lib/GSB_WP_Storage.php:146-152 | INSERT IGNORE adds the row, keeps every other row, and leaves a table already holding the row unchanged |
| `Tables.InsertIgnoreIdempotent` | lib/GSB_WP_Storage.php:189-196 | inserting the same row twice leaves the table as one insert does |
| `Tables.DeleteAddRange` | lib/GSB_WP_Storage.php:158-165 | no add row of the list with add chunk in [min, max] remains, and every other add row is kept |
| `Tables.DeleteSubRange` | lib/GSB_WP_Storage.php:170-176 | no sub row of the list referring to an add chunk in [min, max] remains, and every other sub row is kept |
| `Tables.RequestedKeys` | lib/GSB_WP_Storage.php:121-126 | the WHERE clause compares with the single key, or with exactly the keys of the array |
| `Tables.SelectPrefixes` | lib/GSB_WP_Storage.php:116-140 | an empty argument returns nothing; otherwise the result is exactly the add rows for the requested keys that no sub row with the same list, host key, add chunk and prefix cancels |
| `Tables.SelectAfterSubInsert` | lib/GSB_WP_Storage.php:129-137 | inserting a sub row removes from the result exactly the add rows it cancels |
| `Tables.SelectAfterSubDelete` | lib/GSB_WP_Storage.php:129-137 | an add row whose add chunk lies in a deleted sub range is returned again |
| `Tables.SelectAfterAddDelete` | lib/GSB_WP_Storage.php:158-165 | after add_delete no row of the deleted range is ever returned |
| `Tables.SubInsertHidesScenario` | lib/GSB_WP_Storage.php:129-137 | an add row for host key "h1" is selected, and a matching sub row of sub chunk 9 hides it |
| `Fullhash.Exists` | lib/GSB_WP_Storage.php:254-256 | a hash is reported present iff a record for (list, hash) exists and is less than 2700 seconds old |
| `Fullhash.Replace` | lib/GSB_WP_Storage.php:228-235 | REPLACE INTO stores (add chunk, now) under (list, hash) and keeps every other record |
| `Fullhash.DeleteOld` | lib/GSB_WP_Storage.php:217 | the purge keeps exactly the records with create_ts >= now - 2700, unchanged |
| `Fullhash.DeleteAddRange` | lib/GSB_WP_Storage.php:158-165 | the cached hashes of the list whose add chunk is in [min, max] go, and every other record stays unchanged |
| `Fullhash.ExistsAfterReplace` | lib/GSB_WP_Storage.php:224-257 | fullhash_insert at now followed by fullhash_exists at the same now returns true |
| `Fullhash.FreshnessWindow` | lib/GSB_WP_Storage.php:217-255 | a hash stored at t0 is present exactly up to t0 + 2699; a purge at t0 + 2700 keeps it and one at t0 + 2701 removes it |
| `Fullhash.BoundaryRecord` | lib/GSB_WP_Storage.php:217-255 | a record with create_ts == now - 2700 is neither reported present nor purged |
| `Fullhash.DeleteOldUnobservable` | lib/GSB_WP_Storage.php:211-257 | a purge never changes what an existence check at the same or a later time reports |
| `Fullhash.DeleteOldIdempotent` | lib/GSB_WP_Storage.php:217 | purging twice at the same time is purging once |
| `Storage.GsbStorage.constructor` | lib/GSB_WP_Storage.php:10-20 | the timeout is 0 after construction and the tables are those of the database |
| `Storage.GsbStorage.DeleteAllData` | lib/GSB_WP_Storage.php:66-72 | add, sub and fullhash are emptied; rfd and timeout are unchanged |
| `Storage.GsbStorage.AddChunkGetNums` | lib/GSB_WP_Storage.php:84-95 | the result is strictly increasing and holds exactly the add chunk numbers present for the list |
| `Storage.GsbStorage.SubChunkGetNumsAsWritten` | lib/GSB_WP_Storage.php:97-108 | as written: at most one value, the first character of some sub chunk number of the list, or nothing when the list has none |
| `Storage.GsbStorage.SubChunkGetNums` | lib/GSB_WP_Storage.php:97-108 | as intended: strictly increasing, exactly the sub chunk numbers present for the list |
| `Storage.GsbStorage.HostkeySelectPrefixes` | lib/GSB_WP_Storage.php:116-140 | the query answers with the effective prefixes of the current gsb_add and gsb_sub for the keys, as `Tables.SelectPrefixes` characterises them |
| `Storage.GsbStorage.AddInsert` | lib/GSB_WP_Storage.php:142-153 | gsb_add gains the row by INSERT IGNORE; no other table and not the timeout changes |
| `Storage.GsbStorage.DeleteChunkRange` | lib/GSB_WP_Storage.php:159-165 | the range delete on the named table only; the other tables are unchanged |
| `Storage.GsbStorage.AddDelete` | lib/GSB_WP_Storage.php:155-166 | the range is deleted from add, sub and fullhash; rfd and timeout are unchanged |
| `Storage.GsbStorage.SubDelete` | lib/GSB_WP_Storage.php:168-177 | the range is deleted from sub only; add, fullhash, rfd and timeout are unchanged |
| `Storage.GsbStorage.AddEmpty` | lib/GSB_WP_Storage.php:179-183 | the caller's data gets empty host key and prefix, and exactly (list, add chunk, "", "") is inserted |
| `Storage.GsbStorage.SubInsert` | lib/GSB_WP_Storage.php:185-197 | gsb_sub gains the row by INSERT IGNORE; no other table and not the timeout changes |
| `Storage.GsbStorage.SubEmpty` | lib/GSB_WP_Storage.php:199-206 | the caller's data gets add chunk 0 and empty host key and prefix, and exactly (list, 0, sub chunk, "", "") is inserted, whatever add chunk was passed |
| `Storage.GsbStorage.FullhashDeleteOld` | lib/GSB_WP_Storage.php:211-218 | the cache becomes its purge at now; nothing else changes |
| `Storage.GsbStorage.FullhashInsert` | lib/GSB_WP_Storage.php:224-236 | the cache gets (list, hash) stamped with now; nothing else changes |
| `Storage.GsbStorage.FullhashExists` | lib/GSB_WP_Storage.php:242-257 | with a list id, the cache check for that id at now; with a list name, the same check for the catalogue id, or list id 0 when the name is unknown |
| `Storage.GsbStorage.RfdGet` | lib/GSB_WP_Storage.php:259-262 | the stored retry row, or nothing before the first rfd_set |
| `Storage.GsbStorage.RfdSet` | lib/GSB_WP_Storage.php:264-276 | the retry row becomes the four given values as a whole and the timeout becomes 0 |
| `Storage.GsbStorage.SetTimeout` | lib/GSB_WP_Storage.php:284-286 | only the in-memory timeout changes, to the given value |
| `Storage.GsbStorage.GetTimeout` | lib/GSB_WP_Storage.php:288-290 | the in-memory timeout, not the stored retry row |
| `Scenarios.AddInsertTwice` | lib/GSB_WP_Storage.php:142-153 | two identical add_insert calls leave gsb_add as one does |
| `Scenarios.SubInsertTwice` | lib/GSB_WP_Storage.php:185-197 | two identical sub_insert calls leave gsb_sub as one does |
| `Scenarios.TimeoutThenRfdSet` | lib/GSB_WP_Storage.php:264-290 | get_timeout returns the value of set_timeout, and 0 after rfd_set, whose values rfd_get returns |
| `Scenarios.FreshTimeout` | lib/GSB_WP_Storage.php:10-11 | get_timeout on a new storage object returns 0 |
| `Scenarios.ResetKeepsRetryState` | lib/GSB_WP_Storage.php:66-72 | delete_all_data after rfd_set empties the tables and keeps the retry row |
| `Scenarios.FullhashLifetime` | lib/GSB_WP_Storage.php:211-257 | a cached hash is present 2699 seconds on, absent 2700 seconds on, and its record is removed from gsb_fullhash by a purge 2701 seconds on |
| `Scenarios.SubInsertHides` | lib/GSB_WP_Storage.php:116-153 | the effective prefix for "h1" of the malware list is selected once, and not after the matching sub insert |

## Left out

- `transaction_begin`, `transaction_commit`, `transaction_rollback` (lib/GSB_WP_Storage.php:46-61): they only send session statements to MySQL. Atomicity and isolation come from the database and concern concurrent readers. Also, `TRUNCATE TABLE` in `delete_all_data` commits implicitly in MySQL, so that reset cannot be rolled back.
- `rekey` (lib/GSB_WP_Storage.php:74-76): an empty stub with no behaviour.
- lib/GSB_IStorage.php: an interface of signatures only.
- SQL text building, `prepare` placeholders and `addslashes` escaping: the model states what each statement does to the tables, not how its text is assembled.
- MySQL string comparison: host keys, prefixes and hashes are compared exactly. The column collations are not part of this model, so case-insensitive or trailing-space-insensitive matching is not captured.
- Database failures: every `$wpdb` call (lib/GSB_WP_Storage.php:69-71, 87, 100, 129, 146, 159, 170, 189, 217, 228, 255, 261, 266) is taken to succeed and its return value is not inspected, as the source does not inspect it. A failed write, which the source silently ignores, is not modelled; nor are a failed `get_var` (which the source turns into false), a failed `get_results` (null instead of an array) or a lost connection.
- Unique keys of gsb_add and gsb_sub: the schema is not part of this model, and each table is assumed to have a unique key over all its columns. `INSERT IGNORE` is then a set union (`Tables.InsertIgnore`), and `hostkey_select_prefixes` returns each effective prefix once (`Tables.SelectPrefixes`). With a narrower key, a second insert differing in an unkeyed column would be dropped; with no key, duplicate rows would be kept and returned twice.
- `time()` defaults when `$now` is null: `now` is always a parameter.
- The gsb_fullhash key: the schema is not part of this model, and `(list_id, fullhash)` is assumed to be the key `REPLACE INTO` replaces on. `fullhash_exists` then counts at most one row.
- PHP type juggling in placeholders and comparisons: list ids, chunk numbers and timestamps are integers. The one exception is how an unknown list name reaches the SQL (list id 0), which is modelled.
- Storage.GsbStorage.AddChunkGetNums: `asort` keeps each value's original array key, so the PHP array iterates in ascending order but its indices are those of the database rows. The model returns the values in iteration order and drops the keys.
- Storage.GsbStorage.SubChunkGetNumsAsWritten: which row `get_row` fetches first depends on the database, so the model leaves the choice open.
- The row arrays that `hostkey_select_prefixes` and `rfd_get` return are values of `AddRow` and `Rfd`. The `id` column of gsb_rfd, always 1, is not kept.

## Findings

| source | as written | input that shows it | evidently intended | confidence | as-written member | corrected member |
|---|---|---|---|---|---|---|
| lib/GSB_WP_Storage.php:100 | `get_row` fetches only the first row of the DISTINCT query. The foreach then walks that row's columns, and `(int) $row[0]` takes the first character of the one value | gsb_sub holds one row of the list with sub chunk 17; the listing is [1] instead of [17] | `get_results`, as in add_chunk_get_nums: every distinct sub chunk number, ascending | high; not executed | `ChunkIndex.SubChunkListingLosesChunks` | `Storage.GsbStorage.SubChunkGetNums` |
