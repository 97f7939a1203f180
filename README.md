# MagaLu legacy-order ingest, modelled in Dafny

MagaLu's back end takes in fixed-width legacy order files. Each line holds
a user id, a user name, an order id, a product id, a value and a date at
fixed offsets. The ingest service does the following:

- It reads each uploaded file and skips files whose content hash it has
  already seen.
- It splits the text into lines and skips blank lines and lines whose hash
  it has already seen.
- It extracts the six fields of every remaining line.
- It finds or creates the user's ledger (an `OrderProcessor`), then finds or
  creates the order in it. It appends the product, bumps the order total
  and emits "orderUpdated".
- It returns the ledgers it touched.

A hash manager keeps the hashes of files and lines already seen, in two
sets persisted to two JSON files. A query filter returns the users that
have an order matching given criteria.

The project models three source files:

- `services/OrderProcessingService.js`: `extractData`,
  `updateOrCreateOrder`, `parseLegacyData`, `processUploadedFiles`,
  `filterOrders`, `saveHashes` and the construction of the service's hash
  manager.
- `services/OrderProcessor.js`: the per-user ledger class.
- `managers/HashManager.js`: the hash store class.

Modules:

- `Strings` (`strings.dfy`): `trim`, `substring` with clamping, and
  `split`.
- `Numbers` (`numbers.dfy`): `parseInt`, `parseFloat` and `toFixed(2)`, with
  NaN and `===`. Money is a whole number of cents.
- `LegacyRecord` (`legacy_record.dfy`): the record layout, `ExtractData`, and
  an encoder that `ExtractData` is proved to invert.
- `Orders` (`order_processor.dfy`): the `OrderProcessor` class, with its
  `orders` sequence updated in place.
- `Aggregate` (`aggregate.dfy`): the user store as a value, and `Apply`,
  which is one `updateOrCreateOrder` on that value. The lemmas state the
  store invariants (unique user keys, unique order ids per user, each
  total the sum of its products) and the product count.
- `Dedup` (`dedup.dfy`): `Fresh`, the declarative rule for which items of a
  batch are taken. The rule is shared by files and lines.
- `Filter` (`filter.dfy`): `filterOrders` on the store value.
- `Hashes` (`hash_manager.dfy`): the `HashManager` class, with the disk as a
  map from path to stored content.
- `OrderProcessingService` (`order_processing_service.dfy`): the global
  `Users` object as the class `UserStore`, and the line and file loops.
  Each operation is proved to leave the store equal to `Apply` folded over
  exactly the records that `Fresh` selects. Each operation emits one event
  per applied record and returns one ledger per applied record, in order.

The SHA-256 digest is a parameter `hash: string -> string`. Date parsing in
the filter is a parameter `time: string -> Option<int>`, where None stands
for an invalid date. A file read is the file's `content: Option<string>`,
where None is a failed read. The disk of the hash manager is a value that
is passed in and returned. Each write carries a success flag.

## Model

| member | source | states |
|---|---|---|
| Strings.Substring | MagaLu/src/services/OrderProcessingService.js:162-167 | when the end lies within the string the result is the slice; it is never longer than the requested width |
| Strings.TrimPadded | MagaLu/src/services/OrderProcessingService.js:162-166 | trimming a field made of white space, a core and white space gives exactly the core |
| Strings.TrimEmptyIffBlank | MagaLu/src/services/OrderProcessingService.js:110 | `trim()` leaves nothing exactly when the line is all white space |
| Strings.SplitJoin | MagaLu/src/services/OrderProcessingService.js:106 | `split("\n")` loses nothing: joining the pieces gives the text back |
| Strings.SplitConcat | MagaLu/src/services/OrderProcessingService.js:106 | text joined at a line feed splits into the lines of each side |
| Numbers.ParseIntDigits | MagaLu/src/services/OrderProcessingService.js:164-165 | `parseInt` of a digit run followed by a non-digit is the value of the digits |
| Numbers.ParseIntBlank | MagaLu/src/services/OrderProcessingService.js:164-165 | `parseInt` of an empty or blank field is NaN |
| Numbers.ParseFloatPadded | MagaLu/src/services/OrderProcessingService.js:166 | leading white space does not change what `parseFloat` reads |
| Numbers.ToFixedShape | MagaLu/src/services/OrderProcessingService.js:193 | `toFixed(2)` of a number is digits, a point and exactly two decimals |
| Numbers.ToFixedRoundTrip | MagaLu/src/services/OrderProcessingService.js:193-195 | `parseFloat(m.toFixed(2)) == m` for every amount in cents and for NaN |
| Numbers.RoundToCents | MagaLu/src/services/OrderProcessingService.js:195 | re-rounding the total to two decimals returns the total unchanged |
| LegacyRecord.ExtractData | MagaLu/src/services/OrderProcessingService.js:161-170 | each text field is no longer than its width; on a full-length line the date is characters 87 to 95 as they are; on a line no longer than 55 characters both ids and the value are NaN |
| LegacyRecord.EmptyFields | MagaLu/src/services/OrderProcessingService.js:164-166 | the numeric fields of a line that ends before them parse to NaN |
| LegacyRecord.ExtractEncodeRoundTrip | MagaLu/src/services/OrderProcessingService.js:161-169 | for every record that fits the layout, extracting from its encoded line gives the zero-padded id text, the name, both ids, the value and the raw date |
| LegacyRecord.SampleLineExtracts | MagaLu/src/services/OrderProcessingService.js:161-169 | the sample line yields ("0000000085", "Jama Block", 906, 4, 293.47, "20210618") |
| Orders.OrderProcessor.constructor | MagaLu/src/services/OrderProcessor.js:11-27 | `userId` is the base-10 parse of the id, `userName` the trimmed name, `orders` empty |
| Orders.OrderProcessor.AddOrder | MagaLu/src/services/OrderProcessor.js:35-49 | exactly one order is appended and returned, with the given id, the date as YYYY-MM-DD, no products and total 0; earlier orders are unchanged; afterwards `findOrder` of a number id that was missing returns it |
| Orders.OrderProcessor.FindOrder | MagaLu/src/services/OrderProcessor.js:56-58 | a found order is the first order of the ledger with the id (`===`); nothing is found exactly when no order has it; it reads the ledger and changes nothing |
| Orders.FindOrderIndex | MagaLu/src/services/OrderProcessor.js:57 | the index found is the first order with the id; None exactly when no order has it |
| Orders.FormatDateShape | MagaLu/src/services/OrderProcessor.js:40 | on eight or more characters the result has length 10, '-' at positions 4 and 7, and dropping the dashes gives the first eight characters |
| Orders.FormatDateExample | MagaLu/src/services/OrderProcessor.js:40 | "20220101" becomes "2022-01-01" |
| Orders.FindAfterAppend | MagaLu/src/services/OrderProcessor.js:35-58 | after appending an order whose number id was missing, the lookup finds it at the end |
| Orders.FindAfterAppendOther | MagaLu/src/services/OrderProcessor.js:35-58 | appending an order does not change where an id already present is found |
| Orders.LedgerExample | MagaLu/src/services/OrderProcessor.js:35-58 | on a new ledger `findOrder(1234)` finds nothing, then `addOrder(1234, "20220101")` makes it find the empty order dated "2022-01-01"; NaN is never found |
| Aggregate.FindOrCreate | MagaLu/src/services/OrderProcessingService.js:188-191 | an existing order is reused at its first index with the orders unchanged; otherwise a new order is appended and used |
| Aggregate.FindOrCreateDistinct | MagaLu/src/services/OrderProcessingService.js:188-191 | find-or-create keeps the order ids of a user distinct |
| Aggregate.UniqueMatch | MagaLu/src/services/OrderProcessingService.js:188 | with distinct order ids, at most one order matches an id |
| Aggregate.AddProductValid | MagaLu/src/services/OrderProcessingService.js:193-195 | after a product is added, the order has a product and its total is the sum of its products' values |
| Aggregate.UpdateUserValid | MagaLu/src/services/OrderProcessingService.js:188-195 | updating a user keeps its parsed id, its distinct order ids and every order total equal to the sum of its products |
| Aggregate.UpdateUserEffect | MagaLu/src/services/OrderProcessingService.js:188-195 | the target order (found, or else appended) gets exactly one more product at the end, and its total grows by the value; no other order changes; id and name are kept |
| Aggregate.ApplyUserEffect | MagaLu/src/services/OrderProcessingService.js:184-186 | a user is created, with the parsed id and trimmed name, only when the key is absent; an existing user keeps its id and name; every other user is unchanged and no other key appears |
| Aggregate.ApplyFindsOrder | MagaLu/src/services/OrderProcessingService.js:188-191 | afterwards exactly one order of the user has the number order id, `findOrder` finds it, and it is the order emitted |
| Aggregate.EmptyStoreValid | MagaLu/src/services/OrderProcessingService.js:3 | the empty store satisfies the store invariants |
| Aggregate.ApplyPreservesUsersValid | MagaLu/src/services/OrderProcessingService.js:183-199 | applying a record keeps every user valid |
| Aggregate.ApplyPreservesValid | MagaLu/src/services/OrderProcessingService.js:183-199 | applying a record keeps user keys unique and listed once, order ids unique per user, and each total the sum of its products |
| Aggregate.UpdateUserAddsOne | MagaLu/src/services/OrderProcessingService.js:193 | updating a user adds exactly one product to its orders |
| Aggregate.ApplyKnownAddsOne | MagaLu/src/services/OrderProcessingService.js:184-193 | a record for a known user adds exactly one product over the store |
| Aggregate.ApplyNewAddsOne | MagaLu/src/services/OrderProcessingService.js:184-193 | a record for a new user keeps the key index valid with the key added at the end, and adds exactly one product |
| Aggregate.ApplyAddsOneProduct | MagaLu/src/services/OrderProcessingService.js:183-199 | each applied line adds exactly one product to the store and keeps it valid |
| Aggregate.ApplyAllCounts | MagaLu/src/services/OrderProcessingService.js:109-138 | over a run of lines the store stays valid, one event is emitted per record, and the product count grows by the number of records |
| Aggregate.ApplyAllAppend | MagaLu/src/services/OrderProcessingService.js:72 | applying two runs one after the other is applying their concatenation, with the events concatenated |
| Dedup.KeysMember | MagaLu/src/services/OrderProcessingService.js:110-121 | a hash is among the batch's keys exactly when some eligible item has it |
| Dedup.FreshStep | MagaLu/src/services/OrderProcessingService.js:110-121 | one more item is taken exactly when it is eligible and its hash is neither seen nor in the batch so far |
| Dedup.BatchStep | MagaLu/src/services/OrderProcessingService.js:112-121 | adding a taken item's hash to the batch set keeps the set equal to the new hashes of the prefix |
| Dedup.FreshAppend | MagaLu/src/services/OrderProcessingService.js:45-72 | taking from a concatenation takes from the first part, then from the second with the first part's hashes seen |
| Dedup.FreshAllSeen | MagaLu/src/services/OrderProcessingService.js:60-67 | when every eligible hash is seen, nothing is taken |
| Dedup.FreshKeys | MagaLu/src/services/OrderProcessingService.js:110-121 | the hashes of the items taken are the eligible hashes not seen before |
| Dedup.FreshEligible | MagaLu/src/services/OrderProcessingService.js:110-112 | every item taken is eligible and has a hash not seen before |
| Dedup.FreshDistinct | MagaLu/src/services/OrderProcessingService.js:111-121 | no two items taken share a hash |
| Dedup.FreshDrawn | MagaLu/src/services/OrderProcessingService.js:109-126 | items are taken from the batch, each at most as often as it occurs |
| Dedup.FreshRepeat | MagaLu/src/services/OrderProcessingService.js:111-121 | a batch repeated takes nothing more the second time |
| Dedup.FreshAgain | MagaLu/src/services/OrderProcessingService.js:111-121 | once a batch's hashes are seen, the same batch takes nothing |
| OrderProcessingService.UserStore.constructor | MagaLu/src/services/OrderProcessingService.js:3 | the store starts with no users, no events and the empty store value |
| OrderProcessingService.UserStore.LedgerFor | MagaLu/src/services/OrderProcessingService.js:184-186 | the ledger under the key is the existing one, or a fresh one added at the end of the key order; nothing else changes |
| OrderProcessingService.UpdateLedger | MagaLu/src/services/OrderProcessingService.js:188-195 | the ledger after the update is the user value `UpdateUser` computes, and the order returned is the one updated |
| OrderProcessingService.UserStore.Post | MagaLu/src/services/OrderProcessingService.js:187-198 | the store value becomes `Apply` of the record and the updated order is logged as one "orderUpdated" event |
| OrderProcessingService.UserStore.UpdateOrCreateOrder | MagaLu/src/services/OrderProcessingService.js:183-199 | the store value is `Apply` of the record; exactly one event carrying the updated order is emitted; only the key's ledger is new or changed, and an existing one is kept |
| OrderProcessingService.HasContentIffTrimmed | MagaLu/src/services/OrderProcessingService.js:110 | a line counts as having content exactly when `line.trim()` is non-empty |
| OrderProcessingService.UserStore.IngestLine | MagaLu/src/services/OrderProcessingService.js:110-137 | a taken line's hash joins the batch, its record is applied and emitted, and its user's ledger is collected; any other line changes nothing at all |
| OrderProcessingService.LineStep | MagaLu/src/services/OrderProcessingService.js:109-138 | one step of the `reduce` keeps the loop invariant: records applied, events, ledgers and batch set all match the prefix read so far |
| OrderProcessingService.UserStore.IngestTurn | MagaLu/src/services/OrderProcessingService.js:109-138 | one line of the loop advances the invariant by that line |
| OrderProcessingService.UserStore.ParseLegacyData | MagaLu/src/services/OrderProcessingService.js:103-147 | the store is `Apply` folded over the records of the fresh lines, in line order; one event and one ledger per applied line; the batch set gains exactly the new non-blank line hashes |
| OrderProcessingService.IngestedLines | MagaLu/src/services/OrderProcessingService.js:109-126 | the applied lines have content and unseen hashes, no two share a hash, and each is drawn from the text |
| OrderProcessingService.RepeatedTextOnce | MagaLu/src/services/OrderProcessingService.js:111-121 | a text repeated after a line feed applies the same records as the text once |
| OrderProcessingService.ReingestTakesNothing | MagaLu/src/services/OrderProcessingService.js:111-121 | with a text's new hashes in the batch, parsing it again applies nothing |
| OrderProcessingService.UserStore.ProcessFile | MagaLu/src/services/OrderProcessingService.js:47-84 | a readable, non-empty file with an unseen hash adds its hash, has its lines parsed against the line batch, and is unlinked when removal is on; any other file changes nothing |
| OrderProcessingService.FileTakenStep | MagaLu/src/services/OrderProcessingService.js:59-76 | a processed file extends the loop invariant: its records follow the earlier ones, both batches grow, and its path joins the unlinked ones |
| OrderProcessingService.FileSkippedStep | MagaLu/src/services/OrderProcessingService.js:51-68 | a skipped file keeps the loop invariant with nothing added |
| OrderProcessingService.TakenFileRecords | MagaLu/src/services/OrderProcessingService.js:59-72 | a processed file joins the taken files; its fresh lines' records follow theirs; the file and line batches hold the new hashes so far |
| OrderProcessingService.FileStep | MagaLu/src/services/OrderProcessingService.js:45-85 | one turn of the file loop keeps its invariant |
| OrderProcessingService.UserStore.FileTurn | MagaLu/src/services/OrderProcessingService.js:45-85 | the body of the file loop advances the invariant by one file |
| OrderProcessingService.UserStore.ProcessUploadedFiles | MagaLu/src/services/OrderProcessingService.js:37-93 | the store is `Apply` folded over the fresh lines of the taken files, in file then line order; the ledgers are the per-file results concatenated; both batches gain exactly the new hashes; the paths unlinked are those of the taken files when DELETE_FILES is "true" or unset |
| OrderProcessingService.ReuploadTakesNothing | MagaLu/src/services/OrderProcessingService.js:59-70 | with an upload's new file hashes in the batch, the same files are all skipped and apply nothing |
| OrderProcessingService.RepeatedUploadOnce | MagaLu/src/services/OrderProcessingService.js:59-72 | uploading a list of files twice over processes each file once |
| OrderProcessingService.UserStore.FilterOrders | MagaLu/src/services/OrderProcessingService.js:243-258 | the result is the ledgers of exactly the users `Matching` returns, in the store's order |
| OrderProcessingService.UserStore.Select | MagaLu/src/services/OrderProcessingService.js:245-257 | filtering the listed keys' ledgers gives the ledgers of the keys `FilterKeys` keeps |
| OrderProcessingService.ServiceHashManager | MagaLu/src/services/OrderProcessingService.js:11-15 | a variable that is set names its set's file; an unset file variable gives "/tmp/fileHashes.json"; an unset line variable gives the constructor's default, STORAGE_FILE_HASHES when that is set and non-empty, so both sets then share one file; both sets start empty |
| OrderProcessingService.SaveHashes | MagaLu/src/services/OrderProcessingService.js:206-212 | the manager's sets become their union with the batch sets, and both are written |
| Filter.FilterKeys | MagaLu/src/services/OrderProcessingService.js:245-257 | the keys returned are stored keys, no more of them than were listed |
| Filter.AnyOrderMatchesIff | MagaLu/src/services/OrderProcessingService.js:246-256 | `some` holds exactly when one of the user's orders meets every criterion in force |
| Filter.FilterKeysMember | MagaLu/src/services/OrderProcessingService.js:245-257 | a key is returned exactly when it is listed, stored and its user has a matching order |
| Filter.FilterKeysAppend | MagaLu/src/services/OrderProcessingService.js:245 | filtering keeps the order: filtering a concatenation is concatenating the filtered parts |
| Filter.FilterKeysDistinct | MagaLu/src/services/OrderProcessingService.js:245 | no user is returned twice |
| Filter.UnfilteredMatchesAnyOrder | MagaLu/src/services/OrderProcessingService.js:250-255 | with no criterion in force, a user matches exactly when it has an order |
| Filter.UnfilteredKeepsAll | MagaLu/src/services/OrderProcessingService.js:245-257 | with no criterion and every listed user having an order, every listed key is returned in order |
| Filter.UnfilteredStore | MagaLu/src/services/OrderProcessingService.js:243-258 | `filterOrders({})` on a valid store returns every user in the store's order |
| Filter.UnparsableUserIdMatchesNothing | MagaLu/src/services/OrderProcessingService.js:251 | a user-id criterion that parses to NaN matches nobody |
| Filter.InvalidStartMatchesNothing | MagaLu/src/services/OrderProcessingService.js:248-253 | a start date that is not a valid date matches nobody |
| Filter.UserIdCriterion | MagaLu/src/services/OrderProcessingService.js:251 | a user returned under a user-id criterion has exactly that number as its id |
| Hashes.HashManager.constructor | MagaLu/src/managers/HashManager.js:12-22 | a path given is kept; a missing file path becomes STORAGE_FILE_HASHES or "/tmp/fileHashes.json"; a missing line path becomes STORAGE_FILE_HASHES or "/tmp/lineHashes.json", as line 14 is written; both sets start empty |
| Hashes.HashManager.Corrected | MagaLu/src/managers/HashManager.js:14 | the constructor with line 14 as intended: a missing line path becomes STORAGE_LINE_HASHES or "/tmp/lineHashes.json"; everything else as in the constructor |
| Hashes.HashManager.LoadHashes | MagaLu/src/managers/HashManager.js:27-51 | each set is loaded on its own, so a missing or unparsable file leaves only its own set as it was |
| Hashes.HashManager.SaveHashes | MagaLu/src/managers/HashManager.js:56-74 | both sets are written, the second write whatever came of the first; the in-memory sets are untouched |
| Hashes.HashManager.AddFileHash | MagaLu/src/managers/HashManager.js:81-91 | afterwards `hasFileHash(h)` holds; `hasFileHash` holds of exactly the hashes known before plus `h`; the line set is unchanged |
| Hashes.HashManager.AddLineHash | MagaLu/src/managers/HashManager.js:98-108 | afterwards `hasLineHash(h)` holds; `hasLineHash` holds of exactly the hashes known before plus `h`; the file set is unchanged |
| Hashes.HashManager.AddHashes | MagaLu/src/managers/HashManager.js:115-121 | each set becomes its union with the new hashes, and both are then saved |
| Hashes.AddHashesTwice | MagaLu/src/managers/HashManager.js:115-121 | a second `addHashes` with the same sets leaves the sets as the first left them and writes the same sets again |
| Hashes.SaveLoadRoundTrip | MagaLu/src/managers/HashManager.js:27-74 | with two distinct paths and both writes succeeding, loading what was saved restores both sets |
| Hashes.SecondWriteIndependent | MagaLu/src/managers/HashManager.js:56-74 | when the first write fails, the line set is still saved and reloads |
| Hashes.SamePathKeepsOnlyLines | MagaLu/src/managers/HashManager.js:56-74 | two sets saved to one path leave only the line set there |
| Hashes.AsWrittenDefaultsCollide | MagaLu/src/managers/HashManager.js:13-14 | as written, with STORAGE_FILE_HASHES set both default paths are that one value |
| Hashes.AsWrittenLosesFileHashes | MagaLu/src/managers/HashManager.js:14 | as written, with only STORAGE_FILE_HASHES set, a save and reload brings back the line hashes in place of the file hashes |
| Hashes.CorrectedDefaultsKeepBothSets | MagaLu/src/managers/HashManager.js:12-22 | with the line default read from its own variable, the default paths differ unless the environment names one file for both, and a save and reload restores both sets |
| Hashes.PersistAsWritten | MagaLu/src/managers/HashManager.js:12-74 | a manager built with only STORAGE_FILE_HASHES set, holding file hash "f" and line hash "l", saved and reloaded by a second such manager, gets back {"l"} for both sets |
| Hashes.PersistCorrected | MagaLu/src/managers/HashManager.js:14 | with the line default read from STORAGE_LINE_HASHES, the same round trip gives back {"f"} and {"l"} |

## Left out

- File-system I/O is left out. This covers `fs.readFile` and `fs.unlink` in the service and `readFile`, `writeFile` and `JSON.parse` in the hash manager. A read is the file's content (None for a failed read), the disk is a map from path to stored hashes, and each write carries a success flag. A failed unlink, which the source only logs, is not modelled; the path counts as unlinked.
- SHA-256 (`utils/HashUtils.js`) is a foreign library. It is the parameter `hash`, and nothing is assumed about it, not even that it is injective.
- `new Date(text).getTime()` in `filterOrders` is the parameter `time`. None stands for an invalid date, with which every comparison is false.
- Floating point is left out. Money is a whole number of cents. `parseFloat` keeps the first two fractional digits and drops any further ones (the source would keep them and round at `toFixed`). Exponent notation, `Infinity` and hexadecimal forms are not read. With cents, the per-step `parseFloat(total.toFixed(2))` is the identity.
- OrderProcessingService.UserStore.FilterOrders returns users in the order their keys were first added, for every key. JavaScript's `Object.values` lists array-index keys first, in numeric order. A user id field that trims to a canonical integer below 4294967295 is such a key: a 10-digit id without a leading zero ("1000000000" to "4294967294"), or a space-padded id such as "        85". For those users the source's order differs from the model's.
- Strings are sequences of Unicode scalar values. JavaScript's `substring` counts UTF-16 code units, so a character outside the Basic Multilingual Plane, such as an emoji in the user name, shifts every later field of the line in the source but not in the model.
- Keys inherited from `Object.prototype` (such as "toString" or "__proto__") make `Users[userId]` truthy in the source before any user is added. The model treats every key as absent until it is added.
- The event emitter (`services/OrderEventEmitter.js`), `onOrderUpdated` and `removeOrderListener` are not part of this model. Emissions are a ghost log `emitted` of the orders carried. Listeners are not modelled.
- Orders are values in this model. In the source the emitted order is the very object that later lines keep updating, so a listener that holds it sees later changes. The log keeps each order as it was at emission.
- The batch sets `newFileHashes` and `newLineHashes` are passed by reference and mutated in the source. In the model they are passed in and returned updated.
- `initHashManagers` (loading at start-up), logging (`MagaLog`) and the asynchronous interleaving of overlapping ingest calls are not modelled.
- OrderProcessingService.UserStore.Valid ties the ledger objects to the store value but does not include `Aggregate.Valid` of that value. The store invariants are proved about the value by `Aggregate.ApplyAllCounts` and `Aggregate.ApplyPreservesValid`.
- OrderProcessingService.HasContent scans for a character that is not white space, rather than trimming. `HasContentIffTrimmed` proves it agrees with `line.trim()`.
- Loading treats any content from which `JSON.parse` and `new Set` yield a set as that set. This includes "null", which yields the empty set, and a JSON string, which yields the set of its characters. All other content keeps the current set.
- Hashes.HashManager.HasFileHash and Hashes.HashManager.HasLineHash are predicates with no contract of their own. Their behaviour is stated through `AddFileHash` and `AddLineHash`.

## Findings

| source | as written | input that shows it | evidently intended | confidence | as-written member | corrected member |
|---|---|---|---|---|---|---|
| MagaLu/src/managers/HashManager.js:14 | the default `lineHashesPath` reads `STORAGE_FILE_HASHES`, so when only that variable is set both sets default to one file, and the line set, written second, overwrites the file set | STORAGE_FILE_HASHES = "/data/fileHashes.json", STORAGE_LINE_HASHES unset (the service passes `undefined` at OrderProcessingService.js:15); save file hash "f" and line hash "l", then reload: the file set comes back as {"l"} | the default reads `STORAGE_LINE_HASHES`, so each set has its own file and a save and reload restores both | high; not executed | Hashes.PersistAsWritten | Hashes.CorrectedDefaultsKeepBothSets |
