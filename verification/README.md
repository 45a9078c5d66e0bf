# TierWorks core in Dafny

TierWorks is a browser app for ranking things in tier lists. This project models its core logic:

- **Public-template ranking page** (`src/pages/PublicDetail.tsx`). It partitions items between a pool and six rows S, A, B, C, D and U. A selection cursor walks a shuffled queue of pool ids.
  - Model: the list primitives `removeFrom` and `insertAt`, the board transitions `onMove`, `onAssignClick` and `onSkip`, the Fisher–Yates `shuffle`, the queue-reconciliation and auto-select effects, and the saved-result loader.
  - The page state is the class `PublicDetail.Board`. Each of its methods is proved to change the state exactly as a pure transition function says. The conservation, ordering and queue properties are proved about those functions.
- **Tier-board widget** (`src/components/TierGrid.tsx`).
  - Model: row reordering (`moveTierUp`/`moveTierDown`) on the class `TierGrid.Grid`, the row-settings dialog, the `containers` map, the `container:index` drag-id parsing of `handleDragEnd`, and the "clear tier" loop.
  - "Clear tier" runs as a method over a `PublicDetail.Board`.
- **Dataset placement builder** (`src/pages/Builder.tsx`).
  - Model: restoring tier groups from an `itemId -> tierId` placement record, and the drop handler. The drop strips the item from every group, appends it to the target group and rederives the placements.
  - The loops are methods proved equal to recursive specification functions. The page state is the class `Builder.BuilderPage`.
- **Dataset list store** (`src/store/datasets.ts`): `load`, `upsert` and `remove` on the class `Datasets.DatasetStore`.
- **Share links** (`src/lib/share.ts`): the payload `buildShareUrl` packs and the dataset `loadSharedDataset` rebuilds from it, with its defaults and null cases. lz-string and JSON are parameters, related by an inverse predicate.
- **CSV rows** (`src/lib/io.ts`): the row-to-item mapping of `importCsv`, the record `exportCsv` builds for each item with the per-item round trip between them, and `defaultTiers`.
- **Template store** (`src/storage.ts`): the defensive `read`, `saveTemplate`, `listTemplates` and `getTemplate` over a key-to-string store. `saveTemplate` is a method of `Storage.LocalStorage`.
- **`truncate`** (`src/pages/Public.tsx`), with JavaScript's `slice` semantics for every `max`.
- **Upload panel** (`src/components/UploadPanel.tsx`): file-extension stripping by `/\.[^.]+$/`, and `onSelectFiles` on the class `Upload.UploadPanel`.

Shared modules:

- `Wrappers`: Option.
- `Lists`: `Array.prototype.filter` and its facts.
- `Records`: a JavaScript object as its entries in insertion order, with `Keys`, `Get` and `Put`.
- `Types`: the records of `src/types.ts`.

Randomness, clocks and foreign code are parameters:

- `Math.random` becomes a nondeterministic choice.
- `crypto.randomUUID`, `Date`, `URL.createObjectURL`, lz-string and JSON are passed in.

## Model

| member | source | states |
|---|---|---|
| Records.Get | src/pages/Builder.tsx:47 | `obj[k]` is defined exactly for the object's keys, and the value read is the one stored under the key |
| Records.Put | src/pages/Builder.tsx:71 | after `obj[k] = v`, `k` reads `v` and every other key reads as before; an existing key keeps its place, a new key comes last, and keys stay unique |
| PublicDetail.FindIndexAbsent | src/pages/PublicDetail.tsx:64 | `findIndex` answers -1 exactly when no item carries the id |
| PublicDetail.RemoveFrom | src/pages/PublicDetail.tsx:63-69 | an absent id gives the list unchanged and nothing removed; otherwise the first item with the id is removed, the length drops by one and the rest keep their order |
| PublicDetail.RemoveFromCount | src/pages/PublicDetail.tsx:63-69 | the remaining list plus the removed item is the original multiset |
| PublicDetail.InsertAt | src/pages/PublicDetail.tsx:70-73 | the length grows by one; the item sits at the insertion point; the items before and after it are the original ones in order; the multiset gains exactly the item |
| PublicDetail.InsertedIsFound | src/pages/PublicDetail.tsx:64-72 | an item with a new id is found by `findIndex` exactly where it was inserted |
| PublicDetail.RemoveInserted | src/pages/PublicDetail.tsx:63-73 | inserting an item with a new id and then removing that id gives back the original list and the item |
| PublicDetail.TierAssignment.With | src/pages/PublicDetail.tsx:84 | `{ ...prev, [t]: l }` reads `l` at row `t` and the old row everywhere else |
| PublicDetail.TierWithItems | src/pages/PublicDetail.tsx:84 | replacing a row changes the items of the six rows by exactly the old and new row |
| PublicDetail.Partition.With | src/pages/PublicDetail.tsx:80-88 | replacing one bucket (the pool or a row) leaves every other bucket as it was |
| PublicDetail.MoveItemCases | src/pages/PublicDetail.tsx:74-89 | `from === to`, or an id absent from `from`, changes nothing; otherwise `from` loses the first item with the id, `to` receives that item at `toIndex` (or last), and every other bucket is unchanged |
| PublicDetail.TakeOutKeepsRest | src/pages/PublicDetail.tsx:76-85 | taking the item out of `from` leaves the board short of exactly that item |
| PublicDetail.PutInAddsItem | src/pages/PublicDetail.tsx:87-88 | inserting the item into `to` adds exactly that item to the board |
| PublicDetail.MoveKeepsItems | src/pages/PublicDetail.tsx:74-89 | a move never loses or duplicates an item: the multiset of pool plus six rows is unchanged |
| PublicDetail.MoveToEmptyTier | src/pages/PublicDetail.tsx:74-89 | from pool `[X,Y,Z]`, moving Y to S gives pool `[X,Z]` and S `[Y]` |
| PublicDetail.MoveToFront | src/pages/PublicDetail.tsx:74-89 | then moving X to S at index 0 gives pool `[Z]` and S `[X,Y]` |
| PublicDetail.MoveScenario | src/pages/PublicDetail.tsx:74-89 | the two moves in sequence, from an empty board with pool `[X,Y,Z]` |
| PublicDetail.FirstTierWithFacts | src/pages/PublicDetail.tsx:109 | the row found holds the id and no row before it in S..U order does; no row is found exactly when no row holds the id |
| PublicDetail.BucketOfFacts | src/pages/PublicDetail.tsx:96-99 | the source bucket of `onAssignClick` holds the id; it is the pool whenever the pool holds it; none is found exactly when no bucket holds the id |
| PublicDetail.SkipItemCases | src/pages/PublicDetail.tsx:106-122 | an item found nowhere changes nothing; an item found in a row moves to the end of the pool exactly as a move from its first row to the pool would; an item found only in the pool is rotated to the pool's end; either way the skipped id is last in the pool |
| PublicDetail.SkipKeepsItems | src/pages/PublicDetail.tsx:106-122 | skipping never loses or duplicates an item |
| PublicDetail.RequeuedFacts | src/pages/PublicDetail.tsx:124-127 | the skipped id is last in the queue and first only when nothing else is queued; the queue holds the old ids plus the skipped one; a queue without repeats stays without repeats |
| PublicDetail.ReconciledQueue | src/pages/PublicDetail.tsx:142-146 | for any permutation the shuffle picks, the reconciled queue holds exactly the pool's ids, each once when the old queue and the pool had no repeats |
| PublicDetail.KeptIsStable | src/pages/PublicDetail.tsx:144 | a queue wholly inside the pool is kept as it is |
| PublicDetail.KeptKeepsOrder | src/pages/PublicDetail.tsx:144 | keeping the entries still in the pool distributes over concatenation, so kept entries keep their relative order |
| PublicDetail.Shuffle | src/pages/PublicDetail.tsx:132-139 | whatever indices are drawn, the result is a permutation of the input of the same length |
| PublicDetail.FindResult | src/pages/PublicDetail.tsx:48 | a found result is the first entry matching both the result id and the template id; none is found only when no entry matches both |
| PublicDetail.Remaining | src/pages/PublicDetail.tsx:54-55 | the pool rebuilt from a saved result holds exactly the template items whose id no row holds |
| PublicDetail.SavedScenario | src/pages/PublicDetail.tsx:51-57 | a result with S = `[a]` over the template `[a, b]` rebuilds the pool `[b]` |
| PublicDetail.Board.constructor | src/pages/PublicDetail.tsx:17-20 | the page starts with an empty pool, six empty rows, no selection and an empty queue |
| PublicDetail.Board.LoadTemplate | src/pages/PublicDetail.tsx:33-37 | a known template fills the pool with its items; otherwise nothing changes |
| PublicDetail.Board.LoadSavedResult | src/pages/PublicDetail.tsx:40-61 | without a result id or a matching saved result nothing changes; otherwise the rows become the saved rows and, for a known template, the pool becomes the template items no row holds and the first of them is selected |
| PublicDetail.Board.Move | src/pages/PublicDetail.tsx:74-89 | the board after `onMove` is the `MoveItem` of the board before; selection and queue are untouched |
| PublicDetail.Board.AssignClick | src/pages/PublicDetail.tsx:91-104 | with no selection, or a selection held nowhere, nothing changes; otherwise the item moves from its bucket to the tier, its id leaves the queue, and the new queue head (or nothing) is selected |
| PublicDetail.Board.Skip | src/pages/PublicDetail.tsx:106-129 | with no selection nothing changes; otherwise the board is skipped, the id is deferred to the queue's tail and the selection is cleared |
| PublicDetail.Board.Reconcile | src/pages/PublicDetail.tsx:142-154 | the queue becomes the old entries still in the pool, in order, followed by a permutation of the pool ids not kept; an unset selection takes the head; a selection that left the pool takes the head or is cleared; a selection still in the pool stays |
| PublicDetail.Board.AutoSelect | src/pages/PublicDetail.tsx:157-161 | an unset selection with a non-empty queue takes the head; otherwise the selection stays |
| TierGrid.IndexOf | src/components/TierGrid.tsx:40 | `indexOf` gives the first position of the row, or -1 exactly when the row is absent |
| TierGrid.SwapPermutes | src/components/TierGrid.tsx:42-46 | exchanging two cells only permutes the order |
| TierGrid.RowUpCases | src/components/TierGrid.tsx:38-48 | the first or an absent row leaves the order unchanged; any other row trades places with its predecessor and nothing else moves; the result is a permutation |
| TierGrid.RowDownCases | src/components/TierGrid.tsx:49-59 | the last or an absent row leaves the order unchanged; any other row trades places with its successor and nothing else moves; the result is a permutation |
| TierGrid.PermutationHasNoRepeats | src/components/TierGrid.tsx:19-20 | an order holding each of the six rows once has no repeated row |
| TierGrid.DownUndoesUp | src/components/TierGrid.tsx:38-59 | moving a non-first row up and then down restores the order |
| TierGrid.UpUndoesDown | src/components/TierGrid.tsx:38-59 | moving a non-last row down and then up restores an order without repeats |
| TierGrid.SavedSettings | src/components/TierGrid.tsx:138 | saving sets row `t`'s label, sets its colour unless the chosen colour is empty (then the old colour stays), and leaves every other row's settings |
| TierGrid.Grid.constructor | src/components/TierGrid.tsx:19-28 | the widget starts with the default order and the default label and colour of each row |
| TierGrid.Grid.MoveTierUp | src/components/TierGrid.tsx:38-48 | the order becomes `RowUp` of the old order, still a permutation of the six rows; the settings are not touched |
| TierGrid.Grid.MoveTierDown | src/components/TierGrid.tsx:49-59 | the order becomes `RowDown` of the old order, still a permutation of the six rows; the settings are not touched |
| TierGrid.Grid.SaveSettings | src/components/TierGrid.tsx:137-139 | the settings become `SavedSettings` of the old ones; the order is not touched |
| TierGrid.ContainersFacts | src/components/TierGrid.tsx:33-36 | the containers are the pool and exactly the rows of the order, each holding its bucket's item ids |
| TierGrid.ContainersIgnoreOrder | src/components/TierGrid.tsx:33-36 | reordering the rows does not change the containers |
| TierGrid.DecimalRoundTrip | src/components/TierGrid.tsx:66 | the decimal digits of an index, read back by `Number`, give the index |
| TierGrid.SplitAtColon | src/components/TierGrid.tsx:64-65 | splitting `c:rest` at the first colon recovers a colon-free `c` and `rest` |
| TierGrid.NoColonIsWhole | src/components/TierGrid.tsx:65 | an id without a colon is its own container and has no index field |
| TierGrid.DragNeedsTargetAndItem | src/components/TierGrid.tsx:61-73 | with no drop target or no item id no move is asked for; a move asked for names the dragged item |
| TierGrid.DragBetweenSlots | src/components/TierGrid.tsx:61-73 | a drop from slot `from:i` onto the same slot asks for nothing; any other slot `to:j` asks to move the item from `from` to `to` at index `j` |
| TierGrid.DropWithoutIndex | src/components/TierGrid.tsx:65-72 | a drop onto an id without a colon asks for a move to that container with an undefined index |
| TierGrid.ClearStep | src/components/TierGrid.tsx:162 | one `onMove(id, tier, 'pool')` on a row's first item appends it to the pool and leaves the row's rest |
| TierGrid.ClearStepAt | src/components/TierGrid.tsx:161-162 | after `k` steps the pool has gained the row's first `k` items and the row holds the others; step `k` advances both by one |
| TierGrid.ClearTier | src/components/TierGrid.tsx:159-163 | with each move applied before the next, the row ends empty, the pool gains its items in row order after its own, and the other rows are unchanged |
| Builder.FindItem | src/pages/Builder.tsx:57 | the item is found exactly when some item has the id, and the found item is the first with it |
| Builder.DropIdFacts | src/pages/Builder.tsx:63 | filtering out an id removes every item with it and keeps every other item as often as before |
| Builder.EmptyGroupsFacts | src/pages/Builder.tsx:42 | the initial groups have exactly the dataset's tier ids as keys, each with an empty group |
| Builder.PlacedMembers | src/pages/Builder.tsx:45-47 | an item is placed in a tier exactly when some placement entry names that tier and an id whose first match in the items is that item |
| Builder.PlaceEntriesKeys | src/pages/Builder.tsx:44-48 | placing entries adds no group and keeps keys unique |
| Builder.PlaceEntriesAt | src/pages/Builder.tsx:45-48 | an existing group gains exactly the items placed in it, in entry order, after its own; a missing group stays missing |
| Builder.RestoredFacts | src/pages/Builder.tsx:42-49 | restore gives a group to exactly each tier of the dataset, holding the items placed in it in entry order; placements naming an unknown item or tier are dropped |
| Builder.StripAllFacts | src/pages/Builder.tsx:62-64 | the first drop loop keeps every group, in place, with the item removed |
| Builder.DroppedFacts | src/pages/Builder.tsx:60-66 | after a drop the target group exists and ends with the item; every other group is the old one without the item, in order; no other group is added |
| Builder.DroppedOnlyThere | src/pages/Builder.tsx:60-66 | after a drop the item is in no group but the target |
| Builder.PlaceGroupAt | src/pages/Builder.tsx:71 | the inner placement loop maps every item of the group to its id and leaves every other id as it was |
| Builder.PlacementsAt | src/pages/Builder.tsx:69-72 | the rederived placements send each id to the last group holding it, and have no entry for an id no group holds |
| Builder.GroupOfFacts | src/pages/Builder.tsx:69-72 | an id has a group exactly when some group holds it, and that group holds it |
| Builder.DropPlacesItem | src/pages/Builder.tsx:60-72 | after a drop the rederived placements send the moved item to the target group |
| Builder.StripGroups | src/pages/Builder.tsx:60-64 | the first drop loop computes the stripped groups |
| Builder.DerivePlacements | src/pages/Builder.tsx:69-72 | the nested placement loops compute the placement record of the groups |
| Builder.RestoreGroups | src/pages/Builder.tsx:42-49 | the restore loops compute the restored groups of the dataset |
| Builder.BuilderPage.constructor | src/pages/Builder.tsx:33 | the page starts with no groups |
| Builder.BuilderPage.Restore | src/pages/Builder.tsx:40-51 | without a current dataset nothing changes; otherwise the groups become the restored ones |
| Builder.BuilderPage.OnDragEnd | src/pages/Builder.tsx:53-78 | with no target, no current dataset or an unknown item nothing changes and nothing is persisted; otherwise the groups become the dropped groups and the persisted dataset is the current one with only `placements` (rederived) and `updatedAt` changed |
| Datasets.IndexOfId | src/store/datasets.ts:24 | the first position holding the id, or -1 exactly when none does |
| Datasets.UpsertedFacts | src/store/datasets.ts:24-31 | an existing id is replaced at its first position with the length unchanged and every other entry in place; a new id is prepended with the others following in order |
| Datasets.LookupAfterUpsert | src/store/datasets.ts:21-31 | after `upsert(d)` looking up `d.id` finds `d` |
| Datasets.UpsertIdempotent | src/store/datasets.ts:21-31 | upserting the same dataset twice equals upserting it once |
| Datasets.RemovedFacts | src/store/datasets.ts:33-35 | after `remove(id)` no entry has the id, and every other entry stays as often as before |
| Datasets.RemoveUndoesInsert | src/store/datasets.ts:29-35 | removing an id that upsert had just prepended restores the list |
| Datasets.DatasetStore.constructor | src/store/datasets.ts:14-15 | the store starts empty and not loading |
| Datasets.DatasetStore.BeginLoad | src/store/datasets.ts:16-17 | `load` first marks the store as loading |
| Datasets.DatasetStore.FinishLoad | src/store/datasets.ts:18-19 | `load` then replaces the items with the stored list and ends with `loading` false |
| Datasets.DatasetStore.Upsert | src/store/datasets.ts:21-31 | the items become `Upserted` of the old items |
| Datasets.DatasetStore.Remove | src/store/datasets.ts:33-35 | the items become `Removed` of the old items |
| Share.LoadSharedNull | src/lib/share.ts:19-25 | a missing or empty `s`, an empty or failed decompression, a parse error or `null` all yield null |
| Share.LoadSharedShape | src/lib/share.ts:26-37 | a loaded dataset has the fresh id, owner "shared", an empty description, `createdAt == updatedAt`, a placement record, and is unpublished |
| Share.MissingFieldsDefault | src/lib/share.ts:30-34 | missing fields (or a parsed non-object) default to title "Shared dataset", no items, no tiers and empty placements |
| Share.ShareRoundTrip | src/lib/share.ts:11-34 | with compression and JSON inverse, loading the link parameter gives back the items, tiers and placements (absent becomes empty), and the title unless it was empty |
| Io.AttributesGet | src/lib/io.ts:41 | a column is an attribute, with its cell, exactly when it is not `id`, `title` or `imageUrl` |
| Io.ImportRowFacts | src/lib/io.ts:37-42 | the id is the row's id unless missing or empty (then a fresh id); the title is the cell or ""; the image URL is undefined exactly when missing or empty; the attributes hold no reserved column |
| Io.ImportCsvFacts | src/lib/io.ts:36-37 | import yields exactly one item per row, in row order, each made of its own row |
| Io.SpreadGet | src/lib/io.ts:25 | spreading attributes writes each attribute's value and leaves every other column as it was |
| Io.SpreadKeepsColumns | src/lib/io.ts:25 | spreading keeps the columns already there first, in their order |
| Io.ExportColumns | src/lib/io.ts:25 | an export row starts with the `id`, `title` and `imageUrl` columns, in that order |
| Io.ExportCell | src/lib/io.ts:25 | every attribute has a column holding its value; `id`, `title` and `imageUrl` hold the item's own fields unless an attribute of the same name overrides them |
| Io.ExportRowCsv | src/lib/io.ts:25 | for distinct, non-reserved attribute names the written row is the three own cells followed by the attributes |
| Io.ExportImportRoundTrip | src/lib/io.ts:25-42 | an item with a non-empty id, no empty image URL and distinct, non-reserved attribute names comes back unchanged from importing its export row |
| Io.DefaultTiersFacts | src/lib/io.ts:50-58 | five tiers with distinct ids S, A, B, C, D in that order, each labelled by its id |
| Storage.ReadListCases | src/storage.ts:12-21 | `read` gives [] for a missing key, and for text that fails to parse or parses to a non-array; otherwise it gives the parsed list |
| Storage.ListAfterSave | src/storage.ts:27-37 | after `saveTemplate`, `listTemplates` gives the summaries it gave before with the new template's id, name and creation time last |
| Storage.Find | src/storage.ts:39-41 | `getTemplate` finds the first template with the id, and nothing exactly when no template has it |
| Storage.FindAppended | src/storage.ts:30-40 | a template appended after templates with other ids is what a search for its id finds |
| Storage.LocalStorage.SaveTemplate | src/storage.ts:27-33 | the id returned is the fresh id; the key is rewritten with the old list plus the new template last; no other key changes |
| Storage.ReadAfterSave | src/storage.ts:12-33 | reading after a save gives the earlier list with the new template appended, earlier templates unchanged |
| Storage.GetAfterSave | src/storage.ts:27-41 | after saving under a fresh id, `getTemplate` of that id gives the saved name and items |
| PublicList.TruncateShort | src/pages/Public.tsx:6 | text of length at most `max` is returned unchanged |
| PublicList.TruncateLong | src/pages/Public.tsx:6 | longer text, for `max >= 1`, becomes its first `max - 1` characters and '…', exactly `max` long |
| PublicList.TruncateBound | src/pages/Public.tsx:6 | for `max >= 1` the result is at most `max` long and is the text or starts with its first `max - 1` characters |
| PublicList.TruncateIdempotent | src/pages/Public.tsx:5-7 | for `max >= 0`, truncating twice equals truncating once |
| PublicList.NegativeMaxShortensAgain | src/pages/Public.tsx:6 | for `max = -1` a second call shortens again |
| PublicList.CardTitle | src/pages/Public.tsx:21 | a card title is at most 28 characters, and truncating it again changes nothing |
| Upload.LastDot | src/components/UploadPanel.tsx:18 | the last dot of the name, with no dot after it, or none when the name has no dot |
| Upload.StripMatch | src/components/UploadPanel.tsx:18 | where `\.[^.]+$` matches, the name is the text before the match |
| Upload.StripNoMatch | src/components/UploadPanel.tsx:18 | where the expression matches nowhere, the name is kept |
| Upload.StripKeeps | src/components/UploadPanel.tsx:18 | a name with no dot, or ending in a dot, is kept |
| Upload.StripPrefix | src/components/UploadPanel.tsx:18 | the derived name is a prefix of the file name |
| Upload.UploadsFacts | src/components/UploadPanel.tsx:15-22 | one item per file, in file order, with the file's id and URL and a name that is a prefix of the file name; `onItems` gets the same ids with the derived name as title and the URL as image |
| Upload.UploadPanel.OnSelectFiles | src/components/UploadPanel.tsx:13-23 | a null file list changes nothing and calls nothing; otherwise the new items are appended after the existing ones and the same items go to `onItems` |

## Left out

- React's batched and stale-closure state updates are not modelled. Each handler and effect is one atomic, sequential transition.
- TierGrid.ClearTier: assumes each `onMove` takes effect before the next. One click in the browser issues all the calls against the same captured rows, and that interleaving is not modelled.
- Rendering, layout, modals, toasts, timeouts, poster fallbacks and the PNG export are not modelled.
- Persistence is not modelled: Supabase, IndexedDB and the asynchronous `putLocalDataset`/`removeLocalDataset` calls are out. `load` is split into its two state changes. The text kept under the templates key is a map value; a failing `localStorage.setItem` is not modelled.
- Randomness, clocks and foreign code are not modelled. `Math.random` is a nondeterministic choice. `crypto.randomUUID`, `Date.now()`, `new Date().toISOString()` and `URL.createObjectURL` are parameters. lz-string, `JSON.stringify`/`JSON.parse` and papaparse are parameters or left out.
- CSV text is not modelled. A row is the record papaparse would produce, and an export row is the record given to `Papa.unparse`.
- `Object.entries` lists integer-like keys first, in numeric order. The model keeps every key in insertion order.
- Keys inherited from `Object.prototype` (such as `constructor`) are not modelled as present in an empty object.
- `src/types.ts` does not define `MediaItem`; it is modelled with an id, a title and an optional image URL. The `meta` field of a dataset item is not modelled. Attribute values are text, which is what CSV import produces.
- TierGrid.ToNumber: only the empty string and plain decimal digits are numbers; every other text is NaN. JavaScript's `Number` also accepts whitespace, signs, exponents and hexadecimal. The widget only builds ids with decimal indices.
- TierGrid.UpUndoesDown: requires an order without repeated rows. The widget's order always has none (`PermutationHasNoRepeats`), but with a repeated row the round trip can fail.
- PublicList.TruncateIdempotent: proved for `max >= 0` only. For a negative `max` a second call shortens again (`NegativeMaxShortensAgain`). The page always uses 28.
- Io.ExportRowCsv: states the columns of one item's record. `Papa.unparse` takes the header from the first record's keys, so an item whose attributes differ from the first item's is written under the first item's columns; the written file is not modelled.
- Io.ExportImportRoundTrip: holds per item, for the record given to `Papa.unparse`. Through a written file it holds only when every item has the first item's columns.
- PublicDetail.Board.Move: takes the drop index as an optional integer. In the source a NaN index passes the range test in `insertAt` and the item is put first, and a fractional index is truncated by `slice`; the widget's ids only give decimal integer indices (`DecimalRoundTrip`).
- PublicDetail.Shuffle: states that the result is a permutation, not the distribution of the random pass.
- Share.ShareRoundTrip: holds only under the stated inverse properties of compression and JSON. Fields of the wrong JSON type (a numeric title, say) are not modelled.
- Share: the URL handling (`window.location`, `searchParams`) is not modelled. The `s` parameter is an input of the model.
- Builder: the effect that picks the first dataset and the `current` lookup are not modelled; `current` is a parameter. The dataset the drop persists is returned rather than upserted.
- Storage: elements of a stored array are taken to be templates. `read` does not check their shape, and neither does the model.
- Upload: the editable caption input is not modelled.
- Public.tsx: strings are sequences of UTF-16 code units, as JavaScript's `length` and `slice` count them. A surrogate pair can be cut, as in the source.
