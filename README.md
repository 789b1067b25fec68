# dating-memo in Dafny

A Dafny model of the core of *dating-memo* ("哥布林小抄"), a single-page web app for
keeping notes on the people one dates. The model covers the following:

- **The record and its schemas** (`Types`). These are the `DatePerson` record, the record
  validation schema, and the form schema whose age and rating arrive as text and pass
  through `parseInt`.
- **The local store** (`Storage`). The whole collection is kept as one array under the
  `localStorage` key `dating-memo-data`. It supports read-all, lookup, add (fresh id, both
  timestamps set to now), partial update and delete. Every write is read back, and a failed
  write throws `保存數據失敗`.
- **Cloud synchronisation** (`StorageSync`). This covers the row mapping to and from the
  hosted `dating_persons` table, the migrate, fetch and existence probes, and the
  reconciliation. The reconciliation seeds a `Map` with the cloud records and overlays each
  local record when it is new or strictly newer. It then deletes the user's rows and
  inserts the merged rows.
- **The home page** (`Home`). This covers the search filter (lower-cased substring over the
  name, occupation, meet channel and tags), the sort by `updatedAt` in either direction,
  and the handlers for add, update and two-step delete.
- **The components.** The form wizard and its defaults (`DatePersonForm`), the tag picker
  (`TagSelector`), the five-star widget (`StarRating`), the summary card (`DatePersonCard`)
  and the user menu (`UserMenu`).

`JsBuiltins` states the JavaScript built-ins the code relies on (`split`, `trim`,
`toLowerCase`, `includes`, `parseInt`, number-to-string) as functions on strings.

Stateful parts are classes whose methods update fields:
- `Storage.LocalStore` is the browser storage slot.
- `StorageSync.CloudTable` is the hosted table.
- `Home.HomePage` is the page state.
- `DatePersonForm.Wizard`, `TagSelector.TagPicker` and `UserMenu.MenuState` are component state.

The merge's loops are a method (`StorageSync.MergeById`), proved equal to a fold-based
specification (`MergeSpec`). That specification is then related to independent
descriptions: first-occurrence id order, last cloud record per id, and newest local record
per id.

Parameters stand in for the outside world:
- the result of each network call (`fetchOk`, `deleteOk`, `insertOk`, `reachable`, `signOutThrew`);
- how a storage write goes (`WriteOutcome`);
- the current time (`now`);
- the `uuidv4()` value (`freshId`, required to be unused).

Timestamps are integers of milliseconds. A `Date` comparison compares these.

The reconciliation code ignores the fetch's `success` flag (`src/utils/storageSync.ts:137`) and goes on with
an empty cloud side. The model follows the code, and the consequence is listed under
"## Findings".

## Model

| member | source | states |
|---|---|---|
| `JsBuiltins.Split` | src/components/DatePersonCard.tsx:16 | `split` on one character yields at least one part; no part holds the separator; joining the parts with it gives the input back |
| `JsBuiltins.SplitAfter` | src/components/UserMenu.tsx:64 | text free of the separator, then the separator, is the first part, and the rest splits on its own |
| `JsBuiltins.TrimEmptyIffBlank` | src/components/TagSelector.tsx:34 | a text trims to empty exactly when every character is white space |
| `JsBuiltins.TrimIdempotent` | src/components/TagSelector.tsx:34 | trimming twice is trimming once |
| `JsBuiltins.IncludesIff` | src/app/page.tsx:94-98 | `includes` holds exactly when the needle occurs at some position |
| `JsBuiltins.ParseIntOfNatToString` | src/types/index.ts:48-49 | `parseInt` of the decimal rendering of a natural number gives the number back |
| `Types.TagsOrEmpty` | src/app/page.tsx:42-44 | a missing tag list reads as empty, a present one unchanged |
| `Types.ParseFormNumber` | src/types/index.ts:48-49 | the transform gives `undefined` exactly for an absent or empty text |
| `Types.FormNumberRoundTrip` | src/types/index.ts:48-49 | every natural number typed into age or rating is read back as that number |
| `Types.FormSchemaSkipsBounds` | src/types/index.ts:41-50 | the form schema drops the age ≥ 18 and rating 1–5 bounds: an age of 17 and a rating of 9 pass it |
| `Storage.FindIndex` | src/utils/storage.ts:80-84 | the result is the first index holding the id; there is none exactly when the id is absent |
| `Storage.RemoveId` | src/utils/storage.ts:105-109 | keeps exactly the records with another id; the length is unchanged exactly when the id was absent, and then the collection is unchanged |
| `Storage.PatchLaws` | src/utils/storage.ts:86-90 | spreading an empty patch keeps the record, a full patch replaces it, and spreading twice equals once |
| `Storage.PatchFields` | src/utils/storage.ts:86-90 | for every one of the fourteen fields: the patch's value when the patch gives the field, the record's value otherwise |
| `Storage.LocalStore.GetAllDatePersons` | src/utils/storage.ts:19-47 | usable storage holding an array gives that array; unavailable storage, a missing key or unparsable text give the empty array |
| `Storage.LocalStore.GetDatePerson` | src/utils/storage.ts:50-54 | the first stored record with the id, and none exactly when no record has it |
| `Storage.LocalStore.SaveDatePersons` | src/utils/storage.ts:120-144 | success exactly when storage is usable and the write and read-back succeed; on success the slot holds the array; otherwise it is unchanged, or empty when the read-back found nothing |
| `Storage.LocalStore.AddDatePerson` | src/utils/storage.ts:57-75 | on success the stored array is the old one plus one record with the fresh id, the given fields and both timestamps equal to now, and that id occurs once; on failure it throws `保存數據失敗` and the stored records are unchanged, or empty when the read-back found nothing |
| `Storage.LocalStore.UpdateDatePerson` | src/utils/storage.ts:78-100 | an absent id returns nothing and writes nothing; otherwise only the first record with the id is replaced by its patched copy with `updatedAt` = now, keeping id and `createdAt`; a failed write throws |
| `Storage.LocalStore.DeleteDatePerson` | src/utils/storage.ts:103-117 | an absent id returns false and writes nothing; otherwise every record with the id is dropped and true is returned, or the failed write throws |
| `StorageSync.RowRoundTrip` | src/utils/storageSync.ts:82-101 | reading back an uploaded row gives the record, except that an empty `firstDateAt` comes back absent |
| `StorageSync.ToRows` | src/utils/storageSync.ts:161-181 | one row per record, in order, each with the record's id and the user's id, and each reading back as the record |
| `StorageSync.RowsOf` | src/utils/storageSync.ts:69-72 | the filter keeps exactly the user's rows |
| `StorageSync.OtherUsersRows` | src/utils/storageSync.ts:184-187 | the delete leaves exactly the rows of other users |
| `StorageSync.CloudTable.DeleteUserRows` | src/utils/storageSync.ts:184-187 | a successful delete removes the user's rows and nothing else; a failed one changes nothing |
| `StorageSync.CloudTable.Insert` | src/utils/storageSync.ts:190-192 | all rows are appended or, on failure, none |
| `StorageSync.CloudTable.MigrateLocalDataToCloud` | src/utils/storageSync.ts:9-59 | with no local record it succeeds and inserts nothing; otherwise it inserts one row per local record and succeeds exactly when the insert does |
| `StorageSync.FetchCloudData` | src/utils/storageSync.ts:67-108 | a failure gives no success and no data; a success gives, for each row of the user in table order, the record the fetch mapping reads from it: id, both timestamps and every detail column kept, and each of the three null tag columns read as empty |
| `StorageSync.FetchAfterUpload` | src/utils/storageSync.ts:82-101 | fetching what was uploaded for a user gives the uploaded records back |
| `StorageSync.HasCloudData` | src/utils/storageSync.ts:111-129 | true exactly when the table is reachable and holds a row of the user |
| `StorageSync.PutValid` | src/utils/storageSync.ts:144 | `Map.set` keeps the map well formed; a new key goes to the end and an existing key keeps its place |
| `StorageSync.Values` | src/utils/storageSync.ts:158 | one value per key in key-insertion order, each the map's entry for its key |
| `StorageSync.SeedFromCloud` | src/utils/storageSync.ts:143-145 | the seeded map is well formed |
| `StorageSync.OverlayLocal` | src/utils/storageSync.ts:148-155 | the overlaid map is well formed |
| `StorageSync.MergeById` | src/utils/storageSync.ts:140-158 | the two loops compute the fold specification, and the merged ids are the cloud ids in first-occurrence order followed by the new local ids |
| `StorageSync.MergeOrder` | src/utils/storageSync.ts:140-158 | the merged ids are the cloud ids in first-occurrence order, then the local ids not seen before |
| `StorageSync.MergeRecords` | src/utils/storageSync.ts:143-155 | each merged record is the last cloud record with its id, replaced by each local record with that id that is strictly newer than what is held |
| `StorageSync.MergeCoversIds` | src/utils/storageSync.ts:140-158 | every id of either side appears in the merge exactly once and no other id does |
| `StorageSync.MergeTakesWholeRecords` | src/utils/storageSync.ts:144-153 | every merged record is a cloud or a local record, taken whole |
| `StorageSync.MergeLastWriterWins` | src/utils/storageSync.ts:152-154 | for an id held once on each side, the merge holds the local record when it is strictly newer and the cloud record otherwise, so a tie keeps the cloud record |
| `StorageSync.MergeKeepsNewest` | src/utils/storageSync.ts:148-155 | every local record is matched in the merge by a record with its id that is at least as new |
| `StorageSync.MergeIdempotent` | src/utils/storageSync.ts:132-158 | merging the merge again with the same local records changes nothing |
| `StorageSync.MergeWithEmptyCloud` | src/utils/storageSync.ts:137-158 | with no cloud records, a local collection with distinct ids is the merge |
| `StorageSync.MergeLocalAndCloudData` | src/utils/storageSync.ts:132-204 | the table afterwards is the as-written reconciliation of the old table; success exactly when the insert succeeds, and then the merged records are returned |
| `StorageSync.SuccessfulMergeTable` | src/utils/storageSync.ts:184-192 | after a reconciliation whose three calls succeed, the user's rows are exactly the rows of the merged records |
| `StorageSync.SuccessfulMergeKeepsCloudIds` | src/utils/storageSync.ts:137-192 | after a successful reconciliation, every id the user had in the cloud is still among the user's rows |
| `StorageSync.MergeTwiceIsStable` | src/utils/storageSync.ts:132-204 | reconciling a second time with no local change leaves the user's rows as the first reconciliation left them |
| `StorageSync.FailedInsertEmptiesUser` | src/utils/storageSync.ts:184-197 | when the delete goes through and the insert fails, the user has no rows left |
| `StorageSync.FetchFailureDropsCloudOnlyRecords` | src/utils/storageSync.ts:137 | as written: a failed fetch followed by a successful delete and insert loses every cloud record whose id is not held locally |
| `StorageSync.TableAfterMergeAborting` | src/utils/storageSync.ts:137 | corrected reconciliation: a failed fetch leaves the table untouched |
| `StorageSync.MergeLocalAndCloudDataAborting` | src/utils/storageSync.ts:132-204 | corrected method: the table follows the aborting reconciliation, and success requires both the fetch and the insert |
| `StorageSync.AbortingKeepsCloudRecords` | src/utils/storageSync.ts:137 | with the correction, every cloud record of the user keeps its id in the table unless the delete succeeds and the insert fails |
| `TagSelector.Without` | src/components/TagSelector.tsx:26 | removes every copy of the tag and keeps every other tag |
| `TagSelector.WithoutConcat` | src/components/TagSelector.tsx:26 | removal distributes over concatenation, so with `WithoutSingle` the remaining tags keep their order |
| `TagSelector.WithoutSingle` | src/components/TagSelector.tsx:26 | a one-tag list loses the tag exactly when it is the removed one |
| `TagSelector.ToggleTag` | src/components/TagSelector.tsx:24-31 | nothing is reported exactly when the tag is unselected and the cap is reached; otherwise only the tag's membership flips, and an added tag goes at the end |
| `TagSelector.ToggleTwiceRestores` | src/components/TagSelector.tsx:24-31 | clicking a just-added tag again restores the selection |
| `TagSelector.AddCustomTag` | src/components/TagSelector.tsx:33-43 | the trimmed text is appended exactly when it is non-blank, not selected and under the cap; the box is cleared unless the cap blocked it |
| `TagSelector.AddPathsRespectCap` | src/components/TagSelector.tsx:28-39 | neither way of adding takes a selection within the cap past it |
| `TagSelector.ChangesKeepDistinct` | src/components/TagSelector.tsx:24-43 | neither toggling nor adding introduces a duplicate tag |
| `TagSelector.DisplayedPresetTags` | src/components/TagSelector.tsx:53 | a prefix of the presets: all when expanded, otherwise the first eight |
| `TagSelector.ExpandToggleShownIffHidden` | src/components/TagSelector.tsx:99-107 | the more/less button is shown exactly when the collapsed list hides a preset |
| `TagSelector.CapNoticeMeansFull` | src/components/TagSelector.tsx:131-133 | the cap notice is shown exactly when a click on an unselected tag is ignored |
| `TagSelector.TagPicker.SetCustomTag` | src/components/TagSelector.tsx:115 | typing replaces the text and nothing else |
| `TagSelector.TagPicker.HandleAddCustomTag` | src/components/TagSelector.tsx:33-43 | reports the selection `AddCustomTag` gives and clears the box exactly when it says so |
| `TagSelector.TagPicker.HandleKeyDown` | src/components/TagSelector.tsx:45-50 | Enter adds the typed tag and clears or keeps the box exactly as `handleAddCustomTag` does; any other key changes nothing |
| `TagSelector.TagPicker.ToggleShowAll` | src/components/TagSelector.tsx:102 | flips the expansion, leaving the text |
| `TagSelector.TagPicker.AddEnabled` | src/components/TagSelector.tsx:124 | the add button is enabled exactly when the text has a non-space character |
| `StarRating.RenderStar` | src/components/StarRating.tsx:22-33 | half exactly when the rating is in [position − ½, position); filled exactly when it reaches the position; empty exactly when it is below position − ½ |
| `StarRating.Stars` | src/components/StarRating.tsx:37 | five stars, each drawn for its position |
| `StarRating.IntegerRating` | src/components/StarRating.tsx:22-37 | a whole rating draws no half star and fills exactly the positions up to it, so a rating from 0 to 5 fills that many stars |
| `StarRating.HalfRating` | src/components/StarRating.tsx:22-37 | a rating of n½ fills n stars, halves the next and leaves the rest empty |
| `StarRating.HandleClick` | src/components/StarRating.tsx:17-20 | a click is reported, as the clicked position, exactly when the widget is editable and has a listener |
| `StarRating.ClicksReportStarRatings` | src/components/StarRating.tsx:37-41 | every reported click is a rating from 1 to 5 |
| `UserMenu.FormatEmail` | src/components/UserMenu.tsx:62-67 | an address of at most 15 characters, or one whose local part has at most 6, is shown whole; otherwise the text starts with the first six characters followed by `...@` |
| `UserMenu.FormatSingleAt` | src/components/UserMenu.tsx:62-67 | a long address with one `@` keeps six characters of the local part and the whole domain |
| `UserMenu.FormatDropsAfterSecondAt` | src/components/UserMenu.tsx:64-66 | for any address longer than 15 characters whose local part is longer than 6, text after a second `@` is dropped |
| `UserMenu.FormatWithoutAt` | src/components/UserMenu.tsx:64-66 | a long text without `@` gets the domain `undefined` |
| `UserMenu.UserLabel` | src/components/UserMenu.tsx:96 | the shortened address, or `用戶` when there is none |
| `UserMenu.MenuState.ToggleMenu` | src/components/UserMenu.tsx:92 | flips the menu and keeps the user |
| `UserMenu.MenuState.ClickOutside` | src/components/UserMenu.tsx:37-41 | a press outside closes the menu; one inside leaves it |
| `UserMenu.MenuState.Logout` | src/components/UserMenu.tsx:50-59 | unless the sign-out call throws, the user is forgotten and the menu closed, even when the call reports an error in its result; a throw changes nothing |
| `UserMenu.ToggleTwice` | src/components/UserMenu.tsx:92 | two presses leave the menu as it was |
| `DatePersonCard.GetMeetChannel` | src/components/DatePersonCard.tsx:13-20 | nothing exactly for an absent or empty channel; unless the first part is `其他`, the result is the text before the first `:`, or the whole text when there is none |
| `DatePersonCard.PlainChannel` | src/components/DatePersonCard.tsx:16-19 | a channel without `:` is shown as it is |
| `DatePersonCard.OtherChannelDetail` | src/components/DatePersonCard.tsx:17-18 | `其他:detail` is shown as `其他: detail`, and any later part is dropped |
| `DatePersonCard.ChannelBeforeColon` | src/components/DatePersonCard.tsx:16-19 | another channel with a `:` shows only the text before it, which may be empty |
| `DatePersonCard.GetRandomColor` | src/components/DatePersonCard.tsx:23-36 | the colour is one of the six listed |
| `DatePersonCard.GetHumorousPrefix` | src/components/DatePersonCard.tsx:39-43 | the prefix is one of the six listed |
| `DatePersonCard.ColorAndPrefixAgree` | src/components/DatePersonCard.tsx:33-43 | two names share a colour exactly when they share a prefix |
| `DatePersonCard.SwappedNameSameColor` | src/components/DatePersonCard.tsx:34 | the colour depends only on the characters, not their order: swapping two halves of a name keeps it |
| `DatePersonCard.PreviewTags` | src/components/DatePersonCard.tsx:92-107 | nothing for an empty list; otherwise the first min(n, 3) tags, with a `+n` note exactly when more exist |
| `DatePersonCard.PreviewCountsEveryTag` | src/components/DatePersonCard.tsx:104-106 | the tags shown plus the number in the `+n` note give the list's length |
| `DatePersonForm.IndexOf` | src/components/DatePersonForm.tsx:61-65 | the position of a step in the step list |
| `DatePersonForm.StepsListedOnce` | src/components/DatePersonForm.tsx:61 | five steps, each listed once |
| `DatePersonForm.NextStep` | src/components/DatePersonForm.tsx:64-69 | one step further, except from the last step |
| `DatePersonForm.PrevStep` | src/components/DatePersonForm.tsx:72-77 | one step back, except from the first step |
| `DatePersonForm.NextPrevInverse` | src/components/DatePersonForm.tsx:64-77 | back undoes next except on the last step, and next undoes back except on the first |
| `DatePersonForm.IsCurrentStepValid` | src/components/DatePersonForm.tsx:80-85 | a step is invalid exactly when it is the first step and the name is empty |
| `DatePersonForm.ButtonsMatchMoves` | src/components/DatePersonForm.tsx:490-529 | the back button is shown exactly where back moves, and submit replaces next exactly where next cannot move |
| `DatePersonForm.PressNext` | src/components/DatePersonForm.tsx:511-520 | the next button moves on exactly when it is shown and the step is valid |
| `DatePersonForm.WalkThroughSteps` | src/components/DatePersonForm.tsx:61-85 | with a name, n presses reach step min(n, 4); without one the wizard never leaves the first step |
| `DatePersonForm.StepMark` | src/components/DatePersonForm.tsx:116-134 | an indicator is done exactly before the current step and current exactly at it |
| `DatePersonForm.Wizard.HandleNextStep` | src/components/DatePersonForm.tsx:64-69 | the current step becomes the next one |
| `DatePersonForm.Wizard.HandlePrevStep` | src/components/DatePersonForm.tsx:72-77 | the current step becomes the previous one |
| `DatePersonForm.Wizard.ClickNext` | src/components/DatePersonForm.tsx:511-520 | a press of the next button moves as `PressNext` says |
| `DatePersonForm.TextOrBlank` | src/components/DatePersonForm.tsx:29 | a given text is kept, a missing one starts blank |
| `DatePersonForm.NumberOrBlank` | src/components/DatePersonForm.tsx:30 | a number starts blank exactly when it is missing or 0 |
| `DatePersonForm.ChoiceOrNone` | src/components/DatePersonForm.tsx:31 | a choice is unset exactly when it is missing or empty |
| `DatePersonForm.BlankDefaults` | src/components/DatePersonForm.tsx:28-43 | a new record's form starts with an empty name, no age, gender or rating, and no tags |
| `DatePersonForm.EditStartsFromRecord` | src/components/DatePersonForm.tsx:28-43 | editing a valid record starts from its name, age, gender, rating and tags |
| `DatePersonForm.FormatDate` | src/components/DatePersonForm.tsx:88-95 | `未设置` exactly for an empty date, the localised date otherwise |
| `Home.AnyTagIncludes` | src/app/page.tsx:97-98 | true exactly when some tag, lower-cased, includes the term |
| `Home.MatchesIff` | src/app/page.tsx:89-99 | a non-empty search keeps a record exactly when the lower-cased term occurs in its lower-cased name, occupation, meet channel or one of its tags |
| `Home.FilterPersons` | src/app/page.tsx:88-100 | each record is kept with its multiplicity when it matches and dropped otherwise |
| `Home.EmptySearchKeepsAll` | src/app/page.tsx:90 | an empty search keeps every record, in order |
| `Home.ToggleSortOrder` | src/app/page.tsx:134 | the sort button always changes the order |
| `Home.Insert` | src/app/page.tsx:101-105 | inserting into a sorted list keeps it sorted and adds exactly that record |
| `Home.SortByUpdated` | src/app/page.tsx:101-105 | the result is sorted by `updatedAt` in the chosen direction and is a permutation of the input |
| `Home.FilteredAndSorted` | src/app/page.tsx:88-105 | the list shown is sorted and holds exactly the matching records, with their multiplicities |
| `Home.ListShowsEverything` | src/app/page.tsx:88-105 | with no search term every record is shown |
| `Home.SortedBothWays` | src/app/page.tsx:104 | the two orders are opposite: a list sorted both ways has a single timestamp |
| `Home.StoredNumber` | src/utils/storage.ts:128 | a parsed number is stored as itself, and a parse failure is stored as no number |
| `Home.FormPatchOverwritesFormFields` | src/app/page.tsx:54-59 | an update from the form takes every field the form holds, and keeps the meet channel (unless given), relationship status, Instagram account and first date |
| `Home.EditKeepsMeetChannel` | src/app/page.tsx:54-59 | editing through the form, which has no meet-channel input, keeps the record's meet channel |
| `Home.SubmittedFormDetails` | src/app/page.tsx:40-45 | a schema-valid form gives a record with its name, its tag lists and its age present exactly when it parsed |
| `Home.SubmittedFormValidity` | src/app/page.tsx:40-45 | such a record passes the record schema exactly when its age and rating are within that schema's bounds |
| `Home.HomePage.constructor` | src/app/page.tsx:13-28 | the page starts with the stored records, newest first, no search, nothing open |
| `Home.HomePage.ToggleSort` | src/app/page.tsx:134 | flips the sort order and keeps every other page field |
| `Home.HomePage.SetSearchTerm` | src/app/page.tsx:127 | sets the search term and keeps every other page field |
| `Home.HomePage.HandleAddPerson` | src/app/page.tsx:39-49 | on success the store gains one record built from the form, the page shows the store and the form closes; a failed write throws, leaves the page as it was and the stored records unchanged or empty; the search, sort and delete dialog are always kept |
| `Home.HomePage.HandleUpdatePerson` | src/app/page.tsx:52-64 | with no record being edited nothing happens; a record no longer stored returns nothing and leaves the store; otherwise the handler returns exactly when the write succeeds, the edited record gets the form's fields (its meet channel kept) and a new `updatedAt`, editing stops and the page reloads; a failed write throws and leaves the page; the form, search, sort, delete dialog and storage availability are always kept |
| `Home.HomePage.HandleDeletePerson` | src/app/page.tsx:67-70 | remembers the id and opens the confirmation, keeping every other page field |
| `Home.HomePage.ConfirmDelete` | src/app/page.tsx:72-80 | with no (or an empty) remembered id nothing happens; otherwise the id's records are removed from the store, editing stops, the page reloads without them and the dialog closes; a failed write throws and leaves the page; the form, search and sort are always kept |
| `Home.HomePage.CancelDelete` | src/app/page.tsx:82-85 | closes the dialog and forgets the id, keeping every other page field |

## Left out

- Network, authentication and the hosted backend client are outside the model. Each call's result is a parameter. `src/utils/supabase.ts`, the auth callback route, `LoginModal`, `ConfirmDialog`, `GradientBackground` and the layout are not part of this model.
- React rendering, effects and the cross-tab `storage` event are not modelled. The page's reload is modelled as reading the store again.
- The user menu's loading state is not modelled. Neither are the login, sync and mode buttons, whose handlers live in code outside this model.
- Dates are not modelled. They are integers of milliseconds, and `toISOString` / `new Date(...)` round trips are taken to be exact. `toLocaleDateString` is a parameter of `DatePersonForm.FormatDate`, and the `catch` fallback to the raw text is folded into that parameter.
- JSON encoding of the storage slot is not modelled. Text that does not parse as an array of records is one `Unparsable` value.
- `Home.StoredNumber`: the model stores `NaN` as an absent number, which is what the JSON round trip through storage does. The value held in memory before the reload is not modelled.
- `JsBuiltins.LowerChar`: case mapping covers ASCII letters only, not full Unicode lowercasing.
- `UserMenu.FormatEmail` measures the address and its local part, and slices six characters, in Unicode code points; JavaScript's `length` and `slice` count UTF-16 code units. The two differ only for characters outside the Basic Multilingual Plane: `😀😀😀😀@example.com` is shortened by the component but shown whole by the model.
- `DatePersonCard.CodeSum` sums Unicode code points, not UTF-16 code units. The two differ only for characters outside the Basic Multilingual Plane.
- `JsBuiltins.ParseInt` reads unbounded integers, so precision loss on very long digit strings is not modelled.
- `Home.SortByUpdated`: the model sorts by insertion and proves sortedness and permutation. It does not prove which order tied records take; the engine's sort is stable.
- Uploaded and fetched rows carry only the columns the code names. Row order inside the hosted table is modelled as append order.
- The concurrency window between the delete and the insert of a reconciliation is not modelled. Each call happens atomically, in program order.
- The card's other markup (age, gender, occupation chips, the star row) is left out. It only prints fields.

## Findings

| source | as written | input that shows it | evidently intended | confidence | as-written member | corrected member |
|---|---|---|---|---|---|---|
| src/utils/storageSync.ts:137 | `mergeLocalAndCloudData` destructures only `data` from `fetchCloudData` and ignores `success`. After a failed fetch it merges against an empty cloud side, deletes the user's rows and inserts only the local records. | The cloud holds a row of the user with id `a`. The local store has no record with id `a`. The fetch fails, and the delete and insert succeed. Afterwards `a` is gone from the table. | A failed fetch ends the reconciliation with failure before anything is deleted. After a failure `fetchCloudData` returns `data: []`, which cannot be told apart from an empty cloud, and the routine exists to merge the two sides, not to erase one. | not executed | `StorageSync.FetchFailureDropsCloudOnlyRecords` | `StorageSync.AbortingKeepsCloudRecords` |
