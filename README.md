# Galaxy Zoo items provider and classification flow, in Dafny

This project models two parts of the Galaxy Zoo Android app.

**The items content provider** (`ItemsContentProvider`) stores:
- the subjects ("items") to classify;
- the cache files of their images;
- the answers and ticked checkboxes of finished classifications.

The model covers the provider's:
- URI matcher and the dispatch of `query`, `insert`, `update`, `delete` and `getType`;
- translation of public column names to database column names;
- "next item" query, which asks the server for more subjects up to three times when none is ready;
- `insert`, which reserves three files rows for a new item's images;
- `removeItem` cascade over files, answers and checkboxes;
- schema upgrade;
- helpers `prependIdToSelection`, `prependToArray` and `parseContentUri`.

**The question screen** (`QuestionFragment`) models:
- `ClassificationInProgress`: the answers given so far, with its copy, equality and Parcel round trip;
- storing an answer with its ticked checkboxes;
- skipping the hidden "Discuss" question by answering "No" on the user's behalf;
- abandoning a classification that has too few answers, or handing a copy of it to a save task;
- the batch of provider operations that saves a classification.

Files:

- `common.dfy` (module `Common`)
  - the Option and Result types and the error kinds;
  - the values a `ContentValues` map holds;
  - decimal ids;
  - SQLite's integer comparison of a stored value.
- `uri_router.dfy` (module `UriRouter`)
  - the URI matcher and the per-operation switches;
  - MIME types;
  - the selection and argument helpers;
  - file URIs.
- `column_map.dfy` (module `ColumnMap`): the projection maps and `getMappedContentValues`.
- `items_store.dfy` (module `ItemsStore`)
  - the provider as a class over four tables (`map<nat, Row>`) with AUTOINCREMENT counters;
  - the next-item query and its retry loop;
  - the insert, update, delete and upgrade paths.
- `classification.dfy` (module `Classification`)
  - the classification in progress as a class;
  - its Parcel format as a sequence of written items, with readers and writers.
- `question_flow.dfy` (module `QuestionFlow`)
  - the answer handling of the question screen as a class;
  - the batch it builds;
  - the provider's inherited, non-transactional `applyBatch`.

How the outside world appears in the model:
- **Network:** the server's answers to the three requests are a parameter `net`.
- **Subject import:** its outcome (rows inserted, success flag) is a parameter `importer`.
- **Cache directory:** the file path created for each file id, or the exception raised, is a parameter `cache`.
- **Clock:** the current date and time is a parameter `now`.
- **`requestSync()`:** a counter of requests.
- **Discussion page:** opening it is a counter.
- **Save task:** the copy handed to it is kept in a list.

Observation: the comment in `showNextQuestion` (QuestionFragment.java:588-590) says the question id is set to null so that a second "Done" does not start a second save. The code does not do it. It only hides the layout.
- `QuestionFlow.QuestionFragment.ShowNextQuestion` keeps the question id whenever it does not show a new question.
- So a second click on the same answer is accepted while a save is pending.

Sync requests: the provider calls `requestSync()` in three places only:
- after inserting an item (ItemsContentProvider.java:450);
- after updating items (ItemsContentProvider.java:924, 935);
- after the next-item query imports new subjects (ItemsContentProvider.java:750).

Inserts and updates of answers and checkboxes, `delete` and `removeItem` never request one, and the contracts of `Insert`, `Update` and `Delete` say so.

## Model

| member | source | states |
|---|---|---|
| Common.ParseNatToString | app/src/main/java/com/murrayc/galaxyzoo/app/provider/ItemsContentProvider.java:523 | the decimal text of a file id, as used for cache file names and URIs, reads back as that id |
| Common.NatToString | app/src/main/java/com/murrayc/galaxyzoo/app/provider/ItemsContentProvider.java:523 | the decimal text of an id is a non-empty run of digits, so it matches the matcher's `#` |
| UriRouter.Match | app/src/main/java/com/murrayc/galaxyzoo/app/provider/ItemsContentProvider.java:139-166 | a matched path is the rendering of its tag; a single-row tag's id is all digits; collection tags match one-segment paths |
| UriRouter.MatchRender | app/src/main/java/com/murrayc/galaxyzoo/app/provider/ItemsContentProvider.java:139-166 | every tag is matched by its own URIs, so no pattern of the table is shadowed by another |
| UriRouter.MatchItemPaths | app/src/main/java/com/murrayc/galaxyzoo/app/provider/ItemsContentProvider.java:139-145 | "item/next" matches exactly the next-item tag, "item/<digits>" exactly the single-item tag, anything else under "item/" nothing |
| UriRouter.QueryRoute | app/src/main/java/com/murrayc/galaxyzoo/app/provider/ItemsContentProvider.java:629-842 | query accepts exactly the URIs that name a table (file and next item included); single-row URIs select by id; everything else is IllegalArgument |
| UriRouter.InsertRoute | app/src/main/java/com/murrayc/galaxyzoo/app/provider/ItemsContentProvider.java:406-472 | insert accepts exactly the writable tags and inserts into the table they name; others are IllegalArgument |
| UriRouter.WriteRoute | app/src/main/java/com/murrayc/galaxyzoo/app/provider/ItemsContentProvider.java:910-983 | update and delete accept exactly the writable tags; the single-row ones act by id; others are IllegalArgument |
| UriRouter.ClassificationUrisRejected | app/src/main/java/com/murrayc/galaxyzoo/app/provider/ItemsContentProvider.java:151-154 | the "classification" URIs are matched, yet query, insert, update, delete and getType all reject them |
| UriRouter.MimePrefixes | app/src/main/java/com/murrayc/galaxyzoo/app/provider/ItemsContentProvider.java:354-373 | a directory MIME type never has the item prefix and the other way round |
| UriRouter.GetType | app/src/main/java/com/murrayc/galaxyzoo/app/provider/ItemsContentProvider.java:354-373 | every table URI except the file URI has a type; single-row URIs get an item type and collections a directory type, both ways; the type names the URI's own table (the vendor prefix followed by that table's path part); the rest are IllegalArgument |
| UriRouter.GetTypeDistinct | app/src/main/java/com/murrayc/galaxyzoo/app/provider/ItemsContentProvider.java:354-373 | two URIs get the same MIME type only when they name the same table and are both single-row or both collections |
| UriRouter.ParseContentUri | app/src/main/java/com/murrayc/galaxyzoo/app/provider/ItemsContentProvider.java:891-907 | a path of two or more segments gives its second segment; a shorter one is IndexOutOfBounds; for a matched single-row URI the segment is present and all digits |
| ItemsStore.MatchingByIdSpec | app/src/main/java/com/murrayc/galaxyzoo/app/provider/ItemsContentProvider.java:985-989 | the single-row where clause (id clause in front, id bound before the caller's arguments) keeps exactly the rows the caller's selection keeps that have the URI's id |
| UriRouter.PrependIdToSelectionSpec | app/src/main/java/com/murrayc/galaxyzoo/app/provider/ItemsContentProvider.java:985-989 | the result starts with the id clause, is the bare clause exactly when there is no selection, and the caller's selection can be read back from it |
| UriRouter.PrependToArray | app/src/main/java/com/murrayc/galaxyzoo/app/provider/ItemsContentProvider.java:872-889 | as written: null or empty arguments give [value]; any non-empty argument array throws IndexOutOfBounds |
| UriRouter.PrependToArrayIntendedSpec | app/src/main/java/com/murrayc/galaxyzoo/app/provider/ItemsContentProvider.java:872-889 | the intended helper binds the id first and keeps every caller argument after it, in order |
| UriRouter.PrependToArrayThrowsOnArguments | app/src/main/java/com/murrayc/galaxyzoo/app/provider/ItemsContentProvider.java:884-885 | one caller argument makes the helper as written throw, where the intended one returns [id, argument] |
| UriRouter.ParseFileUri | app/src/main/java/com/murrayc/galaxyzoo/app/provider/ItemsContentProvider.java:1037-1039 | a file URI written by the provider parses back (as ContentUris.parseId does) to its file id |
| UriRouter.FileUriInjective | app/src/main/java/com/murrayc/galaxyzoo/app/provider/ItemsContentProvider.java:536-540 | distinct files get distinct URIs |
| ColumnMap.MappedSpec | app/src/main/java/com/murrayc/galaxyzoo/app/provider/ItemsContentProvider.java:247-283 | each known, copyable public column keeps its value under its database name; every translated column comes from such a public column; no empty name appears |
| ColumnMap.MappedOverAdd | app/src/main/java/com/murrayc/galaxyzoo/app/provider/ItemsContentProvider.java:250-256 | translating one more key adds at most that key's database entry, through putValueInContentValues |
| ColumnMap.PutValue | app/src/main/java/com/murrayc/galaxyzoo/app/provider/ItemsContentProvider.java:261-282 | a String, Boolean, Integer, Long or Double value is put under the key, replacing any old value; any other value, null included, leaves the values as they were; other keys are untouched |
| ColumnMap.GetMappedContentValues | app/src/main/java/com/murrayc/galaxyzoo/app/provider/ItemsContentProvider.java:247-259 | the loop over the caller's keys produces exactly the translated map |
| ColumnMap.ProjectionMapsInjective | app/src/main/java/com/murrayc/galaxyzoo/app/provider/ItemsContentProvider.java:179-214 | the three projection maps never send two public names to one column |
| ColumnMap.MappedIdentity | app/src/main/java/com/murrayc/galaxyzoo/app/provider/ItemsContentProvider.java:247-283 | values whose names are all in an identity projection map and whose types are all copied pass the translation unchanged |
| ColumnMap.UnknownNamesDropped | app/src/main/java/com/murrayc/galaxyzoo/app/provider/ItemsContentProvider.java:250-256 | a name the projection map does not know is silently dropped |
| ItemsStore.ProjectionFor | app/src/main/java/com/murrayc/galaxyzoo/app/provider/ItemsContentProvider.java:179-214 | the projection map used for each table is injective |
| ItemsStore.NotDoneSpec | app/src/main/java/com/murrayc/galaxyzoo/app/provider/ItemsContentProvider.java:234-235 | "done != 1": a row without the column (DEFAULT 0) passes, a stored 0 passes, a stored 1 fails, and a NULL fails because NULL != 1 is unknown |
| ItemsStore.DownloadedSpec | app/src/main/java/com/murrayc/galaxyzoo/app/provider/ItemsContentProvider.java:236-241 | the three "== 1" tests: since the flags default to 0, a row passes exactly when all three flags are stored and read as 1 |
| ItemsStore.NextItemUnique | app/src/main/java/com/murrayc/galaxyzoo/app/provider/ItemsContentProvider.java:844-866 | the next item is unique: the smallest id among the not-done, downloaded rows the selection keeps |
| ItemsStore.DoneItemNeverNext | app/src/main/java/com/murrayc/galaxyzoo/app/provider/ItemsContentProvider.java:234-242 | an item whose done column is 1 is never the next item |
| ItemsStore.QueryItemNext | app/src/main/java/com/murrayc/galaxyzoo/app/provider/ItemsContentProvider.java:844-866 | returns the next item when there is a candidate, and nothing exactly when there is none |
| ItemsStore.RetryFetch | app/src/main/java/com/murrayc/galaxyzoo/app/provider/ItemsContentProvider.java:699-736 | at most three requests; stops at the first that returns subjects; an exception counts as no subjects; succeeds exactly when one of the three gets subjects |
| ItemsStore.AppendedSpec | app/src/main/java/com/murrayc/galaxyzoo/app/provider/ItemsContentProvider.java:720-727 | imported rows are appended under fresh consecutive ids, and old rows are kept |
| ItemsStore.ImageUris | app/src/main/java/com/murrayc/galaxyzoo/app/provider/ItemsContentProvider.java:223-227 | the three references read are the standard, thumbnail and inverted image URI columns of the item, in that order; a missing item gives three nulls |
| ItemsStore.WithoutItem | app/src/main/java/com/murrayc/galaxyzoo/app/provider/ItemsContentProvider.java:1064-1084 | keeps exactly the rows whose itemId is not the item's id, unchanged |
| ItemsStore.WithoutItemSpec | app/src/main/java/com/murrayc/galaxyzoo/app/provider/ItemsContentProvider.java:1064-1084 | removing one item's answers leaves every other item's answers, and none of its own |
| ItemsStore.UpdatedRows | app/src/main/java/com/murrayc/galaxyzoo/app/provider/ItemsContentProvider.java:474-483 | the rows in the id set get the new values and keep their other columns; other rows are unchanged; no row appears or disappears |
| ItemsStore.MatchingAll | app/src/main/java/com/murrayc/galaxyzoo/app/provider/ItemsContentProvider.java:474-483 | with no selection every row of the table is selected |
| ItemsStore.CompletedRowHoldsReferences | app/src/main/java/com/murrayc/galaxyzoo/app/provider/ItemsContentProvider.java:1101-1124 | the stored item row holds the three file URIs created for it |
| ItemsStore.InsertedItemReferencesItsFiles | app/src/main/java/com/murrayc/galaxyzoo/app/provider/ItemsContentProvider.java:1003-1092 | an item inserted by the provider references exactly its three reserved files, so removeItem deletes those files and cannot fail on a reference |
| ItemsStore.UpgradePlan | app/src/main/java/com/murrayc/galaxyzoo/app/provider/ItemsContentProvider.java:1159-1187 | as written: nothing when versions are equal; the tables are recreated exactly when the old version is not 20 |
| ItemsStore.UpgradePlanIntended | app/src/main/java/com/murrayc/galaxyzoo/app/provider/ItemsContentProvider.java:1159-1187 | as the comment intends: a version-20 database never keeps its old schema after a failed ALTER |
| ItemsStore.UpgradeIntendedHasGroupColumn | app/src/main/java/com/murrayc/galaxyzoo/app/provider/ItemsContentProvider.java:1159-1187 | the intended upgrade always ends with a groupId column, keeps the data when the ALTER works, and differs from the code only for a failed ALTER from 20 |
| ItemsStore.UpgradeAsWrittenLosesGroupColumn | app/src/main/java/com/murrayc/galaxyzoo/app/provider/ItemsContentProvider.java:1166-1174 | as written, a version-20 database whose ALTER fails is left without the groupId column |
| ItemsStore.ItemsContentProvider.constructor | app/src/main/java/com/murrayc/galaxyzoo/app/provider/ItemsContentProvider.java:1195-1252 | a new database has four empty tables and the full items schema |
| ItemsStore.ItemsContentProvider.InsertRow | app/src/main/java/com/murrayc/galaxyzoo/app/provider/ItemsContentProvider.java:486-511 | a new row gets a never-used id of its table; no other table changes |
| ItemsStore.ItemsContentProvider.SetRows | app/src/main/java/com/murrayc/galaxyzoo/app/provider/ItemsContentProvider.java:474-483 | the table's rows become the given subset of them, possibly rewritten; the other tables, the counters, the schema and the sync count are unchanged |
| ItemsStore.ItemsContentProvider.InsertMappedValues | app/src/main/java/com/murrayc/galaxyzoo/app/provider/ItemsContentProvider.java:486-511 | inserts the translated values under a fresh id; an unknown items column gives null and changes nothing |
| ItemsStore.ItemsContentProvider.CreateFileUri | app/src/main/java/com/murrayc/galaxyzoo/app/provider/ItemsContentProvider.java:515-603 | reserves a files row under a never-used id first; a usable path is recorded and gives the id; a null path or an IOException gives null and leaves the reserved row; an UnsupportedOperationException or a SecurityException escapes with the row reserved; nothing else changes |
| ItemsStore.ItemsContentProvider.CreateFileUrisForImages | app/src/main/java/com/murrayc/galaxyzoo/app/provider/ItemsContentProvider.java:1101-1124 | reserves one to three distinct new files rows, stopping at the first reservation that gives null or throws; an escaping exception (UnsupportedOperation or Security) is the result; when all three give a file, the values get the three file URIs; existing files rows are unchanged |
| ItemsStore.ItemsContentProvider.InsertItem | app/src/main/java/com/murrayc/galaxyzoo/app/provider/ItemsContentProvider.java:406-452 | a missing subject id is IllegalArgument with no file reserved; otherwise one to three files are reserved and an exception of the last reservation escapes; a null reservation gives null with the items unchanged; otherwise the completed row is stored under a fresh id; once all three files are ready exactly one sync is requested, even when the row insert itself gives null |
| ItemsStore.ItemsContentProvider.Insert | app/src/main/java/com/murrayc/galaxyzoo/app/provider/ItemsContentProvider.java:406-472 | unknown URIs are IllegalArgument with nothing changed; items go through InsertItem, with its escaping exceptions; answers and checkboxes get the translated values under the next id of their table; only an item insert requests a sync |
| ItemsStore.ItemsContentProvider.InsertImported | app/src/main/java/com/murrayc/galaxyzoo/app/provider/ItemsContentProvider.java:720-727 | the imported rows are appended to the items table and nothing else changes |
| ItemsStore.ItemsContentProvider.Query | app/src/main/java/com/murrayc/galaxyzoo/app/provider/ItemsContentProvider.java:629-842 | collections return the selected rows; single-row URIs return the selected row with the URI's id; next item returns the next item, else fetches up to three times, imports and queries again, else returns an empty cursor without a sync |
| ItemsStore.ItemsContentProvider.UpdateMappedValues | app/src/main/java/com/murrayc/galaxyzoo/app/provider/ItemsContentProvider.java:474-483 | empty translated values are IllegalArgument; an unknown items column is an SQL error; otherwise the rows get the values and their count is returned |
| ItemsStore.ItemsContentProvider.Update | app/src/main/java/com/murrayc/galaxyzoo/app/provider/ItemsContentProvider.java:910-983 | the selected rows (for single-row URIs, the selected row with the URI's id) get the translated values; a successful items update requests a sync; errors change nothing |
| ItemsStore.ItemsContentProvider.RemoveItem | app/src/main/java/com/murrayc/galaxyzoo/app/provider/ItemsContentProvider.java:1003-1092 | succeeds exactly when every reference is a file URI; then deletes the referenced files rows, the item's answers and checkboxes, and the item; a bad reference throws after some files rows may be gone |
| ItemsStore.ItemsContentProvider.Delete | app/src/main/java/com/murrayc/galaxyzoo/app/provider/ItemsContentProvider.java:286-351 | a collection delete without a selection empties the table; with one it fails in SQL; item/# runs removeItem and reports 1; other single-row URIs delete the selected row with that id |
| ItemsStore.ItemsContentProvider.OnUpgrade | app/src/main/java/com/murrayc/galaxyzoo/app/provider/ItemsContentProvider.java:1159-1187 | follows the plan as written: the schema becomes what UpgradePlan gives; when the versions differ and the old one is not 20, every table is emptied and every id counter restarts at 1; otherwise all rows and counters are kept, a failed ALTER from 20 included |
| ItemsStore.ItemsContentProvider.ApplyUpgradeStep | app/src/main/java/com/murrayc/galaxyzoo/app/provider/ItemsContentProvider.java:1159-1187 | recreating empties every table, restarts the id counters and installs the full schema; adding the group column keeps the rows; the schema becomes what the step gives |
| Classification.StringItems | app/src/main/java/com/murrayc/galaxyzoo/app/QuestionFragment.java:1142-1148 | a string list writes one parcel item per string |
| Classification.StringItemsSpec | app/src/main/java/com/murrayc/galaxyzoo/app/QuestionFragment.java:1142-1148 | item i of the written list holds string i, so the strings keep their order |
| Classification.ReadStringsWritten | app/src/main/java/com/murrayc/galaxyzoo/app/QuestionFragment.java:1074-1080 | reading n strings back gives the strings written, and the rest of the parcel |
| Classification.ReadStringListWritten | app/src/main/java/com/murrayc/galaxyzoo/app/QuestionFragment.java:1074-1080 | createStringArrayList reads back what writeStringList wrote, null included |
| Classification.ReadAnswerWritten | app/src/main/java/com/murrayc/galaxyzoo/app/QuestionFragment.java:1074-1080 | the QuestionAnswer parcel constructor reads back what its writeToParcel wrote |
| Classification.ReadAnswerItemsWritten | app/src/main/java/com/murrayc/galaxyzoo/app/QuestionFragment.java:954-956 | the typed list reads back the answers written, in order |
| Classification.ParcelRoundTrip | app/src/main/java/com/murrayc/galaxyzoo/app/QuestionFragment.java:954-999 | reading back a written classification restores its answers, checkboxes and favorite flag |
| Classification.WriteClassificationInjective | app/src/main/java/com/murrayc/galaxyzoo/app/QuestionFragment.java:995-999 | two classifications with the same parcel are equal: writing loses nothing |
| Classification.ClassificationInProgress.constructor | app/src/main/java/com/murrayc/galaxyzoo/app/QuestionFragment.java:945-947 | a new classification has no answers and is not a favorite |
| Classification.ClassificationInProgress.Copy | app/src/main/java/com/murrayc/galaxyzoo/app/QuestionFragment.java:949-952 | the copy has the original's value |
| Classification.ClassificationInProgress.Add | app/src/main/java/com/murrayc/galaxyzoo/app/QuestionFragment.java:986-988 | appends exactly one answer and keeps the favorite flag |
| Classification.ClassificationInProgress.SetFavorite | app/src/main/java/com/murrayc/galaxyzoo/app/QuestionFragment.java:1028 | sets the flag and keeps the answers |
| Classification.ClassificationInProgress.GetAnswers | app/src/main/java/com/murrayc/galaxyzoo/app/QuestionFragment.java:1006-1013 | the copied list equals the answers, element by element |
| Classification.ClassificationInProgress.HasEnoughAnswers | app/src/main/java/com/murrayc/galaxyzoo/app/QuestionFragment.java:1020-1022 | true exactly when there are more than one answer |
| Classification.ClassificationInProgress.Equals | app/src/main/java/com/murrayc/galaxyzoo/app/QuestionFragment.java:960-977 | true exactly when the answers, element by element, and the favorite flags are equal |
| Classification.ClassificationInProgress.WriteToParcel | app/src/main/java/com/murrayc/galaxyzoo/app/QuestionFragment.java:995-999 | the parcel reads back as the classification's value |
| Classification.ClassificationInProgress.CreateFromParcel | app/src/main/java/com/murrayc/galaxyzoo/app/QuestionFragment.java:932-941 | a parcel that reads as a classification gives a fresh object with that value; any other parcel gives none |
| Classification.CopyThenAdd | app/src/main/java/com/murrayc/galaxyzoo/app/QuestionFragment.java:949-952 | adding to the original after copying does not change the copy |
| Classification.ParcelAndRecreate | app/src/main/java/com/murrayc/galaxyzoo/app/QuestionFragment.java:933-999 | writing to a parcel and recreating gives an object equal to the original |
| QuestionFlow.TickedSpec | app/src/main/java/com/murrayc/galaxyzoo/app/QuestionFragment.java:623-642 | the stored checkbox ids are exactly the question's checkboxes that are ticked, in the question's order |
| QuestionFlow.TickedCheckboxes | app/src/main/java/com/murrayc/galaxyzoo/app/QuestionFragment.java:630-638 | the loop collects the ticked checkboxes of the question |
| QuestionFlow.StepAfter | app/src/main/java/com/murrayc/galaxyzoo/app/QuestionFragment.java:562-621 | the walk finishes exactly when the tree has no next question for the answer; it skips exactly when the next question is the hidden Discuss one; otherwise it shows the next question |
| QuestionFlow.WalkFrom | app/src/main/java/com/murrayc/galaxyzoo/app/QuestionFragment.java:562-621 | answers are added on the user's behalf exactly when the first step skips Discuss, each one the Discuss "No", at most two; the recursion diverges exactly when the Discuss "No" leads to the hidden Discuss question again |
| QuestionFlow.DiscussNeverShown | app/src/main/java/com/murrayc/galaxyzoo/app/QuestionFragment.java:604-617 | with the preference off, the Discuss question is never shown, and every answer added on the user's behalf is its "No" (at most two) |
| QuestionFlow.WalkShowsEverything | app/src/main/java/com/murrayc/galaxyzoo/app/QuestionFragment.java:566-621 | with the preference on, the next question is always shown and nothing is added |
| QuestionFlow.SkippedDiscussIsEnough | app/src/main/java/com/murrayc/galaxyzoo/app/QuestionFragment.java:1015-1022 | a classification that ends right after a skipped Discuss question always has enough answers and is saved |
| QuestionFlow.QuestionFragment.constructor | app/src/main/java/com/murrayc/galaxyzoo/app/QuestionFragment.java:118 | a screen starts with an empty classification and nothing handed on |
| QuestionFlow.QuestionFragment.ToggleCheckbox | app/src/main/java/com/murrayc/galaxyzoo/app/QuestionFragment.java:633-634 | a tap flips exactly the tapped checkbox between ticked and not ticked; nothing else changes |
| QuestionFlow.QuestionFragment.StoreAnswer | app/src/main/java/com/murrayc/galaxyzoo/app/QuestionFragment.java:623-642 | appends the answer with the ticked checkboxes, or null when the question has none |
| QuestionFlow.QuestionFragment.ShowNextQuestion | app/src/main/java/com/murrayc/galaxyzoo/app/QuestionFragment.java:562-621 | follows the tree; adds the skipped Discuss "No" answers; abandons with too few answers; saves a fresh copy otherwise; the question id changes only when a question is shown |
| QuestionFlow.QuestionFragment.OnAnswerButtonClicked | app/src/main/java/com/murrayc/galaxyzoo/app/QuestionFragment.java:527-553 | a click for another question changes nothing; otherwise stores the answer, opens the discussion for Discuss "Yes", then walks on: the question id becomes the next question when one is shown and stays the same otherwise, so while a save is pending the same question accepts another click; the preference and the ticked checkboxes are unchanged |
| QuestionFlow.QuestionFragment.WipeClassification | app/src/main/java/com/murrayc/galaxyzoo/app/QuestionFragment.java:644-647 | a new empty classification and no question; the save tasks, preference, ticked checkboxes and discussion count are unchanged |
| QuestionFlow.QuestionFragment.SaveClassificationSync | app/src/main/java/com/murrayc/galaxyzoo/app/QuestionFragment.java:712-797 | nothing happens for the "next" item; for a numeric or empty item id with the done columns present, the whole batch succeeds and the provider ends in SavedState: the answer rows, the checkbox rows and the item marked done |
| QuestionFlow.BuildOps | app/src/main/java/com/murrayc/galaxyzoo/app/QuestionFragment.java:733-780 | the loops build exactly the specified batch |
| QuestionFlow.MarkDonePath | app/src/main/java/com/murrayc/galaxyzoo/app/QuestionFragment.java:771-774 | the item id is appended to the items URI; an empty id adds only a slash, so the path is the items collection |
| QuestionFlow.CheckboxOpsSpec | app/src/main/java/com/murrayc/galaxyzoo/app/QuestionFragment.java:752-764 | one checkbox insert per ticked checkbox, in order, with the answer's sequence number |
| QuestionFlow.AnswerValuesKept | app/src/main/java/com/murrayc/galaxyzoo/app/provider/ItemsContentProvider.java:454-459 | the values of an answer insert name only answers columns, so they are stored exactly as built |
| QuestionFlow.CheckboxValuesKept | app/src/main/java/com/murrayc/galaxyzoo/app/provider/ItemsContentProvider.java:460-465 | the values of a checkbox insert name only checkboxes columns, so they are stored exactly as built |
| QuestionFlow.InsertedRowsAppend | app/src/main/java/com/murrayc/galaxyzoo/app/QuestionFragment.java:733-780 | the rows two joined op lists insert into a table are those of each list, in order |
| QuestionFlow.InsertedRowsAll | app/src/main/java/com/murrayc/galaxyzoo/app/QuestionFragment.java:752-764 | ops that all insert into one table insert their own values, one row each, in order |
| QuestionFlow.CheckboxOpsHaveNoAnswerRows | app/src/main/java/com/murrayc/galaxyzoo/app/QuestionFragment.java:752-764 | checkbox inserts add no answer rows |
| QuestionFlow.AnswerOpsSpec | app/src/main/java/com/murrayc/galaxyzoo/app/QuestionFragment.java:737-766 | one answer gives its own insert first, then one insert per checkbox, and one answer row |
| QuestionFlow.AnswersOpsShape | app/src/main/java/com/murrayc/galaxyzoo/app/QuestionFragment.java:735-768 | one insert per answer and one per ticked checkbox, all into answers or checkboxes |
| QuestionFlow.AnswersOpsRows | app/src/main/java/com/murrayc/galaxyzoo/app/QuestionFragment.java:735-768 | the answer rows carry the answers in order, numbered 0, 1, 2, ... with the item id |
| QuestionFlow.AnswersOpsAnswerRows | app/src/main/java/com/murrayc/galaxyzoo/app/QuestionFragment.java:735-768 | the answer inserts of the batch are exactly one row per answer, numbered in order |
| QuestionFlow.CheckboxRowsCount | app/src/main/java/com/murrayc/galaxyzoo/app/QuestionFragment.java:752-764 | there is one checkbox row per ticked checkbox |
| QuestionFlow.AnswersOpsBoxRows | app/src/main/java/com/murrayc/galaxyzoo/app/QuestionFragment.java:752-764 | the checkbox inserts of the batch are exactly the checkbox rows of the answers, answer by answer, in order |
| QuestionFlow.BatchOpsSpec | app/src/main/java/com/murrayc/galaxyzoo/app/QuestionFragment.java:733-789 | the batch has answers + checkboxes + 1 ops; only inserts come before the last; the last marks the item done, with the time and the favorite flag |
| QuestionFlow.MarkDoneMapped | app/src/main/java/com/murrayc/galaxyzoo/app/provider/ItemsContentProvider.java:247-283 | the done, date and favorite values pass the items translation unchanged |
| QuestionFlow.MarkDoneIsSafe | app/src/main/java/com/murrayc/galaxyzoo/app/provider/ItemsContentProvider.java:927-936 | the mark-done update of a real item is accepted when those columns exist |
| QuestionFlow.AllSafeAt | app/src/main/java/com/murrayc/galaxyzoo/app/QuestionFragment.java:782-794 | in a list of accepted ops, every op and every leading part of the list is accepted |
| QuestionFlow.ApplyInserts | app/src/main/java/com/murrayc/galaxyzoo/app/provider/ItemsContentProvider.java:454-465 | inserts into answers and checkboxes are accepted and append their values to those tables under the next ids, in order, touching nothing else |
| QuestionFlow.AnswersEffect | app/src/main/java/com/murrayc/galaxyzoo/app/QuestionFragment.java:735-768 | the inserts of the batch append the answer rows and the checkbox rows |
| QuestionFlow.MarkDoneStep | app/src/main/java/com/murrayc/galaxyzoo/app/provider/ItemsContentProvider.java:910-936 | the mark-done update is accepted and rewrites the item with that id (every item for an empty id) with the done values, requesting one sync |
| QuestionFlow.ApplyOpsSnoc | app/src/main/java/com/murrayc/galaxyzoo/app/QuestionFragment.java:782-794 | applying one more accepted op applies it to what the earlier ops left |
| QuestionFlow.BatchEffect | app/src/main/java/com/murrayc/galaxyzoo/app/QuestionFragment.java:733-794 | every op of a real item's batch is accepted, and applying them all gives SavedState |
| QuestionFlow.SavedAnswers | app/src/main/java/com/murrayc/galaxyzoo/app/QuestionFragment.java:735-768 | after a save the old answers are untouched, answer i is stored under the i-th fresh id with sequence i and the item id, and there is no other new row |
| QuestionFlow.SavedCheckboxes | app/src/main/java/com/murrayc/galaxyzoo/app/QuestionFragment.java:752-764 | after a save the old checkboxes are untouched, the checkbox rows are stored under fresh consecutive ids, one per ticked checkbox |
| QuestionFlow.SavedItems | app/src/main/java/com/murrayc/galaxyzoo/app/QuestionFragment.java:769-780 | after a save the item has done = true, the time and the favorite flag, with its other columns kept; other items are unchanged; one sync is requested |
| QuestionFlow.EmptyItemIdMarksEveryItem | app/src/main/java/com/murrayc/galaxyzoo/app/QuestionFragment.java:771-774 | with an empty item id the save marks every item done |
| QuestionFlow.ApplyOperation | app/src/main/java/com/murrayc/galaxyzoo/app/QuestionFragment.java:782-794 | an accepted op changes the provider as ApplyOp says; a failed op leaves the tables, and for an update the whole state, unchanged; only an item insert can give null |
| QuestionFlow.ApplyBatch | app/src/main/java/com/murrayc/galaxyzoo/app/QuestionFragment.java:782-794 | ops run in order until the first failure; the ops before it stay applied, so the tables equal the fold ApplyOps over them; the op that stops the batch is not an accepted one; BatchFailed comes only from a null item insert; a batch of accepted ops succeeds and leaves ApplyOps of all of them |

## Left out

- The authority check of a URI, the SQL text itself, sort orders and column projections of cursors: a cursor is the set of row ids it holds.
- `Double.toString(value)` in the `long` overload of `prependToArray` (used for file ids) and in `removeItem`: SQLite compares the text "5.0" equal to the integer id 5 in an INTEGER column, so the model binds the integer id.
- The single-row query, update and delete bind their arguments through the corrected `prependToArray` (see Findings), so the model does not throw where the code as written does when caller arguments are given.
- Deleting the image files on disk in `removeItem`, `notifyChange` and cursor notification URIs: not state of the provider.
- The HTTP client and `SubjectAdder`: their outcomes are parameters.
  - The importer's own file reservations and sync requests are not modelled; only the rows it adds are.
- `requestSync()`: only counted.
- Logging, the UI (views, visibility, `update()`), null checks of the activity and of views, and `AsyncTask` threading.
- The save task's `onPostExecute` is `WipeClassification`; the order in which tasks finish is not modelled.
- Rebuilding the checkbox buttons when a question is shown (QuestionFragment.java:359-373): the new buttons start unticked, whereas the model keeps the ticked set across questions. This differs only when two questions share a checkbox id.
- `abandonItem()` (in a base class that is not part of this model): the click reports `Abandoned` and nothing else happens.
- The `DecisionTree` class is not part of this model. It appears only through the questions, next-question map and Discuss ids the fragment asks of it.
- `SubjectViewerFragment`: not part of this core.
- 64-bit id range: ids are unbounded naturals.
- SQLite type affinity: only integer comparison of stored values is modelled, and a non-text image reference reads as text that is no file URI.
- Parcel reads past the end (Android returns 0 or null) and null list elements: a parcel the writers cannot produce reads as None.
- `ParseFileId` accepts only this provider's own file URIs, whereas `ContentUris.parseId` takes the last segment of any URI.
- An explicit `_id` in inserted values is stored as an ordinary column and does not choose the row id.
- The `c == null` branch of the next-item query: the database always returns a cursor.
- The default `applyBatch` opens no transaction: an op that fails leaves the earlier ops applied, and the model keeps them.
- Item.Columns is not part of this model: the projection maps are assumed to send each public column name to the database column of the same name.
- Queries with a selection: the selection is a predicate on rows, and its SQL syntax errors other than the collection delete's are not modelled.
- QuestionFlow.QuestionFragment.SaveClassificationSync: the final state is stated when the item id is numeric or empty and the done columns exist; for any other id the batch's last update fails after the inserts, and only ApplyBatch's per-op contract describes that.
- Authority: the value of Item.AUTHORITY is not part of this model, so it is a constant without a value.
- QuestionFlow.QuestionFragment.ShowNextQuestion: when the skipped Discuss question leads to itself, the Java recursion never ends; the model stops after one repetition and reports `Diverged`.

## Findings

| source | as written | input that shows it | evidently intended | confidence | as-written member | corrected member |
|---|---|---|---|---|---|---|
| app/src/main/java/com/murrayc/galaxyzoo/app/provider/ItemsContentProvider.java:884-885 | `System.arraycopy(array, 0, result, 1, result.length)` copies one element more than the source array has | selection arguments `["x"]` with id `5` on a single-row query, update or delete | copy `array.length` elements, giving `[id] + arguments` | not executed | UriRouter.PrependToArrayThrowsOnArguments | UriRouter.PrependToArrayIntendedSpec |
| app/src/main/java/com/murrayc/galaxyzoo/app/provider/ItemsContentProvider.java:1166-1174 | a failed `ALTER TABLE` from version 20 reaches `break`, so the tables are kept without `groupId`, although the comment says it falls through to recreating them | upgrade from 20 to 21 where the ALTER fails | a failed ALTER recreates the tables, so the items table always has `groupId` | not executed | ItemsStore.UpgradeAsWrittenLosesGroupColumn | ItemsStore.UpgradeIntendedHasGroupColumn |
