/**
 * The items content provider over its database: four tables (items, files,
 * classification answers, classification checkboxes) with SQLite AUTOINCREMENT ids,
 * the per-URI insert/query/update/delete, the next-item query with its network
 * fallback, the removeItem() cascade and the schema upgrade.
 *
 * Rows are column maps keyed by their _id. An SQL selection is a predicate on a row and
 * the arguments bound to its "?" placeholders. The
 * network, the subject importer and the cache directory are oracles passed in by the
 * caller.
 */
module ItemsStore {
  import opened Common
  import opened UriRouter
  import opened ColumnMap

  /** A table: _id to row. */
  type Rows = map<nat, Row>

  /** What a where clause with "?" placeholders tests of a row, given the bound arguments. */
  type Clause = (Row, seq<string>) -> bool

  /**
   * A caller's selection and selection arguments. A clause of None is a null or empty
   * selection string; arguments of None are a null array.
   */
  datatype Selection = Selection(clause: Option<Clause>, args: Option<seq<string>>)

  /** The arguments as bound: a null array binds nothing. */
  function ArgsOf(args: Option<seq<string>>): seq<string> {
    if args.None? then [] else args.value
  }

  /** The caller's clause, if any, holds of the row with `bound` as its arguments. */
  predicate Holds(clause: Option<Clause>, row: Row, bound: seq<string>) {
    clause.None? || clause.value(row, bound)
  }

  predicate Selects(sel: Selection, row: Row) {
    Holds(sel.clause, row, ArgsOf(sel.args))
  }

  /** The ids of the rows a selection keeps. */
  function Matching(rows: Rows, sel: Selection): set<nat> {
    set k | k in rows && Selects(sel, rows[k])
  }

  /**
   * The rows a single-row URI's where clause keeps: prependIdToSelection() puts "_id = ?"
   * in front of the caller's clause, and the id is bound first, before the caller's
   * arguments (the corrected prependToArray).
   */
  function MatchingById(rows: Rows, sel: Selection, id: string): set<nat>
    requires IsDigits(id)
  {
    var bound := PrependToArrayIntended(sel.args, id);
    set k | k in rows && |bound| > 0 && IsDigits(bound[0]) && k == ParseNat(bound[0]) && Holds(sel.clause, rows[k], bound[1..])
  }

  /** The single-row where clause keeps exactly the selected row with that id. */
  lemma MatchingByIdSpec(rows: Rows, sel: Selection, id: string)
    requires IsDigits(id)
    ensures MatchingById(rows, sel, id) == Matching(rows, sel) * {ParseNat(id)}
  {
    PrependToArrayIntendedSpec(sel.args, id);
  }

  /** The columns of the items table as createTable() creates it (DATABASE_VERSION 21). */
  const ItemsSchema: set<string> := ItemsColumnNames

  /** The items columns of a version-20 database, before groupId was added. */
  const ItemsSchemaV20: set<string> := ItemsSchema - {GroupId}

  const DatabaseVersion := 21

  /** The projection map insert and update use for a table (files have none). */
  function ProjectionFor(t: Table): (pm: ProjectionMap)
    ensures Injective(pm)
  {
    ProjectionMapsInjective();
    match t
    case ItemsTable => ItemsProjectionMap
    case FilesTable => map[]
    case AnswersTable => AnswersProjectionMap
    case CheckboxesTable => CheckboxesProjectionMap
  }

  // ---------------------------------------------------------------------------------
  // The next item (WHERE_CLAUSE_NOT_DONE, ordered by _id, LIMIT 1)

  /** done != 1: an absent done holds its DEFAULT 0; a NULL compares as unknown. */
  predicate NotDone(row: Row) {
    Done in row ==> !row[Done].NullV? && NumericOf(row[Done]) != Some(1)
  }

  /** The three image flags are 1 (their DEFAULT is 0). */
  predicate Downloaded(row: Row) {
    ColumnEquals(row, LocationStandardDownloaded, 1, Some(0))
    && ColumnEquals(row, LocationThumbnailDownloaded, 1, Some(0))
    && ColumnEquals(row, LocationInvertedDownloaded, 1, Some(0))
  }

  /**
   * "done != 1" in SQL: a row that lacks the column holds its DEFAULT 0 and passes; a
   * NULL never passes, since NULL != 1 is unknown; a stored 1 fails and a stored 0 passes.
   */
  lemma NotDoneSpec(row: Row)
    ensures Done !in row ==> NotDone(row)
    ensures Done in row && row[Done].NullV? ==> !NotDone(row)
    ensures Done in row && NumericOf(row[Done]) == Some(1) ==> !NotDone(row)
    ensures Done in row && row[Done] == IntV(0) ==> NotDone(row)
  {
  }

  /**
   * The three "== 1" tests: since the flags default to 0, an image counts as downloaded
   * only when its flag is stored and reads as 1.
   */
  lemma DownloadedSpec(row: Row)
    ensures Downloaded(row) <==>
      (LocationStandardDownloaded in row && NumericOf(row[LocationStandardDownloaded]) == Some(1))
      && (LocationThumbnailDownloaded in row && NumericOf(row[LocationThumbnailDownloaded]) == Some(1))
      && (LocationInvertedDownloaded in row && NumericOf(row[LocationInvertedDownloaded]) == Some(1))
  {
  }

  /** A row the next-item query may return: not classified, images all downloaded, selected. */
  predicate Candidate(row: Row, sel: Selection) {
    NotDone(row) && Downloaded(row) && Selects(sel, row)
  }

  /** `id` is the first candidate in _id order. */
  ghost predicate IsNextItem(items: Rows, sel: Selection, id: nat) {
    id in items && Candidate(items[id], sel)
    && forall k :: k in items && Candidate(items[k], sel) ==> id <= k
  }

  ghost predicate HasCandidate(items: Rows, sel: Selection) {
    exists k :: k in items && Candidate(items[k], sel)
  }

  /** The next item is unique: repeating the query on an unchanged table gives the same row. */
  lemma NextItemUnique(items: Rows, sel: Selection, a: nat, b: nat)
    requires IsNextItem(items, sel, a) && IsNextItem(items, sel, b)
    ensures a == b
  {
  }

  /** A classified item (done = 1) is never the next item, whatever else it holds. */
  lemma DoneItemNeverNext(items: Rows, sel: Selection, id: nat)
    requires id in items && Done in items[id] && NumericOf(items[id][Done]) == Some(1)
    ensures !IsNextItem(items, sel, id)
  {
  }

  /**
   * queryItemNext(): the row with the smallest _id among the candidates, or none (an
   * empty cursor) when there is no candidate.
   */
  method QueryItemNext(items: Rows, sel: Selection) returns (r: Option<nat>)
    ensures r.Some? ==> IsNextItem(items, sel, r.value)
    ensures r.None? <==> !HasCandidate(items, sel)
  {
    r := None;
    var remaining := items.Keys;
    while remaining != {}
      invariant remaining <= items.Keys
      invariant r.Some? ==> r.value in items && r.value !in remaining && Candidate(items[r.value], sel)
      invariant forall k :: k in items && k !in remaining && Candidate(items[k], sel) ==> r.Some? && r.value <= k
      decreases remaining
    {
      var k :| k in remaining;
      if Candidate(items[k], sel) && (r.None? || k < r.value) {
        r := Some(k);
      }
      remaining := remaining - {k};
    }
  }

  /** The outcome of one ZooniverseClient.requestMoreItemsSync(1) call. */
  datatype FetchResult =
    | NoNetwork              // NoNetworkException
    | RequestFailed          // RequestMoreItemsException
    | Subjects(count: nat)   // the subjects returned (possibly none)

  predicate Fetched(f: FetchResult) {
    f.Subjects? && f.count > 0
  }

  const FetchAttempts := 3

  /** Some attempt of the three gets subjects. */
  predicate AnyFetched(net: nat -> FetchResult) {
    Fetched(net(0)) || Fetched(net(1)) || Fetched(net(2))
  }

  /**
   * The retry loop of the next-item query: up to three requests for one subject,
   * stopping at the first that returns any. `net(i)` is what request i gets; both
   * exceptions count as getting nothing.
   */
  method RetryFetch(net: nat -> FetchResult) returns (attempt: Option<nat>, requests: nat)
    ensures attempt.Some? <==> AnyFetched(net)
    ensures attempt.Some? ==>
      attempt.value < FetchAttempts && Fetched(net(attempt.value)) && requests == attempt.value + 1
      && forall i :: 0 <= i < attempt.value ==> !Fetched(net(i))
    ensures attempt.None? ==> requests == FetchAttempts
  {
    attempt := None;
    requests := 0;
    for i := 0 to FetchAttempts
      invariant attempt.None? && requests == i
      invariant forall j :: 0 <= j < i ==> !Fetched(net(j))
    {
      requests := requests + 1;
      if Fetched(net(i)) {
        attempt := Some(i);
        break;
      }
    }
  }

  /**
   * What SubjectAdder.addSubjects(subjects, false) does to the items table: the rows it
   * inserts, and whether it reports success.
   */
  datatype Import = Import(ok: bool, rows: seq<Row>)

  /** `added` appended to `rows` under consecutive ids from `start`. */
  function Appended(rows: Rows, start: nat, added: seq<Row>): Rows
    decreases |added|
  {
    if added == [] then rows
    else Appended(rows, start, added[..|added| - 1])[start + |added| - 1 := added[|added| - 1]]
  }

  /** Appending keeps the old rows and puts each new row at its own id. */
  lemma {:induction false} AppendedSpec(rows: Rows, start: nat, added: seq<Row>)
    requires forall k :: k in rows ==> k < start
    ensures forall k :: k in rows ==> k in Appended(rows, start, added) && Appended(rows, start, added)[k] == rows[k]
    ensures forall k :: start <= k < start + |added| ==> k in Appended(rows, start, added) && Appended(rows, start, added)[k] == added[k - start]
    ensures forall k :: k in Appended(rows, start, added) ==> k in rows || start <= k < start + |added|
    decreases |added|
  {
    if added != [] {
      var n := |added| - 1;
      var front := added[..n];
      AppendedSpec(rows, start, front);
      var before := Appended(rows, start, front);
      assert Appended(rows, start, added) == before[start + n := added[n]];
      forall k | start <= k < start + n
        ensures before[k] == added[k - start]
      {
        assert front[k - start] == added[k - start];
      }
    }
  }

  /** Appending one more row puts it under the next id. */
  lemma AppendedSnoc(rows: Rows, start: nat, added: seq<Row>, row: Row)
    ensures Appended(rows, start, added + [row]) == Appended(rows, start, added)[start + |added| := row]
  {
    assert (added + [row])[..|added|] == added;
  }

  /** The `n` ids from `start` on. */
  function IdsFrom(start: nat, n: nat): (ids: set<nat>)
    ensures |ids| == n
    ensures forall k :: k in ids <==> start <= k < start + n
    decreases n
  {
    if n == 0 then {} else IdsFrom(start, n - 1) + {start + n - 1}
  }

  /** Appending adds exactly one new id per row. */
  lemma AppendedCount(rows: Rows, start: nat, added: seq<Row>)
    requires forall k :: k in rows ==> k < start
    ensures |Appended(rows, start, added).Keys - rows.Keys| == |added|
  {
    var after := Appended(rows, start, added);
    AppendedSpec(rows, start, added);
    var range := IdsFrom(start, |added|);
    forall k
      ensures k in after.Keys - rows.Keys <==> k in range
    {
    }
    assert after.Keys - rows.Keys == range;
  }

  /** AppendedSpec and AppendedCount together. */
  lemma AppendedFacts(rows: Rows, start: nat, added: seq<Row>)
    requires forall k :: k in rows ==> k < start
    ensures var after := Appended(rows, start, added);
      (forall k :: k in rows ==> k in after && after[k] == rows[k])
      && (forall k :: start <= k < start + |added| ==> k in after && after[k] == added[k - start])
      && |after.Keys - rows.Keys| == |added|
  {
    AppendedSpec(rows, start, added);
    AppendedCount(rows, start, added);
  }

  /** What a query returns: the table and the ids of the rows in the cursor. */
  datatype Cursor = Cursor(table: Table, ids: set<nat>)

  // ---------------------------------------------------------------------------------
  // The cascade of removeItem()

  /** Cursor.getString() of a column; a non-text value reads as text that is no file reference. */
  function ColumnText(row: Row, column: string): Option<string> {
    if column !in row then None
    else match row[column]
      case StrV(s) => Some(s)
      case NullV => None
      case _ => Some("")
  }

  /** The columns of PROJECTION_REMOVE_ITEM: the standard, thumbnail and inverted image references. */
  const ImageColumns := [LocationStandardUri, LocationThumbnailUri, LocationInvertedUri]

  /** The three file references of an item (PROJECTION_REMOVE_ITEM); all null if there is no such item. */
  function ImageUris(items: Rows, itemId: nat): (r: seq<Option<string>>)
    ensures |r| == |ImageColumns|
    ensures itemId in items ==> forall j :: 0 <= j < |r| ==> r[j] == ColumnText(items[itemId], ImageColumns[j])
    ensures itemId !in items ==> forall j :: 0 <= j < |r| ==> r[j].None?
  {
    if itemId in items then
      [ColumnText(items[itemId], LocationStandardUri),
       ColumnText(items[itemId], LocationThumbnailUri),
       ColumnText(items[itemId], LocationInvertedUri)]
    else [None, None, None]
  }

  /** The file ids among the first n references. */
  function FileIdsOf(uris: seq<Option<string>>, n: nat): set<nat>
    requires n <= |uris|
  {
    set j | 0 <= j < n && uris[j].Some? && ParseFileId(uris[j].value).Some? :: ParseFileId(uris[j].value).value
  }

  /** Every non-null reference among the first n is a file URI. */
  predicate ReferencesParse(uris: seq<Option<string>>, n: nat)
    requires n <= |uris|
  {
    forall j :: 0 <= j < n && uris[j].Some? ==> ParseFileId(uris[j].value).Some?
  }

  /** The rows whose itemId column is not the item's id (a NULL itemId matches nothing). */
  function WithoutItem(rows: Rows, itemId: nat): (r: Rows)
    ensures r.Keys <= rows.Keys
    ensures forall k :: k in r ==> r[k] == rows[k] && !ColumnEquals(rows[k], ItemId, itemId, None)
    ensures forall k :: k in rows && !ColumnEquals(rows[k], ItemId, itemId, None) ==> k in r
  {
    map k | k in rows && !ColumnEquals(rows[k], ItemId, itemId, None) :: rows[k]
  }

  /** The item's own answers are gone and nobody else's are touched. */
  lemma {:induction false} WithoutItemSpec(rows: Rows, itemId: nat, other: nat)
    requires other != itemId
    ensures forall k :: k in rows && ColumnEquals(rows[k], ItemId, other, None) ==> k in WithoutItem(rows, itemId)
    ensures forall k :: k in WithoutItem(rows, itemId) ==> !ColumnEquals(WithoutItem(rows, itemId)[k], ItemId, itemId, None)
  {
    forall k | k in rows && ColumnEquals(rows[k], ItemId, other, None)
      ensures k in WithoutItem(rows, itemId)
    {
      assert !ColumnEquals(rows[k], ItemId, itemId, None);
    }
  }

  /** The rows in `ids` with `values` written over them. */
  function UpdatedRows(rows: Rows, ids: set<nat>, values: Row): (r: Rows)
    ensures r.Keys == rows.Keys
    ensures forall k :: k in r && k in ids ==> forall c :: c in values ==> c in r[k] && r[k][c] == values[c]
    ensures forall k :: k in r && k in ids ==> forall c :: c in rows[k] && c !in values ==> c in r[k] && r[k][c] == rows[k][c]
    ensures forall k :: k in r && k !in ids ==> r[k] == rows[k]
  {
    map k | k in rows :: if k in ids then rows[k] + values else rows[k]
  }

  /** TextUtils.isEmpty(values.getAsString(SUBJECT_ID)): absent, null or the empty string. */
  predicate SubjectIdMissing(values: Row) {
    SubjectId !in values || values[SubjectId] == NullV || values[SubjectId] == StrV("")
  }

  /** The caller's values with the three file references createFileUrisForImages() adds. */
  function CompletedValues(values: Row, standard: nat, thumbnail: nat, inverted: nat): Row {
    values[LocationStandardUri := StrV(FileUri(standard))]
          [LocationThumbnailUri := StrV(FileUri(thumbnail))]
          [LocationInvertedUri := StrV(FileUri(inverted))]
  }

  /** The translated row of completed values holds the three file references. */
  lemma CompletedRowHoldsReferences(values: Row, standard: nat, thumbnail: nat, inverted: nat)
    ensures var row := Mapped(CompletedValues(values, standard, thumbnail, inverted), ItemsProjectionMap);
      ColumnText(row, LocationStandardUri) == Some(FileUri(standard))
      && ColumnText(row, LocationThumbnailUri) == Some(FileUri(thumbnail))
      && ColumnText(row, LocationInvertedUri) == Some(FileUri(inverted))
  {
    ProjectionMapsInjective();
    var completed := CompletedValues(values, standard, thumbnail, inverted);
    assert Translates(completed, ItemsProjectionMap, LocationStandardUri);
    assert Translates(completed, ItemsProjectionMap, LocationThumbnailUri);
    assert Translates(completed, ItemsProjectionMap, LocationInvertedUri);
  }

  /**
   * An item row as insert() stores it names its three reserved files, so removeItem()
   * deletes exactly those files rows and no error can interrupt it.
   */
  lemma InsertedItemReferencesItsFiles(items: Rows, id: nat, values: Row, standard: nat, thumbnail: nat, inverted: nat)
    requires id in items
    requires items[id] == Mapped(CompletedValues(values, standard, thumbnail, inverted), ItemsProjectionMap)
    ensures ImageUris(items, id) == [Some(FileUri(standard)), Some(FileUri(thumbnail)), Some(FileUri(inverted))]
    ensures ReferencesParse(ImageUris(items, id), 3)
    ensures FileIdsOf(ImageUris(items, id), 3) == {standard, thumbnail, inverted}
  {
    CompletedRowHoldsReferences(values, standard, thumbnail, inverted);
    var uris := ImageUris(items, id);
    ParseFileUri(standard);
    ParseFileUri(thumbnail);
    ParseFileUri(inverted);
    assert standard in FileIdsOf(uris, 3) by { assert ParseFileId(uris[0].value).value == standard; }
    assert thumbnail in FileIdsOf(uris, 3) by { assert ParseFileId(uris[1].value).value == thumbnail; }
    assert inverted in FileIdsOf(uris, 3) by { assert ParseFileId(uris[2].value).value == inverted; }
  }

  // ---------------------------------------------------------------------------------
  // Schema upgrade (DatabaseHelper.onUpgrade)

  datatype UpgradeStep =
    | KeepAll                  // same version: nothing to do
    | AddGroupColumn           // ALTER TABLE items ADD COLUMN groupId succeeded
    | KeepWithoutGroupColumn   // the ALTER failed and the switch case ends
    | Recreate                 // drop the four tables and create them again

  /** onUpgrade() as written: a failed ALTER from version 20 leaves the tables as they were. */
  function UpgradePlan(oldVersion: int, newVersion: int, alterOk: bool): (r: UpgradeStep)
    ensures r == KeepAll <==> oldVersion == newVersion
    ensures r == Recreate <==> oldVersion != newVersion && oldVersion != 20
  {
    if oldVersion == newVersion then KeepAll
    else if oldVersion == 20 then (if alterOk then AddGroupColumn else KeepWithoutGroupColumn)
    else Recreate
  }

  /** onUpgrade() as its comment intends: a failed ALTER falls through to recreating the tables. */
  function UpgradePlanIntended(oldVersion: int, newVersion: int, alterOk: bool): (r: UpgradeStep)
    ensures r != KeepWithoutGroupColumn
    ensures r == KeepAll <==> oldVersion == newVersion
  {
    if oldVersion == newVersion then KeepAll
    else if oldVersion == 20 && alterOk then AddGroupColumn
    else Recreate
  }

  /** The items columns after a step. */
  function ColumnsAfter(step: UpgradeStep, columns: set<string>): set<string> {
    match step
    case KeepAll | KeepWithoutGroupColumn => columns
    case AddGroupColumn => columns + {GroupId}
    case Recreate => ItemsSchema
  }

  /** Whether a step drops every row. */
  predicate Wipes(step: UpgradeStep) {
    step == Recreate
  }

  /** The intended upgrade always ends with a groupId column, and keeps data when it can. */
  lemma UpgradeIntendedHasGroupColumn(oldVersion: int, newVersion: int, alterOk: bool, columns: set<string>)
    ensures oldVersion != newVersion ==> GroupId in ColumnsAfter(UpgradePlanIntended(oldVersion, newVersion, alterOk), columns)
    ensures oldVersion == 20 && newVersion != 20 && alterOk ==> !Wipes(UpgradePlanIntended(oldVersion, newVersion, alterOk))
    ensures UpgradePlanIntended(oldVersion, newVersion, alterOk) != UpgradePlan(oldVersion, newVersion, alterOk) ==>
      oldVersion == 20 && newVersion != 20 && !alterOk
  {
  }

  /** As written, a version-20 database whose ALTER fails stays without the groupId column. */
  lemma UpgradeAsWrittenLosesGroupColumn()
    ensures UpgradePlan(20, DatabaseVersion, false) == KeepWithoutGroupColumn
    ensures GroupId !in ColumnsAfter(UpgradePlan(20, DatabaseVersion, false), ItemsSchemaV20)
    ensures GroupId in ColumnsAfter(UpgradePlanIntended(20, DatabaseVersion, false), ItemsSchemaV20)
  {
  }

  // ---------------------------------------------------------------------------------
  // The provider

  /**
   * The cache directory's answer to createCacheFile() for one file id. Outside a test
   * resolver the IOException and UnsupportedOperationException of createNewFile() are
   * rethrown; insert() catches only the IOException.
   */
  datatype CacheFile =
    | CachePath(path: string)   // the absolute path of the created (or reused) file; "" for null
    | CacheIoError              // IOException
    | CacheUnsupported          // UnsupportedOperationException
    | CacheSecurityError        // SecurityException

  /**
   * What one file reservation gives insert(): whether it produced a file URI, or the
   * exception that escapes insert().
   */
  function ReservationOutcome(c: CacheFile): Result<bool> {
    match c
    case CachePath(p) => Ok(p != "")
    case CacheIoError => Ok(false)
    case CacheUnsupported => Err(Unsupported)
    case CacheSecurityError => Err(Security)
  }

  /**
   * A snapshot of everything the provider holds: the four tables, their AUTOINCREMENT
   * counters, the items table's columns and the number of sync requests.
   */
  datatype Store = Store(
    items: Rows, files: Rows, answers: Rows, checkboxes: Rows,
    nextItemId: nat, nextFileId: nat, nextAnswerId: nat, nextCheckboxId: nat,
    itemColumns: set<string>, syncRequests: nat)

  function TableRows(s: Store, t: Table): Rows {
    match t
    case ItemsTable => s.items
    case FilesTable => s.files
    case AnswersTable => s.answers
    case CheckboxesTable => s.checkboxes
  }

  /** The id the next insert into a table gets. */
  function NextId(s: Store, t: Table): nat {
    match t
    case ItemsTable => s.nextItemId
    case FilesTable => s.nextFileId
    case AnswersTable => s.nextAnswerId
    case CheckboxesTable => s.nextCheckboxId
  }

  /** A table's rows replaced, everything else kept. */
  function WithRows(s: Store, t: Table, rows: Rows): (r: Store)
    ensures r.itemColumns == s.itemColumns && r.syncRequests == s.syncRequests
  {
    match t
    case ItemsTable => s.(items := rows)
    case FilesTable => s.(files := rows)
    case AnswersTable => s.(answers := rows)
    case CheckboxesTable => s.(checkboxes := rows)
  }

  /** A row inserted under the table's next id, and the counter moved past it. */
  function WithRow(s: Store, t: Table, row: Row): (r: Store)
    ensures r.itemColumns == s.itemColumns && r.syncRequests == s.syncRequests
  {
    var id := NextId(s, t);
    match t
    case ItemsTable => s.(items := s.items[id := row], nextItemId := id + 1)
    case FilesTable => s.(files := s.files[id := row], nextFileId := id + 1)
    case AnswersTable => s.(answers := s.answers[id := row], nextAnswerId := id + 1)
    case CheckboxesTable => s.(checkboxes := s.checkboxes[id := row], nextCheckboxId := id + 1)
  }

  /** A successful update: the rows in `ids` rewritten, and a sync requested for items. */
  function WithUpdate(s: Store, t: Table, ids: set<nat>, mapped: Row): (r: Store)
    ensures r.itemColumns == s.itemColumns
  {
    var written := WithRows(s, t, UpdatedRows(TableRows(s, t), ids, mapped));
    if t == ItemsTable then written.(syncRequests := s.syncRequests + 1) else written
  }

  /** A null selection with null arguments. */
  const NoSelection := Selection(None, None)

  /** No selection keeps every row. */
  lemma MatchingAll(rows: Rows)
    ensures Matching(rows, NoSelection) == rows.Keys
  {
  }

  /** All three file reservations gave a file URI, so the item row is written. */
  predicate FilesReady(reserved: seq<nat>, cache: nat -> CacheFile) {
    |reserved| == 3 && ReservationOutcome(cache(reserved[2])) == Ok(true)
  }

  class ItemsContentProvider {
    var items: Rows
    var files: Rows
    var answers: Rows
    var checkboxes: Rows
    /** The AUTOINCREMENT counters: the id the next insert into each table gets. */
    var nextItemId: nat
    var nextFileId: nat
    var nextAnswerId: nat
    var nextCheckboxId: nat
    /** The columns the items table has. */
    var itemColumns: set<string>
    /** How many times requestSync() was called. */
    var syncRequests: nat

    /** Every id in a table is below that table's counter, so new ids are never reused. */
    ghost predicate Valid()
      reads this
    {
      (forall k :: k in items ==> k < nextItemId)
      && (forall k :: k in files ==> k < nextFileId)
      && (forall k :: k in answers ==> k < nextAnswerId)
      && (forall k :: k in checkboxes ==> k < nextCheckboxId)
    }

    /** onCreate(): createTable() makes the four tables, empty. */
    constructor ()
      ensures Valid()
      ensures items == map[] && files == map[] && answers == map[] && checkboxes == map[]
      ensures itemColumns == ItemsSchema && syncRequests == 0
    {
      items, files, answers, checkboxes := map[], map[], map[], map[];
      nextItemId, nextFileId, nextAnswerId, nextCheckboxId := 1, 1, 1, 1;
      itemColumns := ItemsSchema;
      syncRequests := 0;
    }

    function State(): Store
      reads this
    {
      Store(items, files, answers, checkboxes, nextItemId, nextFileId, nextAnswerId, nextCheckboxId,
            itemColumns, syncRequests)
    }

    function RowsOf(t: Table): Rows
      reads this
    {
      TableRows(State(), t)
    }

    /** db.insertOrThrow(): the row gets the next AUTOINCREMENT id of its table. */
    method InsertRow(t: Table, row: Row) returns (id: nat)
      requires Valid()
      modifies this
      ensures Valid()
      ensures id !in old(RowsOf(t)) && RowsOf(t) == old(RowsOf(t))[id := row]
      ensures forall u :: u != t ==> RowsOf(u) == old(RowsOf(u))
      ensures t != ItemsTable ==> items == old(items) && nextItemId == old(nextItemId)
      ensures t != FilesTable ==> files == old(files)
      ensures t != AnswersTable ==> answers == old(answers)
      ensures t != CheckboxesTable ==> checkboxes == old(checkboxes)
      ensures t == ItemsTable ==> id == old(nextItemId) && nextItemId == old(nextItemId) + 1
      ensures itemColumns == old(itemColumns) && syncRequests == old(syncRequests)
      ensures id == NextId(old(State()), t) && State() == WithRow(old(State()), t, row)
    {
      match t
      case ItemsTable =>
        id := nextItemId;
        items := items[id := row];
        nextItemId := nextItemId + 1;
      case FilesTable =>
        id := nextFileId;
        files := files[id := row];
        nextFileId := nextFileId + 1;
      case AnswersTable =>
        id := nextAnswerId;
        answers := answers[id := row];
        nextAnswerId := nextAnswerId + 1;
      case CheckboxesTable =>
        id := nextCheckboxId;
        checkboxes := checkboxes[id := row];
        nextCheckboxId := nextCheckboxId + 1;
    }

    /** Replace a table's rows by a subset of them, possibly rewritten. */
    method SetRows(t: Table, rows: Rows)
      requires Valid() && rows.Keys <= RowsOf(t).Keys
      modifies this
      ensures Valid()
      ensures RowsOf(t) == rows
      ensures forall u :: u != t ==> RowsOf(u) == old(RowsOf(u))
      ensures t != ItemsTable ==> items == old(items)
      ensures t != FilesTable ==> files == old(files)
      ensures t != AnswersTable ==> answers == old(answers)
      ensures t != CheckboxesTable ==> checkboxes == old(checkboxes)
      ensures itemColumns == old(itemColumns) && syncRequests == old(syncRequests)
      ensures State() == WithRows(old(State()), t, rows)
    {
      match t
      case ItemsTable => items := rows;
      case FilesTable => files := rows;
      case AnswersTable => answers := rows;
      case CheckboxesTable => checkboxes := rows;
    }

    /**
     * insertMappedValues(): translate the column names and insert. An SQLException (here:
     * a column the items table lacks) is caught and gives null.
     */
    method InsertMappedValues(t: Table, values: Row) returns (id: Option<nat>)
      requires Valid() && t != FilesTable
      modifies this
      ensures Valid()
      ensures var mapped := Mapped(values, ProjectionFor(t));
        if t == ItemsTable && !(mapped.Keys <= itemColumns) then
          id.None? && RowsOf(t) == old(RowsOf(t))
        else
          id.Some? && id.value !in old(RowsOf(t)) && RowsOf(t) == old(RowsOf(t))[id.value := mapped]
      ensures forall u :: u != t ==> RowsOf(u) == old(RowsOf(u))
      ensures t != ItemsTable ==> items == old(items)
      ensures files == old(files)
      ensures t != AnswersTable ==> answers == old(answers)
      ensures t != CheckboxesTable ==> checkboxes == old(checkboxes)
      ensures itemColumns == old(itemColumns) && syncRequests == old(syncRequests)
      ensures var mapped := Mapped(values, ProjectionFor(t));
        if t == ItemsTable && !(mapped.Keys <= itemColumns) then State() == old(State())
        else id == Some(NextId(old(State()), t)) && State() == WithRow(old(State()), t, mapped)
    {
      var mapped := GetMappedContentValues(values, ProjectionFor(t));
      if t == ItemsTable && !(mapped.Keys <= itemColumns) {
        id := None;
      } else {
        var rowId := InsertRow(t, mapped);
        id := Some(rowId);
      }
    }

    /**
     * createFileUri(): reserve a files row, then ask the cache directory for the file. A
     * null or empty path gives null and leaves the reserved row without _data; an
     * IOException also ends in null (insert() catches it); a SecurityException or an
     * UnsupportedOperationException escapes, with the row already reserved.
     */
    method CreateFileUri(cache: nat -> CacheFile) returns (r: Result<Option<nat>>, fileId: nat)
      requires Valid()
      modifies this
      ensures Valid()
      ensures fileId !in old(files)
      ensures files == old(files)[fileId :=
        if cache(fileId).CachePath? && cache(fileId).path != "" then map[FileData := StrV(cache(fileId).path)] else map[]]
      ensures r == match cache(fileId)
        case CachePath(p) => Ok(if p != "" then Some(fileId) else None)
        case CacheIoError => Ok(None)
        case CacheUnsupported => Err(Unsupported)
        case CacheSecurityError => Err(Security)
      ensures items == old(items) && answers == old(answers) && checkboxes == old(checkboxes)
      ensures itemColumns == old(itemColumns) && syncRequests == old(syncRequests)
    {
      fileId := InsertRow(FilesTable, map[]);
      match cache(fileId)
      case CacheSecurityError =>
        r := Err(Security);
      case CacheUnsupported =>
        r := Err(Unsupported);
      case CacheIoError =>
        r := Ok(None);
      case CachePath(p) =>
        if p == "" {
          r := Ok(None);
        } else {
          files := files[fileId := map[FileData := StrV(p)]];
          r := Ok(Some(fileId));
        }
    }

    /**
     * createFileUrisForImages(): three file reservations, for the standard, thumbnail and
     * inverted images, stopping at the first that fails. On success the caller's values
     * get the three file references.
     */
    method CreateFileUrisForImages(values: Row, cache: nat -> CacheFile)
      returns (r: Result<Option<Row>>, reserved: seq<nat>)
      requires Valid()
      modifies this
      ensures Valid()
      ensures 1 <= |reserved| <= 3
      ensures forall i :: 0 <= i < |reserved| ==> reserved[i] !in old(files) && reserved[i] in files
      ensures forall i, j :: 0 <= i < j < |reserved| ==> reserved[i] != reserved[j]
      ensures forall k :: k in files <==> k in old(files) || k in reserved
      ensures forall k :: k in old(files) ==> files[k] == old(files)[k]
      ensures r.Ok? && r.value.Some? ==>
        |reserved| == 3 && r.value.value == CompletedValues(values, reserved[0], reserved[1], reserved[2])
        && forall i :: 0 <= i < 3 ==> FileData in files[reserved[i]]
      ensures forall i :: 0 <= i < |reserved| - 1 ==> ReservationOutcome(cache(reserved[i])) == Ok(true)
      ensures var last := ReservationOutcome(cache(reserved[|reserved| - 1]));
        (r.Err? <==> last.Err?) && (r.Err? ==> r.error == last.error)
        && (r.Ok? && r.value.Some? <==> |reserved| == 3 && last == Ok(true))
      ensures items == old(items) && answers == old(answers) && checkboxes == old(checkboxes)
      ensures itemColumns == old(itemColumns) && syncRequests == old(syncRequests)
    {
      var standard, thumbnail, inverted: Result<Option<nat>>;
      var f0, f1, f2: nat;
      standard, f0 := CreateFileUri(cache);
      reserved := [f0];
      if standard.Err? || standard.value.None? {
        r := if standard.Err? then Err(standard.error) else Ok(None);
        return;
      }
      thumbnail, f1 := CreateFileUri(cache);
      reserved := reserved + [f1];
      if thumbnail.Err? || thumbnail.value.None? {
        r := if thumbnail.Err? then Err(thumbnail.error) else Ok(None);
        return;
      }
      inverted, f2 := CreateFileUri(cache);
      reserved := reserved + [f2];
      if inverted.Err? || inverted.value.None? {
        r := if inverted.Err? then Err(inverted.error) else Ok(None);
        return;
      }
      r := Ok(Some(CompletedValues(values, f0, f1, f2)));
    }

    /**
     * The items case of insert(): a subject id is required, then three file
     * reservations; a reservation that fails abandons the item (the files rows already
     * reserved stay) and gives the null the provider returns. Otherwise the completed
     * values are inserted and a sync is requested.
     */
    method InsertItem(values: Row, cache: nat -> CacheFile) returns (r: Result<Option<nat>>, reserved: seq<nat>)
      requires Valid()
      modifies this
      ensures Valid()
      ensures SubjectIdMissing(values) ==> r == Err(IllegalArgument) && reserved == [] && files == old(files)
      ensures r.Err? ==> r.error == IllegalArgument || r.error == Security || r.error == Unsupported
      ensures !SubjectIdMissing(values) ==>
        1 <= |reserved| <= 3
        && (forall i :: 0 <= i < |reserved| - 1 ==> ReservationOutcome(cache(reserved[i])) == Ok(true))
        && var last := ReservationOutcome(cache(reserved[|reserved| - 1]));
        (r.Err? <==> last.Err?) && (r.Err? ==> r.error == last.error)
      ensures r.Err? || r.value.None? ==> items == old(items)
      ensures syncRequests == old(syncRequests) + (if FilesReady(reserved, cache) then 1 else 0)
      ensures r.Ok? && r.value.Some? ==>
        |reserved| == 3 && r.value.value !in old(items)
        && items == old(items)[r.value.value :=
             Mapped(CompletedValues(values, reserved[0], reserved[1], reserved[2]), ItemsProjectionMap)]
        && (forall i :: 0 <= i < 3 ==> reserved[i] !in old(files) && reserved[i] in files)
        && syncRequests == old(syncRequests) + 1
      ensures forall i :: 0 <= i < |reserved| ==> reserved[i] !in old(files) && reserved[i] in files
      ensures forall k :: k in files <==> k in old(files) || k in reserved
      ensures answers == old(answers) && checkboxes == old(checkboxes) && itemColumns == old(itemColumns)
    {
      reserved := [];
      if SubjectIdMissing(values) {
        r := Err(IllegalArgument);
        return;
      }
      var complete;
      complete, reserved := CreateFileUrisForImages(values, cache);
      if complete.Err? {
        r := Err(complete.error);
        return;
      }
      if complete.value.None? {
        r := Ok(None);
        return;
      }
      var id := InsertMappedValues(ItemsTable, complete.value.value);
      syncRequests := syncRequests + 1;
      r := Ok(id);
    }

    /**
     * insert(): items go through InsertItem; answers and checkboxes are translated and
     * inserted as they are. The result is the new row's id, or None for null.
     */
    method Insert(path: seq<string>, values: Row, cache: nat -> CacheFile)
      returns (r: Result<Option<nat>>, reserved: seq<nat>)
      requires Valid()
      modifies this
      ensures Valid()
      ensures InsertRoute(Match(path)).Err? ==>
        r == Err(IllegalArgument) && reserved == [] && items == old(items) && files == old(files)
        && answers == old(answers) && checkboxes == old(checkboxes)
      ensures InsertRoute(Match(path)) == Ok(ItemsTable) ==>
        (SubjectIdMissing(values) ==> r == Err(IllegalArgument) && files == old(files))
        && (r.Err? || r.value.None? ==> items == old(items))
        && (r.Ok? && r.value.Some? ==>
              |reserved| == 3 && r.value.value !in old(items)
              && items == old(items)[r.value.value :=
                   Mapped(CompletedValues(values, reserved[0], reserved[1], reserved[2]), ItemsProjectionMap)]
              && syncRequests == old(syncRequests) + 1)
        && (r.Err? ==> r.error == IllegalArgument || r.error == Security || r.error == Unsupported)
        && syncRequests == old(syncRequests) + (if FilesReady(reserved, cache) then 1 else 0)
        && answers == old(answers) && checkboxes == old(checkboxes)
      ensures InsertRoute(Match(path)).Ok? && InsertRoute(Match(path)).value != ItemsTable ==>
        var t := InsertRoute(Match(path)).value;
        r.Ok? && r.value.Some? && reserved == [] && files == old(files) && items == old(items)
        && r.value.value !in old(RowsOf(t))
        && RowsOf(t) == old(RowsOf(t))[r.value.value := Mapped(values, ProjectionFor(t))]
      ensures InsertRoute(Match(path)) != Ok(ItemsTable) ==> syncRequests == old(syncRequests)
      ensures InsertRoute(Match(path)).Ok? && InsertRoute(Match(path)).value != ItemsTable ==>
        var t := InsertRoute(Match(path)).value;
        r == Ok(Some(NextId(old(State()), t))) && State() == WithRow(old(State()), t, Mapped(values, ProjectionFor(t)))
      ensures itemColumns == old(itemColumns)
    {
      reserved := [];
      var route := InsertRoute(Match(path));
      if route.Err? {
        r := Err(IllegalArgument);
        return;
      }
      var t := route.value;
      if t == ItemsTable {
        r, reserved := InsertItem(values, cache);
      } else {
        var id := InsertMappedValues(t, values);
        r := Ok(id);
      }
    }

    /** Append the rows an import inserts, under fresh consecutive ids. */
    method InsertImported(rows: seq<Row>)
      requires Valid()
      modifies this
      ensures Valid()
      ensures items == Appended(old(items), old(nextItemId), rows)
      ensures files == old(files) && answers == old(answers) && checkboxes == old(checkboxes)
      ensures itemColumns == old(itemColumns) && syncRequests == old(syncRequests)
    {
      var i := 0;
      while i < |rows|
        invariant 0 <= i <= |rows|
        invariant Valid()
        invariant nextItemId == old(nextItemId) + i
        invariant items == Appended(old(items), old(nextItemId), rows[..i])
        invariant files == old(files) && answers == old(answers) && checkboxes == old(checkboxes)
        invariant itemColumns == old(itemColumns) && syncRequests == old(syncRequests)
      {
        assert rows[..i + 1][..i] == rows[..i];
        var id := InsertRow(ItemsTable, rows[i]);
        i := i + 1;
      }
      assert rows[..|rows|] == rows;
    }

    /**
     * query(): the rows a URI names. A single-row URI restricts the caller's selection to
     * its id, binding the id before the caller's arguments. The next-item URI asks the
     * server for one more subject when no item is ready, imports it and queries again;
     * when that fails the (empty) first answer is returned and no sync is requested.
     */
    method Query(path: seq<string>, sel: Selection,
                 net: nat -> FetchResult, importer: Import)
      returns (r: Result<Cursor>, requests: nat)
      requires Valid()
      modifies this
      ensures Valid()
      ensures QueryRoute(Match(path)).Err? ==> r == Err(IllegalArgument)
      ensures QueryRoute(Match(path)) == Ok(NextItem) ==> r.Ok? && r.value.table == ItemsTable && |r.value.ids| <= 1
      ensures !(QueryRoute(Match(path)) == Ok(NextItem) && !HasCandidate(old(items), sel) && AnyFetched(net)) ==>
        items == old(items) && requests == (if QueryRoute(Match(path)) == Ok(NextItem) && !HasCandidate(old(items), sel) then FetchAttempts else 0)
      ensures files == old(files) && answers == old(answers) && checkboxes == old(checkboxes)
      ensures itemColumns == old(itemColumns)
      // every read-only route
      ensures QueryRoute(Match(path)).Ok? && QueryRoute(Match(path)).value.AllRows? ==>
        var t := QueryRoute(Match(path)).value.table;
        r == Ok(Cursor(t, Matching(RowsOf(t), sel))) && syncRequests == old(syncRequests)
      ensures QueryRoute(Match(path)).Ok? && QueryRoute(Match(path)).value.RowById? ==>
        var t := QueryRoute(Match(path)).value.table;
        syncRequests == old(syncRequests) && r == Ok(Cursor(t, Matching(RowsOf(t), sel) * {ParseNat(path[1])}))
      // the next item
      ensures QueryRoute(Match(path)) == Ok(NextItem) && HasCandidate(old(items), sel) ==>
        syncRequests == old(syncRequests) + 1 && exists id :: r.value.ids == {id} && IsNextItem(items, sel, id)
      ensures QueryRoute(Match(path)) == Ok(NextItem) && !HasCandidate(old(items), sel) ==>
        requests <= FetchAttempts
        && items == (if AnyFetched(net) then Appended(old(items), old(nextItemId), importer.rows) else old(items))
        && if AnyFetched(net) && importer.ok then
             syncRequests == old(syncRequests) + 1
             && (r.value.ids == {} <==> !HasCandidate(items, sel))
             && forall id :: id in r.value.ids ==> IsNextItem(items, sel, id)
           else
             syncRequests == old(syncRequests) && r.value.ids == {}
    {
      requests := 0;
      var route := QueryRoute(Match(path));
      if route.Err? {
        r := Err(IllegalArgument);
        return;
      }
      match route.value
      case AllRows(t) =>
        r := Ok(Cursor(t, Matching(RowsOf(t), sel)));
      case RowById(t) =>
        var id := ParseContentUri(path);
        MatchingByIdSpec(RowsOf(t), sel, id.value);
        r := Ok(Cursor(t, MatchingById(RowsOf(t), sel, id.value)));
      case NextItem =>
        var first := QueryItemNext(items, sel);
        if first.None? {
          var attempt;
          attempt, requests := RetryFetch(net);
          var found := false;
          if attempt.Some? {
            InsertImported(importer.rows);
            found := importer.ok;
          }
          if !found {
            r := Ok(Cursor(ItemsTable, {}));
            return;
          }
          first := QueryItemNext(items, sel);
        }
        syncRequests := syncRequests + 1;
        r := Ok(Cursor(ItemsTable, if first.Some? then {first.value} else {}));
    }

    /**
     * updateMappedValues(): translate the column names and write them over the rows in
     * `ids`, reporting how many there were. SQLiteDatabase.update refuses an empty set of
     * values; the items table refuses a column it lacks.
     */
    method UpdateMappedValues(t: Table, values: Row, ids: set<nat>) returns (r: Result<nat>)
      requires Valid() && t != FilesTable && ids <= RowsOf(t).Keys
      modifies this
      ensures Valid()
      ensures var mapped := Mapped(values, ProjectionFor(t));
        if mapped == map[] then r == Err(IllegalArgument) && RowsOf(t) == old(RowsOf(t))
        else if t == ItemsTable && !(mapped.Keys <= itemColumns) then r == Err(SqlError) && RowsOf(t) == old(RowsOf(t))
        else r == Ok(|ids|) && RowsOf(t) == UpdatedRows(old(RowsOf(t)), ids, mapped)
      ensures t != ItemsTable ==> items == old(items)
      ensures files == old(files)
      ensures t != AnswersTable ==> answers == old(answers)
      ensures t != CheckboxesTable ==> checkboxes == old(checkboxes)
      ensures itemColumns == old(itemColumns) && syncRequests == old(syncRequests)
      ensures r.Err? ==> State() == old(State())
      ensures r.Ok? ==>
        State() == WithRows(old(State()), t, UpdatedRows(old(RowsOf(t)), ids, Mapped(values, ProjectionFor(t))))
    {
      var mapped := GetMappedContentValues(values, ProjectionFor(t));
      if mapped == map[] {
        r := Err(IllegalArgument);
      } else if t == ItemsTable && !(mapped.Keys <= itemColumns) {
        r := Err(SqlError);
      } else {
        SetRows(t, UpdatedRows(RowsOf(t), ids, mapped));
        r := Ok(|ids|);
      }
    }

    /**
     * update(): the rows a collection URI's selection keeps, or the selected row with the
     * single-row URI's id, get the values. Writes to items request a sync.
     */
    method Update(path: seq<string>, values: Row, sel: Selection)
      returns (r: Result<nat>)
      requires Valid()
      modifies this
      ensures Valid()
      ensures WriteRoute(Match(path)).Err? ==> r == Err(IllegalArgument)
      ensures r.Err? ==> items == old(items) && answers == old(answers) && checkboxes == old(checkboxes)
      ensures files == old(files) && itemColumns == old(itemColumns)
      ensures WriteRoute(Match(path)).Ok? ==>
        var target := WriteRoute(Match(path)).value;
        var t := target.table;
        var mapped := Mapped(values, ProjectionFor(t));
        var ids := if target.RowById? then Matching(old(RowsOf(t)), sel) * {ParseNat(path[1])}
                   else Matching(old(RowsOf(t)), sel);
        if mapped == map[] then r == Err(IllegalArgument)
        else if t == ItemsTable && !(mapped.Keys <= itemColumns) then r == Err(SqlError)
        else r == Ok(|ids|) && RowsOf(t) == UpdatedRows(old(RowsOf(t)), ids, mapped)
      ensures r.Ok? && (WriteRoute(Match(path)) == Ok(AllRows(ItemsTable)) || WriteRoute(Match(path)) == Ok(RowById(ItemsTable))) ==>
        syncRequests == old(syncRequests) + 1
      ensures r.Err? || (WriteRoute(Match(path)).Ok? && WriteRoute(Match(path)).value.table != ItemsTable) ==>
        syncRequests == old(syncRequests)
      ensures r.Err? ==> State() == old(State())
      ensures r.Ok? ==>
        var target := WriteRoute(Match(path)).value;
        var t := target.table;
        var ids := if target.RowById? then Matching(old(RowsOf(t)), sel) * {ParseNat(path[1])}
                   else Matching(old(RowsOf(t)), sel);
        State() == WithUpdate(old(State()), t, ids, Mapped(values, ProjectionFor(t)))
    {
      var route := WriteRoute(Match(path));
      if route.Err? {
        r := Err(IllegalArgument);
        return;
      }
      var target := route.value;
      var t := target.table;
      var ids := Matching(RowsOf(t), sel);
      if target.RowById? {
        var id := ParseContentUri(path);
        MatchingByIdSpec(RowsOf(t), sel, id.value);
        ids := MatchingById(RowsOf(t), sel, id.value);
      }
      r := UpdateMappedValues(t, values, ids);
      if r.Ok? && t == ItemsTable {
        syncRequests := syncRequests + 1;
      }
    }

    /**
     * removeItem(): delete the item's files rows, then its answers and checkboxes, then
     * the item. A stored reference that is not a file URI makes ContentUris.parseId throw
     * part-way, after the earlier files rows are gone.
     */
    method RemoveItem(itemId: nat) returns (r: Result<()>)
      requires Valid()
      modifies this
      ensures Valid()
      ensures r.Ok? <==> ReferencesParse(ImageUris(old(items), itemId), 3)
      ensures r.Ok? ==>
        files == old(files) - FileIdsOf(ImageUris(old(items), itemId), 3)
        && answers == WithoutItem(old(answers), itemId)
        && checkboxes == WithoutItem(old(checkboxes), itemId)
        && items == old(items) - {itemId}
      ensures r.Err? ==>
        r.error == NumberFormat && files.Keys <= old(files).Keys
        && items == old(items) && answers == old(answers) && checkboxes == old(checkboxes)
      ensures itemColumns == old(itemColumns) && syncRequests == old(syncRequests)
    {
      var uris := ImageUris(items, itemId);
      var i := 0;
      while i < 3
        invariant 0 <= i <= 3
        invariant Valid()
        invariant ReferencesParse(uris, i)
        invariant files == old(files) - FileIdsOf(uris, i)
        invariant items == old(items) && answers == old(answers) && checkboxes == old(checkboxes)
        invariant itemColumns == old(itemColumns) && syncRequests == old(syncRequests)
      {
        if uris[i].Some? {
          var fileId := ParseFileId(uris[i].value);
          if fileId.None? {
            r := Err(NumberFormat);
            return;
          }
          assert FileIdsOf(uris, i + 1) == FileIdsOf(uris, i) + {fileId.value};
          files := files - {fileId.value};
        } else {
          assert FileIdsOf(uris, i + 1) == FileIdsOf(uris, i);
        }
        i := i + 1;
      }
      answers := WithoutItem(answers, itemId);
      checkboxes := WithoutItem(checkboxes, itemId);
      items := items - {itemId};
      r := Ok(());
    }

    /**
     * delete(): a collection URI deletes every row when there is no selection; with one,
     * the where clause it builds starts with " AND (" and SQLite rejects it. The single
     * item URI runs removeItem() and always reports one row; the other single-row URIs
     * delete the selected row with that id.
     */
    method Delete(path: seq<string>, sel: Selection) returns (r: Result<nat>)
      requires Valid()
      modifies this
      ensures Valid()
      ensures WriteRoute(Match(path)).Err? ==> r == Err(IllegalArgument)
      ensures itemColumns == old(itemColumns) && syncRequests == old(syncRequests)
      ensures WriteRoute(Match(path)).Ok? && WriteRoute(Match(path)).value.AllRows? ==>
        var t := WriteRoute(Match(path)).value.table;
        if sel.clause.Some? then r == Err(SqlError) && RowsOf(t) == old(RowsOf(t))
        else r == Ok(|old(RowsOf(t))|) && RowsOf(t) == map[]
      ensures WriteRoute(Match(path)) == Ok(RowById(ItemsTable)) ==>
        var itemId := ParseNat(path[1]);
        (r.Ok? <==> ReferencesParse(ImageUris(old(items), itemId), 3))
        && (r.Ok? ==> r.value == 1 && items == old(items) - {itemId}
                      && files == old(files) - FileIdsOf(ImageUris(old(items), itemId), 3)
                      && answers == WithoutItem(old(answers), itemId)
                      && checkboxes == WithoutItem(old(checkboxes), itemId))
      ensures WriteRoute(Match(path)).Ok? && WriteRoute(Match(path)).value.RowById?
              && WriteRoute(Match(path)).value.table != ItemsTable ==>
        var t := WriteRoute(Match(path)).value.table;
        var ids := Matching(old(RowsOf(t)), sel) * {ParseNat(path[1])};
        r == Ok(|ids|) && RowsOf(t) == old(RowsOf(t)) - ids
      ensures WriteRoute(Match(path)).Ok? && WriteRoute(Match(path)) != Ok(RowById(ItemsTable)) ==>
        files == old(files) && forall u :: u != WriteRoute(Match(path)).value.table ==> RowsOf(u) == old(RowsOf(u))
    {
      var route := WriteRoute(Match(path));
      if route.Err? {
        r := Err(IllegalArgument);
        return;
      }
      match route.value
      case AllRows(t) =>
        if sel.clause.Some? {
          r := Err(SqlError);
        } else {
          r := Ok(|RowsOf(t)|);
          SetRows(t, map[]);
        }
      case RowById(t) =>
        var id := ParseContentUri(path);
        if t == ItemsTable {
          var removed := RemoveItem(ParseNat(id.value));
          r := if removed.Ok? then Ok(1) else Err(removed.error);
        } else {
          MatchingByIdSpec(RowsOf(t), sel, id.value);
          var ids := MatchingById(RowsOf(t), sel, id.value);
          r := Ok(|ids|);
          SetRows(t, RowsOf(t) - ids);
        }
    }

    /**
     * One step of DatabaseHelper.onUpgrade(): add the groupId column, or drop and create
     * the four tables again, or leave everything as it is.
     */
    method ApplyUpgradeStep(step: UpgradeStep)
      requires Valid()
      modifies this
      ensures Valid()
      ensures itemColumns == ColumnsAfter(step, old(itemColumns))
      ensures Wipes(step) ==>
        items == map[] && files == map[] && answers == map[] && checkboxes == map[]
        && nextItemId == 1 && nextFileId == 1 && nextAnswerId == 1 && nextCheckboxId == 1
      ensures !Wipes(step) ==>
        items == old(items) && files == old(files) && answers == old(answers) && checkboxes == old(checkboxes)
        && nextItemId == old(nextItemId) && nextFileId == old(nextFileId)
        && nextAnswerId == old(nextAnswerId) && nextCheckboxId == old(nextCheckboxId)
      ensures syncRequests == old(syncRequests)
    {
      match step
      case KeepAll =>
      case KeepWithoutGroupColumn =>
      case AddGroupColumn =>
        itemColumns := itemColumns + {GroupId};
      case Recreate =>
        // DROP TABLE also drops the tables' AUTOINCREMENT counters
        items, files, answers, checkboxes := map[], map[], map[], map[];
        nextItemId, nextFileId, nextAnswerId, nextCheckboxId := 1, 1, 1, 1;
        itemColumns := ItemsSchema;
    }

    /**
     * DatabaseHelper.onUpgrade() as written; `alterOk` says whether the ALTER TABLE
     * succeeds. A failed ALTER from version 20 keeps every row and leaves the items table
     * without groupId. The intended upgrade is ApplyUpgradeStep(UpgradePlanIntended(...)).
     */
    method OnUpgrade(oldVersion: int, newVersion: int, alterOk: bool)
      requires Valid()
      modifies this
      ensures Valid()
      ensures itemColumns == ColumnsAfter(UpgradePlan(oldVersion, newVersion, alterOk), old(itemColumns))
      ensures oldVersion != newVersion && oldVersion != 20 ==>
        items == map[] && files == map[] && answers == map[] && checkboxes == map[]
        && nextItemId == 1 && nextFileId == 1 && nextAnswerId == 1 && nextCheckboxId == 1
        && itemColumns == ItemsSchema
      ensures oldVersion == newVersion || oldVersion == 20 ==>
        items == old(items) && files == old(files) && answers == old(answers) && checkboxes == old(checkboxes)
        && nextItemId == old(nextItemId) && nextFileId == old(nextFileId)
        && nextAnswerId == old(nextAnswerId) && nextCheckboxId == old(nextCheckboxId)
      ensures syncRequests == old(syncRequests)
    {
      ApplyUpgradeStep(UpgradePlan(oldVersion, newVersion, alterOk));
    }
  }
}
