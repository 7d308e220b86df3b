/**
 * The provider's URI matcher and the per-operation dispatch on its tags, with the small
 * string helpers the dispatch uses (selection prefixing, argument prepending, the content
 * URI of a cached file).
 */
module UriRouter {
  import opened Common

  /** The matcher tags (MATCHER_ID_*). */
  datatype Tag =
    | Items | Item | ItemNext | File
    | Classifications | Classification
    | ClassificationAnswers | ClassificationAnswer
    | ClassificationCheckboxes | ClassificationCheckbox

  /** The four tables of the items database. */
  datatype Table = ItemsTable | FilesTable | AnswersTable | CheckboxesTable

  const PartItem := "item"
  const PartItemIdNext := "next"
  const PartFile := "file"
  const PartClassification := "classification"
  const PartClassificationAnswer := "classification-answer"
  const PartClassificationCheckbox := "classification-checkbox"

  /** Tags whose pattern ends with the '#' id segment. */
  predicate HasId(t: Tag) {
    t in {Item, File, Classification, ClassificationAnswer, ClassificationCheckbox}
  }

  /** Tags that address one row (an id, or the virtual "next" item). */
  predicate IsSingleRow(t: Tag) {
    HasId(t) || t == ItemNext
  }

  /** The first path segment of each pattern. */
  function PartOf(t: Tag): string {
    match t
    case Items | Item | ItemNext => PartItem
    case File => PartFile
    case Classifications | Classification => PartClassification
    case ClassificationAnswers | ClassificationAnswer => PartClassificationAnswer
    case ClassificationCheckboxes | ClassificationCheckbox => PartClassificationCheckbox
  }

  /**
   * The path of a URI of the given tag; `id` fills the '#' segment of the tags that
   * have one and is ignored by the others.
   */
  function Render(t: Tag, id: string): seq<string> {
    if t == ItemNext then [PartItem, PartItemIdNext]
    else if HasId(t) then [PartOf(t), id]
    else [PartOf(t)]
  }

  /**
   * UriMatcher.match on the path segments: the fixed pattern table of the provider's
   * static initializer. `None` is UriMatcher.NO_MATCH.
   */
  function Match(path: seq<string>): (r: Option<Tag>)
    ensures r.Some? ==> path == Render(r.value, if |path| == 2 then path[1] else "")
    ensures r.Some? && HasId(r.value) ==> |path| == 2 && IsDigits(path[1])
    ensures r.Some? && !IsSingleRow(r.value) ==> |path| == 1
  {
    if |path| == 1 then
      if path[0] == PartItem then Some(Items)
      else if path[0] == PartClassification then Some(Classifications)
      else if path[0] == PartClassificationAnswer then Some(ClassificationAnswers)
      else if path[0] == PartClassificationCheckbox then Some(ClassificationCheckboxes)
      else None
    else if |path| == 2 then
      if path[0] == PartItem && path[1] == PartItemIdNext then Some(ItemNext)
      else if !IsDigits(path[1]) then None
      else if path[0] == PartItem then Some(Item)
      else if path[0] == PartFile then Some(File)
      else if path[0] == PartClassification then Some(Classification)
      else if path[0] == PartClassificationAnswer then Some(ClassificationAnswer)
      else if path[0] == PartClassificationCheckbox then Some(ClassificationCheckbox)
      else None
    else None
  }

  /** Every tag is matched by its own URIs: the matcher table has no shadowed pattern. */
  lemma MatchRender(t: Tag, id: string)
    requires HasId(t) ==> IsDigits(id)
    ensures Match(Render(t, id)) == Some(t)
  {
    assert !IsDigit(PartItemIdNext[0]);
  }

  /** "item/next" is the next-item URI and "item/<digits>" is the single-item URI. */
  lemma MatchItemPaths(segment: string)
    ensures Match([PartItem, segment]) == Some(ItemNext) <==> segment == PartItemIdNext
    ensures Match([PartItem, segment]) == Some(Item) <==> IsDigits(segment)
    ensures Match([PartItem, segment]).None? <==> segment != PartItemIdNext && !IsDigits(segment)
  {
    assert !IsDigit(PartItemIdNext[0]);
  }

  /**
   * The table a tag's URI names. The "classification" URIs name no table: there is no
   * classifications table, only answers and checkboxes.
   */
  function TableOf(t: Tag): Option<Table> {
    match t
    case Items | Item | ItemNext => Some(ItemsTable)
    case File => Some(FilesTable)
    case Classifications | Classification => None
    case ClassificationAnswers | ClassificationAnswer => Some(AnswersTable)
    case ClassificationCheckboxes | ClassificationCheckbox => Some(CheckboxesTable)
  }

  /** Tags that insert, update and delete accept. */
  predicate Writable(t: Tag) {
    TableOf(t).Some? && t != ItemNext && t != File
  }

  /** What query, update and delete act on. */
  datatype Target = AllRows(table: Table) | RowById(table: Table) | NextItem

  /**
   * The switch of query(): every URI that names a table is accepted (the file URI and
   * the virtual next item included); the rest raise IllegalArgumentException.
   */
  function QueryRoute(t: Option<Tag>): (r: Result<Target>)
    ensures r.Ok? <==> t.Some? && TableOf(t.value).Some?
    ensures r.Ok? ==> (r.value.NextItem? <==> t.value == ItemNext)
    ensures r.Ok? && !r.value.NextItem? ==> Some(r.value.table) == TableOf(t.value)
    ensures r.Ok? && !r.value.NextItem? ==> (r.value.RowById? <==> HasId(t.value))
    ensures r.Err? ==> r.error == IllegalArgument
  {
    match t
    case Some(Items) => Ok(AllRows(ItemsTable))
    case Some(Item) => Ok(RowById(ItemsTable))
    case Some(ItemNext) => Ok(NextItem)
    case Some(File) => Ok(RowById(FilesTable))
    case Some(ClassificationAnswers) => Ok(AllRows(AnswersTable))
    case Some(ClassificationAnswer) => Ok(RowById(AnswersTable))
    case Some(ClassificationCheckboxes) => Ok(AllRows(CheckboxesTable))
    case Some(ClassificationCheckbox) => Ok(RowById(CheckboxesTable))
    case _ => Err(IllegalArgument)
  }

  /**
   * The switch of insert(): the collection URI and the single-row URI of items, answers
   * and checkboxes both insert a new row into that table.
   */
  function InsertRoute(t: Option<Tag>): (r: Result<Table>)
    ensures r.Ok? <==> t.Some? && Writable(t.value)
    ensures r.Ok? ==> Some(r.value) == TableOf(t.value)
    ensures r.Err? ==> r.error == IllegalArgument
  {
    match t
    case Some(Items) | Some(Item) => Ok(ItemsTable)
    case Some(ClassificationAnswers) | Some(ClassificationAnswer) => Ok(AnswersTable)
    case Some(ClassificationCheckboxes) | Some(ClassificationCheckbox) => Ok(CheckboxesTable)
    case _ => Err(IllegalArgument)
  }

  /** The switch shared by update() and delete(). */
  function WriteRoute(t: Option<Tag>): (r: Result<Target>)
    ensures r.Ok? <==> t.Some? && Writable(t.value)
    ensures r.Ok? ==> !r.value.NextItem? && Some(r.value.table) == TableOf(t.value)
    ensures r.Ok? ==> (r.value.RowById? <==> HasId(t.value))
    ensures r.Err? ==> r.error == IllegalArgument
  {
    match t
    case Some(Items) => Ok(AllRows(ItemsTable))
    case Some(Item) => Ok(RowById(ItemsTable))
    case Some(ClassificationAnswers) => Ok(AllRows(AnswersTable))
    case Some(ClassificationAnswer) => Ok(RowById(AnswersTable))
    case Some(ClassificationCheckboxes) => Ok(AllRows(CheckboxesTable))
    case Some(ClassificationCheckbox) => Ok(RowById(CheckboxesTable))
    case _ => Err(IllegalArgument)
  }

  /** The "classification" URIs match a tag, yet every operation rejects them. */
  lemma ClassificationUrisRejected(t: Tag)
    requires t == Classifications || t == Classification
    ensures QueryRoute(Some(t)) == Err(IllegalArgument)
    ensures InsertRoute(Some(t)) == Err(IllegalArgument)
    ensures WriteRoute(Some(t)) == Err(IllegalArgument)
    ensures GetType(Some(t)) == Err(IllegalArgument)
  {
  }

  const DirPrefix := "vnd.android.cursor.dir/"
  const ItemPrefix := "vnd.android.cursor.item/"

  const Vendor := "vnd.android-galaxyzoo."

  const ContentTypeItems := DirPrefix + Vendor + "item"
  const ContentTypeItem := ItemPrefix + Vendor + "item"
  const ContentTypeClassificationAnswers := DirPrefix + Vendor + "classification-answer"
  const ContentTypeClassificationAnswer := ItemPrefix + Vendor + "classification-answer"
  const ContentTypeClassificationCheckboxes := DirPrefix + Vendor + "classification-checkboxes"
  const ContentTypeClassificationCheckbox := ItemPrefix + Vendor + "classification-checkbox"

  predicate HasPrefix(s: string, p: string) {
    |p| <= |s| && s[..|p|] == p
  }

  /** A directory type is not an item type and the other way round. */
  lemma MimePrefixes(rest: string)
    ensures HasPrefix(DirPrefix + rest, DirPrefix) && !HasPrefix(DirPrefix + rest, ItemPrefix)
    ensures HasPrefix(ItemPrefix + rest, ItemPrefix) && !HasPrefix(ItemPrefix + rest, DirPrefix)
  {
    assert (DirPrefix + rest)[..|DirPrefix|] == DirPrefix;
    assert (ItemPrefix + rest)[..|ItemPrefix|] == ItemPrefix;
    assert (DirPrefix + rest)[19] != ItemPrefix[19];
    assert (ItemPrefix + rest)[19] != DirPrefix[19];
  }

  /**
   * getType(): a MIME type for every URI except the file and "classification" ones. A
   * single-row URI gets an item type, a collection URI a directory type.
   */
  function GetType(t: Option<Tag>): (r: Result<string>)
    ensures r.Ok? <==> t.Some? && TableOf(t.value).Some? && t.value != File
    ensures r.Ok? ==> (IsSingleRow(t.value) <==> HasPrefix(r.value, ItemPrefix))
    ensures r.Ok? ==> (!IsSingleRow(t.value) <==> HasPrefix(r.value, DirPrefix))
    ensures r.Ok? ==>
      HasPrefix(r.value, (if IsSingleRow(t.value) then ItemPrefix else DirPrefix) + Vendor + PartOf(t.value))
    ensures r.Err? ==> r.error == IllegalArgument
  {
    match t
    case Some(Items) =>
      MimePrefixes(Vendor + "item");
      Ok(ContentTypeItems)
    case Some(Item) | Some(ItemNext) =>
      MimePrefixes(Vendor + "item");
      Ok(ContentTypeItem)
    case Some(ClassificationAnswers) =>
      MimePrefixes(Vendor + "classification-answer");
      Ok(ContentTypeClassificationAnswers)
    case Some(ClassificationAnswer) =>
      MimePrefixes(Vendor + "classification-answer");
      Ok(ContentTypeClassificationAnswer)
    case Some(ClassificationCheckboxes) =>
      MimePrefixes(Vendor + "classification-checkboxes");
      var named := DirPrefix + Vendor + PartClassificationCheckbox;
      assert ContentTypeClassificationCheckboxes == named + "es";
      assert ContentTypeClassificationCheckboxes[..|named|] == named;
      Ok(ContentTypeClassificationCheckboxes)
    case Some(ClassificationCheckbox) =>
      MimePrefixes(Vendor + "classification-checkbox");
      Ok(ContentTypeClassificationCheckbox)
    case _ => Err(IllegalArgument)
  }

  /** No two tables, and not a collection and a single row of one table, share a MIME type. */
  lemma GetTypeDistinct(a: Tag, b: Tag)
    requires GetType(Some(a)).Ok? && GetType(Some(a)) == GetType(Some(b))
    ensures TableOf(a) == TableOf(b) && IsSingleRow(a) == IsSingleRow(b)
  {
    assert |GetType(Some(a)).value| == |GetType(Some(b)).value|;
  }

  /**
   * parseContentUri(): the second path segment. A path with fewer than two segments makes
   * List.get(1) throw.
   */
  function ParseContentUri(path: seq<string>): (r: Result<string>)
    ensures r.Ok? <==> |path| >= 2
    ensures r.Ok? ==> r.value == path[1]
    ensures r.Err? ==> r.error == IndexOutOfBounds
    ensures Match(path).Some? && HasId(Match(path).value) ==> r.Ok? && IsDigits(r.value)
  {
    if |path| < 2 then Err(IndexOutOfBounds) else Ok(path[1])
  }

  const IdEquals := "_id = ?"
  const AndOpen := " AND ("

  /** prependIdToSelection(): restrict a caller's selection to the row whose id is bound first. */
  function PrependIdToSelection(selection: string): string {
    IdEquals + (if selection != "" then AndOpen + selection + ")" else "")
  }

  /** The caller's selection inside a prefixed one: the inverse of PrependIdToSelection. */
  function UserSelection(prefixed: string): string {
    if |prefixed| > |IdEquals| + |AndOpen| then prefixed[|IdEquals| + |AndOpen|..|prefixed| - 1] else ""
  }

  /**
   * The prefixed selection always starts with the id clause, is the bare clause exactly
   * when the caller gave none, and keeps the caller's selection recoverable.
   */
  lemma PrependIdToSelectionSpec(selection: string)
    ensures HasPrefix(PrependIdToSelection(selection), IdEquals)
    ensures PrependIdToSelection(selection) == IdEquals <==> selection == ""
    ensures UserSelection(PrependIdToSelection(selection)) == selection
  {
    var r := PrependIdToSelection(selection);
    if selection != "" {
      assert r[|IdEquals| + |AndOpen|..|r| - 1] == selection;
    }
  }

  /**
   * prependToArray() as written. A null array gives [value]; an empty one also gives
   * [value]. For a non-empty array System.arraycopy is asked to copy result.length
   * elements out of the shorter source array and throws.
   */
  function PrependToArray(args: Option<seq<string>>, value: string): (r: Result<seq<string>>)
    ensures args.None? || args.value == [] ==> r == Ok([value])
    ensures args.Some? && args.value != [] ==> r == Err(IndexOutOfBounds)
  {
    match args
    case None => Ok([value])
    case Some(a) =>
      // arraycopy(array, 0, result, 1, |a| + 1) would read |a| + 1 elements of array
      if |a| > 0 then Err(IndexOutOfBounds) else Ok([value])
  }

  /** The call the source evidently meant: copy array.length elements after the new first one. */
  function PrependToArrayIntended(args: Option<seq<string>>, value: string): seq<string> {
    match args
    case None => [value]
    case Some(a) => [value] + a
  }

  /** The intended helper binds `value` first and every caller argument after it, in order. */
  lemma PrependToArrayIntendedSpec(args: Option<seq<string>>, value: string)
    ensures var r := PrependToArrayIntended(args, value);
      |r| >= 1 && r[0] == value
      && r[1..] == (if args.None? then [] else args.value)
  {
  }

  /** One caller argument is enough to make the helper as written throw. */
  lemma PrependToArrayThrowsOnArguments()
    ensures PrependToArray(Some(["x"]), "5") == Err(IndexOutOfBounds)
    ensures PrependToArrayIntended(Some(["x"]), "5") == ["5", "x"]
  {
  }

  /**
   * The provider's authority, Item.AUTHORITY. Item is not part of this model, so its
   * value is left open; only its being fixed matters here.
   */
  const Authority: string
  const FileUriPrefix := "content://" + Authority + "/" + PartFile + "/"

  /** ContentUris.withAppendedId(Item.FILE_URI, fileId).toString(). */
  function FileUri(fileId: nat): string {
    FileUriPrefix + NatToString(fileId)
  }

  /**
   * ContentUris.parseId() on a stored file reference: the id after the file prefix, or
   * None where Long.parseLong would throw.
   */
  function ParseFileId(uri: string): Option<nat> {
    if |uri| > |FileUriPrefix| && uri[..|FileUriPrefix|] == FileUriPrefix
       && IsDigits(uri[|FileUriPrefix|..])
    then Some(ParseNat(uri[|FileUriPrefix|..]))
    else None
  }

  /** A file reference written by the provider parses back to its file id. */
  lemma ParseFileUri(fileId: nat)
    ensures ParseFileId(FileUri(fileId)) == Some(fileId)
  {
    var u := FileUri(fileId);
    assert u[..|FileUriPrefix|] == FileUriPrefix;
    assert u[|FileUriPrefix|..] == NatToString(fileId);
    ParseNatToString(fileId);
  }

  /** Distinct files get distinct references. */
  lemma FileUriInjective(a: nat, b: nat)
    requires FileUri(a) == FileUri(b)
    ensures a == b
  {
    ParseFileUri(a);
    ParseFileUri(b);
  }
}
