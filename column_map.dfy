/**
 * Column-name translation of the items provider: the caller's ContentValues use the
 * public column names, and getMappedContentValues() rewrites them to the database column
 * names through one projection map per table, silently dropping every name the map does
 * not know and every value of a type putValueInContentValues() does not copy.
 */
module ColumnMap {
  import opened Common

  /** Public column name to database column name. */
  type ProjectionMap = map<string, string>

  // Database column names (DatabaseHelper.*DbColumns and BaseColumns._ID).
  const IdColumn := "_id"
  const Done := "done"
  const Uploaded := "uploaded"
  const SubjectId := "subjectId"
  const ZooniverseId := "zooniverseId"
  const GroupId := "groupId"
  const LocationStandardUriRemote := "locationStandardUriRemote"
  const LocationStandardUri := "locationStandardUri"
  const LocationStandardDownloaded := "locationStandardDownloaded"
  const LocationThumbnailUriRemote := "locationThumbnailUriRemote"
  const LocationThumbnailUri := "locationThumbnailUri"
  const LocationThumbnailDownloaded := "locationThumbnailDownloaded"
  const LocationInvertedUriRemote := "locationInvertedUriRemote"
  const LocationInvertedUri := "locationInvertedUri"
  const LocationInvertedDownloaded := "locationInvertedDownloaded"
  const Favorite := "favorite"
  const DateTimeDone := "dateTimeDone"
  const FileData := "_data"
  const ItemId := "itemId"
  const Sequence := "sequence"
  const QuestionId := "questionId"
  const AnswerId := "answerId"
  const CheckboxId := "checkboxId"

  /** The columns of the items table as createTable() creates them. */
  const ItemsColumnNames: set<string> := {
    IdColumn, Done, Uploaded, SubjectId, ZooniverseId, GroupId,
    LocationStandardUriRemote, LocationStandardUri, LocationStandardDownloaded,
    LocationThumbnailUriRemote, LocationThumbnailUri, LocationThumbnailDownloaded,
    LocationInvertedUriRemote, LocationInvertedUri, LocationInvertedDownloaded,
    Favorite, DateTimeDone}

  const AnswersColumnNames: set<string> := {IdColumn, ItemId, Sequence, QuestionId, AnswerId}

  const CheckboxesColumnNames: set<string> := {IdColumn, ItemId, Sequence, QuestionId, CheckboxId}

  /** A projection map that sends each name of the set to itself. */
  function IdentityMap(names: set<string>): ProjectionMap {
    map k | k in names :: k
  }

  /**
   * sItemsProjectionMap: each public column name to a database column. Item.Columns is
   * not part of this model, so the public names are assumed equal to the database names.
   */
  const ItemsProjectionMap: ProjectionMap := IdentityMap(ItemsColumnNames)

  /** sClassificationAnswersProjectionMap. */
  const AnswersProjectionMap: ProjectionMap := IdentityMap(AnswersColumnNames)

  /** sClassificationCheckboxesProjectionMap. */
  const CheckboxesProjectionMap: ProjectionMap := IdentityMap(CheckboxesColumnNames)

  /** putValueInContentValues() copies String, Boolean, Integer, Long and Double values only. */
  predicate Storable(v: Value) {
    !v.NullV? && !v.OtherV?
  }

  /** No two public names share a non-empty database name. */
  ghost predicate Injective(pm: ProjectionMap) {
    forall a, b :: a in pm && b in pm && a != b && pm[a] != "" ==> pm[a] != pm[b]
  }

  /** The public name `key` of `values` survives translation. */
  predicate Translates(values: Row, pm: ProjectionMap, key: string) {
    key in values && key in pm && pm[key] != "" && Storable(values[key])
  }

  /** The translation of the public names in `keys`. */
  ghost function MappedOver(values: Row, pm: ProjectionMap, keys: set<string>): Row
    requires Injective(pm)
  {
    map k | k in keys && Translates(values, pm, k) :: pm[k] := values[k]
  }

  /**
   * The translated ContentValues: each surviving public name's value stored under its
   * database name, and nothing else.
   */
  ghost function Mapped(values: Row, pm: ProjectionMap): Row
    requires Injective(pm)
  {
    MappedOver(values, pm, values.Keys)
  }

  /**
   * Each surviving public name's value is kept under its database name, and every
   * translated column comes from a surviving public name.
   */
  lemma MappedSpec(values: Row, pm: ProjectionMap)
    requires Injective(pm)
    ensures forall k :: Translates(values, pm, k) ==> pm[k] in Mapped(values, pm) && Mapped(values, pm)[pm[k]] == values[k]
    ensures forall i :: i in Mapped(values, pm) ==> exists k :: Translates(values, pm, k) && pm[k] == i
    ensures "" !in Mapped(values, pm) && Mapped(values, pm).Keys <= pm.Values
  {
  }

  /**
   * putValueInContentValues(): a String, Boolean, Integer, Long or Double is put under the
   * key, replacing what was there; any other value (null included) is ignored.
   */
  function PutValue(result: Row, key: string, value: Value): (r: Row)
    ensures r.Keys == if Storable(value) then result.Keys + {key} else result.Keys
    ensures Storable(value) ==> r[key] == value
    ensures forall k :: k in result && k != key ==> r[k] == result[k]
    ensures !Storable(value) ==> r == result
  {
    if Storable(value) then result[key := value] else result
  }

  /** Translating one more public name adds at most its own entry. */
  lemma MappedOverAdd(values: Row, pm: ProjectionMap, keys: set<string>, k: string)
    requires Injective(pm) && k !in keys && k in values
    ensures MappedOver(values, pm, keys + {k}) ==
      if k in pm && pm[k] != "" then PutValue(MappedOver(values, pm, keys), pm[k], values[k])
      else MappedOver(values, pm, keys)
  {
    var before := MappedOver(values, pm, keys);
    var after := MappedOver(values, pm, keys + {k});
    if Translates(values, pm, k) {
      assert pm[k] !in before;
      assert after == before[pm[k] := values[k]];
    } else {
      assert after == before;
    }
  }

  /**
   * getMappedContentValues(): walks the caller's keys and keeps each one whose mapping is
   * non-empty, under the database name.
   */
  method GetMappedContentValues(values: Row, pm: ProjectionMap) returns (result: Row)
    requires Injective(pm)
    ensures result == Mapped(values, pm)
  {
    result := map[];
    var remaining := values.Keys;
    while remaining != {}
      invariant remaining <= values.Keys
      invariant result == MappedOver(values, pm, values.Keys - remaining)
      decreases remaining
    {
      var keyExternal :| keyExternal in remaining;
      MappedOverAdd(values, pm, values.Keys - remaining, keyExternal);
      if keyExternal in pm && pm[keyExternal] != "" {
        result := PutValue(result, pm[keyExternal], values[keyExternal]);
      }
      assert values.Keys - (remaining - {keyExternal}) == (values.Keys - remaining) + {keyExternal};
      remaining := remaining - {keyExternal};
    }
  }

  /** The provider's three projection maps can be used for translation. */
  lemma ProjectionMapsInjective()
    ensures Injective(ItemsProjectionMap)
    ensures Injective(AnswersProjectionMap)
    ensures Injective(CheckboxesProjectionMap)
  {
  }

  /**
   * Values whose names are all known to an identity map and whose types are all copied
   * come through the translation unchanged.
   */
  lemma MappedIdentity(values: Row, names: set<string>)
    requires values.Keys <= names && "" !in names
    requires forall k :: k in values ==> Storable(values[k])
    ensures Injective(IdentityMap(names)) && Mapped(values, IdentityMap(names)) == values
  {
    var pm := IdentityMap(names);
    MappedSpec(values, pm);
    var r := Mapped(values, pm);
    forall k | k in values
      ensures k in r && r[k] == values[k]
    {
      assert Translates(values, pm, k);
    }
    assert r.Keys == values.Keys;
  }

  /** A name no projection map knows, such as a database column of another table, is dropped. */
  lemma UnknownNamesDropped(values: Row, pm: ProjectionMap, name: string)
    requires Injective(pm) && name in values && name !in pm && name !in pm.Values
    ensures name !in Mapped(values, pm)
  {
  }
}
