/**
 * The records an upload inserts (lib/categories-supabase.ts:52-68 in
 * saveCategoriestoSupabase and 207-221 in syncCategoriesFromSupabase): de-duplicate by
 * id, rename to column form, serialise object-typed images.
 */
module Payload {
  import opened Wrappers
  import opened Records
  import opened Dedup

  /**
   * The `map` callback: `mapAppModelToDatabase`, then the image step. The `|| {}`
   * fallback is unreachable because the record is never null.
   */
  function ToInsertRecord(c: Category): (d: DbCategory)
    ensures !IsObjectTyped(d.image)
    ensures d.(image := c.image) == Columns(c)
    ensures d.image == if IsObjectTyped(c.image) then Text(Stringify(c.image)) else c.image
  {
    var db := MapAppModelToDatabase(Some(c));
    SerializeImage(db.value)
  }

  /** `uniqueCategories.map(...)`: the array handed to `insert`. */
  function PrepareRecords(categories: seq<Category>): seq<DbCategory> {
    var unique := UniqueById(categories);
    seq(|unique|, i requires 0 <= i < |unique| => ToInsertRecord(unique[i]))
  }

  function RecordIds(records: seq<DbCategory>): set<Id> {
    set i | 0 <= i < |records| :: records[i].id
  }

  /**
   * The insert payload is the de-duplicated input, one record per kept category in the
   * same order, with the same ids (each once) and no object-typed image left.
   */
  lemma PrepareRecordsSpec(categories: seq<Category>)
    ensures var r, unique := PrepareRecords(categories), UniqueById(categories);
      && |r| == |unique|
      && (forall i :: 0 <= i < |r| ==> r[i] == ToInsertRecord(unique[i]))
      && (forall i :: 0 <= i < |r| ==> !IsObjectTyped(r[i].image))
      && (forall i, j :: 0 <= i < j < |r| ==> r[i].id != r[j].id)
      && RecordIds(r) == Ids(categories)
  {
    var r, unique := PrepareRecords(categories), UniqueById(categories);
    UniqueByIdSpec(categories);
    assert forall i :: 0 <= i < |r| ==> r[i].id == unique[i].id;
    assert RecordIds(r) == Ids(unique);
  }

  /** Uploading input whose ids are already distinct inserts every record, in input order. */
  lemma PrepareRecordsOfDistinct(categories: seq<Category>)
    requires DistinctIds(categories)
    ensures |PrepareRecords(categories)| == |categories|
    ensures forall i :: 0 <= i < |categories| ==>
      PrepareRecords(categories)[i] == ToInsertRecord(categories[i])
  {
    UniqueByIdOfDistinct(categories);
  }
}
