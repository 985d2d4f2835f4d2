/**
 * The four exported routines of lib/categories-supabase.ts as state transitions over the
 * remote `categories` table, `localStorage['categories']`, the durable cache written by
 * `saveData` and the log of events dispatched on `window`.
 *
 * Every remote call is answered by a reply the caller supplies, so each routine's contract
 * covers every combination of connectivity, success and failure.
 */
module CategorySync {
  import opened Wrappers
  import opened Records
  import opened Dedup
  import opened Payload

  /** What a failing routine throws. */
  datatype Error =
    | NoConnection                 // the `Error` thrown when `isOnline()` is false
    | StoreError(reason: string)   // the `error` field of a remote reply, re-thrown
    | TypeError                    // raised by the script itself on a stored value that is not a list
    | StorageWriteFailed           // `localStorage.setItem` threw, e.g. over quota

  /** The server's answer to `delete().not('id', 'is', null)`. */
  datatype DeleteReply = Deleted | DeleteFailed(reason: string)

  /** The server's answer to `select('*').order('name')`. */
  datatype FetchReply = Fetched(rows: seq<Row>) | FetchFailed(reason: string)

  /** The server's answer to `insert(...).select()`: the `created_at` it assigns, or an error. */
  datatype InsertReply = Inserted(createdAt: Stamp) | InsertFailed(reason: string)

  /** How a routine's promise settles: resolved with a list or `null`, or rejected. */
  datatype Outcome = Returned(value: Option<seq<Category>>) | Threw(error: Error)

  /**
   * `localStorage['categories']`, by what lines 163-172 leave in `localData`.
   * `SavedOther` is any other JSON value (a string, number, boolean or object);
   * `lengthAboveZero` says whether `localData.length > 0` holds for it, as it does for a
   * non-empty string.
   */
  datatype LocalStore =
    | Missing                              // no item, or the empty string: `[]`
    | Saved(categories: seq<Category>)     // the JSON of a list of category records
    | Unreadable                           // getItem or JSON.parse threw: `[]`
    | SavedNull                            // the JSON text `null`
    | SavedOther(lengthAboveZero: bool)

  datatype Event = StorageEvent | CustomStorageChange(kind: string, source: string)

  /** `new Event('storage')`, then `customStorageChange` with type `categories` and source `server`. */
  const ChangeNotification: seq<Event> := [StorageEvent, CustomStorageChange("categories", "server")]

  /**
   * The image a column holds for an image as sent: JSON serialisation of the request drops
   * an `undefined` field, so the column is NULL; every other image is stored as sent.
   */
  function StoredImage(image: Image): (stored: Image)
    ensures !stored.Undefined?
    ensures image.Undefined? ==> stored == Null
    ensures !image.Undefined? ==> stored == image
  {
    if image.Undefined? then Null else image
  }

  /**
   * The rows an insert adds: each record as sent, with an absent image stored as NULL, and
   * the server's `created_at`.
   */
  function StampRows(records: seq<DbCategory>, at: Stamp): (rows: seq<Row>)
    ensures |rows| == |records|
    ensures forall i :: 0 <= i < |rows| ==>
      && rows[i].record == records[i].(image := StoredImage(records[i].image))
      && rows[i].created_at == at
  {
    seq(|records|, i requires 0 <= i < |records| =>
      Row(records[i].(image := StoredImage(records[i].image)), at))
  }

  function RowIds(rows: seq<Row>): set<Id> {
    set i | 0 <= i < |rows| :: rows[i].record.id
  }

  /**
   * `localData` in syncCategoriesFromSupabase (lines 162-172) when it is a list: the parsed
   * list, or `[]` when nothing is stored or the text does not parse. A stored value that is
   * not a list gives `[]` here; the routine treats it separately.
   */
  function LocalCategories(store: LocalStore): seq<Category> {
    match store
    case Saved(categories) => categories
    case Missing => []
    case Unreadable => []
    case SavedNull => []
    case SavedOther(_) => []
  }

  /**
   * The stored values on which the upload branch raises a TypeError: `null.length` at
   * line 200, or `.filter` missing at line 208 once `length > 0` has held.
   */
  predicate BreaksUpload(store: LocalStore) {
    store.SavedNull? || (store.SavedOther? && store.lengthAboveZero)
  }

  /**
   * `serverData` in syncCategoriesFromSupabase (lines 139-160): the fetched rows; a failed
   * fetch is logged and counts as no rows.
   */
  function ServerRows(reply: FetchReply): seq<Row> {
    if reply.Fetched? then reply.rows else []
  }

  /** Fetched rows, read as application models, carry exactly the table's ids. */
  lemma PulledModelsMatchTable(rows: seq<Row>, table: seq<Row>)
    requires multiset(rows) == multiset(table)
    ensures Ids(ToAppModels(rows)) == RowIds(table)
  {
    var models := ToAppModels(rows);
    forall id ensures id in Ids(models) <==> id in RowIds(table) {
      if id in Ids(models) {
        var i :| 0 <= i < |models| && models[i].id == id;
        assert rows[i] in multiset(table);
        var j :| 0 <= j < |table| && table[j] == rows[i];
      }
      if id in RowIds(table) {
        var j :| 0 <= j < |table| && table[j].record.id == id;
        assert table[j] in multiset(rows);
        var i :| 0 <= i < |rows| && rows[i] == table[j];
        assert models[i].id == id;
      }
    }
  }

  /**
   * What an upload stores and echoes: one row per category kept by the de-duplication, in
   * order, with the image serialised (an absent one stored as NULL) and the server's
   * timestamp; the rows' ids are exactly the input's ids, each once, and no stored image is
   * a structured value.
   */
  lemma UploadedRows(categories: seq<Category>, at: Stamp)
    ensures var rows, unique := StampRows(PrepareRecords(categories), at), UniqueById(categories);
      && |rows| == |unique|
      && (forall i :: 0 <= i < |rows| ==>
            ToAppModels(rows)[i]
              == unique[i].(image := StoredImage(ToInsertRecord(unique[i]).image), createdAt := Some(at)))
      && RowIds(rows) == Ids(categories)
      && DistinctIds(ToAppModels(rows))
      && (forall i :: 0 <= i < |rows| ==>
            !rows[i].record.image.Structured? && !rows[i].record.image.Undefined?)
      && (forall i :: 0 <= i < |rows| && rows[i].record.image.Null? ==> unique[i].image.Undefined?)
  {
    var records := PrepareRecords(categories);
    var rows := StampRows(records, at);
    PrepareRecordsSpec(categories);
    assert RowIds(rows) == RecordIds(records);
  }

  /**
   * The state the routines act on. Nothing here is shared with another object; the
   * remote table's order is the server's business, so only its multiset of rows matters.
   */
  class Stores {
    var remote: seq<Row>
    var local: LocalStore
    var cache: Option<seq<Category>>
    var events: seq<Event>

    constructor (remote: seq<Row>, local: LocalStore, cache: Option<seq<Category>>)
      ensures this.remote == remote && this.local == local && this.cache == cache
      ensures events == []
    {
      this.remote := remote;
      this.local := local;
      this.cache := cache;
      events := [];
    }

    /** After a pull, or an upload whose delete succeeded, local storage holds exactly the table's ids. */
    predicate InAgreement()
      reads this
    {
      local.Saved? && Ids(local.categories) == RowIds(remote)
    }

    /** `delete().not('id', 'is', null)`: ids are never null, so success empties the table. */
    method DeleteAll(reply: DeleteReply)
      modifies this
      ensures remote == if reply.Deleted? then [] else old(remote)
      ensures local == old(local) && cache == old(cache) && events == old(events)
    {
      if reply.Deleted? {
        remote := [];
      }
    }

    /** `insert(records).select()`: all rows or none; on success the added rows are echoed. */
    method Insert(records: seq<DbCategory>, reply: InsertReply) returns (echoed: Option<seq<Row>>)
      modifies this
      ensures echoed.None? <==> reply.InsertFailed?
      ensures reply.Inserted? ==> echoed.value == StampRows(records, reply.createdAt)
      ensures remote == if reply.Inserted? then old(remote) + StampRows(records, reply.createdAt) else old(remote)
      ensures local == old(local) && cache == old(cache) && events == old(events)
    {
      if reply.InsertFailed? {
        return None;
      }
      var added := StampRows(records, reply.createdAt);
      remote := remote + added;
      echoed := Some(added);
    }

    /**
     * Lines 182-195 (and 283-296): overwrite local storage, hand the list to `saveData`
     * (whose failure is logged and swallowed), and dispatch the two change events. When
     * `setItem` throws (`stored` false) nothing after it runs and `ok` is false.
     */
    method PublishLocally(models: seq<Category>, stored: bool, cacheSaved: bool) returns (ok: bool)
      modifies this
      ensures ok == stored
      ensures stored ==> local == Saved(models)
      ensures stored ==> cache == if cacheSaved then Some(models) else old(cache)
      ensures stored ==> events == old(events) + ChangeNotification
      ensures !stored ==> local == old(local) && cache == old(cache) && events == old(events)
      ensures remote == old(remote)
    {
      if !stored {
        return false;
      }
      local := Saved(models);
      if cacheSaved {
        cache := Some(models);
      }
      events := events + ChangeNotification;
      ok := true;
    }

    /**
     * saveCategoriestoSupabase (lines 33-90): replace the table by the de-duplicated,
     * serialised input and return the echoed rows as application models.
     */
    method SaveCategoriesToSupabase(categories: seq<Category>, online: bool,
                                    deleteReply: DeleteReply, insertReply: InsertReply)
      returns (out: Outcome)
      modifies this
      ensures local == old(local) && cache == old(cache) && events == old(events)
      ensures !online ==> out == Threw(NoConnection) && remote == old(remote)
      ensures online && deleteReply.DeleteFailed? ==>
        out == Threw(StoreError(deleteReply.reason)) && remote == old(remote)
      ensures online && deleteReply.Deleted? && insertReply.InsertFailed? ==>
        out == Threw(StoreError(insertReply.reason)) && remote == []
      ensures online && deleteReply.Deleted? && insertReply.Inserted? ==>
        && remote == StampRows(PrepareRecords(categories), insertReply.createdAt)
        && out == Returned(Some(ToAppModels(remote)))
        && RowIds(remote) == Ids(categories)
    {
      if !online {
        return Threw(NoConnection);
      }
      DeleteAll(deleteReply);
      if deleteReply.DeleteFailed? {
        return Threw(StoreError(deleteReply.reason));
      }
      var echoed := Insert(PrepareRecords(categories), insertReply);
      if echoed.None? {
        return Threw(StoreError(insertReply.reason));
      }
      UploadedRows(categories, insertReply.createdAt);
      out := Returned(Some(ToAppModels(echoed.value)));
    }

    /**
     * loadCategoriesFromSupabase (lines 92-125): read the table; an empty table gives
     * `null`. Changes nothing.
     */
    method LoadCategoriesFromSupabase(online: bool, fetchReply: FetchReply) returns (out: Outcome)
      requires fetchReply.Fetched? ==> multiset(fetchReply.rows) == multiset(remote)
      ensures !online ==> out == Threw(NoConnection)
      ensures online && fetchReply.FetchFailed? ==> out == Threw(StoreError(fetchReply.reason))
      ensures online && fetchReply.Fetched? && remote == [] ==> out == Returned(None)
      ensures online && fetchReply.Fetched? && remote != [] ==>
        out == Returned(Some(ToAppModels(fetchReply.rows)))
    {
      if !online {
        return Threw(NoConnection);
      }
      if fetchReply.FetchFailed? {
        return Threw(StoreError(fetchReply.reason));
      }
      var data := fetchReply.rows;
      if |data| == 0 {
        return Returned(None);
      }
      out := Returned(Some(ToAppModels(data)));
    }

    /**
     * syncCategoriesFromSupabase (lines 128-251): a non-empty table wins and is copied to
     * local storage; otherwise a non-empty local list is uploaded; otherwise `null`.
     * `stored` says whether `localStorage.setItem` succeeds.
     */
    method SyncCategoriesFromSupabase(online: bool, fetchReply: FetchReply, deleteReply: DeleteReply,
                                      insertReply: InsertReply, stored: bool, cacheSaved: bool)
      returns (out: Outcome)
      requires fetchReply.Fetched? ==> multiset(fetchReply.rows) == multiset(remote)
      modifies this
      ensures !online ==> out == Returned(None)
      ensures !online ==> remote == old(remote) && local == old(local) && cache == old(cache) && events == old(events)
      // pull: the table was reachable and not empty; it is never written
      ensures online && ServerRows(fetchReply) != [] ==> old(remote) != [] && remote == old(remote)
      ensures online && ServerRows(fetchReply) != [] && !stored ==>
        && out == Threw(StorageWriteFailed)
        && local == old(local) && cache == old(cache) && events == old(events)
      ensures online && ServerRows(fetchReply) != [] && stored ==>
        var models := ToAppModels(fetchReply.rows);
        && out == Returned(Some(models))
        && local == Saved(models)
        && cache == (if cacheSaved then Some(models) else old(cache))
        && events == old(events) + ChangeNotification
        && InAgreement()
      // otherwise local storage, the cache and the events are left alone
      ensures online && ServerRows(fetchReply) == [] ==>
        local == old(local) && cache == old(cache) && events == old(events)
      // a stored value that is not a list
      ensures online && ServerRows(fetchReply) == [] && old(local).SavedNull? ==>
        out == Threw(TypeError) && remote == old(remote)
      ensures online && ServerRows(fetchReply) == [] && old(local).SavedOther? && old(local).lengthAboveZero ==>
        && out == Threw(TypeError)
        && remote == (if deleteReply.Deleted? then [] else old(remote))
      ensures (online && ServerRows(fetchReply) == [] && !BreaksUpload(old(local))
               && LocalCategories(old(local)) == []) ==>
        out == Returned(None) && remote == old(remote)
      // push: the delete's reply is ignored, the insert's is not
      ensures (online && ServerRows(fetchReply) == [] && LocalCategories(old(local)) != []
               && insertReply.InsertFailed?) ==>
        && out == Threw(StoreError(insertReply.reason))
        && remote == (if deleteReply.Deleted? then [] else old(remote))
      ensures (online && ServerRows(fetchReply) == [] && LocalCategories(old(local)) != []
               && insertReply.Inserted?) ==>
        var uploaded := StampRows(PrepareRecords(LocalCategories(old(local))), insertReply.createdAt);
        && out == Returned(Some(ToAppModels(uploaded)))
        && remote == (if deleteReply.Deleted? then [] else old(remote)) + uploaded
        && (deleteReply.Deleted? ==> InAgreement())
    {
      if !online {
        return Returned(None);
      }
      var serverData: Option<seq<Category>> := None;
      if fetchReply.Fetched? && |fetchReply.rows| > 0 {
        serverData := Some(ToAppModels(fetchReply.rows));
      }

      if serverData.Some? {
        var models := serverData.value;
        var ok := PublishLocally(models, stored, cacheSaved);
        if !ok {
          return Threw(StorageWriteFailed);
        }
        PulledModelsMatchTable(fetchReply.rows, remote);
        return Returned(Some(models));
      }
      if local.SavedNull? {
        return Threw(TypeError);
      }
      if local.SavedOther? {
        if local.lengthAboveZero {
          DeleteAll(deleteReply);
          return Threw(TypeError);
        }
        return Returned(None);
      }
      var localData := LocalCategories(local);
      if |localData| > 0 {
        DeleteAll(deleteReply);
        var echoed := Insert(PrepareRecords(localData), insertReply);
        if echoed.None? {
          return Threw(StoreError(insertReply.reason));
        }
        UploadedRows(localData, insertReply.createdAt);
        assert deleteReply.Deleted? ==> remote == [] + echoed.value == echoed.value;
        return Returned(Some(ToAppModels(echoed.value)));
      }
      out := Returned(None);
    }

    /**
     * forceRefreshCategoriesFromServer (lines 254-303): copy a non-empty table to local
     * storage; a failed fetch, or a failed `setItem`, is re-thrown. Never writes the table.
     */
    method ForceRefreshCategoriesFromServer(online: bool, fetchReply: FetchReply, stored: bool, cacheSaved: bool)
      returns (out: Outcome)
      requires fetchReply.Fetched? ==> multiset(fetchReply.rows) == multiset(remote)
      modifies this
      ensures remote == old(remote)
      ensures !online ==> out == Returned(None)
      ensures online && fetchReply.FetchFailed? ==> out == Threw(StoreError(fetchReply.reason))
      ensures online && fetchReply.Fetched? && old(remote) == [] ==> out == Returned(None)
      ensures online && fetchReply.Fetched? && old(remote) != [] && !stored ==> out == Threw(StorageWriteFailed)
      ensures !online || fetchReply.FetchFailed? || old(remote) == [] || !stored ==>
        local == old(local) && cache == old(cache) && events == old(events)
      ensures online && fetchReply.Fetched? && old(remote) != [] && stored ==>
        var models := ToAppModels(fetchReply.rows);
        && out == Returned(Some(models))
        && local == Saved(models)
        && cache == (if cacheSaved then Some(models) else old(cache))
        && events == old(events) + ChangeNotification
        && InAgreement()
    {
      if !online {
        return Returned(None);
      }
      if fetchReply.FetchFailed? {
        return Threw(StoreError(fetchReply.reason));
      }
      var data := fetchReply.rows;
      if |data| == 0 {
        return Returned(None);
      }
      var models := ToAppModels(data);
      var ok := PublishLocally(models, stored, cacheSaved);
      if !ok {
        return Threw(StorageWriteFailed);
      }
      PulledModelsMatchTable(data, remote);
      out := Returned(Some(models));
    }
  }
}
