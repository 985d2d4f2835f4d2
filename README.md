# Category synchronisation of the storefront, in Dafny

This project models `lib/categories-supabase.ts`, the small library that keeps the
storefront's product categories in step between the hosted `categories` table and the
browser. It has three layers.

- **Records** (`records.dfy`). A category exists in two shapes. The application model has
  `createdAt`. The table row has the five client-written columns plus a server-assigned
  `created_at`. `mapDatabaseToAppModel` and `mapAppModelToDatabase` translate between the
  two shapes, and null stays null. The untyped `image` field is a sum type keyed by what
  `typeof` reports. A structured image (an object or array) is represented by the text
  `JSON.stringify` produces for it. `null` counts as object-typed, because
  `typeof null === 'object'` in JavaScript.
- **De-duplication and upload payload** (`dedup.dfy`, `payload.dfy`). The
  `filter(index === self.findIndex(...))` idiom is written as the code writes it: a
  `findIndex` search and a filter over positions. It is proved to keep exactly the first
  occurrence of each id, in input order. It is also proved equal to an independent
  seen-set definition. The upload callback composes `mapAppModelToDatabase` with the image
  serialisation.
- **The four entry points** (`sync.dfy`). Class `Stores` holds four fields:
  - `remote`: the table's rows, as a multiset kept in a sequence;
  - `local`: `localStorage['categories']`;
  - `cache`: what `saveData` last stored;
  - `events`: the log of events dispatched on `window`.

  `isOnline()` is a boolean parameter. Every remote call is answered by a reply parameter
  that either succeeds or carries the store's error. The `saveData` outcome is a boolean
  parameter. Each routine's contract gives its outcome and its whole new state for every
  combination of these inputs. A thrown error is an `Outcome.Threw`. A resolved promise is
  an `Outcome.Returned` holding a list or `None` (JavaScript `null`).

The four routines treat failures differently, and the contracts state each case.
- Sync ignores the delete's reply (line 205), while save aborts on a failed delete
  (lines 47-50). If that delete failed after a failed fetch, the table ends up holding its
  old rows plus the uploaded ones. Agreement is guaranteed only when the delete succeeded;
  after a failed delete the table may keep old rows whose ids local storage lacks.
- Save and load throw when offline (lines 35-37 and 94-96), while sync and force-refresh
  return `null` (lines 129-132 and 255-258).
- Force-refresh re-throws a failed fetch (lines 268-270), while sync logs it and goes on
  as if the table were empty (lines 158-160).
- With no server data, a stored `null`, or a stored non-list whose `length` is above
  zero, makes sync throw a `TypeError`; any other non-list is treated as empty and sync
  returns `null` (line 246). For `null` the throw comes from `localData.length` (line 200).
  For a value whose `length` is above zero, such as a non-empty string, it comes from
  `.filter` (line 208), after the delete at line 205 has already run.
- A `localStorage.setItem` that throws (lines 182 and 283) makes sync and force-refresh
  reject before `saveData` and the events.

`LocalCategories` models lines 162-172 for a stored list. A missing or unparsable store
reads as `[]`.
`ServerRows` models lines 139-160. A failed fetch reads as no rows.

## Model

| member | source | states |
|---|---|---|
| `Records.MapDatabaseToAppModel` | lib/categories-supabase.ts:6-17 | null gives null; otherwise the five columns are copied unchanged and `createdAt` is the row's `created_at` |
| `Records.MapAppModelToDatabase` | lib/categories-supabase.ts:20-30 | null gives null; otherwise exactly the five client-written fields, with no timestamp |
| `Records.RowRoundTrip` | lib/categories-supabase.ts:6-30 | mapping a row to the application model and back yields the row without `created_at` |
| `Records.AppModelRoundTrip` | lib/categories-supabase.ts:6-30 | mapping a model to columns, then reading it back with timestamp `t`, yields the model with `createdAt := t` |
| `Records.ToAppModels` | lib/categories-supabase.ts:119 | `data.map(mapDatabaseToAppModel)` has one model per row, in row order, each the mapping of its row |
| `Records.SerializeImage` | lib/categories-supabase.ts:62-65 | an object-typed image, `null` included, becomes its JSON text; other images and every other field are unchanged; no object-typed image is left |
| `Dedup.FindIndex` | lib/categories-supabase.ts:54 | returns -1 when no element has the id, otherwise the smallest index whose element has it |
| `Dedup.FirstOccurrenceIff` | lib/categories-supabase.ts:53-55 | the filter keeps position `i` exactly when the id at `i` does not occur before `i` |
| `Dedup.UniqueByIdSpec` | lib/categories-supabase.ts:53-55 | the output is the input at increasing positions, namely exactly the first occurrences; its ids are pairwise distinct and are all the input's ids |
| `Dedup.UniqueByIdOfDistinct` | lib/categories-supabase.ts:53-55 | on input with distinct ids the filter is the identity |
| `Dedup.UniqueByIdIdempotent` | lib/categories-supabase.ts:208-210 | filtering twice equals filtering once |
| `Dedup.UniqueByIdIsKeepFirst` | lib/categories-supabase.ts:208-210 | the index-based filter equals a left-to-right walk that drops every record whose id was already seen |
| `Payload.ToInsertRecord` | lib/categories-supabase.ts:58-68 | the upload callback keeps id, name, slug and description, serialises an object-typed image, and never yields an object-typed image |
| `Payload.PrepareRecordsSpec` | lib/categories-supabase.ts:52-68 | the insert payload has one record per de-duplicated category, in order, with pairwise-distinct ids equal to the input's ids, and no object-typed image |
| `Payload.PrepareRecordsOfDistinct` | lib/categories-supabase.ts:207-221 | when the ids are already distinct, every input category is uploaded, in input order |
| `CategorySync.StoredImage` | lib/categories-supabase.ts:27 | an absent image (`image: undefined`, dropped by JSON serialisation) is stored as NULL; any other image is stored as sent |
| `CategorySync.StampRows` | lib/categories-supabase.ts:71-74 | an insert stores each record as sent, except that an absent image becomes NULL, with the server's `created_at` |
| `CategorySync.PulledModelsMatchTable` | lib/categories-supabase.ts:175-182 | models built from any ordering of the table's rows have exactly the table's ids |
| `CategorySync.UploadedRows` | lib/categories-supabase.ts:224-237 | the echoed upload is the de-duplicated input, with images serialised, an absent image as NULL, and the server timestamp; its ids are distinct and equal the input's ids; no stored image is structured, and a stored NULL image comes only from an absent one |
| `CategorySync.Stores.DeleteAll` | lib/categories-supabase.ts:42-45 | success empties the table; failure leaves it unchanged; nothing local changes |
| `CategorySync.Stores.Insert` | lib/categories-supabase.ts:71-74 | success appends the stamped records and echoes them; failure adds nothing |
| `CategorySync.Stores.PublishLocally` | lib/categories-supabase.ts:182-195 | when `setItem` succeeds: local storage becomes the list, the cache gets the list only when `saveData` succeeds, and `storage` then `customStorageChange(categories, server)` are appended; when `setItem` throws, nothing changes and the failure is reported; the table is unchanged either way |
| `CategorySync.Stores.SaveCategoriesToSupabase` | lib/categories-supabase.ts:33-90 | offline: throws and touches nothing; a failed delete: re-thrown, no insert; a failed insert: re-thrown, table left empty; otherwise the table is the stamped payload, holding exactly the input's ids, and the echo is returned; local storage, cache and events are never touched |
| `CategorySync.Stores.LoadCategoriesFromSupabase` | lib/categories-supabase.ts:92-125 | offline or a fetch error: throws; an empty table gives null; otherwise the fetched rows mapped one-for-one; changes nothing |
| `CategorySync.Stores.SyncCategoriesFromSupabase` | lib/categories-supabase.ts:128-251 | offline: null, nothing changes. A successful fetch of a non-empty table: the table is unchanged; if `setItem` throws, the failure is re-thrown and nothing changes; otherwise local storage and cache take the mapped rows, the two events are appended, the rows are returned, and local agrees with the table. No server data and a stored `null`: a TypeError, nothing changes. A stored non-list with positive length: the delete runs, then a TypeError. A non-empty stored list: the payload is inserted after the delete's reply is ignored, an insert error is re-thrown, local, cache and events are unchanged. Nothing on either side: null, nothing changes |
| `CategorySync.Stores.ForceRefreshCategoriesFromServer` | lib/categories-supabase.ts:254-303 | never writes the table; offline or an empty table: null, nothing changes; a fetch error or a throwing `setItem` is re-thrown with nothing changed; otherwise local and cache take the mapped rows, the two events are appended, the rows are returned, and local agrees with the table |

## Left out

- Ordering by `name` and its collation (lines 103, 145, 266). A fetch reply is any ordering of the table's rows, since each routine's `requires` demands only multiset equality.
- Non-record elements inside input arrays. For a `null` or `undefined` element `findIndex` dereferences `.id` and throws first, so the `|| {}` fallback (lines 67 and 220) is unreachable for null or undefined elements; other non-record elements (`0`, `false`, `""`), which do reach it and upload `{}`, are not modelled. Inputs are sequences of category records.
- Null ids. Ids are non-null strings, so `delete().not('id', 'is', null)` removes every row.
- Missing or mistyped `name`/`slug` fields. Those fields are strings in the model.
- The exact text of `JSON.stringify`. A structured image carries its JSON text. Writing local storage and reading it back is assumed to return the same list.
- Stored JSON values other than a list are reduced to two facts: whether the value is `null`, and whether `length > 0` holds for it. A stored list whose elements are not category records (numbers, or records without an `id`) is not modelled.
- The table schema is not part of this model. Every row of one insert gets the same `created_at` (`InsertReply.Inserted`), as a `now()` column default would give; this is an assumption.
- Server-side constraints on insert, such as primary-key conflicts after a failed delete. The insert reply alone decides success, and an insert is all-or-nothing.
- `saveData` is an unseen call, not awaited. It is modelled as a write that succeeds or is skipped, and its error is swallowed.
- `isOnline` is unseen. It is a boolean parameter.
- `console` logging, `Date.now()` in the event detail, and DOM dispatch semantics. Events are a log of type and source.
- Running without `window` (server-side rendering). The model assumes a browser.
- Overlapping invocations of the asynchronous routines, and the unused `force` parameter (line 128).
