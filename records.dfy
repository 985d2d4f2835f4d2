/** A value that may be missing: JavaScript's `null`/`undefined` for a whole record or field. */
module Wrappers {
  datatype Option<+T> = None | Some(value: T)
}

/**
 * Category records as they travel between the application, browser storage and the
 * remote `categories` table, and the two field-renaming helpers of
 * lib/categories-supabase.ts.
 */
module Records {
  import opened Wrappers

  type Id = string
  type Stamp = string

  /**
   * The untyped `image` field, by the value `typeof` sees. A structured value (object or
   * array) is represented by the text JSON.stringify produces for it.
   */
  datatype Image =
    | Text(text: string)           // typeof 'string': usually a URL
    | Structured(json: string)     // typeof 'object'
    | Null                         // typeof null is 'object' as well
    | Undefined                    // field absent
    | Scalar(literal: string)      // typeof 'number' or 'boolean'

  /** `typeof image === 'object'`, which holds for `null` too. */
  predicate IsObjectTyped(image: Image) {
    image.Structured? || image.Null?
  }

  /** JSON.stringify of an object-typed value. */
  function Stringify(image: Image): string
    requires IsObjectTyped(image)
  {
    if image.Structured? then image.json else "null"
  }

  /** The application model: camel-case field names. */
  datatype Category = Category(
    id: Id,
    name: string,
    slug: string,
    image: Image,
    description: Option<string>,
    createdAt: Option<Stamp>)

  /** The five client-written columns of a row of the `categories` table. */
  datatype DbCategory = DbCategory(
    id: Id,
    name: string,
    slug: string,
    image: Image,
    description: Option<string>)

  /** A stored row: the client-written columns plus the server-assigned `created_at`. */
  datatype Row = Row(record: DbCategory, created_at: Stamp)

  /** The five client-written fields of an application model, in column form. */
  function Columns(c: Category): DbCategory {
    DbCategory(c.id, c.name, c.slug, c.image, c.description)
  }

  /** Renames `created_at` to `createdAt` and copies the other five fields; null stays null. */
  function MapDatabaseToAppModel(row: Option<Row>): (c: Option<Category>)
    ensures c.None? <==> row.None?
    ensures row.Some? ==> Columns(c.value) == row.value.record
    ensures row.Some? ==> c.value.createdAt == Some(row.value.created_at)
  {
    match row
    case None => None
    case Some(r) =>
      Some(Category(r.record.id, r.record.name, r.record.slug, r.record.image,
                    r.record.description, Some(r.created_at)))
  }

  /** Copies the five client-written fields and drops the timestamp; null stays null. */
  function MapAppModelToDatabase(c: Option<Category>): (d: Option<DbCategory>)
    ensures d.None? <==> c.None?
    ensures c.Some? ==> d.value == Columns(c.value)
  {
    match c
    case None => None
    case Some(m) => Some(DbCategory(m.id, m.name, m.slug, m.image, m.description))
  }

  /** A row read back as an application model and written out again loses only `created_at`. */
  lemma RowRoundTrip(r: Row)
    ensures MapAppModelToDatabase(MapDatabaseToAppModel(Some(r))) == Some(r.record)
  {
  }

  /**
   * An application model written as columns and stored with timestamp `t` reads back as
   * the same model with `createdAt` replaced by `t`.
   */
  lemma AppModelRoundTrip(c: Category, t: Stamp)
    ensures MapDatabaseToAppModel(Some(Row(MapAppModelToDatabase(Some(c)).value, t)))
         == Some(c.(createdAt := Some(t)))
  {
  }

  /** `data.map(mapDatabaseToAppModel)` over the non-null rows a query returns. */
  function ToAppModels(rows: seq<Row>): (cs: seq<Category>)
    ensures |cs| == |rows|
    ensures forall i :: 0 <= i < |rows| ==> Some(cs[i]) == MapDatabaseToAppModel(Some(rows[i]))
  {
    seq(|rows|, i requires 0 <= i < |rows| => MapDatabaseToAppModel(Some(rows[i])).value)
  }

  /**
   * The image step of the upload callback: an object-typed image (null included) is
   * replaced by its JSON text; every other image, and every other field, is left alone.
   */
  function SerializeImage(d: DbCategory): (r: DbCategory)
    ensures !IsObjectTyped(r.image)
    ensures r.(image := d.image) == d
    ensures IsObjectTyped(d.image) ==> r.image == Text(Stringify(d.image))
    ensures !IsObjectTyped(d.image) ==> r == d
  {
    if IsObjectTyped(d.image) then d.(image := Text(Stringify(d.image))) else d
  }
}
