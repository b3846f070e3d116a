/** Where photos are saved and how the application finds them again in the media store. The
    content resolver is a function from the query the application builds to what the query yields. */
module ImageStore {
  import opened JavaText
  import opened MediaItems

  /** Build.VERSION_CODES.Q (Android 10). */
  const Q: int := 29

  /** ImageStore.RELATIVE_PATH: the folder photos are saved in from Android 10 on. */
  const RELATIVE_PATH: string := "Pictures/SmartCameraX"

  // Media-store column names (MediaStore.MediaColumns).
  const ID_COLUMN: string := "_id"
  const DISPLAY_NAME: string := "_display_name"
  const MIME_TYPE: string := "mime_type"
  const RELATIVE_PATH_COLUMN: string := "relative_path"
  const DATE_ADDED: string := "date_added"

  const JPEG_MIME: string := "image/jpeg"
  const NEWEST_FIRST: string := "date_added DESC"

  /** A query against one media-store collection, as passed to ContentResolver.query. */
  datatype MediaQuery = MediaQuery(
    collection: Collection,
    projection: seq<string>,
    selection: string,
    selectionArgs: seq<string>,
    sortOrder: string)

  /** One row of a media-store cursor. */
  datatype Row = Row(id: int, dateAdded: int)

  /** What a query yields: it throws, it returns a null cursor, or it returns a cursor whose rows
      are read in order; `failsAfter` says that reading throws once the listed rows are read. */
  datatype QueryResult = QueryFailed | NullCursor | Cursor(rows: seq<Row>, failsAfter: bool)

  /** The rows a loop over the cursor reads before it ends or an exception stops it. */
  function RowsRead(q: QueryResult): seq<Row>
  {
    if q.Cursor? then q.rows else []
  }

  /** buildContentValues: the values a new photo is inserted with. */
  function BuildContentValues(displayName: string, sdk: int): (values: map<string, string>)
    ensures DISPLAY_NAME in values && values[DISPLAY_NAME] == displayName
    ensures MIME_TYPE in values && values[MIME_TYPE] == JPEG_MIME
    ensures RELATIVE_PATH_COLUMN in values <==> sdk >= Q
    ensures RELATIVE_PATH_COLUMN in values ==> values[RELATIVE_PATH_COLUMN] == RELATIVE_PATH
    ensures values.Keys <= {DISPLAY_NAME, MIME_TYPE, RELATIVE_PATH_COLUMN}
  {
    var values := map[DISPLAY_NAME := displayName, MIME_TYPE := JPEG_MIME];
    if sdk >= Q then values[RELATIVE_PATH_COLUMN := RELATIVE_PATH] else values
  }

  /** The query of getImageContentUri: photos with exactly this display name, newest first. */
  function ImageByNameQuery(displayName: string): (q: MediaQuery)
    ensures q.collection == Images && q.selectionArgs == [displayName]
    ensures q.selection == DISPLAY_NAME + "=?"
    ensures q.sortOrder == NEWEST_FIRST
  {
    MediaQuery(Images, [ID_COLUMN, DISPLAY_NAME], DISPLAY_NAME + "=?", [displayName], NEWEST_FIRST)
  }

  /** getImageContentUri: the uri of the first row of the newest-first query, or null when the
      query throws, yields no cursor or no row. */
  function GetImageContentUri(displayName: string, resolver: MediaQuery -> QueryResult): (r: Option<Uri>)
    ensures var rows := RowsRead(resolver(ImageByNameQuery(displayName)));
      (r.Some? <==> rows != []) && (r.Some? ==> r.value == ContentUri(Images, rows[0].id))
  {
    var rows := RowsRead(resolver(ImageByNameQuery(displayName)));
    if rows == [] then None else Some(ContentUri(Images, rows[0].id))
  }

  predicate NewestFirst(rows: seq<Row>)
  {
    forall i, j :: 0 <= i < j < |rows| ==> rows[i].dateAdded >= rows[j].dateAdded
  }

  /** When the provider honours the requested order, the uri found is that of a newest row. This
      is a corollary of GetImageContentUri's contract and the order the provider is assumed to
      honour; it adds no fact about the code beyond those two. */
  lemma GetImageContentUriIsNewest(displayName: string, resolver: MediaQuery -> QueryResult)
    requires NewestFirst(RowsRead(resolver(ImageByNameQuery(displayName))))
    ensures var rows := RowsRead(resolver(ImageByNameQuery(displayName)));
      var r := GetImageContentUri(displayName, resolver);
      r.Some? ==> (r.value.id == rows[0].id &&
                   forall j :: 0 <= j < |rows| ==> rows[0].dateAdded >= rows[j].dateAdded)
  {
  }

  /** The LIKE argument that selects the application's photos: by folder from Android 10 on, by
      display name before. */
  function AppImagesSelectionArg(sdk: int): (arg: string)
    ensures sdk >= Q ==> arg == "%Pictures/SmartCameraX%"
    ensures sdk < Q ==> arg == "%SmartCameraX%"
  {
    if sdk >= Q then "%" + RELATIVE_PATH + "%" else "%SmartCameraX%"
  }

  /** The column that LIKE argument is matched against. */
  function AppImagesSelection(sdk: int): (selection: string)
    ensures selection == (if sdk >= Q then RELATIVE_PATH_COLUMN else DISPLAY_NAME) + " LIKE ?"
  {
    if sdk >= Q then RELATIVE_PATH_COLUMN + " LIKE ?" else DISPLAY_NAME + " LIKE ?"
  }

  /** The query of queryAppImages. */
  function AppImagesQuery(sdk: int): (q: MediaQuery)
    ensures q.collection == Images && q.selectionArgs == [AppImagesSelectionArg(sdk)]
    ensures q.selection == (if sdk >= Q then RELATIVE_PATH_COLUMN else DISPLAY_NAME) + " LIKE ?"
    ensures q.sortOrder == NEWEST_FIRST
  {
    MediaQuery(Images, [ID_COLUMN, DISPLAY_NAME, RELATIVE_PATH_COLUMN, DATE_ADDED],
               AppImagesSelection(sdk), [AppImagesSelectionArg(sdk)], NEWEST_FIRST)
  }

  /** queryAppImages: one photo uri per row read, in cursor order; when reading throws, the uris
      collected so far are returned. */
  method QueryAppImages(sdk: int, resolver: MediaQuery -> QueryResult) returns (result: seq<Uri>)
    ensures var rows := RowsRead(resolver(AppImagesQuery(sdk)));
      |result| == |rows| && forall i :: 0 <= i < |rows| ==> result[i] == ContentUri(Images, rows[i].id)
  {
    result := [];
    var cursor := resolver(AppImagesQuery(sdk));
    if cursor.Cursor? {
      var i := 0;
      while i < |cursor.rows|
        invariant 0 <= i <= |cursor.rows|
        invariant |result| == i
        invariant forall k :: 0 <= k < i ==> result[k] == ContentUri(Images, cursor.rows[k].id)
      {
        result := result + [ContentUri(Images, cursor.rows[i].id)];
        i := i + 1;
      }
      // cursor.failsAfter: the exception is caught and logged; the list built so far is returned
    }
  }

  /** From Android 10 on, a photo saved under RELATIVE_PATH is selected by queryAppImages, whatever
      the provider stores around that folder name (such as a trailing '/'). */
  lemma SavedPhotosAreSelected(sdk: int, before: string, after: string)
    requires sdk >= Q
    ensures AppImagesQuery(sdk).selection == RELATIVE_PATH_COLUMN + " LIKE ?"
    ensures Like(AppImagesSelectionArg(sdk), before + RELATIVE_PATH + after)
  {
    assert !HasWildcard(RELATIVE_PATH) by {
      forall i | 0 <= i < |RELATIVE_PATH| ensures !IsWildcard(RELATIVE_PATH[i]) {
      }
    }
    LikeContains(RELATIVE_PATH, before, after);
  }
}
