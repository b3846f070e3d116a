/** The gallery screen: it lists the application's photos and videos newest first and hands the
    whole list to the viewer when a cell is clicked. */
module Gallery {
  import opened JavaText
  import opened MediaItems
  import opened ImageStore

  /** The folder videos are saved in (CameraActivity.startRecording). */
  const MOVIES_PATH: string := "Movies/SmartCameraX"

  /** The LIKE argument of the gallery's query on one collection. */
  function SelectionArg(collection: Collection, sdk: int): (arg: string)
    ensures sdk >= Q && collection == Images ==> arg == "%Pictures/SmartCameraX%"
    ensures sdk >= Q && collection == Videos ==> arg == "%Movies/SmartCameraX%"
    ensures sdk < Q ==> arg == "%SmartCameraX%"
  {
    if sdk < Q then "%SmartCameraX%"
    else if collection == Images then "%" + RELATIVE_PATH + "%"
    else "%Movies/SmartCameraX%"
  }

  /** The query queryAppMedia sends for one collection: by folder from Android 10 on, by display
      name before, newest first. */
  function GalleryQuery(collection: Collection, sdk: int): (q: MediaQuery)
    ensures q.collection == collection && q.selectionArgs == [SelectionArg(collection, sdk)]
    ensures q.selection == (if sdk >= Q then RELATIVE_PATH_COLUMN else DISPLAY_NAME) + " LIKE ?"
    ensures q.sortOrder == NEWEST_FIRST
  {
    MediaQuery(collection, [ID_COLUMN, RELATIVE_PATH_COLUMN, DATE_ADDED],
               (if sdk >= Q then RELATIVE_PATH_COLUMN else DISPLAY_NAME) + " LIKE ?",
               [SelectionArg(collection, sdk)], NEWEST_FIRST)
  }

  /** The gallery selects its photos exactly as ImageStore.queryAppImages does. */
  lemma GalleryPhotosMatchImageStore(sdk: int)
    ensures SelectionArg(Images, sdk) == AppImagesSelectionArg(sdk)
  {
  }

  /** The entry built from one cursor row of the photo (isVideo false) or video collection. */
  function ItemOf(row: Row, isVideo: bool): MediaItem
  {
    MediaItem(ContentUri(if isVideo then Videos else Images, row.id), isVideo, row.dateAdded)
  }

  function RowItems(rows: seq<Row>, isVideo: bool): seq<MediaItem>
  {
    seq(|rows|, i requires 0 <= i < |rows| => ItemOf(rows[i], isVideo))
  }

  // ---------------------------------------------------------------------------
  // Collections.sort(result, comparingLong(dateAdded).reversed()): a stable sort, newest first.

  predicate NewestFirst(s: seq<MediaItem>)
  {
    forall i, j :: 0 <= i < j < |s| ==> s[i].dateAdded >= s[j].dateAdded
  }

  /** Puts x in front of the first entry that is not newer than it. */
  function InsertNewest(x: MediaItem, s: seq<MediaItem>): seq<MediaItem>
  {
    if s == [] || s[0].dateAdded <= x.dateAdded then [x] + s
    else [s[0]] + InsertNewest(x, s[1..])
  }

  /** The stable newest-first order of s. */
  function SortNewestFirst(s: seq<MediaItem>): seq<MediaItem>
  {
    if s == [] then [] else InsertNewest(s[0], SortNewestFirst(s[1..]))
  }

  /** The entries of s added at the date d, in their order in s. */
  function AddedAt(s: seq<MediaItem>, d: int): seq<MediaItem>
  {
    if s == [] then []
    else (if s[0].dateAdded == d then [s[0]] else []) + AddedAt(s[1..], d)
  }

  lemma {:induction false} InsertNewestPermutes(x: MediaItem, s: seq<MediaItem>)
    ensures multiset(InsertNewest(x, s)) == multiset{x} + multiset(s)
  {
    if s != [] && s[0].dateAdded > x.dateAdded {
      InsertNewestPermutes(x, s[1..]);
      assert s == [s[0]] + s[1..];
    }
  }

  lemma {:induction false} InsertNewestSorted(x: MediaItem, s: seq<MediaItem>)
    requires NewestFirst(s)
    ensures NewestFirst(InsertNewest(x, s))
  {
    if s != [] && s[0].dateAdded > x.dateAdded {
      var t := InsertNewest(x, s[1..]);
      InsertNewestSorted(x, s[1..]);
      InsertNewestPermutes(x, s[1..]);
      forall j | 0 <= j < |t| ensures s[0].dateAdded >= t[j].dateAdded {
        assert t[j] in multiset(t);
        if t[j] != x {
          assert t[j] in multiset(s[1..]);
          var k :| 0 <= k < |s[1..]| && s[1..][k] == t[j];
          assert s[k + 1] == t[j];
        }
      }
    }
  }

  /** The sort only reorders. */
  lemma {:induction false} SortPermutes(s: seq<MediaItem>)
    ensures multiset(SortNewestFirst(s)) == multiset(s)
  {
    if s != [] {
      SortPermutes(s[1..]);
      InsertNewestPermutes(s[0], SortNewestFirst(s[1..]));
      assert s == [s[0]] + s[1..];
    }
  }

  /** The sort puts the newest entries first. */
  lemma {:induction false} SortIsNewestFirst(s: seq<MediaItem>)
    ensures NewestFirst(SortNewestFirst(s))
  {
    if s != [] {
      SortIsNewestFirst(s[1..]);
      InsertNewestSorted(s[0], SortNewestFirst(s[1..]));
    }
  }

  lemma {:induction false} InsertNewestKeepsTies(x: MediaItem, s: seq<MediaItem>, d: int)
    ensures AddedAt(InsertNewest(x, s), d) == (if x.dateAdded == d then [x] else []) + AddedAt(s, d)
  {
    var mine := if x.dateAdded == d then [x] else [];
    if s == [] || s[0].dateAdded <= x.dateAdded {
      assert ([x] + s)[1..] == s;
    } else {
      var rest := InsertNewest(x, s[1..]);
      var head := if s[0].dateAdded == d then [s[0]] else [];
      InsertNewestKeepsTies(x, s[1..], d);
      assert ([s[0]] + rest)[0] == s[0] && ([s[0]] + rest)[1..] == rest;
      calc {
        AddedAt(InsertNewest(x, s), d);
        head + AddedAt(rest, d);
        head + (mine + AddedAt(s[1..], d));
        { assert x.dateAdded == d ==> head == []; }
        mine + (head + AddedAt(s[1..], d));
        mine + AddedAt(s, d);
      }
    }
  }

  /** Stability: the entries added at one date keep their relative order. */
  lemma {:induction false} SortIsStable(s: seq<MediaItem>, d: int)
    ensures AddedAt(SortNewestFirst(s), d) == AddedAt(s, d)
  {
    if s != [] {
      SortIsStable(s[1..], d);
      InsertNewestKeepsTies(s[0], SortNewestFirst(s[1..]), d);
    }
  }

  lemma {:induction false} AddedAtAppend(a: seq<MediaItem>, b: seq<MediaItem>, d: int)
    ensures AddedAt(a + b, d) == AddedAt(a, d) + AddedAt(b, d)
  {
    if a != [] {
      AddedAtAppend(a[1..], b, d);
      assert (a + b)[1..] == a[1..] + b;
    } else {
      assert a + b == b;
    }
  }

  // ---------------------------------------------------------------------------
  // queryAppMedia

  /** queryAppMedia: the photos read from the photo query followed by the videos read from the
      video query, then sorted newest first. A failing query contributes the rows read before it
      failed and never stops the other query. */
  method QueryAppMedia(sdk: int, resolver: MediaQuery -> QueryResult) returns (result: seq<MediaItem>)
    ensures var photos := RowItems(RowsRead(resolver(GalleryQuery(Images, sdk))), false);
      var videos := RowItems(RowsRead(resolver(GalleryQuery(Videos, sdk))), true);
      && result == SortNewestFirst(photos + videos)
      && multiset(result) == multiset(photos + videos)
      && NewestFirst(result)
      && (forall d :: AddedAt(result, d) == AddedAt(photos, d) + AddedAt(videos, d))
      && (forall x :: x in result ==> (x.isVideo <==> x.uri.collection == Videos))
      && (forall x :: x in result && !x.isVideo <==> x in photos)
      && (forall x :: x in result && x.isVideo <==> x in videos)
  {
    result := [];
    var photoCursor := resolver(GalleryQuery(Images, sdk));
    if photoCursor.Cursor? {
      var i := 0;
      while i < |photoCursor.rows|
        invariant 0 <= i <= |photoCursor.rows|
        invariant |result| == i
        invariant forall k :: 0 <= k < i ==> result[k] == ItemOf(photoCursor.rows[k], false)
      {
        result := result + [ItemOf(photoCursor.rows[i], false)];
        i := i + 1;
      }
    }
    ghost var photos := RowItems(RowsRead(photoCursor), false);
    assert result == photos;

    var videoCursor := resolver(GalleryQuery(Videos, sdk));
    if videoCursor.Cursor? {
      var i := 0;
      while i < |videoCursor.rows|
        invariant 0 <= i <= |videoCursor.rows|
        invariant |result| == |photos| + i
        invariant result[..|photos|] == photos
        invariant forall k :: 0 <= k < i ==> result[|photos| + k] == ItemOf(videoCursor.rows[k], true)
      {
        result := result + [ItemOf(videoCursor.rows[i], true)];
        i := i + 1;
      }
    }
    ghost var videos := RowItems(RowsRead(videoCursor), true);
    assert result == photos + videos;

    ghost var merged := result;
    result := SortNewestFirst(result);
    SortPermutes(merged);
    SortIsNewestFirst(merged);
    forall d ensures AddedAt(result, d) == AddedAt(photos, d) + AddedAt(videos, d) {
      SortIsStable(merged, d);
      AddedAtAppend(photos, videos, d);
    }
    forall x ensures x in result <==> x in photos || x in videos {
      assert x in result <==> x in multiset(result);
      assert x in merged <==> x in multiset(merged);
    }
    RowItemsKinds(RowsRead(photoCursor), false);
    RowItemsKinds(RowsRead(videoCursor), true);
  }

  /** Within one date the photos come before the videos. */
  lemma {:induction false} PhotosBeforeVideosOnTies(photos: seq<MediaItem>, videos: seq<MediaItem>, d: int, i: nat, j: nat)
    requires forall k :: 0 <= k < |photos| ==> !photos[k].isVideo
    requires forall k :: 0 <= k < |videos| ==> videos[k].isVideo
    requires var tie := AddedAt(SortNewestFirst(photos + videos), d);
      i < |tie| && j < |tie| && !tie[i].isVideo && tie[j].isVideo
    ensures i < j
  {
    SortIsStable(photos + videos, d);
    AddedAtAppend(photos, videos, d);
    var p := AddedAt(photos, d);
    AddedAtKeepsKind(photos, d, false);
    AddedAtKeepsKind(videos, d, true);
    var tie := p + AddedAt(videos, d);
    forall k | |p| <= k < |tie| ensures tie[k].isVideo {
      assert tie[k] == AddedAt(videos, d)[k - |p|];
    }
    forall k | 0 <= k < |p| ensures !tie[k].isVideo {
      assert tie[k] == p[k];
    }
  }

  lemma {:induction false} AddedAtKeepsKind(s: seq<MediaItem>, d: int, isVideo: bool)
    requires forall k :: 0 <= k < |s| ==> s[k].isVideo == isVideo
    ensures forall k :: 0 <= k < |AddedAt(s, d)| ==> AddedAt(s, d)[k].isVideo == isVideo
  {
    if s != [] {
      AddedAtKeepsKind(s[1..], d, isVideo);
    }
  }

  /** Every entry built from a collection's rows has that collection's kind. */
  lemma RowItemsKinds(rows: seq<Row>, isVideo: bool)
    ensures forall x :: x in RowItems(rows, isVideo) ==>
      x.isVideo == isVideo && x.uri.collection == (if isVideo then Videos else Images)
  {
  }

  // ---------------------------------------------------------------------------
  // The click handler and loadImages

  /** The click handler: the uri list and the boolean[] of video flags it builds from the adapter's
      current list, entry k of both taken from entry k of the list. */
  method ViewerArgs(current: seq<MediaItem>) returns (uris: seq<Uri>, videoFlags: array<bool>)
    ensures |uris| == videoFlags.Length == |current|
    ensures forall k :: 0 <= k < |current| ==> uris[k] == current[k].uri && videoFlags[k] == current[k].isVideo
  {
    uris := [];
    videoFlags := new bool[|current|];
    var i := 0;
    while i < |current|
      invariant 0 <= i <= |current| && |uris| == i
      invariant forall k :: 0 <= k < i ==> uris[k] == current[k].uri && videoFlags[k] == current[k].isVideo
    {
      uris := uris + [current[i].uri];
      videoFlags[i] := current[i].isVideo;
      i := i + 1;
    }
  }

  /** The views loadImages updates: the empty-gallery label, the grid and the adapter's list. */
  class GalleryScreen {
    var emptyLabelVisible: bool
    var gridVisible: bool
    var adapterList: seq<MediaItem>

    /** Set-up only: the views as onCreate leaves them, before the first loadImages. */
    constructor (emptyLabelShown: bool, gridShown: bool)
      ensures emptyLabelVisible == emptyLabelShown && gridVisible == gridShown && adapterList == []
    {
      emptyLabelVisible, gridVisible, adapterList := emptyLabelShown, gridShown, [];
    }

    /** loadImages: with no media the label is shown, the grid hidden and the adapter left alone;
        otherwise the label is hidden, the grid shown and the list submitted. */
    method LoadImages(sdk: int, resolver: MediaQuery -> QueryResult)
      modifies this
      ensures var items := SortNewestFirst(
          RowItems(RowsRead(resolver(GalleryQuery(Images, sdk))), false) +
          RowItems(RowsRead(resolver(GalleryQuery(Videos, sdk))), true));
        if items == [] then emptyLabelVisible && !gridVisible && adapterList == old(adapterList)
        else !emptyLabelVisible && gridVisible && adapterList == items
    {
      var items := QueryAppMedia(sdk, resolver);
      if items == [] {
        emptyLabelVisible := true;
        gridVisible := false;
      } else {
        emptyLabelVisible := false;
        gridVisible := true;
        adapterList := items;
      }
    }
  }
}
