/** The display names the camera gives the photos and videos it saves, and whether the
    media-store selections used before Android 10 find them again. */
module SavedMedia {
  import opened JavaText
  import opened MediaItems
  import ImageStore
  import Gallery

  predicate IsDigit(c: char)
  {
    '0' <= c <= '9'
  }

  /** A time stamp as SimpleDateFormat("yyyyMMdd_HHmmss", Locale.US) prints it. */
  predicate IsStamp(stamp: string)
  {
    |stamp| == 15 && stamp[8] == '_'
    && forall i :: 0 <= i < 15 && i != 8 ==> IsDigit(stamp[i])
  }

  /** The display name takePhoto saves a photo under. */
  function PhotoName(stamp: string): string
  {
    stamp + ".jpg"
  }

  /** The display name startRecording saves a video under. */
  function VideoName(stamp: string): string
  {
    stamp + ".mp4"
  }

  /** The name the app's own media evidently needs before Android 10, where the selection is on
      the display name: the application's name in front of the stamp. */
  const APP_NAME: string := "SmartCameraX"

  function CorrectedPhotoName(stamp: string): string
  {
    APP_NAME + "_" + stamp + ".jpg"
  }

  function CorrectedVideoName(stamp: string): string
  {
    APP_NAME + "_" + stamp + ".mp4"
  }

  /** A name in which no character folds to an 's' cannot contain the application's name. */
  lemma NoSMeansNoMatch(name: string)
    requires forall i :: 0 <= i < |name| ==> AsciiLower(name[i]) != 's'
    ensures !Like("%" + APP_NAME + "%", name)
  {
    if Like("%" + APP_NAME + "%", name) {
      LikeNeedsFirstChar(APP_NAME, name);
      assert false;
    }
  }

  lemma StampHasNoS(stamp: string, ext: string)
    requires IsStamp(stamp) && ext in {".jpg", ".mp4"}
    ensures forall i :: 0 <= i < |stamp + ext| ==> AsciiLower((stamp + ext)[i]) != 's'
  {
    forall i | 0 <= i < |stamp + ext| ensures AsciiLower((stamp + ext)[i]) != 's' {
      if i < |stamp| {
        assert (stamp + ext)[i] == stamp[i];
        assert i != 8 ==> IsDigit(stamp[i]);
      } else {
        assert (stamp + ext)[i] == ext[i - |stamp|];
      }
    }
  }

  /** Before Android 10 the gallery and queryAppImages select by DISPLAY_NAME LIKE
      '%SmartCameraX%', yet the camera names its files after the time stamp alone: neither a photo
      nor a video the app saved is ever selected. */
  lemma PreQSelectionMissesAppMedia(sdk: int, stamp: string)
    requires sdk < ImageStore.Q && IsStamp(stamp)
    ensures ImageStore.AppImagesQuery(sdk).selection == ImageStore.DISPLAY_NAME + " LIKE ?"
    ensures Gallery.GalleryQuery(Images, sdk).selection == ImageStore.DISPLAY_NAME + " LIKE ?"
    ensures Gallery.GalleryQuery(Videos, sdk).selection == ImageStore.DISPLAY_NAME + " LIKE ?"
    ensures !Like(ImageStore.AppImagesSelectionArg(sdk), PhotoName(stamp))
    ensures !Like(Gallery.SelectionArg(Images, sdk), PhotoName(stamp))
    ensures !Like(Gallery.SelectionArg(Videos, sdk), VideoName(stamp))
  {
    assert "%" + APP_NAME + "%" == "%SmartCameraX%";
    StampHasNoS(stamp, ".jpg");
    StampHasNoS(stamp, ".mp4");
    NoSMeansNoMatch(PhotoName(stamp));
    NoSMeansNoMatch(VideoName(stamp));
  }

  /** With the application's name in front of the stamp, the pre-Android 10 selections find every
      photo and video the app saves, and the names keep the stamp and the extension. */
  lemma CorrectedNamesAreSelected(sdk: int, stamp: string)
    requires sdk < ImageStore.Q && IsStamp(stamp)
    ensures Like(ImageStore.AppImagesSelectionArg(sdk), CorrectedPhotoName(stamp))
    ensures Like(Gallery.SelectionArg(Images, sdk), CorrectedPhotoName(stamp))
    ensures Like(Gallery.SelectionArg(Videos, sdk), CorrectedVideoName(stamp))
    ensures CorrectedPhotoName(stamp)[|APP_NAME| + 1..] == PhotoName(stamp)
    ensures CorrectedVideoName(stamp)[|APP_NAME| + 1..] == VideoName(stamp)
  {
    assert !HasWildcard(APP_NAME) by {
      forall i | 0 <= i < |APP_NAME| ensures !IsWildcard(APP_NAME[i]) {
      }
    }
    assert "%" + APP_NAME + "%" == "%SmartCameraX%";
    assert CorrectedPhotoName(stamp) == [] + APP_NAME + ("_" + stamp + ".jpg");
    assert CorrectedVideoName(stamp) == [] + APP_NAME + ("_" + stamp + ".mp4");
    LikeContains(APP_NAME, [], "_" + stamp + ".jpg");
    LikeContains(APP_NAME, [], "_" + stamp + ".mp4");
  }

  /** From Android 10 on, the selection is by folder, and the names as written are found. */
  lemma PostQSelectionFindsVideos(sdk: int, before: string, after: string)
    requires sdk >= ImageStore.Q
    ensures Gallery.GalleryQuery(Videos, sdk).selection == ImageStore.RELATIVE_PATH_COLUMN + " LIKE ?"
    ensures Like(Gallery.SelectionArg(Videos, sdk), before + Gallery.MOVIES_PATH + after)
  {
    assert !HasWildcard(Gallery.MOVIES_PATH) by {
      forall i | 0 <= i < |Gallery.MOVIES_PATH| ensures !IsWildcard(Gallery.MOVIES_PATH[i]) {
      }
    }
    assert Gallery.SelectionArg(Videos, sdk) == "%" + Gallery.MOVIES_PATH + "%";
    LikeContains(Gallery.MOVIES_PATH, before, after);
  }
}
