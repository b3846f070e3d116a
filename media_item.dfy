/** A gallery entry (photo or video) and its Java equality and hashing. */
module MediaItems {
  import opened JavaText

  /** The two media-store collections the application writes to. */
  datatype Collection = Images | Videos

  /** A content URI as built by ContentUris.withAppendedId(collection, id). */
  datatype Uri = ContentUri(collection: Collection, id: int)

  /** dateAdded is MediaStore.DATE_ADDED, in seconds since the epoch. */
  datatype MediaItem = MediaItem(uri: Uri, isVideo: bool, dateAdded: int)

  /** The argument of equals(Object): null, another MediaItem, or an object of any other class. */
  datatype JavaObject = Null | Item(item: MediaItem) | Other

  /** MediaItem.equals: another MediaItem with the same uri and the same kind; dateAdded is not
      compared, and any other argument (null included) is unequal. */
  predicate Equals(self: MediaItem, o: JavaObject)
  {
    match o
    case Item(other) => self.uri == other.uri && self.isVideo == other.isVideo
    case _ => false
  }

  /** MediaItem.hashCode: 31 * uri.hashCode() + (isVideo ? 1 : 0) in 32-bit int arithmetic.
      Uri.hashCode belongs to the platform; it is passed in as a function of the uri. */
  function HashCode(self: MediaItem, uriHash: Uri -> int32): int32
  {
    Wrap32(31 * uriHash(self.uri) as int + (if self.isVideo then 1 else 0))
  }

  /** Two items are equal exactly when uri and kind agree, whatever their dates. */
  lemma EqualsIgnoresDate(a: MediaItem, b: MediaItem)
    ensures Equals(a, Item(b)) <==> a.uri == b.uri && a.isVideo == b.isVideo
    ensures Equals(a, Item(b)) ==> Equals(a, Item(b.(dateAdded := a.dateAdded)))
  {
  }

  /** Only a MediaItem can be equal to a MediaItem. */
  lemma EqualsOnlyItems(a: MediaItem, o: JavaObject)
    ensures !o.Item? ==> !Equals(a, o)
  {
  }

  /** equals is an equivalence relation on MediaItems. */
  lemma EqualsIsEquivalence(a: MediaItem, b: MediaItem, c: MediaItem)
    ensures Equals(a, Item(a))
    ensures Equals(a, Item(b)) ==> Equals(b, Item(a))
    ensures Equals(a, Item(b)) && Equals(b, Item(c)) ==> Equals(a, Item(c))
  {
  }

  /** The hashCode contract: equal items hash alike. */
  lemma EqualItemsHashAlike(a: MediaItem, b: MediaItem, uriHash: Uri -> int32)
    requires Equals(a, Item(b))
    ensures HashCode(a, uriHash) == HashCode(b, uriHash)
  {
  }

  /** A photo and a video with the same uri never collide, even after 32-bit wrap-around. */
  lemma KindSeparatesHashes(a: MediaItem, b: MediaItem, uriHash: Uri -> int32)
    requires a.uri == b.uri && !a.isVideo && b.isVideo
    ensures HashCode(a, uriHash) != HashCode(b, uriHash)
  {
    Wrap32Successor(31 * uriHash(a.uri) as int);
  }
}

