/** The diff callbacks, the click rule and the badge rule of the gallery grid adapter. */
module GalleryAdapter {
  import opened JavaText
  import opened MediaItems

  /** DIFF.areItemsTheSame: the same media entry. */
  predicate AreItemsTheSame(oldItem: MediaItem, newItem: MediaItem)
  {
    oldItem.uri == newItem.uri
  }

  /** DIFF.areContentsTheSame: MediaItem.equals. */
  predicate AreContentsTheSame(oldItem: MediaItem, newItem: MediaItem)
  {
    Equals(oldItem, Item(newItem))
  }

  /** Same contents implies same item, as DiffUtil requires; the converse fails when only the kind
      differs. */
  lemma ContentsSameImpliesItemsSame(a: MediaItem, b: MediaItem)
    ensures AreContentsTheSame(a, b) ==> AreItemsTheSame(a, b)
    ensures AreItemsTheSame(a, b) ==> (AreContentsTheSame(a, b) <==> a.isVideo == b.isVideo)
  {
  }

  /** What a click on the cell bound at `position` reports to the listener: the item bound there
      and that same position, or nothing when no listener was given. */
  function OnItemClick(items: seq<MediaItem>, position: nat, hasListener: bool): (r: Option<(MediaItem, nat)>)
    requires position < |items|
    ensures r.Some? <==> hasListener
    ensures r.Some? ==> r.value.1 == position && r.value.0 == items[position]
  {
    if hasListener then Some((items[position], position)) else None
  }

  /** The visibility of a cell's video badge view. */
  datatype Visibility = Visible | Gone

  /** ViewHolder.bind's badge rule: a cell that has a badge view shows it for a video and hides it
      for a photo; a cell without one keeps whatever it showed before. */
  function BindBadge(item: MediaItem, hasBadgeView: bool, prior: Visibility): (v: Visibility)
    ensures hasBadgeView ==> (v == Visible <==> item.isVideo)
    ensures !hasBadgeView ==> v == prior
  {
    if !hasBadgeView then prior else if item.isVideo then Visible else Gone
  }

  /** A recycled view holder bound to the items in turn, starting from the visibility it had. */
  function BindAll(items: seq<MediaItem>, hasBadgeView: bool, prior: Visibility): Visibility
  {
    if items == [] then prior else BindAll(items[1..], hasBadgeView, BindBadge(items[0], hasBadgeView, prior))
  }

  /** Recycling never leaves a stale badge: after any sequence of binds, a holder with a badge
      view shows it exactly when the last item bound is a video, whatever it was bound to before. */
  lemma {:induction false} RecycledBadgeMarksLastItem(items: seq<MediaItem>, prior: Visibility)
    requires items != []
    ensures BindAll(items, true, prior) == Visible <==> items[|items| - 1].isVideo
    decreases |items|
  {
    if |items| > 1 {
      RecycledBadgeMarksLastItem(items[1..], BindBadge(items[0], true, prior));
      assert items[1..][|items| - 2] == items[|items| - 1];
    }
  }

  /** A holder without a badge view is never changed by binding. */
  lemma {:induction false} NoBadgeViewNoChange(items: seq<MediaItem>, prior: Visibility)
    ensures BindAll(items, false, prior) == prior
    decreases |items|
  {
    if items != [] {
      NoBadgeViewNoChange(items[1..], prior);
    }
  }
}
