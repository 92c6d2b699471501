/**
 * The saved-items page's category filter: with no category chosen every
 * saved item is shown, otherwise exactly the items of that type of art, in
 * their saved order; without a user or a `saved` list nothing is shown.
 */
module SavedPage {
  import opened Wrappers
  import opened Sequences

  datatype SavedItem = SavedItem(id: string, typeOfArt: string, image: string)

  /** The signed-in user as far as this page reads it: `user?.saved`. */
  datatype SavedUser = SavedUser(saved: Option<seq<SavedItem>>)

  /** The filter applied to each item: a chosen category must match. */
  predicate Shown(category: string, item: SavedItem) {
    category == "" || item.typeOfArt == category
  }

  /** `user?.saved?.filter(...) || []`. */
  function FilteredSaved(user: Option<SavedUser>, category: string): (r: seq<SavedItem>)
    ensures user.None? || user.value.saved.None? ==> r == []
    ensures forall i | 0 <= i < |r| :: Shown(category, r[i])
  {
    if user.None? || user.value.saved.None? then []
    else Filter(user.value.saved.value, (item: SavedItem) => Shown(category, item))
  }

  /** The items shown always form a subsequence of the saved list. */
  lemma FilteredIsSubsequence(saved: seq<SavedItem>, category: string)
    ensures IsSubsequence(FilteredSaved(Some(SavedUser(Some(saved))), category), saved)
  {
    FilterIsSubsequence(saved, (item: SavedItem) => Shown(category, item));
  }

  /** With no category chosen, the saved list is shown as it is. */
  lemma NoCategoryShowsAll(saved: seq<SavedItem>)
    ensures FilteredSaved(Some(SavedUser(Some(saved))), "") == saved
  {
    FilterAll(saved, (item: SavedItem) => Shown("", item));
  }

  /**
   * With a category chosen, each saved item of that type of art is shown as
   * often as it is saved, and no other item is shown.
   */
  lemma CategoryShowsExactlyMatching(saved: seq<SavedItem>, category: string, item: SavedItem)
    requires category != ""
    ensures multiset(FilteredSaved(Some(SavedUser(Some(saved))), category))[item] ==
              if item.typeOfArt == category then multiset(saved)[item] else 0
  {
    FilterCounts(saved, (x: SavedItem) => Shown(category, x), item);
  }
}
