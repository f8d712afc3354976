/** The bookmark button of an article: the saved articles live in the
    browser's storage under "ksef-bookmarks"; the button shows whether this
    article is among them and adds or removes it. */
module BookmarkButton {
  import opened Wrappers
  import opened Collections

  datatype Bookmark = Bookmark(id: int, title: string, slug: string, savedAt: string)

  /** The storage entry: absent, the empty text, a saved list, or non-empty
      text that is not JSON. */
  datatype Entry = Missing | EmptyText | Saved(list: seq<Bookmark>) | Malformed

  /** `getBookmarks`: without a window, or without a non-empty entry, the
      list is empty; `JSON.parse` throws on malformed text (`None`), as no
      handler catches it. */
  function GetBookmarks(hasWindow: bool, entry: Entry): (r: Option<seq<Bookmark>>)
    ensures r.None? <==> hasWindow && entry.Malformed?
    ensures !hasWindow || entry.Missing? || entry.EmptyText? ==> r == Some([])
    ensures hasWindow && entry.Saved? ==> r == Some(entry.list)
  {
    if !hasWindow then Some([])
    else match entry
      case Saved(list) => Some(list)
      case Malformed => None
      case _ => Some([])
  }

  predicate HasId(list: seq<Bookmark>, id: int) {
    exists b :: b in list && b.id == id
  }

  /** The list without any entry for the article. */
  function Without(list: seq<Bookmark>, id: int): (r: seq<Bookmark>)
    ensures !HasId(r, id)
    ensures forall b :: b in r <==> b in list && b.id != id
    ensures !HasId(list, id) ==> r == list
  {
    var r := Filter(list, (b: Bookmark) => b.id != id);
    if !HasId(list, id) then
      FilterAll(list, (b: Bookmark) => b.id != id);
      r
    else r
  }

  /** Removal works entry by entry and keeps the order of the others. */
  lemma WithoutAppend(list: seq<Bookmark>, x: Bookmark, id: int)
    ensures Without(list + [x], id) == Without(list, id) + (if x.id == id then [] else [x])
  {
    FilterAppend(list, [x], (b: Bookmark) => b.id != id);
  }

  class Button {
    const articleId: int
    const title: string
    const slug: string
    var isBookmarked: bool
    var showTooltip: bool
    /** The browser's "ksef-bookmarks" entry. */
    var entry: Entry

    /** The button agrees with the stored list whenever that list can be
        read (its handlers run in the browser). */
    predicate Valid()
      reads this
    {
      GetBookmarks(true, entry).Some? ==> (isBookmarked <==> HasId(GetBookmarks(true, entry).value, articleId))
    }

    /** Mounting reads the stored list: bookmarked exactly when it holds this
        article; when the read throws, the button keeps its initial state. */
    constructor(articleId: int, title: string, slug: string, entry: Entry)
      ensures this.articleId == articleId && this.title == title && this.slug == slug
      ensures this.entry == entry && !showTooltip
      ensures isBookmarked <==> entry.Saved? && HasId(entry.list, articleId)
      ensures Valid()
    {
      this.articleId, this.title, this.slug := articleId, title, slug;
      this.entry := entry;
      showTooltip := false;
      var saved := GetBookmarks(true, entry);
      isBookmarked := saved.Some? && HasId(saved.value, articleId);
    }

    /** `toggleBookmark` at the instant `now`: removes every entry of the
        article, or appends one new entry, writes the list back, flips the
        button and shows the tooltip. On malformed storage `getBookmarks`
        throws first, so nothing is written or shown (`thrown`). */
    method Toggle(now: string) returns (thrown: bool)
      requires Valid()
      modifies this
      ensures Valid()
      ensures thrown <==> old(entry).Malformed?
      ensures thrown ==> entry == old(entry) && isBookmarked == old(isBookmarked) && showTooltip == old(showTooltip)
      ensures !thrown ==> isBookmarked == !old(isBookmarked) && showTooltip
      ensures !thrown && old(isBookmarked) ==>
        entry == Saved(Without(GetBookmarks(true, old(entry)).value, articleId))
      ensures !thrown && !old(isBookmarked) ==>
        entry == Saved(GetBookmarks(true, old(entry)).value + [Bookmark(articleId, title, slug, now)])
    {
      var saved := GetBookmarks(true, entry);
      if saved.None? {
        return true;
      }
      thrown := false;
      var bookmarks := saved.value;
      if isBookmarked {
        entry := Saved(Without(bookmarks, articleId));
        isBookmarked := false;
      } else {
        var added := bookmarks + [Bookmark(articleId, title, slug, now)];
        assert added[|added| - 1] in added;
        entry := Saved(added);
        isBookmarked := true;
      }
      showTooltip := true;
    }

    /** The tooltip's timer. */
    method HideTooltip()
      modifies this
      ensures !showTooltip && isBookmarked == old(isBookmarked) && entry == old(entry)
    {
      showTooltip := false;
    }
  }

  /** Bookmarking and then un-bookmarking an article that was not saved
      gives back the stored list exactly. */
  lemma ToggleTwiceRestores(list: seq<Bookmark>, b: Bookmark)
    requires !HasId(list, b.id)
    ensures Without(list + [b], b.id) == list
  {
    WithoutAppend(list, b, b.id);
  }
}
