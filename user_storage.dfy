/** The reader's local data kept in the browser's storage under one key: the
    slugs of read articles, the bookmarked slugs, and the reading history
    (newest first, at most 20 entries). Each operation loads the record,
    changes it and writes it back. */
module UserStorage {
  import opened Wrappers
  import opened Collections

  datatype HistoryEntry = HistoryEntry(slug: string, timestamp: int)

  datatype UserData = UserData(
    readArticles: seq<string>,
    bookmarkedArticles: seq<string>,
    readingHistory: seq<HistoryEntry>)

  /** What the storage key holds: a record written by this module, or text
      that does not parse into one (including the empty string, which is falsy). */
  datatype Stored = Valid(data: UserData) | Malformed

  const EmptyData := UserData([], [], [])

  const MaxHistory := 20

  /** No value occurs twice. */
  predicate NoDuplicates<T(==)>(s: seq<T>) {
    forall i, j :: 0 <= i < j < |s| ==> s[i] != s[j]
  }

  /** The record after `markArticleAsRead(slug)`: the slug appended when absent. */
  function MarkRead(d: UserData, slug: string): (r: UserData)
    ensures slug in r.readArticles
    ensures slug in d.readArticles ==> r == d
    ensures slug !in d.readArticles ==> r.readArticles == d.readArticles + [slug]
    ensures r.bookmarkedArticles == d.bookmarkedArticles && r.readingHistory == d.readingHistory
  {
    if slug in d.readArticles then d else d.(readArticles := d.readArticles + [slug])
  }

  /** Marking twice is marking once. */
  lemma MarkReadIdempotent(d: UserData, slug: string)
    ensures MarkRead(MarkRead(d, slug), slug) == MarkRead(d, slug)
  {
  }

  /** Marking never creates a duplicate read entry. */
  lemma MarkReadKeepsNoDuplicates(d: UserData, slug: string)
    requires NoDuplicates(d.readArticles)
    ensures NoDuplicates(MarkRead(d, slug).readArticles)
  {
    var r := MarkRead(d, slug).readArticles;
    if slug !in d.readArticles {
      forall i, j | 0 <= i < j < |r|
        ensures r[i] != r[j]
      {
        if j == |r| - 1 {
          assert r[i] == d.readArticles[i];
        }
      }
    }
  }

  /** `s.splice(i, 1)`: the element at `i` removed. */
  function RemoveAt<T>(s: seq<T>, i: nat): (r: seq<T>)
    requires i < |s|
    ensures |r| == |s| - 1
    ensures forall k :: 0 <= k < i ==> r[k] == s[k]
    ensures forall k :: i <= k < |r| ==> r[k] == s[k + 1]
  {
    s[..i] + s[i + 1..]
  }

  /** `s.indexOf(x)`. */
  function IndexOf<T(==)>(s: seq<T>, x: T): (r: int)
    ensures -1 <= r < |s|
    ensures r >= 0 ==> s[r] == x && x !in s[..r]
    ensures r == -1 <==> x !in s
  {
    if s == [] then -1
    else if s[0] == x then 0
    else
      var k := IndexOf(s[1..], x);
      assert s[1..][..k + 1] == s[1..k + 2] by { }
      if k == -1 then -1 else k + 1
  }

  /** The bookmark list after `toggleBookmark(slug)`: the first occurrence
      removed when present, otherwise the slug appended. */
  function ToggleList(s: seq<string>, slug: string): (r: seq<string>)
    ensures slug !in s ==> r == s + [slug]
    ensures slug in s ==> |r| == |s| - 1 && multiset(r) == multiset(s) - multiset{slug}
  {
    var i := IndexOf(s, slug);
    if i > -1 then
      assert s == s[..i] + [s[i]] + s[i + 1..];
      RemoveAt(s, i)
    else s + [slug]
  }

  /** The value `toggleBookmark` returns: whether the slug was added. */
  function Added(s: seq<string>, slug: string): (r: bool)
    ensures r <==> slug !in s
  {
    !(IndexOf(s, slug) > -1)
  }

  /** On a list without duplicates, the result of a toggle is the slug's new
      membership, the list stays without duplicates, and every other slug
      keeps its membership. */
  lemma ToggleMembership(s: seq<string>, slug: string)
    requires NoDuplicates(s)
    ensures Added(s, slug) <==> slug in ToggleList(s, slug)
    ensures NoDuplicates(ToggleList(s, slug))
    ensures forall t :: t != slug ==> (t in ToggleList(s, slug) <==> t in s)
  {
    var r := ToggleList(s, slug);
    if slug in s {
      var i := IndexOf(s, slug);
      assert r == RemoveAt(s, i);
    } else {
      forall a, b | 0 <= a < b < |r|
        ensures r[a] != r[b]
      {
        if b == |r| - 1 {
          assert r[a] == s[a];
        }
      }
    }
    forall t | t != slug
      ensures t in r <==> t in s
    {
      assert t in r <==> t in multiset(r);
      assert t in s <==> t in multiset(s);
    }
  }

  /** With a duplicated slug the result and the new membership disagree: the
      slug is reported removed but still there. Lists written by this module
      never hold duplicates (`ToggleMembership`). */
  lemma ToggleWithDuplicate()
    ensures !Added(["a", "a"], "a") && "a" in ToggleList(["a", "a"], "a")
  {
    assert ToggleList(["a", "a"], "a") == ["a"];
  }

  /** Toggling an absent slug twice restores the list exactly; toggling a
      present one twice restores its membership and moves it to the end. */
  lemma ToggleTwice(s: seq<string>, slug: string)
    requires NoDuplicates(s)
    ensures slug !in s ==> ToggleList(ToggleList(s, slug), slug) == s
    ensures slug in ToggleList(ToggleList(s, slug), slug) <==> slug in s
  {
    ToggleMembership(s, slug);
    var r := ToggleList(s, slug);
    if slug !in s {
      assert IndexOf(r, slug) == |s| by {
        assert r[|s|] == slug;
        assert r[..|s|] == s;
      }
      assert RemoveAt(r, |s|) == s;
    } else {
      assert slug !in r;
    }
  }

  /** The history after `addToReadingHistory(slug)` at time `now`: earlier
      entries for the slug dropped, the new entry put first, and the list cut to 20. */
  function AddToHistory(h: seq<HistoryEntry>, slug: string, now: int): (r: seq<HistoryEntry>)
    ensures 1 <= |r| <= MaxHistory
    ensures r[0] == HistoryEntry(slug, now)
    ensures forall k :: 1 <= k < |r| ==> r[k].slug != slug
    ensures |r| == Min(|Filter(h, (e: HistoryEntry) => e.slug != slug)| + 1, MaxHistory)
    ensures r[1..] == Filter(h, (e: HistoryEntry) => e.slug != slug)[..|r| - 1]
  {
    var kept := [HistoryEntry(slug, now)] + Filter(h, (e: HistoryEntry) => e.slug != slug);
    var r := kept[..Min(|kept|, MaxHistory)];
    assert r[1..] == kept[1..|r|];
    r
  }

  /** After adding, the slug occurs in exactly one entry, the first. */
  lemma AddedOnce(h: seq<HistoryEntry>, slug: string, now: int)
    ensures Count(AddToHistory(h, slug, now), (e: HistoryEntry) => e.slug == slug) == 1
  {
    var r := AddToHistory(h, slug, now);
    var p := (e: HistoryEntry) => e.slug == slug;
    assert r == [r[0]] + r[1..];
    CountAppend([r[0]], r[1..], p);
    CountNone(r[1..], p);
    assert [r[0]][..0] == [];
  }

  /** Every entry after the first was already in the history; their order is
      the old order (`AddToHistory`: they are a prefix of the filtered history). */
  lemma AddKeepsOldEntries(h: seq<HistoryEntry>, slug: string, now: int)
    ensures multiset(AddToHistory(h, slug, now)[1..]) <= multiset(h)
  {
    var f := Filter(h, (e: HistoryEntry) => e.slug != slug);
    var r := AddToHistory(h, slug, now);
    FilterSubMultiset(h, (e: HistoryEntry) => e.slug != slug);
    var n := |r| - 1;
    assert f == f[..n] + f[n..];
    assert multiset(f) == multiset(f[..n]) + multiset(f[n..]);
  }

  /** The browser storage behind the module, with whether a window exists
      (on the server there is none, and nothing is read or written). */
  class Storage {
    const hasWindow: bool
    var stored: Option<Stored>

    constructor(hasWindow: bool, stored: Option<Stored>)
      ensures this.hasWindow == hasWindow && this.stored == stored
    {
      this.hasWindow := hasWindow;
      this.stored := stored;
    }

    /** `getUserData()`: the stored record, or three empty lists without a
        window, without a value, or when the value does not parse. */
    function Data(): (d: UserData)
      reads this
      ensures !hasWindow || stored.None? || stored == Some(Malformed) ==> d == EmptyData
      ensures hasWindow && stored.Some? && stored.value.Valid? ==> d == stored.value.data
    {
      if hasWindow && stored.Some? && stored.value.Valid? then stored.value.data else EmptyData
    }

    /** `saveUserData(data)`: written only when there is a window. */
    method Save(d: UserData)
      modifies this
      ensures hasWindow ==> stored == Some(Valid(d)) && Data() == d
      ensures !hasWindow ==> stored == old(stored)
    {
      if hasWindow {
        stored := Some(Valid(d));
      }
    }

    /** `markArticleAsRead(slug)`: saves only when the slug was not yet read. */
    method MarkArticleAsRead(slug: string)
      modifies this
      ensures hasWindow && slug !in old(Data()).readArticles ==> stored == Some(Valid(MarkRead(old(Data()), slug)))
      ensures !hasWindow || slug in old(Data()).readArticles ==> stored == old(stored)
      ensures Data() == if hasWindow then MarkRead(old(Data()), slug) else EmptyData
    {
      var data := Data();
      if slug !in data.readArticles {
        data := data.(readArticles := data.readArticles + [slug]);
        Save(data);
      }
    }

    /** `isArticleRead(slug)`. */
    method IsArticleRead(slug: string) returns (r: bool)
      ensures r <==> slug in Data().readArticles
    {
      var data := Data();
      r := slug in data.readArticles;
    }

    /** `toggleBookmark(slug)`: returns whether the slug was added. */
    method ToggleBookmark(slug: string) returns (added: bool)
      modifies this
      ensures added <==> slug !in old(Data()).bookmarkedArticles
      ensures hasWindow ==> stored == Some(Valid(old(Data()).(bookmarkedArticles := ToggleList(old(Data()).bookmarkedArticles, slug))))
      ensures !hasWindow ==> stored == old(stored)
    {
      var data := Data();
      var index := IndexOf(data.bookmarkedArticles, slug);
      if index > -1 {
        data := data.(bookmarkedArticles := RemoveAt(data.bookmarkedArticles, index));
        Save(data);
        added := false;
      } else {
        data := data.(bookmarkedArticles := data.bookmarkedArticles + [slug]);
        Save(data);
        added := true;
      }
    }

    /** `isArticleBookmarked(slug)`. */
    method IsArticleBookmarked(slug: string) returns (r: bool)
      ensures r <==> slug in Data().bookmarkedArticles
    {
      var data := Data();
      r := slug in data.bookmarkedArticles;
    }

    /** `addToReadingHistory(slug)` at the clock reading `now`. */
    method AddToReadingHistory(slug: string, now: int)
      modifies this
      ensures hasWindow ==> stored == Some(Valid(old(Data()).(readingHistory := AddToHistory(old(Data()).readingHistory, slug, now))))
      ensures !hasWindow ==> stored == old(stored)
    {
      var data := Data();
      data := data.(readingHistory := Filter(data.readingHistory, (e: HistoryEntry) => e.slug != slug));
      data := data.(readingHistory := [HistoryEntry(slug, now)] + data.readingHistory);
      data := data.(readingHistory := data.readingHistory[..Min(|data.readingHistory|, MaxHistory)]);
      Save(data);
    }

    /** `getReadingHistory()`. */
    method GetReadingHistory() returns (h: seq<HistoryEntry>)
      ensures h == Data().readingHistory
    {
      h := Data().readingHistory;
    }
  }
}
