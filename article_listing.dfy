/** The article listing of the knowledge base page: search, category,
    difficulty, type, tag and date filters applied one after another to the
    articles, a sort by the chosen key on a copy, the first `displayCount`
    results shown, and the handlers that reset the filters, toggle a category
    and load twelve more. */
module ArticleListing {
  import opened Wrappers
  import opened Collections
  import opened Ordering
  import opened Text

  /** What the listing reads of an article. `published` is the publication
      time in milliseconds; numeric fields already carry their `|| 0` default. */
  datatype Listing = Listing(
    title: string, excerpt: string, tags: seq<string>, category: string, difficulty: string,
    contentType: string, published: int, views: int, rating: real, readingTime: int)

  /** The filter and sort controls. */
  datatype Filters = Filters(
    categories: seq<string>, difficulty: seq<string>, types: seq<string>, tags: seq<string>,
    dateRange: string, sortBy: string, searchQuery: string)

  const InitialFilters := Filters([], [], [], [], "all", "newest", "")

  const PageSize := 12

  const MsPerDay := 86400000

  /** The search stage keeps case-insensitive matches of the query, which is
      lower-cased but not trimmed, in the title, the excerpt or a tag. */
  predicate MatchesSearch(a: Listing, query: string) {
    var q := Lower(query);
    Contains(Lower(a.title), q) || Contains(Lower(a.excerpt), q)
    || exists t :: t in a.tags && Contains(Lower(t), q)
  }

  /** `value && selection.includes(value)` on the knowledge base page
      (`guarded`), where an empty value never matches; the home page tests
      `selection.includes(value)` alone. */
  predicate Selected(value: string, selection: seq<string>, guarded: bool) {
    (guarded ==> value != []) && value in selection
  }

  /** The category stage runs only for a non-empty selection without "Wszystkie". */
  predicate CategoryStageOn(selection: seq<string>) {
    |selection| > 0 && "Wszystkie" !in selection
  }

  /** The day count of a date range; `None` for an unknown name. */
  function RangeDays(range: string): (d: Option<int>)
    ensures range == "week" ==> d == Some(7)
    ensures range == "month" ==> d == Some(30)
    ensures range == "quarter" ==> d == Some(90)
    ensures range == "year" ==> d == Some(365)
    ensures range !in {"week", "month", "quarter", "year"} ==> d.None?
  {
    if range == "week" then Some(7)
    else if range == "month" then Some(30)
    else if range == "quarter" then Some(90)
    else if range == "year" then Some(365)
    else None
  }

  /** Published at most `days` days before `now`; with no day count the
      comparison is with `undefined`, which is false. */
  predicate WithinRange(a: Listing, now: int, days: Option<int>) {
    days.Some? && (now - a.published) as real / MsPerDay as real <= days.value as real
  }

  /** Whether stage `k` of the chain (0 search, 1 category, 2 difficulty,
      3 type, 4 tags, 5 date) runs. */
  predicate StageOn(f: Filters, k: nat) {
    if k == 0 then Trim(f.searchQuery) != []
    else if k == 1 then CategoryStageOn(f.categories)
    else if k == 2 then |f.difficulty| > 0
    else if k == 3 then |f.types| > 0
    else if k == 4 then |f.tags| > 0
    else f.dateRange != "all"
  }

  predicate HasSelectedTag(a: Listing, tags: seq<string>) {
    exists t :: t in a.tags && t in tags
  }

  /** The test stage `k` applies to an article when it runs. */
  predicate StageTest(a: Listing, f: Filters, now: int, guarded: bool, k: nat) {
    if k == 0 then MatchesSearch(a, f.searchQuery)
    else if k == 1 then Selected(a.category, f.categories, guarded)
    else if k == 2 then Selected(a.difficulty, f.difficulty, guarded)
    else if k == 3 then Selected(a.contentType, f.types, guarded)
    else if k == 4 then HasSelectedTag(a, f.tags)
    else WithinRange(a, now, RangeDays(f.dateRange))
  }

  /** Stage `k` lets the article through. */
  predicate StagePasses(a: Listing, f: Filters, now: int, guarded: bool, k: nat) {
    StageOn(f, k) ==> StageTest(a, f, now, guarded, k)
  }

  /** Every stage that is switched on keeps the article. */
  predicate Keeps(a: Listing, f: Filters, now: int, guarded: bool) {
    && StagePasses(a, f, now, guarded, 0) && StagePasses(a, f, now, guarded, 1) && StagePasses(a, f, now, guarded, 2)
    && StagePasses(a, f, now, guarded, 3) && StagePasses(a, f, now, guarded, 4) && StagePasses(a, f, now, guarded, 5)
  }

  /** One stage of the chain: `on ? s.filter(test) : s`. */
  function Stage(s: seq<Listing>, f: Filters, now: int, guarded: bool, k: nat): (r: seq<Listing>)
    ensures forall a :: a in r <==> a in s && StagePasses(a, f, now, guarded, k)
    ensures forall a :: multiset(r)[a] == if StagePasses(a, f, now, guarded, k) then multiset(s)[a] else 0
    ensures multiset(r) <= multiset(s)
  {
    if StageOn(f, k) then
      FilterSubMultiset(s, (a: Listing) => StageTest(a, f, now, guarded, k));
      forall a ensures multiset(Filter(s, (a: Listing) => StageTest(a, f, now, guarded, k)))[a]
                       == if StagePasses(a, f, now, guarded, k) then multiset(s)[a] else 0 {
        FilterMultiplicity(s, (a: Listing) => StageTest(a, f, now, guarded, k), a);
      }
      Filter(s, (a: Listing) => StageTest(a, f, now, guarded, k))
    else s
  }

  /** The filter stages in the order the page applies them. */
  function FilterStages(articles: seq<Listing>, f: Filters, now: int, guarded: bool): (r: seq<Listing>)
    ensures forall a :: a in r <==> a in articles && Keeps(a, f, now, guarded)
    ensures forall a :: multiset(r)[a] == if Keeps(a, f, now, guarded) then multiset(articles)[a] else 0
    ensures multiset(r) <= multiset(articles)
  {
    Stage(Stage(Stage(Stage(Stage(Stage(articles, f, now, guarded, 0), f, now, guarded, 1), f, now, guarded, 2), f, now, guarded, 3), f, now, guarded, 4), f, now, guarded, 5)
  }

  function PublishedKey(a: Listing): real { a.published as real }
  function ViewsKey(a: Listing): real { a.views as real }
  function RatingKey(a: Listing): real { a.rating }
  function ReadingKey(a: Listing): real { a.readingTime as real }
  function TitleKey(a: Listing): string { a.title }

  /** The comparator of a sort key; unknown keys compare everything equal. */
  function OrderOf(sortBy: string): (T: Option<(Listing, Listing) -> bool>)
    ensures T.Some? ==> TotalPreorder(T.value)
  {
    KeyOrdersArePreorders(PublishedKey);
    KeyOrdersArePreorders(ViewsKey);
    KeyOrdersArePreorders(RatingKey);
    KeyOrdersArePreorders(ReadingKey);
    TextOrderIsPreorder(TitleKey);
    if sortBy == "newest" then Some(ByKeyDesc(PublishedKey))
    else if sortBy == "popular" then Some(ByKeyDesc(ViewsKey))
    else if sortBy == "rating" then Some(ByKeyDesc(RatingKey))
    else if sortBy == "longest" then Some(ByKeyDesc(ReadingKey))
    else if sortBy == "shortest" then Some(ByKeyAsc(ReadingKey))
    else if sortBy == "alphabetical" then Some(ByTextAsc(TitleKey))
    else None
  }

  /** `[...result].sort(comparator)`: a stable sort of a copy; a comparator
      that always answers 0 leaves the order as it is. */
  function SortedCopy(s: seq<Listing>, sortBy: string): (r: seq<Listing>)
    ensures multiset(r) == multiset(s) && |r| == |s|
    ensures OrderOf(sortBy).Some? ==> SortedBy(r, OrderOf(sortBy).value)
    ensures OrderOf(sortBy).None? ==> r == s
  {
    var order := OrderOf(sortBy);
    if order.Some? then SortBy(s, order.value) else s
  }

  /** `filteredArticles`: the kept articles, sorted. */
  function Filtered(articles: seq<Listing>, f: Filters, now: int, guarded: bool): (r: seq<Listing>)
    ensures forall a :: a in r <==> a in articles && Keeps(a, f, now, guarded)
    ensures multiset(r) == multiset(Filter(articles, (a: Listing) => Keeps(a, f, now, guarded)))
    ensures multiset(r) <= multiset(articles) && |r| <= |articles|
    ensures OrderOf(f.sortBy).Some? ==> SortedBy(r, OrderOf(f.sortBy).value)
  {
    var kept := FilterStages(articles, f, now, guarded);
    var r := SortedCopy(kept, f.sortBy);
    Reordered(articles, kept, r);
    StagesAreOneFilter(articles, f, now, guarded);
    r
  }

  /** The chained stages keep exactly the copies one filter by `Keeps` keeps. */
  lemma StagesAreOneFilter(articles: seq<Listing>, f: Filters, now: int, guarded: bool)
    ensures multiset(FilterStages(articles, f, now, guarded)) == multiset(Filter(articles, (a: Listing) => Keeps(a, f, now, guarded)))
  {
    var kept := FilterStages(articles, f, now, guarded);
    var one := Filter(articles, (a: Listing) => Keeps(a, f, now, guarded));
    forall a ensures multiset(kept)[a] == multiset(one)[a] {
      FilterMultiplicity(articles, (a: Listing) => Keeps(a, f, now, guarded), a);
    }
  }

  /** A reordering of a sub-multiset of `articles` has the same members as
      what it reorders, and no more elements than `articles`. */
  lemma Reordered(articles: seq<Listing>, kept: seq<Listing>, r: seq<Listing>)
    requires multiset(kept) <= multiset(articles) && multiset(r) == multiset(kept)
    ensures forall a :: a in r <==> a in kept
    ensures multiset(r) <= multiset(articles) && |r| <= |articles|
  {
    assert forall a :: a in r <==> a in multiset(kept);
    assert |r| == |multiset(r)| <= |multiset(articles)| == |articles| by {
      MultisetSubsetSize(multiset(r), multiset(articles));
    }
  }

  lemma MultisetSubsetSize<T>(a: multiset<T>, b: multiset<T>)
    requires a <= b
    ensures |a| <= |b|
  {
    var c := b - a;
    assert b == a + c;
  }

  /** With "Wszystkie" selected, the category selection filters nothing. */
  lemma AllCategoriesBypass(articles: seq<Listing>, f: Filters, now: int, guarded: bool, a: Listing)
    requires "Wszystkie" in f.categories
    ensures a in Filtered(articles, f, now, guarded) <==> a in Filtered(articles, f.(categories := []), now, guarded)
  {
    var g := f.(categories := []);
    assert !StageOn(f, 1) && !StageOn(g, 1);
    assert StagePasses(a, f, now, guarded, 1) && StagePasses(a, g, now, guarded, 1);
    assert Keeps(a, f, now, guarded) <==> Keeps(a, g, now, guarded);
  }

  /** Only the home page lets an article with an empty category through a
      selection that holds the empty string. */
  lemma EmptyCategoryOnlyOnHome(articles: seq<Listing>, f: Filters, now: int, a: Listing)
    requires a in articles && a.category == [] && f == InitialFilters.(categories := [""])
    ensures a in Filtered(articles, f, now, false)
    ensures a !in Filtered(articles, f, now, true)
  {
    EmptyQueryStageOff(f);
    EmptyCategoryStageOn(f);
    UnselectedStagesOff(f);
    assert StageTest(a, f, now, false, 1) && !StageTest(a, f, now, true, 1);
    assert Keeps(a, f, now, false);
    assert !StagePasses(a, f, now, true, 1);
  }

  /** An empty query leaves the search stage off. */
  lemma EmptyQueryStageOff(f: Filters)
    requires f.searchQuery == []
    ensures !StageOn(f, 0)
  {
    assert Trim(f.searchQuery) == [];
  }

  /** Selecting only the empty category switches the category stage on. */
  lemma EmptyCategoryStageOn(f: Filters)
    requires f.categories == [""]
    ensures StageOn(f, 1)
  {
    assert |"Wszystkie"| != |f.categories[0]|;
  }

  /** No difficulty, type or tag selection and the whole date range leave those stages off. */
  lemma UnselectedStagesOff(f: Filters)
    requires f.difficulty == [] && f.types == [] && f.tags == [] && f.dateRange == "all"
    ensures !StageOn(f, 2) && !StageOn(f, 3) && !StageOn(f, 4) && !StageOn(f, 5)
  { }

  /** The "shortest" order puts shorter reads first, "newest" newer articles first. */
  lemma SortDirections(articles: seq<Listing>, f: Filters, now: int, guarded: bool, i: int, j: int)
    requires 0 <= i < j < |Filtered(articles, f, now, guarded)|
    ensures var r := Filtered(articles, f, now, guarded);
      && (f.sortBy == "shortest" ==> r[i].readingTime <= r[j].readingTime)
      && (f.sortBy == "newest" ==> r[i].published >= r[j].published)
      && (f.sortBy == "popular" ==> r[i].views >= r[j].views)
  {
    KeyDirections(Filtered(articles, f, now, guarded), f.sortBy, i, j);
  }

  /** In a list ordered by a sort key's comparator, the earlier of two articles
      comes first in that key's direction. */
  lemma KeyDirections(r: seq<Listing>, sortBy: string, i: int, j: int)
    requires 0 <= i < j < |r|
    requires OrderOf(sortBy).Some? ==> SortedBy(r, OrderOf(sortBy).value)
    ensures sortBy == "shortest" ==> r[i].readingTime <= r[j].readingTime
    ensures sortBy == "newest" ==> r[i].published >= r[j].published
    ensures sortBy == "popular" ==> r[i].views >= r[j].views
  {
    if sortBy == "shortest" {
      assert ByKeyAsc(ReadingKey)(r[i], r[j]);
      assert ReadingKey(r[i]) <= ReadingKey(r[j]);
    } else if sortBy == "newest" {
      assert ByKeyDesc(PublishedKey)(r[i], r[j]);
      assert PublishedKey(r[i]) >= PublishedKey(r[j]);
    } else if sortBy == "popular" {
      assert ByKeyDesc(ViewsKey)(r[i], r[j]);
      assert ViewsKey(r[i]) >= ViewsKey(r[j]);
    }
  }

  /** The page's listing state; `guarded` for the knowledge base page, which
      skips articles with an empty category, difficulty or type. */
  class ListingPage {
    const guarded: bool
    var filters: Filters
    var displayCount: nat

    constructor(guarded: bool)
      ensures this.guarded == guarded && filters == InitialFilters && displayCount == PageSize
    {
      this.guarded := guarded;
      filters := InitialFilters;
      displayCount := PageSize;
    }

    /** `activeFiltersCount`. */
    function ActiveFiltersCount(): (n: nat)
      reads this
      ensures n == 0 <==> filters.categories == [] && filters.difficulty == [] && filters.types == [] && filters.tags == []
    {
      |filters.categories| + |filters.difficulty| + |filters.types| + |filters.tags|
    }

    /** `displayedArticles`: the first `displayCount` filtered articles. */
    function Displayed(articles: seq<Listing>, now: int): (r: seq<Listing>)
      reads this
      ensures r == Take(Filtered(articles, filters, now, guarded), displayCount)
      ensures forall a :: a in r ==> a in articles && Keeps(a, filters, now, guarded)
    {
      Take(Filtered(articles, filters, now, guarded), displayCount)
    }

    /** `hasMore`: results beyond those shown. */
    function HasMore(articles: seq<Listing>, now: int): (b: bool)
      reads this
      ensures b <==> |Displayed(articles, now)| < |Filtered(articles, filters, now, guarded)|
    {
      displayCount < |Filtered(articles, filters, now, guarded)|
    }

    /** `handleReset`: every filter, the sort and the search back to their initial values. */
    method HandleReset()
      modifies this
      ensures filters == InitialFilters && displayCount == old(displayCount)
    {
      filters := InitialFilters;
    }

    /** `handleCategorySelect(category)`. */
    method HandleCategorySelect(category: string)
      modifies this
      ensures filters == old(filters).(categories := Toggle(old(filters).categories, category))
      ensures displayCount == old(displayCount)
    {
      filters := filters.(categories := Toggle(filters.categories, category));
    }

    /** `handleLoadMore`: twelve more. */
    method HandleLoadMore()
      modifies this
      ensures displayCount == old(displayCount) + PageSize && filters == old(filters)
    {
      displayCount := displayCount + PageSize;
    }
  }

  /** Loading more shows the same articles first, and twelve more while there are any. */
  lemma LoadMoreExtends(filtered: seq<Listing>, count: int)
    requires count >= 0
    ensures Take(filtered, count) == Take(filtered, count + PageSize)[..|Take(filtered, count)|]
    ensures |Take(filtered, count + PageSize)| == Min(count + PageSize, |filtered|)
  {
  }
}
