/** The blog's study tools: highlights kept in the browser's storage, a
    keyword search that scores articles by where the query's words occur, and
    citations of an article in four reference styles. */
module UniversityFeatures {
  import opened Wrappers
  import opened Collections
  import opened Ordering
  import opened Text

  // ---------------------------------------------------------------- highlights

  datatype Color = Yellow | Green | Blue | Pink

  datatype Highlight = Highlight(
    id: string, articleSlug: string, text: string, note: string, color: Color,
    start: int, end: int, createdAt: string)

  /** The stored highlights (`ksef_highlights`). */
  class HighlightStore {
    var highlights: seq<Highlight>

    constructor()
      ensures highlights == []
    {
      highlights := [];
    }

    /** `highlightStorage.save(highlight)`: appended at the end. */
    method Save(h: Highlight)
      modifies this
      ensures highlights == old(highlights) + [h]
    {
      highlights := highlights + [h];
    }

    /** `highlightStorage.getByArticle(slug)`: the article's highlights in stored order. */
    method GetByArticle(slug: string) returns (r: seq<Highlight>)
      ensures r == OfArticle(highlights, slug)
    {
      r := Filter(highlights, (h: Highlight) => h.articleSlug == slug);
    }

    /** `highlightStorage.delete(id)`: every highlight with the id removed. */
    method Delete(id: string)
      modifies this
      ensures highlights == WithoutId(old(highlights), id)
    {
      highlights := Filter(highlights, (h: Highlight) => h.id != id);
    }
  }

  /** The highlights of one article, in stored order. */
  function OfArticle(hs: seq<Highlight>, slug: string): (r: seq<Highlight>)
    ensures forall h :: h in r <==> h in hs && h.articleSlug == slug
  {
    Filter(hs, (h: Highlight) => h.articleSlug == slug)
  }

  /** The highlights without the given id, in stored order. */
  function WithoutId(hs: seq<Highlight>, id: string): (r: seq<Highlight>)
    ensures forall h :: h in r <==> h in hs && h.id != id
    ensures multiset(r) <= multiset(hs)
  {
    FilterSubMultiset(hs, (h: Highlight) => h.id != id);
    Filter(hs, (h: Highlight) => h.id != id)
  }

  /** A saved highlight shows up last among its article's highlights and
      leaves every other article's list unchanged. */
  lemma SaveThenGet(hs: seq<Highlight>, h: Highlight, slug: string)
    ensures OfArticle(hs + [h], slug) == OfArticle(hs, slug) + (if h.articleSlug == slug then [h] else [])
  {
    FilterAppend(hs, [h], (x: Highlight) => x.articleSlug == slug);
  }

  /** Deleting the id of a newly saved highlight, whose id was not yet used,
      restores the store. */
  lemma SaveThenDelete(hs: seq<Highlight>, h: Highlight)
    requires forall x :: x in hs ==> x.id != h.id
    ensures WithoutId(hs + [h], h.id) == hs
  {
    FilterAppend(hs, [h], (x: Highlight) => x.id != h.id);
    FilterAll(hs, (x: Highlight) => x.id != h.id);
  }

  // ---------------------------------------------------------------- search

  datatype SearchArticle = SearchArticle(
    id: string, title: string, description: string, category: string, tags: seq<string>)

  datatype Scored = Scored(article: SearchArticle, relevanceScore: int)

  /** The Polish synonym groups: a key word and its synonyms. */
  const Synonyms: seq<(string, seq<string>)> := [
    ("wdrożenie", ["implementacja", "uruchomienie", "instalacja"]),
    ("koszty", ["cena", "wydatki", "opłaty"]),
    ("prawo", ["przepisy", "regulacje", "ustawa"]),
    ("techniczne", ["technologia", "it", "system"])]

  /** The number of keywords the text contains. */
  function Hits(keywords: seq<string>, text: string): (n: nat)
    ensures n <= |keywords|
    ensures n == 0 <==> forall k :: k in keywords ==> !Contains(text, k)
  {
    if keywords == [] then 0
    else (if Contains(text, keywords[0]) then 1 else 0) + Hits(keywords[1..], text)
  }

  /** The (tag, keyword) pairs with the lower-cased tag containing the keyword. */
  function TagHits(keywords: seq<string>, tags: seq<string>): nat {
    if tags == [] then 0 else Hits(keywords, Lower(tags[0])) + TagHits(keywords, tags[1..])
  }

  /** The lower-cased title contains the group's key or one of its synonyms. */
  predicate TitleMentions(title: string, group: (string, seq<string>)) {
    Contains(title, group.0) || exists v :: v in group.1 && Contains(title, v)
  }

  /** The groups that name the keyword and that the title mentions. */
  function GroupHits(keyword: string, title: string, groups: seq<(string, seq<string>)>): nat {
    if groups == [] then 0
    else
      (if (keyword == groups[0].0 || keyword in groups[0].1) && TitleMentions(title, groups[0]) then 1 else 0)
      + GroupHits(keyword, title, groups[1..])
  }

  function SynonymHits(keywords: seq<string>, title: string): nat {
    if keywords == [] then 0 else GroupHits(keywords[0], title, Synonyms) + SynonymHits(keywords[1..], title)
  }

  /** The relevance of an article to the keywords: 10 per keyword in the
      title, 5 in the description, 7 in the category, 3 per (tag, keyword)
      match and 4 per synonym group hit. */
  function Score(keywords: seq<string>, a: SearchArticle): (s: int)
    ensures s >= 0
    ensures (exists k :: k in keywords && Contains(Lower(a.title), k)) ==> s >= 10
    ensures (exists k :: k in keywords && (Contains(Lower(a.description), k) || Contains(Lower(a.category), k))) ==> s >= 5
  {
    10 * Hits(keywords, Lower(a.title)) + 5 * Hits(keywords, Lower(a.description))
    + 7 * Hits(keywords, Lower(a.category)) + 3 * TagHits(keywords, a.tags)
    + 4 * SynonymHits(keywords, Lower(a.title))
  }

  /** `query.toLowerCase().split(" ")`. */
  function Keywords(query: string): seq<string> {
    Split(Lower(query), ' ')
  }

  function ScoreAll(keywords: seq<string>, articles: seq<SearchArticle>): (r: seq<Scored>)
    ensures |r| == |articles|
    ensures forall i :: 0 <= i < |r| ==> r[i] == Scored(articles[i], Score(keywords, articles[i]))
    ensures forall x :: x in r ==> x.article in articles && x.relevanceScore == Score(keywords, x.article)
    ensures forall a :: a in articles ==> Scored(a, Score(keywords, a)) in r
  {
    if articles == [] then []
    else [Scored(articles[0], Score(keywords, articles[0]))] + ScoreAll(keywords, articles[1..])
  }

  function RelevanceOf(s: Scored): real {
    s.relevanceScore as real
  }

  predicate Positive(s: Scored) {
    s.relevanceScore > 0
  }

  /** Best first. */
  predicate ScoresDescending(r: seq<Scored>) {
    forall i, j :: 0 <= i < j < |r| ==> r[i].relevanceScore >= r[j].relevanceScore
  }

  /** `smartSearch.analyze(query, articles)`: the articles with a positive
      score, best first, equal scores in input order. */
  function Analyze(query: string, articles: seq<SearchArticle>): (r: seq<Scored>)
    ensures forall x :: x in r ==> x.relevanceScore > 0 && x.article in articles
                                    && x.relevanceScore == Score(Keywords(query), x.article)
    ensures forall a :: a in articles && Score(Keywords(query), a) > 0 ==> Scored(a, Score(Keywords(query), a)) in r
    ensures ScoresDescending(r)
    ensures multiset(r) == multiset(Filter(ScoreAll(Keywords(query), articles), Positive))
    ensures |r| <= |articles|
  {
    var kept := Filter(ScoreAll(Keywords(query), articles), Positive);
    SortDescending(kept);
    SortBy(kept, ByKeyDesc(RelevanceOf))
  }

  /** Sorting by descending relevance keeps exactly the members and orders the scores. */
  lemma SortDescending(kept: seq<Scored>)
    ensures TotalPreorder(ByKeyDesc(RelevanceOf))
    ensures forall x :: x in SortBy(kept, ByKeyDesc(RelevanceOf)) <==> x in kept
    ensures ScoresDescending(SortBy(kept, ByKeyDesc(RelevanceOf)))
  {
    KeyOrdersArePreorders(RelevanceOf);
    var r := SortBy(kept, ByKeyDesc(RelevanceOf));
    forall x ensures x in r <==> x in kept {
      SortKeepsMembers(kept, ByKeyDesc(RelevanceOf), x);
    }
    forall i, j | 0 <= i < j < |r| ensures r[i].relevanceScore >= r[j].relevanceScore {
      assert ByKeyDesc(RelevanceOf)(r[i], r[j]);
      assert RelevanceOf(r[i]) >= RelevanceOf(r[j]);
    }
  }

  /** Every keyword list contains the empty keyword when the query is empty,
      and the empty keyword is in every title: an empty query returns every article. */
  lemma EmptyQueryKeepsAll(articles: seq<SearchArticle>)
    ensures forall a :: a in articles ==> Scored(a, Score(Keywords(""), a)) in Analyze("", articles)
  {
    assert Lower("") == "";
    assert Keywords("") == [""];
    forall a | a in articles ensures Score(Keywords(""), a) > 0 {
      ContainsTrivia(Lower(a.title));
      assert Hits([""], Lower(a.title)) == 1;
    }
  }

  // ---------------------------------------------------------------- citations

  datatype Citation = Citation(articleTitle: string, author: string, publishDate: string, url: string, accessDate: string)

  /** APA, with the publication year read from the publication date: it starts
      with the author and names the year, the title, the access date and the address. */
  function Apa(c: Citation, year: int): (r: string)
    ensures StartsWith(r, c.author) && Contains(r, IntToString(year)) && Contains(r, c.articleTitle)
    ensures Contains(r, c.accessDate) && Contains(r, c.url)
  {
    var parts := [c.author, " (", IntToString(year), "). ", c.articleTitle, ". KSEF.EXPERT. Retrieved ", c.accessDate, ", from ", c.url];
    ConcatContains(parts, 2); ConcatContains(parts, 4); ConcatContains(parts, 6); ConcatContains(parts, 8);
    Concat(parts)
  }

  /** MLA: the author first, then the title, the full publication date, the
      address and the access date. */
  function Mla(c: Citation): (r: string)
    ensures StartsWith(r, c.author) && Contains(r, c.articleTitle) && Contains(r, c.publishDate)
    ensures Contains(r, c.url) && Contains(r, c.accessDate)
  {
    var parts := [c.author, ". \"", c.articleTitle, ".\" KSEF.EXPERT, ", c.publishDate, ", ", c.url, ". Accessed ", c.accessDate, "."];
    ConcatContains(parts, 2); ConcatContains(parts, 4); ConcatContains(parts, 6); ConcatContains(parts, 8);
    Concat(parts)
  }

  /** Chicago: the author first, then the title, the full publication date, the
      address and the access date. */
  function Chicago(c: Citation): (r: string)
    ensures StartsWith(r, c.author) && Contains(r, c.articleTitle) && Contains(r, c.publishDate)
    ensures Contains(r, c.url) && Contains(r, c.accessDate)
  {
    var parts := [c.author, ". \"", c.articleTitle, ".\" KSEF.EXPERT. ", c.publishDate, ". ", c.url, " (accessed ", c.accessDate, ")."];
    ConcatContains(parts, 2); ConcatContains(parts, 4); ConcatContains(parts, 6); ConcatContains(parts, 8);
    Concat(parts)
  }

  /** ISO 690: the author first, then the title, the full publication date, the
      access date and the address. */
  function Iso690(c: Citation): (r: string)
    ensures StartsWith(r, c.author) && Contains(r, c.articleTitle) && Contains(r, c.publishDate)
    ensures Contains(r, c.accessDate) && Contains(r, c.url)
  {
    var parts := [c.author, ". ", c.articleTitle, ". KSEF.EXPERT [online]. ", c.publishDate, " [viewed ", c.accessDate, "]. Available from: ", c.url];
    ConcatContains(parts, 2); ConcatContains(parts, 4); ConcatContains(parts, 6); ConcatContains(parts, 8);
    Concat(parts)
  }
}
