/** The one-off import of the bundled sample articles into Strapi: each
    article is turned into a create request (a Markdown body made of the title
    and excerpt, and SEO fields cut from them), posted with an optional bearer
    token, and counted as imported or failed. */
module ImportArticles {
  import opened Wrappers
  import opened Collections
  import opened Text

  datatype Author = Author(name: string, avatar: string, role: string, bio: string)

  datatype Rating = Rating(average: real, count: int)

  /** A sample article as the front end's data file defines it. */
  datatype SourceArticle = SourceArticle(
    title: string, slug: string, excerpt: string, thumbnail: string, category: string,
    tags: seq<string>, difficulty: string, contentType: string, author: Author,
    publishedAt: string, readingTime: int, views: int, commentsCount: int, rating: Rating,
    isFeatured: bool, isTrending: bool, isUpdated: bool, isBookmarked: bool, hasCTA: bool,
    ctaText: Option<string>, ctaAction: Option<string>)

  /** The `data` of a create request. */
  datatype StrapiArticle = StrapiArticle(
    title: string, slug: string, excerpt: string, content: string, thumbnail: string, category: string,
    tags: seq<string>, difficulty: string, contentType: string, author: Author,
    publishedAt: string, readingTime: int, views: int, commentsCount: int, rating: Rating,
    isFeatured: bool, isTrending: bool, isUpdated: bool, isBookmarked: bool, hasCTA: bool,
    ctaText: Option<string>, ctaAction: Option<string>, seoTitle: string, seoDescription: string)

  /** `s.substring(0, n)` for `n >= 0`: the first `n` characters, or all of a shorter string. */
  function Prefix(s: string, n: nat): (r: string)
    ensures |r| == Min(n, |s|) && r == s[..|r|]
  {
    s[..Min(n, |s|)]
  }

  /** `transformArticle(article)`. */
  function Transform(a: SourceArticle): (r: StrapiArticle)
    ensures r.content == "# " + a.title + "\n\n" + a.excerpt
    ensures |r.seoTitle| == Min(60, |a.title|) && r.seoTitle == a.title[..|r.seoTitle|]
    ensures |r.seoDescription| == Min(160, |a.excerpt|) && r.seoDescription == a.excerpt[..|r.seoDescription|]
    ensures r.title == a.title && r.slug == a.slug && r.excerpt == a.excerpt && r.thumbnail == a.thumbnail
    ensures r.category == a.category && r.tags == a.tags && r.difficulty == a.difficulty
    ensures r.contentType == a.contentType && r.author == a.author && r.publishedAt == a.publishedAt
    ensures r.readingTime == a.readingTime && r.views == a.views && r.commentsCount == a.commentsCount
    ensures r.rating == a.rating && r.isFeatured == a.isFeatured && r.isTrending == a.isTrending
    ensures r.isUpdated == a.isUpdated && r.isBookmarked == a.isBookmarked && r.hasCTA == a.hasCTA
    ensures r.ctaText == a.ctaText && r.ctaAction == a.ctaAction
  {
    StrapiArticle(
      a.title, a.slug, a.excerpt, "# " + a.title + "\n\n" + a.excerpt, a.thumbnail, a.category,
      a.tags, a.difficulty, a.contentType, Author(a.author.name, a.author.avatar, a.author.role, a.author.bio),
      a.publishedAt, a.readingTime, a.views, a.commentsCount, Rating(a.rating.average, a.rating.count),
      a.isFeatured, a.isTrending, a.isUpdated, a.isBookmarked, a.hasCTA,
      a.ctaText, a.ctaAction, Prefix(a.title, 60), Prefix(a.excerpt, 160))
  }

  /** The SEO fields are the title and excerpt themselves when those are short
      enough, and otherwise exactly 60 and 160 characters long. */
  lemma SeoFieldsFit(a: SourceArticle)
    ensures |a.title| <= 60 ==> Transform(a).seoTitle == a.title
    ensures |a.title| > 60 ==> |Transform(a).seoTitle| == 60
    ensures |a.excerpt| <= 160 ==> Transform(a).seoDescription == a.excerpt
    ensures |a.excerpt| > 160 ==> |Transform(a).seoDescription| == 160
  {
  }

  /** The title and the excerpt can be read back out of the generated body:
      the title sits after `# `, the excerpt after the blank line. */
  lemma ContentRecoversFields(a: SourceArticle)
    ensures var c := Transform(a).content;
      |c| == |a.title| + |a.excerpt| + 4
      && c[2..2 + |a.title|] == a.title && c[|a.title| + 4..] == a.excerpt
  {
    var c := Transform(a).content;
    assert c == "# " + a.title + "\n\n" + a.excerpt;
  }

  /** The request headers: JSON content, plus a bearer token when one is configured. */
  function Headers(apiToken: string): (h: seq<(string, string)>)
    ensures |h| >= 1 && h[0] == ("Content-Type", "application/json")
    ensures (exists i :: 0 <= i < |h| && h[i].0 == "Authorization") <==> apiToken != []
    ensures forall i :: 0 <= i < |h| && h[i].0 == "Authorization" ==> h[i].1 == "Bearer " + apiToken
  {
    var h := [("Content-Type", "application/json")] + (if apiToken != [] then [("Authorization", "Bearer " + apiToken)] else []);
    assert h[0].0 != "Authorization" by { assert h[0].0[0] != "Authorization"[0]; }
    assert apiToken != [] ==> h[1].0 == "Authorization";
    h
  }

  /** `importAllArticles`: one request per article, in order, with the result
      of each (truthy response data or `null`) given; every article counts
      once, as a success or a failure. */
  method ImportAll(articles: seq<SourceArticle>, results: seq<bool>)
    returns (requests: seq<StrapiArticle>, successCount: nat, failCount: nat)
    requires |results| == |articles|
    ensures |requests| == |articles| && forall i :: 0 <= i < |articles| ==> requests[i] == Transform(articles[i])
    ensures successCount == Count(results, b => b)
    ensures successCount + failCount == |articles|
  {
    requests, successCount, failCount := [], 0, 0;
    for i := 0 to |articles|
      invariant |requests| == i && forall j :: 0 <= j < i ==> requests[j] == Transform(articles[j])
      invariant successCount == Count(results[..i], b => b)
      invariant successCount + failCount == i
    {
      assert results[..i + 1][..i] == results[..i];
      requests := requests + [Transform(articles[i])];
      if results[i] {
        successCount := successCount + 1;
      } else {
        failCount := failCount + 1;
      }
    }
    assert results[..|articles|] == results;
  }
}
