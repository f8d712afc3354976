/** The SEO audit script: from the facts it reads off a fetched page (title,
    meta description, headings, body text, links, images, canonical link and
    structured data) it counts words and links, scores each aspect and adds the
    points up to a score between 5 and 105 with a quality label. */
module SeoCheck {
  import opened Wrappers
  import opened Collections
  import opened Text

  /** What the page yields to the selectors: the `<title>` text, the
      description meta's `content` attribute if any, the number of `<h1>`s,
      the text of `article, main, body`, each `<a href>`'s attribute (`None` or
      empty when falsy), each `<img>`'s `alt` attribute, and the numbers of
      canonical links and JSON-LD scripts. */
  datatype Page = Page(
    titleText: string,
    descriptionContent: Option<string>,
    h1Count: nat,
    bodyText: string,
    hrefs: seq<Option<string>>,
    imageAlts: seq<Option<string>>,
    canonicalLinks: nat,
    schemaScripts: nat)

  /** Where a link points, as the audit classifies it. */
  datatype LinkKind = Internal | External | Uncounted

  /** A present, non-empty href is internal when it starts with `/` or mentions
      the page's host, otherwise external when it starts with `http`; any other
      href, and a missing or empty one, is counted nowhere. */
  function ClassifyLink(href: Option<string>, host: string): (k: LinkKind)
    ensures k == Internal <==> href.Some? && href.value != [] && (StartsWith(href.value, "/") || Contains(href.value, host))
    ensures k == External <==> href.Some? && href.value != [] && !StartsWith(href.value, "/") && !Contains(href.value, host)
                               && StartsWith(href.value, "http")
  {
    if href.None? || href.value == [] then Uncounted
    else if StartsWith(href.value, "/") || Contains(href.value, host) then Internal
    else if StartsWith(href.value, "http") then External
    else Uncounted
  }

  /** `bodyText.split(/\s+/).filter(word => word.length > 0).length`: the
      number of positions where a run of non-white-space characters begins. */
  function WordCount(body: string): (n: nat)
    ensures n == WordStartsFrom(body, 0)
    ensures n == 0 <==> NonSpace(body) == []
  {
    WordCountIsStarts(body);
    WordsJoinToNonSpace(body);
    NoWordsIffBlank(body);
    |Words(body)|
  }

  /** An image has alt text when its `alt` attribute is present and not blank. */
  predicate HasAlt(alt: Option<string>) {
    alt.Some? && Trim(alt.value) != []
  }

  /** Points for the trimmed title's length: 20 for 50 to 60 characters, 15 for
      30 to 49, 10 above 60, 5 for 1 to 29, none for an empty title. */
  function TitlePoints(len: nat): (p: nat)
    ensures p == 0 <==> len == 0
    ensures p == 20 <==> 50 <= len <= 60
    ensures p == 15 <==> 30 <= len < 50
    ensures p == 10 <==> len > 60
    ensures p == 5 <==> 1 <= len < 30
  {
    if len == 0 then 0
    else if 50 <= len <= 60 then 20
    else if 30 <= len < 50 then 15
    else if len > 60 then 10
    else 5
  }

  /** Points for the description's length: 15 for 140 to 160 characters, 12 for
      120 to 139, 10 above 160, 5 for 1 to 119, none for an empty one. */
  function DescriptionPoints(len: nat): (p: nat)
    ensures p == 0 <==> len == 0
    ensures p == 15 <==> 140 <= len <= 160
    ensures p == 12 <==> 120 <= len < 140
    ensures p == 10 <==> len > 160
    ensures p == 5 <==> 1 <= len < 120
  {
    if len == 0 then 0
    else if 140 <= len <= 160 then 15
    else if 120 <= len < 140 then 12
    else if len > 160 then 10
    else 5
  }

  /** Points for the number of `<h1>`s: 15 for exactly one, none for none, 5 for several. */
  function H1Points(count: nat): (p: nat)
    ensures p == 15 <==> count == 1
    ensures p == 0 <==> count == 0
    ensures p == 5 <==> count > 1
  {
    if count == 1 then 15 else if count == 0 then 0 else 5
  }

  /** Points for the word count: 25 from 1500 words, 20 from 1000, 12 from 500, else 5. */
  function WordPoints(words: nat): (p: nat)
    ensures 5 <= p <= 25
    ensures p == 25 <==> words >= 1500
    ensures p == 20 <==> 1000 <= words < 1500
    ensures p == 12 <==> 500 <= words < 1000
    ensures p == 5 <==> words < 500
  {
    if words >= 1500 then 25 else if words >= 1000 then 20 else if words >= 500 then 12 else 5
  }

  /** Points for images: none without images, 10 when none lacks alt text,
      otherwise 10 less 2 per image without alt text, never below zero. */
  function ImagePoints(total: nat, withoutAlt: nat): (p: nat)
    ensures p <= 10
    ensures total == 0 ==> p == 0
    ensures total > 0 && withoutAlt == 0 ==> p == 10
    ensures total > 0 && withoutAlt > 0 ==> p == Max(0, 10 - 2 * withoutAlt) && p < 10
  {
    if total == 0 then 0 else if withoutAlt == 0 then 10 else Max(0, 10 - 2 * withoutAlt)
  }

  /** Points for internal links: 10 from five, 7 for three or four, else 2 per link. */
  function LinkPoints(internal: nat): (p: nat)
    ensures p <= 10
    ensures internal >= 5 ==> p == 10
    ensures 3 <= internal < 5 ==> p == 7
    ensures internal < 3 ==> p == 2 * internal
  {
    if internal >= 5 then 10 else if internal >= 3 then 7 else 2 * internal
  }

  /** 5 points for a canonical link or for structured data, when present. */
  function BonusPoints(present: bool): (p: nat)
    ensures p == if present then 5 else 0
  {
    if present then 5 else 0
  }

  /** The quality label for a score. */
  function Quality(score: int): (q: string)
    ensures score >= 90 ==> q == "EXCELLENT"
    ensures 80 <= score < 90 ==> q == "VERY GOOD"
    ensures 70 <= score < 80 ==> q == "GOOD"
    ensures 60 <= score < 70 ==> q == "FAIR"
    ensures score < 60 ==> q == "POOR - NEEDS WORK!"
  {
    if score >= 90 then "EXCELLENT"
    else if score >= 80 then "VERY GOOD"
    else if score >= 70 then "GOOD"
    else if score >= 60 then "FAIR"
    else "POOR - NEEDS WORK!"
  }

  /** The figures the audit reports. */
  datatype Report = Report(
    titleLength: nat,
    descriptionLength: nat,
    wordCount: nat,
    internalLinks: nat,
    externalLinks: nat,
    imagesWithoutAlt: nat,
    score: nat,
    quality: string)

  predicate IsInternal(host: string, href: Option<string>) {
    ClassifyLink(href, host) == Internal
  }

  predicate IsExternal(host: string, href: Option<string>) {
    ClassifyLink(href, host) == External
  }

  /** The `$('a[href]').each(...)` loop: one pass over the hrefs with two counters. */
  method CountLinks(hrefs: seq<Option<string>>, host: string) returns (internal: nat, external: nat)
    ensures internal == Count(hrefs, h => IsInternal(host, h))
    ensures external == Count(hrefs, h => IsExternal(host, h))
    ensures internal + external <= |hrefs|
  {
    internal, external := 0, 0;
    for i := 0 to |hrefs|
      invariant internal == Count(hrefs[..i], h => IsInternal(host, h))
      invariant external == Count(hrefs[..i], h => IsExternal(host, h))
      invariant internal + external <= i
    {
      assert hrefs[..i + 1][..i] == hrefs[..i];
      var href := hrefs[i];
      if href.Some? && href.value != [] {
        if StartsWith(href.value, "/") || Contains(href.value, host) {
          internal := internal + 1;
        } else if StartsWith(href.value, "http") {
          external := external + 1;
        }
      }
    }
    assert hrefs[..|hrefs|] == hrefs;
  }

  /** The total of the component points for a page whose host is `host`:
      between 5 and 105, since the word points are at least 5 and the maxima
      add up to 105. */
  function Score(page: Page, host: string): (s: nat)
    ensures 5 <= s <= 105
  {
    var withAlt := Count(page.imageAlts, HasAlt);
    TitlePoints(|Trim(page.titleText)|)
    + DescriptionPoints(|page.descriptionContent.GetOr("")|)
    + H1Points(page.h1Count)
    + WordPoints(WordCount(page.bodyText))
    + ImagePoints(|page.imageAlts|, |page.imageAlts| - withAlt)
    + LinkPoints(Count(page.hrefs, h => IsInternal(host, h)))
    + BonusPoints(page.canonicalLinks > 0)
    + BonusPoints(page.schemaScripts > 0)
  }

  /** Only a page that gets the top points for every aspect reaches 105. */
  lemma PerfectScore(page: Page, host: string)
    ensures Score(page, host) == 105 <==>
      50 <= |Trim(page.titleText)| <= 60
      && 140 <= |page.descriptionContent.GetOr("")| <= 160
      && page.h1Count == 1
      && WordCount(page.bodyText) >= 1500
      && |page.imageAlts| > 0 && Count(page.imageAlts, HasAlt) == |page.imageAlts|
      && Count(page.hrefs, h => IsInternal(host, h)) >= 5
      && page.canonicalLinks > 0 && page.schemaScripts > 0
  {
  }

  /** The chain of checks that accumulates the score from the page's figures. */
  method ScoreChain(titleLength: nat, descriptionLength: nat, h1Count: nat, wordCount: nat, totalImages: nat,
                    withoutAlt: nat, internal: nat, canonical: bool, schema: bool) returns (score: nat)
    ensures score == TitlePoints(titleLength) + DescriptionPoints(descriptionLength) + H1Points(h1Count)
                     + WordPoints(wordCount) + ImagePoints(totalImages, withoutAlt) + LinkPoints(internal)
                     + BonusPoints(canonical) + BonusPoints(schema)
  {
    score := TitlePoints(titleLength);
    score := score + DescriptionPoints(descriptionLength);
    score := score + H1Points(h1Count);
    score := score + WordPoints(wordCount);
    score := score + ImagePoints(totalImages, withoutAlt);
    score := score + LinkPoints(internal);
    if canonical {
      score := score + 5;
    }
    if schema {
      score := score + 5;
    }
  }

  /** `checkSEO(url)` once the page is fetched and parsed: the score
      accumulated through the chain of checks, and its label. */
  method CheckSeo(page: Page, host: string) returns (report: Report)
    ensures report.score == Score(page, host)
    ensures 5 <= report.score <= 105
    ensures report.quality == Quality(report.score)
    ensures report.wordCount == |Words(page.bodyText)|
    ensures report.internalLinks == Count(page.hrefs, h => IsInternal(host, h))
    ensures report.externalLinks == Count(page.hrefs, h => IsExternal(host, h))
    ensures report.imagesWithoutAlt == |page.imageAlts| - Count(page.imageAlts, HasAlt)
  {
    var title := Trim(page.titleText);
    var description := page.descriptionContent.GetOr("");
    var wordCount := WordCount(page.bodyText);
    var internal, external := CountLinks(page.hrefs, host);
    var totalImages := |page.imageAlts|;
    var withoutAlt := totalImages - Count(page.imageAlts, HasAlt);

    var score := ScoreChain(|title|, |description|, page.h1Count, wordCount, totalImages, withoutAlt, internal,
                            page.canonicalLinks > 0, page.schemaScripts > 0);
    report := Report(|title|, |description|, wordCount, internal, external, withoutAlt, score, Quality(score));
  }
}
