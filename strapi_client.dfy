/** The front end's Strapi client: mapping a call-to-action name to a page,
    and turning an article as the content API returns it into the article
    record the pages render, with JavaScript `||` defaults for every missing
    or falsy field. */
module StrapiClient {
  import opened Wrappers
  import opened Text

  /** `action ? (ctaActionMap[action] || "/") : "/"`. */
  function CtaUrl(action: Option<string>): (url: string)
    ensures action.None? || action.value !in CtaActions ==> url == "/"
    ensures action == Some("Kalkulator NIE wdrożenia") ==> url == "/kalkulator"
    ensures action == Some("Mapa wiedzy") ==> url == "/mapa-wiedzy"
    ensures action == Some("Baza wiedzy") ==> url == "/baza-wiedzy"
    ensures action == Some("Quiz gotowości") ==> url == "/quiz"
    ensures action == Some("Centrum pytań") ==> url == "/centrum-pytan"
    ensures action == Some("Kontakt") ==> url == "/kontakt"
    ensures action == Some("Strona główna") ==> url == "/"
  {
    if action.Some? && action.value != [] && action.value in CtaActions then CtaActions[action.value] else "/"
  }

  const CtaActions: map<string, string> := map[
    "Kalkulator NIE wdrożenia" := "/kalkulator",
    "Mapa wiedzy" := "/mapa-wiedzy",
    "Baza wiedzy" := "/baza-wiedzy",
    "Quiz gotowości" := "/quiz",
    "Centrum pytań" := "/centrum-pytan",
    "Kontakt" := "/kontakt",
    "Strona główna" := "/"]

  /** Every action leads to one of the site's seven pages. */
  lemma CtaUrlIsAPage(action: Option<string>)
    ensures CtaUrl(action) in {"/kalkulator", "/mapa-wiedzy", "/baza-wiedzy", "/quiz", "/centrum-pytan", "/kontakt", "/"}
  {
  }

  /** `s || d` on an optional string: the empty string is falsy too. */
  function OrString(s: Option<string>, d: string): (r: string)
    ensures s.Some? && s.value != [] ==> r == s.value
    ensures s.None? || s.value == [] ==> r == d
  {
    if s.Some? && s.value != [] then s.value else d
  }

  /** `n || d` on an optional number: zero is falsy too. */
  function OrInt(n: Option<int>, d: int): (r: int)
    ensures n.Some? && n.value != 0 ==> r == n.value
    ensures n.None? || n.value == 0 ==> r == d
  {
    if n.Some? && n.value != 0 then n.value else d
  }

  function OrReal(n: Option<real>, d: real): (r: real)
    ensures n.Some? && n.value != 0.0 ==> r == n.value
    ensures n.None? || n.value == 0.0 ==> r == d
  {
    if n.Some? && n.value != 0.0 then n.value else d
  }

  /** A media field: present or not, with a possibly empty url. */
  datatype Media = Media(url: string)

  datatype ApiAuthor = ApiAuthor(
    name: Option<string>, academicTitle: Option<string>, avatar: Option<Media>,
    role: Option<string>, bio: Option<string>)

  /** An article as the content API returns it (the fields the transformation reads). */
  datatype ApiArticle = ApiArticle(
    id: int, slug: string, title: string, excerpt: Option<string>,
    featuredImage: Option<Media>, gridImage: Option<Media>,
    category: Option<string>, tags: Option<seq<string>>, difficulty: Option<string>,
    contentType: Option<string>, author: Option<ApiAuthor>,
    publishedAt: string, updatedAt: Option<string>,
    readingTime: Option<int>, viewCount: Option<int>, commentsCount: Option<int>,
    ratingAverage: Option<real>, ratingCount: Option<int>,
    isFeatured: Option<bool>, isTrending: Option<bool>, isUpdated: Option<bool>, hasCTA: Option<bool>,
    ctaText: Option<string>, ctaAction: Option<string>)

  datatype Author = Author(name: string, avatar: string, role: string, bio: string)

  /** The article record the pages render. */
  datatype Article = Article(
    id: string, slug: string, title: string, excerpt: string, thumbnail: string, gridImage: string,
    category: string, tags: seq<string>, difficulty: string, contentType: string, author: Author,
    publishedAt: string, updatedAt: string, readingTime: int, viewCount: int, commentsCount: int,
    ratingAverage: real, ratingCount: int,
    isFeatured: bool, isTrending: bool, isUpdated: bool, isBookmarked: bool, hasCTA: bool,
    ctaText: Option<string>, ctaAction: Option<string>)

  const Placeholder := "/placeholder.svg"

  /** `m?.url`, truthy. */
  predicate HasUrl(m: Option<Media>) {
    m.Some? && m.value.url != []
  }

  /** A template literal `${x}` of an optional string: `undefined` when absent. */
  function Interpolate(s: Option<string>): string {
    if s.Some? then s.value else "undefined"
  }

  /** The author's display name: the academic title and the name when a title
      is set (even with no name), else the name, else "Ekspert KSeF". */
  function AuthorName(a: Option<ApiAuthor>): (name: string)
    ensures a.Some? && a.value.academicTitle.Some? && a.value.academicTitle.value != [] ==>
      name == a.value.academicTitle.value + " " + Interpolate(a.value.name)
    ensures (a.None? || a.value.academicTitle.None? || a.value.academicTitle.value == []) && a.Some? ==>
      name == OrString(a.value.name, "Ekspert KSeF")
    ensures a.None? ==> name == "Ekspert KSeF"
    ensures name != []
  {
    if a.Some? && a.value.academicTitle.Some? && a.value.academicTitle.value != [] then
      a.value.academicTitle.value + " " + Interpolate(a.value.name)
    else if a.Some? then OrString(a.value.name, "Ekspert KSeF")
    else "Ekspert KSeF"
  }

  /** `transformStrapiArticle(article)` against the Strapi base url `base`. */
  function Transform(base: string, a: ApiArticle): (r: Article)
    ensures r.id == IntToString(a.id) && r.slug == a.slug && r.title == a.title
    ensures HasUrl(a.featuredImage) ==> r.thumbnail == base + a.featuredImage.value.url
    ensures !HasUrl(a.featuredImage) ==> r.thumbnail == Placeholder
    ensures HasUrl(a.gridImage) ==> r.gridImage == base + a.gridImage.value.url
    ensures !HasUrl(a.gridImage) ==> r.gridImage == r.thumbnail
    ensures r.category == OrString(a.category, "Podstawy") && r.difficulty == OrString(a.difficulty, "Podstawowy")
    ensures r.contentType == OrString(a.contentType, "Artykuł") && r.readingTime == OrInt(a.readingTime, 5)
    ensures r.tags == a.tags.GetOr([]) && r.excerpt == OrString(a.excerpt, "")
    ensures r.author.name == AuthorName(a.author)
    ensures r.updatedAt == OrString(a.updatedAt, a.publishedAt) && r.publishedAt == a.publishedAt
    ensures !r.isBookmarked
    ensures r.isFeatured == a.isFeatured.GetOr(false) && r.hasCTA == a.hasCTA.GetOr(false)
    ensures r.ctaText == a.ctaText && r.ctaAction == a.ctaAction
  {
    var thumbnail := if HasUrl(a.featuredImage) then base + a.featuredImage.value.url else Placeholder;
    var gridImage := if HasUrl(a.gridImage) then base + a.gridImage.value.url
                     else if HasUrl(a.featuredImage) then base + a.featuredImage.value.url
                     else Placeholder;
    var author := Author(
      AuthorName(a.author),
      if a.author.Some? && HasUrl(a.author.value.avatar) then base + a.author.value.avatar.value.url else "/placeholder-avatar.svg",
      if a.author.Some? then OrString(a.author.value.role, "Ekspert") else "Ekspert",
      if a.author.Some? then OrString(a.author.value.bio, "") else "");
    Article(
      IntToString(a.id), a.slug, a.title, OrString(a.excerpt, ""), thumbnail, gridImage,
      OrString(a.category, "Podstawy"), a.tags.GetOr([]), OrString(a.difficulty, "Podstawowy"),
      OrString(a.contentType, "Artykuł"), author,
      a.publishedAt, OrString(a.updatedAt, a.publishedAt), OrInt(a.readingTime, 5),
      OrInt(a.viewCount, 0), OrInt(a.commentsCount, 0), OrReal(a.ratingAverage, 0.0), OrInt(a.ratingCount, 0),
      a.isFeatured.GetOr(false), a.isTrending.GetOr(false), a.isUpdated.GetOr(false), false,
      a.hasCTA.GetOr(false), a.ctaText, a.ctaAction)
  }

  /** The rendered record never lacks a category, difficulty, type, author
      name or images, and its reading time is never zero. */
  lemma TransformFillsDefaults(base: string, a: ApiArticle)
    ensures var r := Transform(base, a);
      r.category != [] && r.difficulty != [] && r.contentType != [] && r.author.name != []
      && r.readingTime != 0 && r.thumbnail != [] && r.gridImage != [] && r.author.avatar != []
  {
  }

  /** Set fields pass through unchanged. */
  lemma TransformKeepsSetFields(base: string, a: ApiArticle, category: string, readingTime: int)
    requires category != [] && readingTime != 0
    requires a.category == Some(category) && a.readingTime == Some(readingTime)
    ensures Transform(base, a).category == category && Transform(base, a).readingTime == readingTime
  {
  }

  /** A title without a name shows as the title followed by "undefined". */
  lemma TitleWithoutName(base: string, a: ApiArticle)
    requires a.author == Some(ApiAuthor(None, Some("dr"), None, None, None))
    ensures Transform(base, a).author.name == "dr undefined"
  {
  }
}
