/** The blog prototype's helpers: the masonry card size of a grid position,
    the badge colours of a category, the relative age of a date, and the
    articles related to the one being read. */
module BlogHelpers {
  import opened Wrappers
  import opened Collections
  import opened Ordering
  import opened Text

  datatype CardVariant = Short | Medium | Tall | ExtraTall

  /** The twelve-card size pattern of the grid. */
  const CardPattern: seq<CardVariant> :=
    [Medium, Short, Tall, Medium, Short, ExtraTall, Medium, Short, Tall, Medium, Short, Medium]

  /** JavaScript's `%`: the remainder takes the sign of the dividend. */
  function JsRem(a: int, b: int): (r: int)
    requires b > 0
    ensures a >= 0 ==> r == a % b
    ensures a < 0 ==> -b < r <= 0 && r == -((-a) % b)
  {
    if a >= 0 then a % b else -((-a) % b)
  }

  /** `getCardVariant(index)`: `pattern[index % 12]`, which is `undefined`
      (`None`) for a negative index that is not a multiple of twelve. */
  function CardVariantAt(index: int): (v: Option<CardVariant>)
    ensures index >= 0 ==> v == Some(CardPattern[index % 12])
    ensures v.Some? <==> index >= 0 || index % 12 == 0
  {
    var r := JsRem(index, |CardPattern|);
    if r >= 0 then Some(CardPattern[r]) else None
  }

  /** The pattern repeats every twelve cards. */
  lemma CardVariantPeriodic(index: int)
    requires index >= 0
    ensures CardVariantAt(index + 12) == CardVariantAt(index)
  {
    assert (index + 12) % 12 == index % 12;
  }

  /** Every run of twelve consecutive cards holds one extra-tall card. */
  lemma OneExtraTallPerTwelve(start: nat, k: nat)
    requires k < 12
    ensures CardVariantAt(start + k) == Some(ExtraTall) <==> (start + k) % 12 == 5
  {
  }

  const CategoryColors: map<string, string> := map[
    "Podstawy" := "bg-blue-100 text-blue-700",
    "Koszty" := "bg-green-100 text-green-700",
    "Wdrożenie" := "bg-purple-100 text-purple-700",
    "Prawo" := "bg-red-100 text-red-700",
    "Techniczne" := "bg-orange-100 text-orange-700",
    "Studia" := "bg-pink-100 text-pink-700",
    "Aktualności" := "bg-yellow-100 text-yellow-700"]

  const NeutralColor := "bg-neutral-100 text-neutral-700"

  /** `getCategoryColor(category)`: the category's colours, neutral for any other name. */
  function CategoryColor(category: string): (c: string)
    ensures category in CategoryColors ==> c == CategoryColors[category]
    ensures category !in CategoryColors ==> c == NeutralColor
  {
    if category in CategoryColors && CategoryColors[category] != [] then CategoryColors[category] else NeutralColor
  }

  /** Known categories get pairwise different colours, and none of them the neutral one. */
  lemma CategoryColorsDistinct(a: string, b: string)
    requires a in CategoryColors && b in CategoryColors && a != b
    ensures CategoryColor(a) != CategoryColor(b) && CategoryColor(a) != NeutralColor
  {
  }

  /** The age bucket `formatRelativeDate` renders. */
  datatype Age = Today | Yesterday | DaysAgo(days: int) | WeeksAgo(weeks: int) | MonthsAgo(months: int) | YearsAgo(years: int)

  /** The bucket of a whole number of days, `Math.floor(diffMs / day)`. */
  function AgeOf(diffDays: int): (a: Age)
    ensures diffDays == 0 <==> a == Today
    ensures diffDays == 1 <==> a == Yesterday
    ensures a.DaysAgo? <==> diffDays < 7 && diffDays != 0 && diffDays != 1
    ensures a.DaysAgo? ==> a.days == diffDays
    ensures a.WeeksAgo? <==> 7 <= diffDays < 30
    ensures a.WeeksAgo? ==> 1 <= a.weeks <= 4 && 7 * a.weeks <= diffDays < 7 * a.weeks + 7
    ensures a.MonthsAgo? <==> 30 <= diffDays < 365
    ensures a.MonthsAgo? ==> 1 <= a.months <= 12 && 30 * a.months <= diffDays < 30 * a.months + 30
    ensures a.YearsAgo? <==> diffDays >= 365
    ensures a.YearsAgo? ==> a.years >= 1 && 365 * a.years <= diffDays < 365 * a.years + 365
  {
    if diffDays == 0 then Today
    else if diffDays == 1 then Yesterday
    else if diffDays < 7 then DaysAgo(diffDays)
    else if diffDays < 30 then WeeksAgo(diffDays / 7)
    else if diffDays < 365 then MonthsAgo(diffDays / 30)
    else YearsAgo(diffDays / 365)
  }

  /** The Polish text of a bucket. */
  function AgeText(a: Age): (s: string)
    ensures a == Today ==> s == "Dzisiaj"
    ensures a == Yesterday ==> s == "Wczoraj"
    ensures a.DaysAgo? ==> s == IntToString(a.days) + " dni temu"
    ensures a.WeeksAgo? ==> s == IntToString(a.weeks) + " tyg. temu"
    ensures a.MonthsAgo? ==> s == IntToString(a.months) + " mies. temu"
    ensures a.YearsAgo? ==> s == IntToString(a.years) + " lat temu"
  {
    match a
    case Today => "Dzisiaj"
    case Yesterday => "Wczoraj"
    case DaysAgo(n) => IntToString(n) + " dni temu"
    case WeeksAgo(n) => IntToString(n) + " tyg. temu"
    case MonthsAgo(n) => IntToString(n) + " mies. temu"
    case YearsAgo(n) => IntToString(n) + " lat temu"
  }

  const MsPerDay := 86400000

  /** `formatRelativeDate(date)` with `diffMs` = now - date; the division
      floors, so a date later today in the future reads as yesterday's. */
  function FormatRelativeDate(diffMs: int): (s: string)
    ensures s == AgeText(AgeOf(diffMs / MsPerDay))
  {
    AgeText(AgeOf(diffMs / MsPerDay))
  }

  /** The rank of a bucket's unit, from "today" up to years. */
  function UnitRank(a: Age): nat {
    match a
    case Today => 0
    case Yesterday => 1
    case DaysAgo(_) => 2
    case WeeksAgo(_) => 3
    case MonthsAgo(_) => 4
    case YearsAgo(_) => 5
  }

  /** For dates in the past, an older date never gets a finer unit, and
      within a unit never a smaller count. */
  lemma AgeMonotone(d1: int, d2: int)
    requires 0 <= d1 <= d2
    ensures UnitRank(AgeOf(d1)) <= UnitRank(AgeOf(d2))
    ensures AgeOf(d1).WeeksAgo? && AgeOf(d2).WeeksAgo? ==> AgeOf(d1).weeks <= AgeOf(d2).weeks
    ensures AgeOf(d1).MonthsAgo? && AgeOf(d2).MonthsAgo? ==> AgeOf(d1).months <= AgeOf(d2).months
    ensures AgeOf(d1).YearsAgo? && AgeOf(d2).YearsAgo? ==> AgeOf(d1).years <= AgeOf(d2).years
  {
  }

  /** A future date less than a week ahead reads as a negative number of days. */
  lemma FutureDateReadsNegative()
    ensures FormatRelativeDate(-2 * MsPerDay) == "-2 dni temu"
  {
  }

  /** The fields of a blog article that relatedness reads. */
  datatype BlogArticle = BlogArticle(
    id: string, category: string, tags: seq<string>, difficulty: string, contentType: string,
    isTrending: bool, isUpdated: bool)

  /** `article.tags.filter(tag => current.tags.includes(tag)).length`. */
  function SharedTags(article: seq<string>, current: seq<string>): (n: nat)
    ensures n <= |article|
    ensures n == |Filter(article, (t: string) => t in current)|
  {
    CountIsFilterLength(article, (t: string) => t in current);
    Count(article, (t: string) => t in current)
  }

  /** The relatedness score of `a` to `current`: a shared category is worth
      most, every shared tag adds 5, and the score is zero exactly when the
      two have nothing in common and `a` is neither trending nor updated. */
  function RelatedScore(current: BlogArticle, a: BlogArticle): (s: nat)
    ensures a.category == current.category ==> s >= 10
    ensures s >= 5 * SharedTags(a.tags, current.tags) && s <= 17 + 5 * |a.tags|
    ensures s == 0 <==> a.category != current.category && SharedTags(a.tags, current.tags) == 0
                        && a.difficulty != current.difficulty && a.contentType != current.contentType
                        && !a.isTrending && !a.isUpdated
  {
    var score := if a.category == current.category then 10 else 0;
    var score := score + SharedTags(a.tags, current.tags) * 5;
    var score := score + if a.difficulty == current.difficulty then 3 else 0;
    var score := score + if a.contentType == current.contentType then 2 else 0;
    var score := score + if a.isTrending then 1 else 0;
    score + if a.isUpdated then 1 else 0
  }

  /** A same-category article always outscores one of another category that
      shares no tags. */
  lemma CategoryDominates(current: BlogArticle, a: BlogArticle, b: BlogArticle)
    requires a.category == current.category && b.category != current.category
    requires SharedTags(b.tags, current.tags) == 0
    ensures RelatedScore(current, a) > RelatedScore(current, b)
  {
  }

  function ScoreKey(current: BlogArticle): BlogArticle -> real {
    (a: BlogArticle) => RelatedScore(current, a) as real
  }

  /** `allArticles.filter(a => a.id !== currentArticle.id)`. */
  function Others(current: BlogArticle, all: seq<BlogArticle>): seq<BlogArticle> {
    Filter(all, (a: BlogArticle) => a.id != current.id)
  }

  /** `getRelatedArticles(current, all, limit)`: the other articles by
      non-increasing score, then `slice(0, limit)` (a negative limit counts
      from the end).  For a limit that is not negative this is a top-`limit`
      selection: as many other articles as the limit allows, and none left out
      scores above one returned. */
  function RelatedArticles(current: BlogArticle, all: seq<BlogArticle>, limit: int): (r: seq<BlogArticle>)
    ensures forall a :: a in r ==> a in all && a.id != current.id
    ensures limit >= 0 ==> |r| == Min(limit, |Others(current, all)|)
    ensures forall i, j :: 0 <= i < j < |r| ==> RelatedScore(current, r[i]) >= RelatedScore(current, r[j])
    ensures forall a, b :: a in Others(current, all) && a !in r && b in r ==> RelatedScore(current, a) <= RelatedScore(current, b)
    ensures multiset(r) <= multiset(Others(current, all))
  {
    var others := Others(current, all);
    KeyOrdersArePreorders(ScoreKey(current));
    var sorted := SortBy(others, ByKeyDesc(ScoreKey(current)));
    var r := SliceTo(sorted, Some(limit));
    RelatedPrefix(current, all, others, sorted, |r|);
    RelatedTop(current, others, sorted, |r|);
    r
  }
  /** `getRelatedArticles(current, all)` with the default limit of three: the
      three best-scoring other articles, or all of them when there are fewer. */
  function DefaultRelatedArticles(current: BlogArticle, all: seq<BlogArticle>): (r: seq<BlogArticle>)
    ensures |r| == Min(3, |Others(current, all)|)
    ensures forall a :: a in r ==> a in all && a.id != current.id
    ensures forall a, b :: a in Others(current, all) && a !in r && b in r ==> RelatedScore(current, a) <= RelatedScore(current, b)
  {
    RelatedArticles(current, all, 3)
  }


  /** Nothing behind a prefix of the sorted articles scores above anything in it. */
  lemma RelatedTop(current: BlogArticle, others: seq<BlogArticle>, sorted: seq<BlogArticle>, k: nat)
    requires multiset(sorted) == multiset(others) && SortedBy(sorted, ByKeyDesc(ScoreKey(current)))
    requires k <= |sorted|
    ensures forall a, b :: a in others && a !in sorted[..k] && b in sorted[..k] ==> RelatedScore(current, a) <= RelatedScore(current, b)
  {
    forall a, b | a in others && a !in sorted[..k] && b in sorted[..k]
      ensures RelatedScore(current, a) <= RelatedScore(current, b)
    {
      assert a in multiset(others);
      var p :| 0 <= p < |sorted| && sorted[p] == a;
      var q :| 0 <= q < k && sorted[..k][q] == b;
      SortedDescending(sorted, ScoreKey(current), q, p);
    }
  }

  /** A prefix of the other articles sorted by score keeps their order and holds nothing else. */
  lemma RelatedPrefix(current: BlogArticle, all: seq<BlogArticle>, others: seq<BlogArticle>,
                      sorted: seq<BlogArticle>, k: nat)
    requires others == Others(current, all)
    requires multiset(sorted) == multiset(others) && SortedBy(sorted, ByKeyDesc(ScoreKey(current)))
    requires k <= |sorted|
    ensures forall a :: a in sorted[..k] ==> a in all && a.id != current.id
    ensures forall i, j :: 0 <= i < j < k ==> RelatedScore(current, sorted[i]) >= RelatedScore(current, sorted[j])
    ensures multiset(sorted[..k]) <= multiset(others)
  {
    FilterSubMultiset(all, (a: BlogArticle) => a.id != current.id);
    PrefixSubMultiset(sorted, k);
    forall a | a in sorted[..k] ensures a in all && a.id != current.id {
      assert a in multiset(sorted);
      assert a in multiset(others);
    }
    forall i, j | 0 <= i < j < k ensures RelatedScore(current, sorted[i]) >= RelatedScore(current, sorted[j]) {
      SortedDescending(sorted, ScoreKey(current), i, j);
    }
  }

  /** With room for them, every other article is returned: nothing but the
      current one is dropped. */
  lemma RelatedKeepsAllWithRoom(current: BlogArticle, all: seq<BlogArticle>, limit: int, a: BlogArticle)
    requires limit >= |all|
    requires a in all && a.id != current.id
    ensures a in RelatedArticles(current, all, limit)
  {
    var others := Others(current, all);
    KeyOrdersArePreorders(ScoreKey(current));
    var sorted := SortBy(others, ByKeyDesc(ScoreKey(current)));
    SortKeepsMembers(others, ByKeyDesc(ScoreKey(current)), a);
    assert SliceTo(sorted, Some(limit)) == sorted;
  }
}
