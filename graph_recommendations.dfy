/** `getRecommendations` of the article graph service: the targets of the
    article's direct edges (as the database returns them, best first), topped
    up with same-category articles when there are too few, and cut to `limit`. */
module GraphRecommendations {
  import opened Wrappers
  import opened Collections

  /** `edges.map(edge => edge.targetArticle).filter(article => article !== null)`. */
  function Present(targets: seq<Option<int>>): (r: seq<int>)
    ensures |r| <= |targets|
    ensures forall x :: x in r <==> Some(x) in targets
  {
    if targets == [] then []
    else (if targets[0].Some? then [targets[0].value] else []) + Present(targets[1..])
  }

  /** `getRecommendations(articleId, limit)` given what the database returns:
      the direct edge targets, whether the article itself was found, and the
      same-category articles ranked by PageRank. `limit` is `None` for `NaN`. */
  function Recommendations(targets: seq<Option<int>>, found: bool, similar: seq<int>, limit: Option<int>): (r: seq<int>)
    ensures limit.Some? && limit.value >= 0 ==> |r| <= limit.value
    ensures limit.None? ==> r == []
    ensures forall x :: x in r ==> Some(x) in targets || x in similar
  {
    var direct := Present(targets);
    var all := if found && limit.Some? && |direct| < limit.value then direct + similar else direct;
    SliceTo(all, limit)
  }

  /** The direct recommendations come first and in the database's order; the
      similar articles are consulted only when the direct ones fall short of a
      positive limit. */
  lemma DirectFirst(targets: seq<Option<int>>, found: bool, similar: seq<int>, l: int)
    requires l >= 0
    ensures var direct := Present(targets);
      var r := Recommendations(targets, found, similar, Some(l));
      (|direct| >= l ==> r == direct[..l])
      && (forall i :: 0 <= i < |r| && i < |direct| ==> r[i] == direct[i])
      && (!found ==> r == direct[..Min(l, |direct|)])
  {
  }
}
