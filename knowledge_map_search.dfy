/** The knowledge map page: the tab state, the search over the graph's
    nodes (matching title, category or slug, most important first, at most
    fifty), and the number of links at each result. */
module KnowledgeMapSearch {
  import opened Wrappers
  import opened Collections
  import opened Ordering
  import opened Text

  datatype MapNode = MapNode(id: int, title: string, slug: string, category: Option<string>, pageRank: Option<real>)

  /** A link endpoint: the node's id as the server sends it, or the node
      object itself once the force layout has resolved it. */
  datatype Endpoint = IdEnd(id: int) | NodeEnd(node: int)

  /** `typeof end === 'object' ? end.id : end`. */
  function EndId(e: Endpoint): int {
    match e
    case IdEnd(x) => x
    case NodeEnd(x) => x
  }

  datatype MapLink = MapLink(id: int, source: Endpoint, target: Endpoint)

  const MaxResults := 50

  /** The lower-cased, trimmed query is part of the lower-cased title,
      category or slug; a node without a category has no category match. */
  predicate Matches(n: MapNode, q: string) {
    || Contains(Lower(n.title), q)
    || (n.category.Some? && Contains(Lower(n.category.value), q))
    || Contains(Lower(n.slug), q)
  }

  /** `(node.pageRank || 0)`. */
  function RankKey(n: MapNode): real {
    if n.pageRank.Some? && n.pageRank.value != 0.0 then n.pageRank.value else 0.0
  }

  /** The nodes the query matches, in graph order. */
  function Matched(nodes: seq<MapNode>, query: string): (r: seq<MapNode>)
    ensures forall n :: n in r <==> n in nodes && Matches(n, Trim(Lower(query)))
    ensures multiset(r) <= multiset(nodes)
  {
    var matches := (n: MapNode) => Matches(n, Trim(Lower(query)));
    FilterSubMultiset(nodes, matches);
    Filter(nodes, matches)
  }

  /** `searchResults`: the fifty best-ranked matches, or all of them when
      there are fewer, best first; nothing for a blank query. */
  function SearchResults(nodes: seq<MapNode>, query: string): (r: seq<MapNode>)
    ensures Trim(query) == [] ==> r == []
    ensures Trim(query) != [] ==> |r| == Min(MaxResults, |Matched(nodes, query)|)
    ensures forall n :: n in r ==> n in nodes && Matches(n, Trim(Lower(query)))
    ensures forall i, j :: 0 <= i < j < |r| ==> RankKey(r[i]) >= RankKey(r[j])
    ensures forall a, b :: a in Matched(nodes, query) && a !in r && b in r ==> RankKey(a) <= RankKey(b)
    ensures multiset(r) <= multiset(nodes)
  {
    if Trim(query) == [] then []
    else
      var matched := Matched(nodes, query);
      var r := TopRanked(matched);
      assert forall n :: n in r ==> n in multiset(matched);
      r
  }

  /** The matches sorted by rank, best first, cut to fifty: as many as fit,
      and nothing left out ranks above anything kept. */
  function TopRanked(matched: seq<MapNode>): (r: seq<MapNode>)
    ensures |r| == Min(MaxResults, |matched|)
    ensures forall i, j :: 0 <= i < j < |r| ==> RankKey(r[i]) >= RankKey(r[j])
    ensures forall a, b :: a in matched && a !in r && b in r ==> RankKey(a) <= RankKey(b)
    ensures multiset(r) <= multiset(matched)
  {
    KeyOrdersArePreorders(RankKey);
    var sorted := SortBy(matched, ByKeyDesc(RankKey));
    var r := Take(sorted, MaxResults);
    PrefixSubMultiset(sorted, |r|);
    forall i, j | 0 <= i < j < |r| ensures RankKey(r[i]) >= RankKey(r[j]) {
      SortedDescending(sorted, RankKey, i, j);
    }
    SearchTop(matched, sorted, |r|);
    r
  }

  /** Nothing behind a prefix of the matches sorted by rank outranks anything in it. */
  lemma SearchTop(matched: seq<MapNode>, sorted: seq<MapNode>, k: nat)
    requires multiset(sorted) == multiset(matched) && SortedBy(sorted, ByKeyDesc(RankKey))
    requires k <= |sorted|
    ensures forall a, b :: a in matched && a !in sorted[..k] && b in sorted[..k] ==> RankKey(a) <= RankKey(b)
  {
    forall a, b | a in matched && a !in sorted[..k] && b in sorted[..k]
      ensures RankKey(a) <= RankKey(b)
    {
      assert a in multiset(matched);
      var p :| 0 <= p < |sorted| && sorted[p] == a;
      var q :| 0 <= q < k && sorted[..k][q] == b;
      SortedDescending(sorted, RankKey, q, p);
    }
  }

  /** With at most fifty matches, every matching node is a result. */
  lemma SearchFindsAllMatches(nodes: seq<MapNode>, query: string, n: MapNode)
    requires Trim(query) != []
    requires |Matched(nodes, query)| <= MaxResults
    requires n in nodes && Matches(n, Trim(Lower(query)))
    ensures n in SearchResults(nodes, query)
  {
    var matched := Matched(nodes, query);
    var r := TopRanked(matched);
    assert SearchResults(nodes, query) == r;
    var missing := multiset(matched) - multiset(r);
    assert multiset(matched) == multiset(r) + missing;
    assert |missing| == 0;
    assert n in multiset(matched);
  }

  /** The links at node `id` under the page's strict test
      `link.source === node.id || link.target === node.id`: only an endpoint
      still holding the id itself matches. */
  function LinksAt(links: seq<MapLink>, id: int): (r: seq<MapLink>)
    ensures forall l :: l in r <==> l in links && (l.source == IdEnd(id) || l.target == IdEnd(id))
    ensures forall l :: l in r ==> !(l.source.NodeEnd? && l.target.NodeEnd?)
  {
    Filter(links, (l: MapLink) => l.source == IdEnd(id) || l.target == IdEnd(id))
  }

  /** The connection count shown with a result, as the page computes it:
      its links under the strict test, a self-loop once. */
  function ConnectionCount(links: seq<MapLink>, id: int): (n: nat)
    ensures n <= |links|
    ensures n == 0 <==> forall l :: l in links ==> l.source != IdEnd(id) && l.target != IdEnd(id)
  {
    var r := LinksAt(links, id);
    assert r != [] ==> r[0] in r;
    |r|
  }

  /** Adding a link at the node raises its count by one; any other link leaves it. */
  lemma ConnectionCountAppend(links: seq<MapLink>, l: MapLink, id: int)
    ensures ConnectionCount(links + [l], id) == ConnectionCount(links, id) + (if l.source == IdEnd(id) || l.target == IdEnd(id) then 1 else 0)
  {
    FilterAppend(links, [l], (m: MapLink) => m.source == IdEnd(id) || m.target == IdEnd(id));
  }

  /** The force layout of the map tab: every link drawn has both endpoints
      replaced by its node objects, in place, on the page's own link list. */
  function Layout(links: seq<MapLink>): (r: seq<MapLink>)
    ensures |r| == |links|
    ensures forall i :: 0 <= i < |r| ==> r[i].id == links[i].id
    ensures forall i :: 0 <= i < |r| ==> r[i].source == NodeEnd(EndId(links[i].source)) && r[i].target == NodeEnd(EndId(links[i].target))
  {
    if links == [] then []
    else [MapLink(links[0].id, NodeEnd(EndId(links[0].source)), NodeEnd(EndId(links[0].target)))] + Layout(links[1..])
  }

  /** As written: once the map has been drawn, every result shows zero
      connections, whatever the links. */
  lemma LaidOutCountsZero(links: seq<MapLink>, id: int)
    ensures ConnectionCount(Layout(links), id) == 0
  {
    var laid := Layout(links);
    forall l | l in laid ensures l.source != IdEnd(id) && l.target != IdEnd(id) {
      var i :| 0 <= i < |laid| && laid[i] == l;
    }
  }

  /** The corrected count: the links at the node, reading an endpoint's id
      whether it holds the id or the node, as the visualization does. */
  function LinkCount(links: seq<MapLink>, id: int): (n: nat)
    ensures n <= |links|
    ensures n == 0 <==> forall l :: l in links ==> EndId(l.source) != id && EndId(l.target) != id
  {
    var r := Filter(links, (l: MapLink) => EndId(l.source) == id || EndId(l.target) == id);
    assert r != [] ==> r[0] in r;
    |r|
  }

  /** The corrected count does not change when the map is drawn. */
  lemma {:induction false} LinkCountSurvivesLayout(links: seq<MapLink>, id: int)
    ensures LinkCount(Layout(links), id) == LinkCount(links, id)
  {
    if links != [] {
      LinkCountSurvivesLayout(links[1..], id);
      assert Layout(links)[1..] == Layout(links[1..]);
    }
  }

  /** Before the map is drawn the page's count is the corrected one. */
  lemma {:induction false} CountsAgreeBeforeLayout(links: seq<MapLink>, id: int)
    requires forall l :: l in links ==> l.source.IdEnd? && l.target.IdEnd?
    ensures ConnectionCount(links, id) == LinkCount(links, id)
  {
    if links != [] {
      assert links[0] in links;
      CountsAgreeBeforeLayout(links[1..], id);
      assert forall l :: l in links[1..] ==> l in links;
    }
  }

  /** One link between nodes 7 and 8: the page counts one connection for
      node 7 before the map is drawn and none after; the corrected count
      keeps one. */
  lemma CountLostAfterLayout()
    ensures ConnectionCount([MapLink(1, IdEnd(7), IdEnd(8))], 7) == 1
    ensures ConnectionCount(Layout([MapLink(1, IdEnd(7), IdEnd(8))]), 7) == 0
    ensures LinkCount(Layout([MapLink(1, IdEnd(7), IdEnd(8))]), 7) == 1
  {
    var links := [MapLink(1, IdEnd(7), IdEnd(8))];
    assert links[0] in LinksAt(links, 7);
    LaidOutCountsZero(links, 7);
    LinkCountSurvivesLayout(links, 7);
    CountsAgreeBeforeLayout(links, 7);
  }

  datatype Tab = SearchTab | AnnotationsTab | CitationsTab | MapTab

  /** The page's own state. */
  class KnowledgeMapPage {
    var activeTab: Tab
    var searchQuery: string

    constructor()
      ensures activeTab == MapTab && searchQuery == ""
    {
      activeTab := MapTab;
      searchQuery := "";
    }

    method SetSearchQuery(q: string)
      modifies this
      ensures searchQuery == q && activeTab == old(activeTab)
    {
      searchQuery := q;
    }

    /** The results shown for the current query: the fifty best-ranked
        matches, or all of them when there are fewer. */
    function Results(nodes: seq<MapNode>): (r: seq<MapNode>)
      reads this
      ensures |r| <= MaxResults
      ensures searchQuery == "" ==> r == []
      ensures Trim(searchQuery) != [] ==> |r| == Min(MaxResults, |Matched(nodes, searchQuery)|)
      ensures forall n :: n in r ==> n in nodes && Matches(n, Trim(Lower(searchQuery)))
      ensures forall a, b :: a in Matched(nodes, searchQuery) && a !in r && b in r ==> RankKey(a) <= RankKey(b)
    {
      SearchResults(nodes, searchQuery)
    }
  }
}
