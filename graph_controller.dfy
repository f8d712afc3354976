/** The graph REST controller: validation of the id parameters, the shaping of
    the shortest-path, statistics and full-graph replies, and the seeding of
    the ten demonstration edges.  Database reads are inputs; the service
    calls are the models of the graph service. */
module GraphController {
  import opened Wrappers
  import opened Collections
  import opened Text
  import opened GraphService

  /** A reply: `ctx.badRequest(message)` or `ctx.send(body)`. */
  datatype Reply<T> = BadRequest(message: string) | Send(body: T)

  /** What an id-taking endpoint hands to the service: the parsed article id
      and its parsed numeric option (`limit` or `depth`; `None` for `NaN`). */
  datatype ServiceCall = ServiceCall(articleId: int, option: Option<int>)

  /** The id-taking endpoints and the defaults of their numeric option. */
  datatype IdEndpoint = Recommendations | Subgraph | CommunityMembers | StructurallySimilar

  function OptionDefault(endpoint: IdEndpoint): int {
    match endpoint
    case Recommendations => 5
    case Subgraph => 2
    case CommunityMembers => 20
    case StructurallySimilar => 5
  }

  /** `parseInt(id, 10)`, refused with `badRequest` when it is `NaN`, before any
      service call; the option is `parseInt` of the query value or of its default. */
  function ValidateId(endpoint: IdEndpoint, id: string, option: Option<string>): (r: Reply<ServiceCall>)
    ensures r.BadRequest? <==> ParseInt10(id).None?
    ensures r.BadRequest? ==> r.message == "Invalid article ID"
    ensures r.Send? ==> r.body.articleId == ParseInt10(id).value
    ensures r.Send? && option.None? ==> r.body.option == Some(OptionDefault(endpoint))
    ensures r.Send? && option.Some? ==> r.body.option == ParseInt10(option.value)
  {
    match ParseInt10(id)
    case None => BadRequest("Invalid article ID")
    case Some(articleId) =>
      var opt := if option.Some? then ParseInt10(option.value) else Some(OptionDefault(endpoint));
      Send(ServiceCall(articleId, opt))
  }

  /** An id written by `String(n)` always passes validation and reaches the service unchanged. */
  lemma ValidIdsPass(endpoint: IdEndpoint, n: int, option: Option<string>)
    ensures ValidateId(endpoint, IntToString(n), option) == Send(ServiceCall(n, ValidateId(endpoint, IntToString(n), option).body.option))
  {
    ParseInt10RoundTrip(n);
  }

  /** An article as the shortest-path endpoint selects it. */
  datatype ArticleRef = ArticleRef(id: int, title: string, slug: string)

  /** The body of a shortest-path reply: `success:false` with a `null` path, or
      the path, its articles in path order (`undefined` where none matched) and
      its length in links. */
  datatype PathBody = NoPath | PathFound(path: seq<int>, articles: seq<Option<ArticleRef>>, length: int)

  /** `articles.find(a => a.id === id)`. */
  function FindArticle(articles: seq<ArticleRef>, id: int): (r: Option<ArticleRef>)
    ensures r.Some? ==> r.value in articles && r.value.id == id
    ensures r.None? ==> forall a :: a in articles ==> a.id != id
  {
    var k := FindIndex(articles, (a: ArticleRef) => a.id == id);
    if k < 0 then None else Some(articles[k])
  }

  /** `path.map(id => articles.find(a => a.id === id))`. */
  function InPathOrder(path: seq<int>, articles: seq<ArticleRef>): (r: seq<Option<ArticleRef>>)
    ensures |r| == |path|
    ensures forall i :: 0 <= i < |path| ==> r[i] == FindArticle(articles, path[i])
  {
    if path == [] then [] else [FindArticle(articles, path[0])] + InPathOrder(path[1..], articles)
  }

  /** `getShortestPath`: both ids are parsed and refused together; a missing
      path becomes `NoPath`; a found path is returned with its articles in
      path order and `length = path.length - 1`. */
  method GetShortestPath(sourceParam: string, targetParam: string, articleIds: seq<int>, edges: seq<EdgeRow>,
                         refs: seq<ArticleRef>) returns (r: Reply<PathBody>)
    ensures r.BadRequest? <==> ParseInt10(sourceParam).None? || ParseInt10(targetParam).None?
    ensures r.BadRequest? ==> r.message == "Invalid article IDs"
    ensures r.Send? && r.body.PathFound? ==>
      var s, t := ParseInt10(sourceParam).value, ParseInt10(targetParam).value;
      r.body.length == |r.body.path| - 1 >= 0
      && r.body.articles == InPathOrder(r.body.path, refs)
      && (s != t ==> WalkFromTo(OutMap(articleIds, edges), r.body.path, s, t)
                     && forall p :: WalkFromTo(OutMap(articleIds, edges), p, s, t) ==> |r.body.path| <= |p|)
      && (s == t ==> r.body.path == [s])
    ensures r.Send? && r.body.NoPath? ==>
      var s, t := ParseInt10(sourceParam).value, ParseInt10(targetParam).value;
      s !in articleIds || t !in articleIds || !Reachable(OutMap(articleIds, edges), s, t)
  {
    var source, target := ParseInt10(sourceParam), ParseInt10(targetParam);
    if source.None? || target.None? {
      return BadRequest("Invalid article IDs");
    }
    var path := FindShortestPath(articleIds, edges, source.value, target.value);
    if path.None? {
      return Send(NoPath);
    }
    r := Send(PathFound(path.value, InPathOrder(path.value, refs), |path.value| - 1));
  }

  /** A JavaScript number that may be `Infinity`. */
  datatype Number = Finite(value: real) | Infinity

  /** `avgDegree: edgesCount > 0 ? (edgesCount * 2) / articlesCount : 0`. */
  function AvgDegree(edgesCount: nat, articlesCount: nat): (r: Number)
    ensures edgesCount == 0 ==> r == Finite(0.0)
    ensures edgesCount > 0 && articlesCount == 0 ==> r == Infinity
    ensures edgesCount > 0 && articlesCount > 0 ==> r.Finite? && r.value * articlesCount as real == (2 * edgesCount) as real
  {
    if edgesCount == 0 then Finite(0.0)
    else if articlesCount == 0 then Infinity
    else Finite((2 * edgesCount) as real / articlesCount as real)
  }

  function SumTotal(rows: seq<DegreeRow>): nat {
    if rows == [] then 0 else rows[0].totalDegree + SumTotal(rows[1..])
  }

  lemma {:induction false} SumTotalSplits(rows: seq<DegreeRow>)
    requires forall i :: 0 <= i < |rows| ==> rows[i].totalDegree == rows[i].inDegree + rows[i].outDegree
    ensures SumTotal(rows) == SumIn(rows) + SumOut(rows)
  {
    if rows != [] {
      SumTotalSplits(rows[1..]);
    }
  }

  /** When every active edge joins two known articles, the reported average
      degree is the mean `totalDegree` that `updateDegreeCounts` writes. */
  lemma AvgDegreeIsMeanDegree(articles: seq<int>, edges: seq<EdgeRow>, rows: seq<DegreeRow>)
    requires forall i, j :: 0 <= i < j < |articles| ==> articles[i] != articles[j]
    requires forall i :: 0 <= i < |edges| ==> Recorded(IdSet(articles), edges[i])
    requires |rows| == |FirstOccurrences(articles)|
    requires forall i :: 0 <= i < |rows| ==>
      rows[i].id == FirstOccurrences(articles)[i]
      && rows[i].inDegree == |Get(InMap(articles, edges), rows[i].id)|
      && rows[i].outDegree == |Get(OutMap(articles, edges), rows[i].id)|
      && rows[i].totalDegree == rows[i].inDegree + rows[i].outDegree
    requires |edges| > 0
    ensures |articles| > 0
    ensures AvgDegree(|edges|, |articles|) == Finite(SumTotal(rows) as real / |articles| as real)
  {
    assert edges[0].source.value in articles;
    DegreesSumToTwiceEdges(articles, edges, rows);
    var n, e := |articles| as real, |edges| as real;
    assert SumTotal(rows) as real == 2.0 * e;
    assert (2 * |edges|) as real / n == SumTotal(rows) as real / n;
  }

  /** The degrees written add up to two per edge when every edge is recorded. */
  lemma DegreesSumToTwiceEdges(articles: seq<int>, edges: seq<EdgeRow>, rows: seq<DegreeRow>)
    requires forall i :: 0 <= i < |edges| ==> Recorded(IdSet(articles), edges[i])
    requires |rows| == |FirstOccurrences(articles)|
    requires forall i :: 0 <= i < |rows| ==>
      rows[i].id == FirstOccurrences(articles)[i]
      && rows[i].inDegree == |Get(InMap(articles, edges), rows[i].id)|
      && rows[i].outDegree == |Get(OutMap(articles, edges), rows[i].id)|
      && rows[i].totalDegree == rows[i].inDegree + rows[i].outDegree
    ensures SumTotal(rows) == 2 * |edges|
  {
    DegreeTotalsAgree(articles, edges, rows);
    CountAtAll(edges, IdSet(articles));
    SumTotalSplits(rows);
  }

  /** An article row as `getFullGraph` reads it; `None` is a missing value. */
  datatype ArticleRow = ArticleRow(
    id: int, title: string, slug: string, category: string,
    pageRank: Option<real>, authorityScore: Option<real>, hubScore: Option<real>,
    community: Option<int>, totalDegree: Option<int>, betweenness: Option<real>)

  /** A node of the full-graph reply. */
  datatype GraphNode = GraphNode(
    id: int, title: string, slug: string, category: string,
    pageRank: real, authorityScore: real, hubScore: real,
    community: int, totalDegree: int, betweenness: real)

  /** An edge row with its populated endpoints' ids. */
  datatype EdgeFull = EdgeFull(id: int, source: Option<int>, target: Option<int>, kind: string, weight: Option<real>, anchor: string)

  /** A link of the full-graph reply. */
  datatype GraphLink = GraphLink(id: int, source: int, target: int, kind: string, weight: real, anchorText: string)

  datatype GraphStats = GraphStats(totalNodes: nat, totalLinks: nat, communities: nat)

  /** `x || d` for a number: a missing value or `0` gives `d`. */
  function OrReal(x: Option<real>, d: real): (r: real)
    ensures x.Some? && x.value != 0.0 ==> r == x.value
    ensures x.None? || x.value == 0.0 ==> r == d
  {
    if x.Some? && x.value != 0.0 then x.value else d
  }

  function OrInt(x: Option<int>, d: int): (r: int)
    ensures x.Some? && x.value != 0 ==> r == x.value
    ensures x.None? || x.value == 0 ==> r == d
  {
    if x.Some? && x.value != 0 then x.value else d
  }

  /** The node mapping of `getFullGraph`, with its defaults. */
  function ToNode(a: ArticleRow): (r: GraphNode)
    ensures r.id == a.id && r.title == a.title && r.slug == a.slug && r.category == a.category
    ensures a.pageRank.Some? && a.pageRank.value != 0.0 ==> r.pageRank == a.pageRank.value
    ensures a.pageRank.None? || a.pageRank.value == 0.0 ==> r.pageRank == 0.15
    ensures r.authorityScore == (if a.authorityScore.Some? then a.authorityScore.value else 0.0)
    ensures r.hubScore == (if a.hubScore.Some? then a.hubScore.value else 0.0)
    ensures r.community == (if a.community.Some? then a.community.value else 0)
    ensures r.totalDegree == (if a.totalDegree.Some? then a.totalDegree.value else 0)
    ensures r.betweenness == (if a.betweenness.Some? then a.betweenness.value else 0.0)
  {
    GraphNode(a.id, a.title, a.slug, a.category,
              OrReal(a.pageRank, 0.15), OrReal(a.authorityScore, 0.0), OrReal(a.hubScore, 0.0),
              OrInt(a.community, 0), OrInt(a.totalDegree, 0), OrReal(a.betweenness, 0.0))
  }

  function ToNodes(articles: seq<ArticleRow>): (r: seq<GraphNode>)
    ensures |r| == |articles| && forall i :: 0 <= i < |articles| ==> r[i] == ToNode(articles[i])
  {
    if articles == [] then [] else [ToNode(articles[0])] + ToNodes(articles[1..])
  }

  /** `edges.filter(e => e.sourceArticle?.id && e.targetArticle?.id)`. */
  predicate Linkable(e: EdgeFull) {
    Truthy(e.source) && Truthy(e.target)
  }

  function ToLink(e: EdgeFull): (r: GraphLink)
    requires Linkable(e)
    ensures r.id == e.id && r.source == e.source.value && r.target == e.target.value
    ensures r.source != 0 && r.target != 0 && r.kind == e.kind && r.anchorText == e.anchor
    ensures e.weight.Some? && e.weight.value != 0.0 ==> r.weight == e.weight.value
    ensures e.weight.None? || e.weight.value == 0.0 ==> r.weight == 0.5
  {
    GraphLink(e.id, e.source.value, e.target.value, e.kind, OrReal(e.weight, 0.5), e.anchor)
  }

  function ToLinks(edges: seq<EdgeFull>): (r: seq<GraphLink>)
    ensures |r| == |Filter(edges, Linkable)|
    ensures forall i :: 0 <= i < |r| ==> Linkable(Filter(edges, Linkable)[i]) && r[i] == ToLink(Filter(edges, Linkable)[i])
  {
    var kept := Filter(edges, Linkable);
    seq(|kept|, i requires 0 <= i < |kept| => ToLink(kept[i]))
  }

  function Communities(nodes: seq<GraphNode>): (r: seq<int>)
    ensures |r| == |nodes| && forall i :: 0 <= i < |nodes| ==> r[i] == nodes[i].community
  {
    if nodes == [] then [] else [nodes[0].community] + Communities(nodes[1..])
  }

  /** `getFullGraph`: every article as a node with defaults filled in, every
      edge with both endpoints as a link, and the counts of nodes, links and
      distinct community values. */
  function FullGraph(articles: seq<ArticleRow>, edges: seq<EdgeFull>): (r: (seq<GraphNode>, seq<GraphLink>, GraphStats))
    ensures |r.0| == |articles| && forall i :: 0 <= i < |articles| ==> r.0[i] == ToNode(articles[i])
    ensures |r.1| == |Filter(edges, Linkable)| == Count(edges, Linkable)
    ensures forall i :: 0 <= i < |r.1| ==> r.1[i] == ToLink(Filter(edges, Linkable)[i])
    ensures r.2.totalNodes == |articles| && r.2.totalLinks == |r.1|
    ensures r.2.communities == |set n | n in r.0 :: n.community|
    ensures r.2.communities <= |articles| && (articles != [] ==> r.2.communities >= 1)
  {
    var nodes := ToNodes(articles);
    var links := ToLinks(edges);
    LinksAreTheLinkableEdges(edges);
    DistinctCommunities(nodes);
    (nodes, links, GraphStats(|nodes|, |links|, |FirstOccurrences(Communities(nodes))|))
  }

  /** `new Set(nodes.map(n => n.community)).size`: the number of distinct community values. */
  lemma DistinctCommunities(nodes: seq<GraphNode>)
    ensures |FirstOccurrences(Communities(nodes))| == |set n | n in nodes :: n.community|
  {
    var cs := Communities(nodes);
    FirstOccurrencesSize(cs);
    assert (set c | c in cs) == (set n | n in nodes :: n.community) by {
      forall c | c in cs ensures c in (set n | n in nodes :: n.community) {
        var i :| 0 <= i < |cs| && cs[i] == c;
        assert nodes[i] in nodes;
      }
    }
  }

  /** A link is reported exactly for each edge whose two endpoint ids are truthy. */
  lemma {:induction false} LinksAreTheLinkableEdges(edges: seq<EdgeFull>)
    ensures |ToLinks(edges)| == Count(edges, Linkable)
  {
    CountIsFilterLength(edges, Linkable);
  }

  /** One of the ten demonstration edges of `createTestEdges`. */
  datatype TestEdge = TestEdge(source: int, target: int, kind: string, weight: real, anchor: string)

  const TestEdges: seq<TestEdge> := [
    TestEdge(1, 3, "BUILDS_ON", 0.9, "Sprawdź koszty wdrożenia"),
    TestEdge(1, 7, "RELATED_TO", 0.85, "Zobacz dokumentację API"),
    TestEdge(1, 5, "RELATED_TO", 0.8, "Uniknij częstych błędów"),
    TestEdge(3, 7, "PREREQUISITE", 0.75, "Techniczne aspekty integracji"),
    TestEdge(3, 5, "RELATED_TO", 0.85, "Uniknij kosztownych błędów"),
    TestEdge(5, 1, "PREREQUISITE", 0.7, "Poznaj podstawy KSeF"),
    TestEdge(7, 5, "RELATED_TO", 0.6, "Typowe błędy integracji"),
    TestEdge(1, 9, "RELATED_TO", 0.7, "Sprawdź kary"),
    TestEdge(1, 11, "RELATED_TO", 0.65, "Dla mikrofirm"),
    TestEdge(3, 9, "RELATED_TO", 0.75, "Koszty vs Kary")
  ]

  /** Whether both articles of a test edge exist. */
  predicate Linkage(existing: set<int>, e: TestEdge) {
    e.source in existing && e.target in existing
  }

  /** `createTestEdges`: each of the ten edges is skipped (and counted) when
      either article is missing, else created unless the database insert
      fails (`failing` holds the positions whose insert throws). */
  method CreateTestEdges(existing: set<int>, failing: set<nat>) returns (created: nat, skipped: nat, inserted: seq<TestEdge>)
    ensures skipped == Count(TestEdges, e => !Linkage(existing, e))
    ensures created == |inserted| && created + skipped <= |TestEdges|
    ensures forall e :: e in inserted ==> e in TestEdges && Linkage(existing, e)
    ensures failing == {} ==> created + skipped == |TestEdges|
  {
    created, skipped, inserted := 0, 0, [];
    ghost var failed := 0;
    for i := 0 to |TestEdges|
      invariant skipped == Count(TestEdges[..i], e => !Linkage(existing, e))
      invariant created == |inserted| && created + skipped + failed == i
      invariant failing == {} ==> failed == 0
      invariant forall e :: e in inserted ==> e in TestEdges && Linkage(existing, e)
    {
      var edge := TestEdges[i];
      assert TestEdges[..i + 1][..i] == TestEdges[..i];
      if !Linkage(existing, edge) {
        skipped := skipped + 1;
        continue;
      }
      if i in failing {
        failed := failed + 1;
      } else {
        inserted := inserted + [edge];
        created := created + 1;
      }
    }
    assert TestEdges[..|TestEdges|] == TestEdges;
  }

  /** The summary of `calculateCommunities`: `new Set(communities.values()).size`
      distinct communities over `communities.size` nodes. */
  function CommunitySummary(nodes: seq<int>, comm: map<int, int>): (r: (nat, nat))
    requires forall i :: 0 <= i < |nodes| ==> nodes[i] in comm
    ensures r.1 == |nodes| && r.0 <= r.1
  {
    (|FirstOccurrences(seq(|nodes|, i requires 0 <= i < |nodes| => comm[nodes[i]]))|, |nodes|)
  }
}
