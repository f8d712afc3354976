/** The in-memory part of the article graph service: the adjacency maps built
    from the stored articles and edges, degree counts, breadth-first shortest
    paths, depth-limited neighbourhoods, the discrete skeleton of community
    detection, and the length bound on recommendations.  Database reads are
    inputs: the article ids and, per edge, the ids of its populated source and
    target articles. */
module GraphService {
  import opened Wrappers
  import opened Collections

  /** A knowledge edge as read back with its relations populated; an endpoint is
      `None` when the relation is empty. */
  datatype EdgeRow = EdgeRow(source: Option<int>, target: Option<int>)

  /** `sourceId && targetId`: the id is present and is not the falsy `0`. */
  predicate Truthy(id: Option<int>) {
    id.Some? && id.value != 0
  }

  /** The edges `buildGraphData` records: both ids truthy and both articles known. */
  predicate Recorded(ids: set<int>, e: EdgeRow) {
    Truthy(e.source) && Truthy(e.target) && e.source.value in ids && e.target.value in ids
  }

  /** The targets of the recorded edges leaving `u`, in edge order. */
  function Targets(es: seq<EdgeRow>, ids: set<int>, u: int): (r: seq<int>)
    ensures forall v :: v in r ==> v in ids
  {
    if es == [] then []
    else
      var e := es[|es| - 1];
      Targets(es[..|es| - 1], ids, u) + (if Recorded(ids, e) && e.source.value == u then [e.target.value] else [])
  }

  /** The sources of the recorded edges entering `v`, in edge order. */
  function Sources(es: seq<EdgeRow>, ids: set<int>, v: int): (r: seq<int>)
    ensures forall u :: u in r ==> u in ids
  {
    if es == [] then []
    else
      var e := es[|es| - 1];
      Sources(es[..|es| - 1], ids, v) + (if Recorded(ids, e) && e.target.value == v then [e.source.value] else [])
  }

  /** The adjacency (and out-link) map the service builds: every known article
      maps to the targets of its recorded out-edges. */
  ghost function OutMap(articles: seq<int>, es: seq<EdgeRow>): map<int, seq<int>> {
    map u | u in articles :: Targets(es, IdSet(articles), u)
  }

  /** The in-link map the service builds. */
  ghost function InMap(articles: seq<int>, es: seq<EdgeRow>): map<int, seq<int>> {
    map v | v in articles :: Sources(es, IdSet(articles), v)
  }

  /** The structure `buildGraphData` returns: node ids in first-insertion order,
      the raw edges, and the three link maps. */
  datatype Graph = Graph(
    nodes: seq<int>,
    edges: seq<EdgeRow>,
    adjacency: map<int, seq<int>>,
    inLinks: map<int, seq<int>>,
    outLinks: map<int, seq<int>>)

  /** The ids listed in `s`. */
  function IdSet(s: seq<int>): (r: set<int>)
    ensures forall x :: x in r <==> x in s
  {
    set x | x in s
  }

  /** `map.get(id) || []`. */
  function Get(m: map<int, seq<int>>, u: int): seq<int> {
    if u in m then m[u] else []
  }

  /** Every link of `m` stays inside `ids`. */
  predicate Closed(m: map<int, seq<int>>, ids: set<int>) {
    forall u, v :: u in m && v in m[u] ==> v in ids
  }

  /** `buildGraphData`: one node per article id and, for every edge whose two
      endpoints are known articles, one entry in the source's adjacency and
      out-links and one in the target's in-links. */
  method BuildGraphData(articles: seq<int>, edges: seq<EdgeRow>) returns (g: Graph)
    ensures g.nodes == FirstOccurrences(articles) && g.edges == edges
    ensures g.adjacency == OutMap(articles, edges) && g.outLinks == OutMap(articles, edges)
    ensures g.inLinks == InMap(articles, edges)
  {
    var nodes, empty := InitNodes(articles);
    var adjacency, inLinks, outLinks := LinkEdges(IdSet(articles), empty, edges);
    LinkedAreTheMaps(articles, edges, adjacency, inLinks);
    g := Graph(nodes, edges, adjacency, inLinks, outLinks);
  }

  lemma LinkedAreTheMaps(articles: seq<int>, edges: seq<EdgeRow>, adjacency: map<int, seq<int>>, inLinks: map<int, seq<int>>)
    requires LinkedUpTo(IdSet(articles), adjacency, inLinks, edges)
    ensures adjacency == OutMap(articles, edges) && inLinks == InMap(articles, edges)
  {
    assert adjacency.Keys == OutMap(articles, edges).Keys;
    assert inLinks.Keys == InMap(articles, edges).Keys;
  }

  /** The first loop of `buildGraphData`: every article id gets a node and an
      empty list in each map. */
  method InitNodes(articles: seq<int>) returns (nodes: seq<int>, empty: map<int, seq<int>>)
    ensures nodes == FirstOccurrences(articles)
    ensures empty.Keys == IdSet(articles) && forall u :: u in empty ==> empty[u] == []
  {
    nodes := [];
    empty := map[];
    var i := 0;
    while i < |articles|
      invariant 0 <= i <= |articles|
      invariant nodes == FirstOccurrences(articles[..i])
      invariant empty.Keys == IdSet(articles[..i])
      invariant forall u :: u in empty ==> empty[u] == []
    {
      var id := articles[i];
      assert articles[..i + 1][..i] == articles[..i];
      if id !in empty {
        nodes := nodes + [id];
      }
      empty := empty[id := []];
      i := i + 1;
    }
    assert articles[..i] == articles;
  }

  lemma TargetsSnoc(es: seq<EdgeRow>, e: EdgeRow, ids: set<int>, u: int)
    ensures Targets(es + [e], ids, u) == Targets(es, ids, u) + (if Recorded(ids, e) && e.source.value == u then [e.target.value] else [])
  {
    assert (es + [e])[..|es|] == es;
  }

  lemma SourcesSnoc(es: seq<EdgeRow>, e: EdgeRow, ids: set<int>, v: int)
    ensures Sources(es + [e], ids, v) == Sources(es, ids, v) + (if Recorded(ids, e) && e.target.value == v then [e.source.value] else [])
  {
    assert (es + [e])[..|es|] == es;
  }

  /** The lists of `adjacency` and `inLinks` are those of the edges `done`. */
  ghost predicate LinkedUpTo(ids: set<int>, adjacency: map<int, seq<int>>, inLinks: map<int, seq<int>>, done: seq<EdgeRow>) {
    adjacency.Keys == inLinks.Keys == ids
    && (forall u :: u in adjacency ==> adjacency[u] == Targets(done, ids, u))
    && (forall v :: v in inLinks ==> inLinks[v] == Sources(done, ids, v))
  }

  /** The second loop of `buildGraphData`: each recorded edge extends its
      source's adjacency and out-links and its target's in-links. */
  method LinkEdges(ids: set<int>, empty: map<int, seq<int>>, edges: seq<EdgeRow>)
    returns (adjacency: map<int, seq<int>>, inLinks: map<int, seq<int>>, outLinks: map<int, seq<int>>)
    requires empty.Keys == ids && forall u :: u in empty ==> empty[u] == []
    ensures outLinks == adjacency && LinkedUpTo(ids, adjacency, inLinks, edges)
  {
    adjacency, inLinks, outLinks := empty, empty, empty;
    var j := 0;
    while j < |edges|
      invariant 0 <= j <= |edges|
      invariant outLinks == adjacency && LinkedUpTo(ids, adjacency, inLinks, edges[..j])
    {
      assert edges[..j + 1] == edges[..j] + [edges[j]];
      adjacency, inLinks, outLinks := LinkOne(ids, adjacency, inLinks, outLinks, edges[..j], edges[j]);
      j := j + 1;
    }
    assert edges[..j] == edges;
  }

  /** One iteration of the second loop of `buildGraphData`. */
  method LinkOne(ids: set<int>, adjacency: map<int, seq<int>>, inLinks: map<int, seq<int>>, outLinks: map<int, seq<int>>,
                 ghost done: seq<EdgeRow>, e: EdgeRow)
    returns (adjacency': map<int, seq<int>>, inLinks': map<int, seq<int>>, outLinks': map<int, seq<int>>)
    requires outLinks == adjacency && LinkedUpTo(ids, adjacency, inLinks, done)
    ensures outLinks' == adjacency' && LinkedUpTo(ids, adjacency', inLinks', done + [e])
  {
    forall u ensures Targets(done + [e], ids, u) == Targets(done, ids, u) + (if Recorded(ids, e) && e.source.value == u then [e.target.value] else []) {
      TargetsSnoc(done, e, ids, u);
    }
    forall v ensures Sources(done + [e], ids, v) == Sources(done, ids, v) + (if Recorded(ids, e) && e.target.value == v then [e.source.value] else []) {
      SourcesSnoc(done, e, ids, v);
    }
    adjacency', inLinks', outLinks' := adjacency, inLinks, outLinks;
    if Truthy(e.source) && Truthy(e.target) && e.source.value in adjacency && e.target.value in adjacency {
      var s, t := e.source.value, e.target.value;
      adjacency' := adjacency[s := adjacency[s] + [t]];
      outLinks' := outLinks[s := outLinks[s] + [t]];
      inLinks' := inLinks[t := inLinks[t] + [s]];
    }
  }

  /** The built maps only link known articles to known articles. */
  lemma OutMapClosed(articles: seq<int>, es: seq<EdgeRow>)
    ensures Closed(OutMap(articles, es), IdSet(articles))
    ensures Closed(InMap(articles, es), IdSet(articles))
  {
  }

  /** Sum of the lengths of `m`'s lists over the nodes `ns`. */
  function SumLen(ns: seq<int>, m: map<int, seq<int>>): nat {
    if ns == [] then 0 else |Get(m, ns[0])| + SumLen(ns[1..], m)
  }

  /** The recorded edges of `es` whose source lies in `ns` (`bySource`) or whose target does. */
  predicate RecordedAt(ids: set<int>, ns: set<int>, bySource: bool, e: EdgeRow) {
    Recorded(ids, e) && (if bySource then e.source.value else e.target.value) in ns
  }

  function CountAt(es: seq<EdgeRow>, ids: set<int>, ns: set<int>, bySource: bool): nat {
    if es == [] then 0
    else CountAt(es[..|es| - 1], ids, ns, bySource) + (if RecordedAt(ids, ns, bySource, es[|es| - 1]) then 1 else 0)
  }

  function TargetMap(ns: seq<int>, es: seq<EdgeRow>, ids: set<int>): map<int, seq<int>> {
    map u | u in ns :: Targets(es, ids, u)
  }

  function SourceMap(ns: seq<int>, es: seq<EdgeRow>, ids: set<int>): map<int, seq<int>> {
    map v | v in ns :: Sources(es, ids, v)
  }

  /** Over distinct nodes, the out-lists together hold one entry per recorded
      edge leaving those nodes. */
  lemma {:induction false} SumTargets(ns: seq<int>, es: seq<EdgeRow>, ids: set<int>)
    requires forall i, j :: 0 <= i < j < |ns| ==> ns[i] != ns[j]
    ensures SumLen(ns, TargetMap(ns, es, ids)) == CountAt(es, ids, IdSet(ns), true)
    decreases |es|
  {
    var m := TargetMap(ns, es, ids);
    if es == [] {
      SumZero(ns, m);
    } else {
      var init := es[..|es| - 1];
      var e := es[|es| - 1];
      var m0 := TargetMap(ns, init, ids);
      SumTargets(ns, init, ids);
      var hit := Recorded(ids, e);
      var at := if hit then e.source.value else 0;
      forall u | u in ns ensures |m[u]| == |m0[u]| + (if hit && u == at then 1 else 0) { }
      SumBump(ns, m0, m, hit, at);
    }
  }

  lemma {:induction false} SumSources(ns: seq<int>, es: seq<EdgeRow>, ids: set<int>)
    requires forall i, j :: 0 <= i < j < |ns| ==> ns[i] != ns[j]
    ensures SumLen(ns, SourceMap(ns, es, ids)) == CountAt(es, ids, IdSet(ns), false)
    decreases |es|
  {
    var m := SourceMap(ns, es, ids);
    if es == [] {
      SumZero(ns, m);
    } else {
      var init := es[..|es| - 1];
      var e := es[|es| - 1];
      var m0 := SourceMap(ns, init, ids);
      SumSources(ns, init, ids);
      var hit := Recorded(ids, e);
      var at := if hit then e.target.value else 0;
      forall v | v in ns ensures |m[v]| == |m0[v]| + (if hit && v == at then 1 else 0) { }
      SumBump(ns, m0, m, hit, at);
    }
  }

  lemma {:induction false} SumZero(ns: seq<int>, m: map<int, seq<int>>)
    requires forall u :: u in ns ==> u in m && m[u] == []
    ensures SumLen(ns, m) == 0
  {
    if ns != [] {
      SumZero(ns[1..], m);
    }
  }

  /** Growing one node's list by one raises the sum by one if that node is listed (once). */
  lemma {:induction false} SumBump(ns: seq<int>, m0: map<int, seq<int>>, m: map<int, seq<int>>, hit: bool, at: int)
    requires forall i, j :: 0 <= i < j < |ns| ==> ns[i] != ns[j]
    requires forall u :: u in ns ==> u in m0 && u in m && |m[u]| == |m0[u]| + (if hit && u == at then 1 else 0)
    ensures SumLen(ns, m) == SumLen(ns, m0) + (if hit && at in ns then 1 else 0)
  {
    if ns != [] {
      SumBump(ns[1..], m0, m, hit, at);
      assert at in ns <==> at == ns[0] || at in ns[1..];
      assert ns[0] !in ns[1..] by {
        forall k | 0 <= k < |ns| - 1 ensures ns[1..][k] != ns[0] { assert ns[k + 1] != ns[0]; }
      }
    }
  }

  /** With `ns` covering all known articles, counting by source or by target
      counts the same recorded edges. */
  lemma {:induction false} CountAtBoth(es: seq<EdgeRow>, ids: set<int>)
    ensures CountAt(es, ids, ids, true) == CountAt(es, ids, ids, false)
  {
    if es != [] {
      CountAtBoth(es[..|es| - 1], ids);
    }
  }

  /** Across all nodes the out-links and the in-links have the same total size:
      each recorded edge adds one of each. */
  lemma OutTotalIsInTotal(articles: seq<int>, edges: seq<EdgeRow>)
    ensures SumLen(FirstOccurrences(articles), OutMap(articles, edges))
         == SumLen(FirstOccurrences(articles), InMap(articles, edges))
    ensures SumLen(FirstOccurrences(articles), OutMap(articles, edges))
         == CountAt(edges, IdSet(articles), IdSet(articles), true)
  {
    var ns := FirstOccurrences(articles);
    var ids := IdSet(articles);
    assert (IdSet(ns)) == ids;
    SumTargets(ns, edges, ids);
    SumSources(ns, edges, ids);
    SumSameOn(ns, OutMap(articles, edges), TargetMap(ns, edges, ids));
    SumSameOn(ns, InMap(articles, edges), SourceMap(ns, edges, ids));
    CountAtBoth(edges, ids);
  }

  /** When every edge is recorded, counting the recorded edges counts them all. */
  lemma {:induction false} CountAtAll(es: seq<EdgeRow>, ids: set<int>)
    requires forall i :: 0 <= i < |es| ==> Recorded(ids, es[i])
    ensures CountAt(es, ids, ids, true) == |es|
  {
    if es != [] {
      CountAtAll(es[..|es| - 1], ids);
    }
  }

  lemma {:induction false} SumSameOn(ns: seq<int>, m1: map<int, seq<int>>, m2: map<int, seq<int>>)
    requires forall u :: u in ns ==> Get(m1, u) == Get(m2, u)
    ensures SumLen(ns, m1) == SumLen(ns, m2)
  {
    if ns != [] {
      SumSameOn(ns[1..], m1, m2);
    }
  }

  /** One database update written by `updateDegreeCounts`. */
  datatype DegreeRow = DegreeRow(id: int, inDegree: nat, outDegree: nat, totalDegree: nat)

  /** `updateDegreeCounts`: for each node, in node order, its in-degree, its
      out-degree and their sum. */
  method UpdateDegreeCounts(articles: seq<int>, edges: seq<EdgeRow>) returns (rows: seq<DegreeRow>)
    ensures |rows| == |FirstOccurrences(articles)|
    ensures forall i :: 0 <= i < |rows| ==>
      rows[i].id == FirstOccurrences(articles)[i]
      && rows[i].inDegree == |Get(InMap(articles, edges), rows[i].id)|
      && rows[i].outDegree == |Get(OutMap(articles, edges), rows[i].id)|
      && rows[i].totalDegree == rows[i].inDegree + rows[i].outDegree
  {
    var g := BuildGraphData(articles, edges);
    rows := [];
    var i := 0;
    while i < |g.nodes|
      invariant 0 <= i <= |g.nodes|
      invariant |rows| == i
      invariant forall k :: 0 <= k < i ==>
        rows[k].id == g.nodes[k]
        && rows[k].inDegree == |Get(g.inLinks, rows[k].id)|
        && rows[k].outDegree == |Get(g.outLinks, rows[k].id)|
        && rows[k].totalDegree == rows[k].inDegree + rows[k].outDegree
    {
      var id := g.nodes[i];
      var inDegree := |Get(g.inLinks, id)|;
      var outDegree := |Get(g.outLinks, id)|;
      rows := rows + [DegreeRow(id, inDegree, outDegree, inDegree + outDegree)];
      i := i + 1;
    }
  }

  function SumIn(rows: seq<DegreeRow>): nat {
    if rows == [] then 0 else rows[0].inDegree + SumIn(rows[1..])
  }

  function SumOut(rows: seq<DegreeRow>): nat {
    if rows == [] then 0 else rows[0].outDegree + SumOut(rows[1..])
  }

  /** The rows written by `updateDegreeCounts` have as much in-degree as
      out-degree in total. */
  lemma DegreeTotalsAgree(articles: seq<int>, edges: seq<EdgeRow>, rows: seq<DegreeRow>)
    requires |rows| == |FirstOccurrences(articles)|
    requires forall i :: 0 <= i < |rows| ==>
      rows[i].id == FirstOccurrences(articles)[i]
      && rows[i].inDegree == |Get(InMap(articles, edges), rows[i].id)|
      && rows[i].outDegree == |Get(OutMap(articles, edges), rows[i].id)|
    ensures SumIn(rows) == SumOut(rows)
    ensures SumOut(rows) == CountAt(edges, IdSet(articles), IdSet(articles), true)
  {
    var ns := FirstOccurrences(articles);
    RowSums(rows, ns, OutMap(articles, edges), InMap(articles, edges));
    OutTotalIsInTotal(articles, edges);
  }

  lemma {:induction false} RowSums(rows: seq<DegreeRow>, ns: seq<int>, outs: map<int, seq<int>>, ins: map<int, seq<int>>)
    requires |rows| == |ns|
    requires forall i :: 0 <= i < |rows| ==>
      rows[i].inDegree == |Get(ins, ns[i])| && rows[i].outDegree == |Get(outs, ns[i])|
    ensures SumIn(rows) == SumLen(ns, ins) && SumOut(rows) == SumLen(ns, outs)
  {
    if rows != [] {
      RowSums(rows[1..], ns[1..], outs, ins);
    }
  }

  // ---------------------------------------------------------------------------
  // Shortest paths

  /** A walk along adjacency links: every step follows an out-link. */
  ghost predicate IsWalk(adj: map<int, seq<int>>, p: seq<int>) {
    |p| >= 1 && forall i :: 0 <= i < |p| - 1 ==> p[i + 1] in Get(adj, p[i])
  }

  ghost predicate WalkFromTo(adj: map<int, seq<int>>, p: seq<int>, s: int, t: int) {
    IsWalk(adj, p) && p[0] == s && p[|p| - 1] == t
  }

  ghost predicate Reachable(adj: map<int, seq<int>>, s: int, t: int) {
    exists p :: WalkFromTo(adj, p, s, t)
  }

  /** `v` can be reached from `s` in at most `k` links. */
  ghost predicate Within(adj: map<int, seq<int>>, s: int, v: int, k: nat) {
    exists p :: WalkFromTo(adj, p, s, v) && |p| <= k + 1
  }

  /** Within the search, `D[v]` is exactly the link distance of `v` from `s`. */
  ghost predicate Exact(adj: map<int, seq<int>>, s: int, D: map<int, nat>) {
    forall v :: v in D ==> Within(adj, s, v, D[v]) && (D[v] > 0 ==> !Within(adj, s, v, D[v] - 1))
  }

  /** No walk to a searched node is shorter than its recorded distance. */
  lemma ExactBound(adj: map<int, seq<int>>, s: int, D: map<int, nat>, v: int, p: seq<int>)
    requires Exact(adj, s, D) && v in D && WalkFromTo(adj, p, s, v)
    ensures D[v] <= |p| - 1
  {
  }

  lemma WalkExtend(adj: map<int, seq<int>>, p: seq<int>, s: int, v: int, w: int)
    requires WalkFromTo(adj, p, s, v) && w in Get(adj, v)
    ensures WalkFromTo(adj, p + [w], s, w)
  {
  }

  /** Once every node nearer than `k` has had its links explored, every walk of
      at most `k` links from `s` ends at a visited node. */
  lemma {:induction false} ShortWalkVisited(adj: map<int, seq<int>>, s: int, D: map<int, nat>, k: nat, p: seq<int>)
    requires Exact(adj, s, D) && s in D
    requires forall x, v :: x in D && D[x] < k && v in Get(adj, x) ==> v in D
    requires IsWalk(adj, p) && p[0] == s && |p| <= k + 1
    ensures p[|p| - 1] in D
  {
    if |p| > 1 {
      var n := |p|;
      var q := p[..n - 1];
      assert IsWalk(adj, q);
      ShortWalkVisited(adj, s, D, k, q);
      var u := p[n - 2];
      assert q[|q| - 1] == u;
      ExactBound(adj, s, D, u, q);
      assert p[n - 1] in Get(adj, u);
    }
  }

  /** A first-seen neighbour of a node at distance `k` is at distance `k + 1`. */
  lemma ExactAdd(adj: map<int, seq<int>>, s: int, D: map<int, nat>, k: nat, current: int, nb: int)
    requires Exact(adj, s, D) && s in D && current in D && D[current] == k
    requires nb in Get(adj, current) && nb !in D
    requires forall x, v :: x in D && D[x] < k && v in Get(adj, x) ==> v in D
    ensures Exact(adj, s, D[nb := k + 1])
  {
    var p :| WalkFromTo(adj, p, s, current) && |p| <= k + 1;
    WalkExtend(adj, p, s, current, nb);
    assert Within(adj, s, nb, k + 1);
    if Within(adj, s, nb, k) {
      var w :| WalkFromTo(adj, w, s, nb) && |w| <= k + 1;
      ShortWalkVisited(adj, s, D, k, w);
    }
  }

  /** Every node of a set closed under links that holds `s` ends any walk from `s`. */
  lemma {:induction false} WalkStaysIn(adj: map<int, seq<int>>, V: set<int>, p: seq<int>)
    requires IsWalk(adj, p) && p[0] in V
    requires forall u, v :: u in V && v in Get(adj, u) ==> v in V
    ensures p[|p| - 1] in V
  {
    if |p| > 1 {
      var n := |p|;
      var q := p[..n - 1];
      assert IsWalk(adj, q);
      WalkStaysIn(adj, V, q);
      assert q[|q| - 1] == p[n - 2];
      assert p[n - 1] in Get(adj, p[n - 2]);
    }
  }

  /** The queue's distances are sorted and span at most two consecutive values from `k`. */
  ghost predicate Layered(queue: seq<int>, D: map<int, nat>, k: nat) {
    (forall i :: 0 <= i < |queue| ==> queue[i] in D && k <= D[queue[i]] <= k + 1)
    && (forall i, j :: 0 <= i < j < |queue| ==> D[queue[i]] <= D[queue[j]])
  }

  /** Search bookkeeping that holds throughout: the visited set is the domain
      of the distances, every node but `s` has a parent one link nearer, and
      the target, once seen, is still waiting in the queue. */
  ghost predicate Bookkeeping(adj: map<int, seq<int>>, nodes: set<int>, s: int, t: int,
                              queue: seq<int>, visited: set<int>, parent: map<int, int>, D: map<int, nat>) {
    visited == D.Keys && visited <= nodes && s in visited && D[s] == 0
    && (forall i :: 0 <= i < |queue| ==> queue[i] in visited)
    && Exact(adj, s, D)
    && parent.Keys == visited - {s}
    && (forall v :: v in parent ==> parent[v] in visited && D[parent[v]] + 1 == D[v] && v in Get(adj, parent[v]))
    && (t in visited ==> t in queue)
  }

  /** Every visited node that is no longer queued, other than `current`, has had its links explored. */
  ghost predicate Explored(adj: map<int, seq<int>>, queue: seq<int>, visited: set<int>, current: Option<int>) {
    forall x :: x in visited && x !in queue && Some(x) != current ==> forall v :: v in Get(adj, x) ==> v in visited
  }

  /** The invariant of the outer loop of `findShortestPath`. */
  ghost predicate Searching(adj: map<int, seq<int>>, nodes: set<int>, s: int, t: int,
                            queue: seq<int>, visited: set<int>, parent: map<int, int>, D: map<int, nat>) {
    Bookkeeping(adj, nodes, s, t, queue, visited, parent, D)
    && Explored(adj, queue, visited, None)
    && (queue != [] ==> Layered(queue, D, D[queue[0]]))
    && (queue != [] ==> forall x :: x in visited && x !in queue ==> D[x] <= D[queue[0]])
  }

  /** The invariant while the links of `current`, at distance `k`, are explored. */
  ghost predicate Expanding(adj: map<int, seq<int>>, nodes: set<int>, s: int, t: int, current: int, k: nat,
                            queue: seq<int>, visited: set<int>, parent: map<int, int>, D: map<int, nat>) {
    Bookkeeping(adj, nodes, s, t, queue, visited, parent, D)
    && current in visited && D[current] == k && current != t
    && Explored(adj, queue, visited, Some(current))
    && Layered(queue, D, k)
    && (forall x :: x in visited && x !in queue ==> D[x] <= k)
  }

  /** The breadth-first search of `findShortestPath` once both ends are known,
      distinct nodes: a queue, a visited set and a parent map. */
  method Bfs(adj: map<int, seq<int>>, nodes: set<int>, s: int, t: int) returns (path: Option<seq<int>>)
    requires s in nodes && s != t && Closed(adj, nodes)
    ensures path.Some? ==> WalkFromTo(adj, path.value, s, t)
    ensures path.Some? ==> forall p :: WalkFromTo(adj, p, s, t) ==> |path.value| <= |p|
    ensures path.None? <==> !Reachable(adj, s, t)
  {
    var queue := [s];
    var visited := {s};
    var parent: map<int, int> := map[];
    ghost var D: map<int, nat> := map[s := 0];
    SearchStart(adj, nodes, s, t);
    while queue != []
      invariant Searching(adj, nodes, s, t, queue, visited, parent, D)
      decreases |nodes - visited|, |queue|
    {
      var current := queue[0];
      var rest := queue[1..];
      if current == t {
        var p := Reconstruct(adj, s, t, visited, parent, D);
        ReconstructedIsShortest(adj, s, t, D, p);
        return Some(p);
      }
      StartExpanding(adj, nodes, s, t, current, queue, visited, parent, D);
      ghost var visited0 := visited;
      ghost var k := D[current];
      queue, visited, parent, D := Expand(adj, nodes, s, t, current, k, rest, visited, parent, D);
      FinishExpanding(adj, nodes, s, t, current, k, queue, visited, parent, D);
      Shrinks(nodes, visited0, visited, |rest| + 1, |queue|);
    }
    Exhausted(adj, nodes, s, t, visited, parent, D);
    return None;
  }

  /** The search starts with `s` alone queued and visited, at distance 0. */
  lemma SearchStart(adj: map<int, seq<int>>, nodes: set<int>, s: int, t: int)
    requires s in nodes && s != t
    ensures Searching(adj, nodes, s, t, [s], {s}, map[], map[s := 0])
  {
    assert WalkFromTo(adj, [s], s, s);
  }

  /** A walk as long as the recorded distance of its end is a shortest one. */
  lemma ReconstructedIsShortest(adj: map<int, seq<int>>, s: int, t: int, D: map<int, nat>, p: seq<int>)
    requires Exact(adj, s, D) && t in D && |p| == D[t] + 1
    ensures forall w :: WalkFromTo(adj, w, s, t) ==> |p| <= |w|
  {
    forall w | WalkFromTo(adj, w, s, t) ensures |p| <= |w| {
      ExactBound(adj, s, D, t, w);
    }
  }

  /** With the queue empty and the target never seen, no walk reaches it. */
  lemma Exhausted(adj: map<int, seq<int>>, nodes: set<int>, s: int, t: int,
                  visited: set<int>, parent: map<int, int>, D: map<int, nat>)
    requires Searching(adj, nodes, s, t, [], visited, parent, D)
    ensures !Reachable(adj, s, t)
  {
    forall w | WalkFromTo(adj, w, s, t) ensures false {
      WalkStaysIn(adj, visited, w);
    }
  }

  /** One round of the outer loop either visits a new node or shortens the queue. */
  lemma Shrinks(nodes: set<int>, visited0: set<int>, visited: set<int>, q0: nat, q: nat)
    requires visited0 <= visited <= nodes && q0 >= 1 && q - (q0 - 1) == |visited| - |visited0|
    ensures |nodes - visited| < |nodes - visited0| || (|nodes - visited| == |nodes - visited0| && q < q0)
  {
    Unvisited(nodes, visited0);
    Unvisited(nodes, visited);
    Unvisited(visited, visited0);
  }

  /** The unvisited nodes are as many as the nodes less the visited ones. */
  lemma Unvisited(nodes: set<int>, visited: set<int>)
    requires visited <= nodes
    ensures |nodes - visited| == |nodes| - |visited|
  {
    assert nodes == (nodes - visited) + visited;
    assert (nodes - visited) * visited == {};
  }

  /** Dequeuing the head starts the exploration of its links. */
  lemma StartExpanding(adj: map<int, seq<int>>, nodes: set<int>, s: int, t: int, current: int,
                       queue: seq<int>, visited: set<int>, parent: map<int, int>, D: map<int, nat>)
    requires queue != [] && current == queue[0] && current != t
    requires Searching(adj, nodes, s, t, queue, visited, parent, D)
    ensures Expanding(adj, nodes, s, t, current, D[current], queue[1..], visited, parent, D)
  {
    assert queue == [current] + queue[1..];
    assert forall y :: y in queue <==> y == current || y in queue[1..];
  }

  /** After exploring the links of `current`, the outer invariant holds again. */
  lemma FinishExpanding(adj: map<int, seq<int>>, nodes: set<int>, s: int, t: int, current: int, k: nat,
                        queue: seq<int>, visited: set<int>, parent: map<int, int>, D: map<int, nat>)
    requires Expanding(adj, nodes, s, t, current, k, queue, visited, parent, D)
    requires forall v :: v in Get(adj, current) ==> v in visited
    ensures Searching(adj, nodes, s, t, queue, visited, parent, D)
  {
  }

  /** The inner loop of `findShortestPath`: every not yet visited neighbour of
      `current` is marked visited, given `current` as parent, and enqueued. */
  method Expand(adj: map<int, seq<int>>, nodes: set<int>, s: int, t: int, current: int, ghost k: nat,
                queue: seq<int>, visited: set<int>, parent: map<int, int>, ghost D: map<int, nat>)
    returns (queue': seq<int>, visited': set<int>, parent': map<int, int>, ghost D': map<int, nat>)
    requires Closed(adj, nodes)
    requires Expanding(adj, nodes, s, t, current, k, queue, visited, parent, D)
    ensures Expanding(adj, nodes, s, t, current, k, queue', visited', parent', D')
    ensures forall v :: v in Get(adj, current) ==> v in visited'
    ensures visited <= visited' <= nodes && |queue'| - |queue| == |visited'| - |visited|
  {
    queue', visited', parent', D' := queue, visited, parent, D;
    var nbrs := Get(adj, current);
    var j := 0;
    while j < |nbrs|
      invariant 0 <= j <= |nbrs|
      invariant Expanding(adj, nodes, s, t, current, k, queue', visited', parent', D')
      invariant forall i :: 0 <= i < j ==> nbrs[i] in visited'
      invariant visited <= visited' && |queue'| - |queue| == |visited'| - |visited|
    {
      queue', visited', parent', D' := VisitNeighbour(adj, nodes, s, t, current, k, nbrs, j, queue', visited', parent', D', queue, visited);
      j := j + 1;
    }
  }

  /** One step of the inner loop: neighbour `j` is enqueued unless visited. */
  method VisitNeighbour(adj: map<int, seq<int>>, nodes: set<int>, s: int, t: int, current: int, ghost k: nat,
                        nbrs: seq<int>, j: nat, queue: seq<int>, visited: set<int>, parent: map<int, int>, ghost D: map<int, nat>,
                        ghost queue0: seq<int>, ghost visited0: set<int>)
    returns (queue': seq<int>, visited': set<int>, parent': map<int, int>, ghost D': map<int, nat>)
    requires Closed(adj, nodes)
    requires nbrs == Get(adj, current) && j < |nbrs|
    requires Expanding(adj, nodes, s, t, current, k, queue, visited, parent, D)
    requires forall i :: 0 <= i < j ==> nbrs[i] in visited
    requires visited0 <= visited && |queue| - |queue0| == |visited| - |visited0|
    ensures Expanding(adj, nodes, s, t, current, k, queue', visited', parent', D')
    ensures forall i :: 0 <= i < j + 1 ==> nbrs[i] in visited'
    ensures visited0 <= visited' && |queue'| - |queue0| == |visited'| - |visited0|
  {
    queue', visited', parent', D' := queue, visited, parent, D;
    var nb := nbrs[j];
    if nb !in visited {
      AddNeighbour(adj, nodes, s, t, current, k, queue, visited, parent, D, nb);
      visited' := visited + {nb};
      parent' := parent[nb := current];
      D' := D[nb := k + 1];
      queue' := queue + [nb];
    }
  }

  /** Marking a first-seen neighbour of `current` visited, at distance `k + 1`
      and with `current` as parent, and enqueuing it keeps the invariant. */
  lemma AddNeighbour(adj: map<int, seq<int>>, nodes: set<int>, s: int, t: int, current: int, k: nat,
                     queue: seq<int>, visited: set<int>, parent: map<int, int>, D: map<int, nat>, nb: int)
    requires Closed(adj, nodes)
    requires Expanding(adj, nodes, s, t, current, k, queue, visited, parent, D)
    requires nb in Get(adj, current) && nb !in visited
    ensures Expanding(adj, nodes, s, t, current, k, queue + [nb], visited + {nb}, parent[nb := current], D[nb := k + 1])
  {
    BelowLevelExplored(adj, current, k, queue, visited, D);
    ExactAdd(adj, s, D, k, current, nb);
    AddKeepsBookkeeping(adj, nodes, s, t, current, k, queue, visited, parent, D, nb);
    AddKeepsOrder(adj, current, k, queue, visited, D, nb);
  }

  lemma AddKeepsBookkeeping(adj: map<int, seq<int>>, nodes: set<int>, s: int, t: int, current: int, k: nat,
                            queue: seq<int>, visited: set<int>, parent: map<int, int>, D: map<int, nat>, nb: int)
    requires Closed(adj, nodes)
    requires Bookkeeping(adj, nodes, s, t, queue, visited, parent, D)
    requires current in visited && D[current] == k
    requires nb in Get(adj, current) && nb !in visited
    requires Exact(adj, s, D[nb := k + 1])
    ensures Bookkeeping(adj, nodes, s, t, queue + [nb], visited + {nb}, parent[nb := current], D[nb := k + 1])
  {
    var q' := queue + [nb];
    assert forall i :: 0 <= i < |queue| ==> q'[i] == queue[i];
    assert q'[|queue|] == nb;
  }

  lemma AddKeepsOrder(adj: map<int, seq<int>>, current: int, k: nat,
                      queue: seq<int>, visited: set<int>, D: map<int, nat>, nb: int)
    requires visited == D.Keys && current in visited && D[current] == k && nb !in visited
    requires Explored(adj, queue, visited, Some(current))
    requires Layered(queue, D, k)
    requires forall x :: x in visited && x !in queue ==> D[x] <= k
    ensures Explored(adj, queue + [nb], visited + {nb}, Some(current))
    ensures Layered(queue + [nb], D[nb := k + 1], k)
    ensures forall x :: x in visited + {nb} && x !in queue + [nb] ==> D[nb := k + 1][x] <= k
  {
    var q' := queue + [nb];
    assert forall y :: y in q' <==> y in queue || y == nb;
    assert forall i :: 0 <= i < |queue| ==> q'[i] == queue[i] && q'[i] != nb;
  }

  /** Nodes below the current level are neither queued nor being expanded, so
      their links have all been explored. */
  lemma BelowLevelExplored(adj: map<int, seq<int>>, current: int, k: nat, queue: seq<int>, visited: set<int>, D: map<int, nat>)
    requires visited == D.Keys && current in visited && D[current] == k
    requires Layered(queue, D, k)
    requires Explored(adj, queue, visited, Some(current))
    ensures forall x, v :: x in D && D[x] < k && v in Get(adj, x) ==> v in D
  {
    forall y | y in queue ensures k <= D[y] {
      var i :| 0 <= i < |queue| && queue[i] == y;
    }
  }

  /** Follows the parent links back from `t` to `s`: `path.unshift(node)` while
      `node` is defined. */
  method Reconstruct(adj: map<int, seq<int>>, s: int, t: int, visited: set<int>, parent: map<int, int>,
                     ghost D: map<int, nat>) returns (path: seq<int>)
    requires t in visited && visited == D.Keys && s in visited && D[s] == 0
    requires parent.Keys == visited - {s}
    requires forall v :: v in parent ==> parent[v] in visited && D[parent[v]] + 1 == D[v] && v in Get(adj, parent[v])
    ensures WalkFromTo(adj, path, s, t) && |path| == D[t] + 1
  {
    path := [];
    var node: Option<int> := Some(t);
    while node.Some?
      invariant node.Some? ==> node.value in visited && |path| + D[node.value] == D[t]
      invariant node.Some? && path == [] ==> node.value == t
      invariant node.Some? && path != [] ==> path[0] in Get(adj, node.value)
      invariant node.None? ==> path != [] && path[0] == s && |path| == D[t] + 1
      invariant path != [] ==> IsWalk(adj, path) && path[|path| - 1] == t
      decreases if node.Some? then D[node.value] + 1 else 0
    {
      var v := node.value;
      path := [v] + path;
      node := if v in parent then Some(parent[v]) else None;
    }
  }

  /** `findShortestPath`: `None` (the source's `null`) when either id is not an
      article; `[sourceId]` when both are the same article; otherwise a
      shortest walk along the recorded links, or `None` when there is none. */
  method FindShortestPath(articles: seq<int>, edges: seq<EdgeRow>, sourceId: int, targetId: int)
    returns (path: Option<seq<int>>)
    ensures sourceId !in articles || targetId !in articles ==> path == None
    ensures sourceId in articles && sourceId == targetId ==> path == Some([sourceId])
    ensures path.Some? ==> WalkFromTo(OutMap(articles, edges), path.value, sourceId, targetId)
    ensures path.Some? ==> forall p :: WalkFromTo(OutMap(articles, edges), p, sourceId, targetId) ==> |path.value| <= |p|
    ensures sourceId in articles && targetId in articles && path == None ==> !Reachable(OutMap(articles, edges), sourceId, targetId)
  {
    var g := BuildGraphData(articles, edges);
    if sourceId !in g.adjacency || targetId !in g.adjacency {
      return None;
    }
    if sourceId == targetId {
      return Some([sourceId]);
    }
    OutMapClosed(articles, edges);
    path := Bfs(g.adjacency, IdSet(articles), sourceId, targetId);
  }
}
