/** `getSubgraph` of the article graph service: the neighbourhood of one
    article, grown level by level along out-links and in-links alike, and the
    edges that lie inside it. */
module GraphSubgraph {
  import opened Wrappers
  import opened Collections
  import opened GraphService

  /** The ids listed in a neighbour list. */
  function Elems(s: seq<int>): (r: set<int>)
    ensures forall x :: x in r <==> x in s
  {
    set x | x in s
  }

  /** Everything one link away from `S`, either way along a link. */
  ghost function Step(out: map<int, seq<int>>, inl: map<int, seq<int>>, S: set<int>): set<int> {
    set u, v | u in S && v in Get(out, u) + Get(inl, u) :: v
  }

  /** The nodes at most `k` links away from `a`, ignoring link direction. */
  ghost function Ball(out: map<int, seq<int>>, inl: map<int, seq<int>>, a: int, k: nat): set<int> {
    if k == 0 then {a} else Ball(out, inl, a, k - 1) + Step(out, inl, Ball(out, inl, a, k - 1))
  }

  /** `for (let level = 0; level < depth; level++)` runs this many times: none
      for a depth that is not positive or is `NaN` (`None`). */
  function Levels(depth: Option<int>): (n: nat)
    ensures depth.Some? && depth.value > 0 ==> n == depth.value
    ensures depth.None? || depth.value <= 0 ==> n == 0
  {
    if depth.Some? && depth.value > 0 then depth.value else 0
  }

  /** The node at the centre is always in its neighbourhood, which only grows with the depth. */
  lemma {:induction false} BallGrows(out: map<int, seq<int>>, inl: map<int, seq<int>>, a: int, j: nat, k: nat)
    requires j <= k
    ensures a in Ball(out, inl, a, k)
    ensures Ball(out, inl, a, j) <= Ball(out, inl, a, k)
  {
    if k > 0 {
      if j < k {
        BallGrows(out, inl, a, j, k - 1);
      }
      BallGrows(out, inl, a, 0, k - 1);
    }
  }

  /** With both link maps closed over the article ids, the neighbourhood of an article holds only articles. */
  lemma {:induction false} BallInArticles(out: map<int, seq<int>>, inl: map<int, seq<int>>, ids: set<int>, a: int, k: nat)
    requires a in ids && Closed(out, ids) && Closed(inl, ids)
    ensures Ball(out, inl, a, k) <= ids
  {
    if k > 0 {
      BallInArticles(out, inl, ids, a, k - 1);
      forall v | v in Step(out, inl, Ball(out, inl, a, k - 1)) ensures v in ids {
        var u :| u in Ball(out, inl, a, k - 1) && v in Get(out, u) + Get(inl, u);
      }
    }
  }

  lemma StepUnion(out: map<int, seq<int>>, inl: map<int, seq<int>>, A: set<int>, B: set<int>)
    ensures Step(out, inl, A + B) == Step(out, inl, A) + Step(out, inl, B)
  {
  }

  lemma StepAdd(out: map<int, seq<int>>, inl: map<int, seq<int>>, done: set<int>, u: int)
    ensures Step(out, inl, done + {u}) == Step(out, inl, done) + Elems(Get(out, u)) + Elems(Get(inl, u))
  {
    forall v | v in Elems(Get(out, u)) + Elems(Get(inl, u)) ensures v in Step(out, inl, done + {u}) {
      assert v in Get(out, u) + Get(inl, u);
    }
  }

  /** One pass of the level loop: every node of `cur` adds its unseen out- and
      in-neighbours to both `sub` and `next`. */
  method ExpandLevel(out: map<int, seq<int>>, inl: map<int, seq<int>>, cur: set<int>, sub: set<int>)
    returns (sub': set<int>, next: set<int>)
    ensures sub' == sub + Step(out, inl, cur)
    ensures next == Step(out, inl, cur) - sub
  {
    sub', next := sub, {};
    var todo := cur;
    ghost var done: set<int> := {};
    while todo != {}
      invariant todo + done == cur && todo * done == {}
      invariant sub' == sub + Step(out, inl, done)
      invariant next == sub' - sub
      decreases |todo|
    {
      todo, done, sub', next := VisitOne(out, inl, todo, done, sub', next, sub);
    }
    assert done == cur;
  }

  /** One turn of the loop over the current level: some node `u` still to
      visit adds its neighbours and moves from `todo` to `done`. */
  method VisitOne(out: map<int, seq<int>>, inl: map<int, seq<int>>, todo: set<int>, ghost done: set<int>,
                  sub: set<int>, next: set<int>, ghost sub0: set<int>)
    returns (todo': set<int>, ghost done': set<int>, sub': set<int>, next': set<int>)
    requires todo != {} && todo * done == {}
    requires sub == sub0 + Step(out, inl, done) && next == sub - sub0
    ensures todo' + done' == todo + done && todo' * done' == {} && |todo'| < |todo|
    ensures sub' == sub0 + Step(out, inl, done') && next' == sub' - sub0
  {
    HasMember(todo);
    var u :| u in todo;
    sub', next' := ExpandNode(out, inl, u, sub, next, sub0, done);
    todo', done' := todo - {u}, done + {u};
  }

  lemma HasMember(s: set<int>)
    requires s != {}
    ensures exists x :: x in s
  {
    if forall x :: x !in s {
      assert false;
    }
  }

  /** The body of the loop over the current level, for one node `u`: its
      out-neighbours, then its in-neighbours. */
  method ExpandNode(out: map<int, seq<int>>, inl: map<int, seq<int>>, u: int, sub: set<int>, next: set<int>,
                    ghost sub0: set<int>, ghost done: set<int>) returns (sub': set<int>, next': set<int>)
    requires sub == sub0 + Step(out, inl, done) && next == sub - sub0
    ensures sub' == sub0 + Step(out, inl, done + {u}) && next' == sub' - sub0
  {
    sub', next' := AddAll(Get(out, u), sub, next, sub0);
    sub', next' := AddAll(Get(inl, u), sub', next', sub0);
    StepAdd(out, inl, done, u);
  }

  /** `for (const neighbor of neighbors) if (!subgraphNodes.has(neighbor)) { nextLevel.add(neighbor); subgraphNodes.add(neighbor); }` */
  method AddAll(nbrs: seq<int>, sub: set<int>, next: set<int>, ghost sub0: set<int>) returns (sub': set<int>, next': set<int>)
    requires sub0 <= sub && next == sub - sub0
    ensures sub' == sub + Elems(nbrs) && next' == sub' - sub0
  {
    sub', next' := sub, next;
    for j := 0 to |nbrs|
      invariant sub' == sub + Elems(nbrs[..j]) && next' == sub' - sub0
    {
      assert Elems(nbrs[..j + 1]) == Elems(nbrs[..j]) + {nbrs[j]} by {
        assert nbrs[..j + 1] == nbrs[..j] + [nbrs[j]];
      }
      if nbrs[j] !in sub' {
        next' := next' + {nbrs[j]};
        sub' := sub' + {nbrs[j]};
      }
    }
    assert nbrs[..|nbrs|] == nbrs;
  }

  /** The level loop of `getSubgraph`: `subgraphNodes` after `n` levels. */
  method Neighbourhood(out: map<int, seq<int>>, inl: map<int, seq<int>>, a: int, n: nat) returns (sub: set<int>)
    ensures sub == Ball(out, inl, a, n)
  {
    sub := {a};
    var cur := {a};
    for level := 0 to n
      invariant sub == Ball(out, inl, a, level)
      invariant cur <= sub && Step(out, inl, sub - cur) <= sub
    {
      ghost var sub0 := sub;
      StepUnion(out, inl, sub - cur, cur);
      assert sub == (sub - cur) + cur;
      sub, cur := ExpandLevel(out, inl, cur, sub);
      assert sub - cur == sub0;
    }
  }

  /** `getSubgraph(articleId, depth)` once the graph is built: no nodes and no
      edges for an unknown article; otherwise the articles in the neighbourhood
      of `articleId` of radius `Levels(depth)`, and the edges whose two truthy
      endpoints both lie in it. */
  method GetSubgraph(articles: seq<int>, edges: seq<EdgeRow>, articleId: int, depth: Option<int>)
    returns (nodes: seq<int>, subEdges: seq<EdgeRow>)
    ensures articleId !in articles ==> nodes == [] && subEdges == []
    ensures articleId in articles ==>
      var ball := Ball(OutMap(articles, edges), InMap(articles, edges), articleId, Levels(depth));
      nodes == Filter(articles, x => x in ball)
      && subEdges == Filter(edges, (e: EdgeRow) => Truthy(e.source) && Truthy(e.target) && e.source.value in ball && e.target.value in ball)
  {
    var g := BuildGraphData(articles, edges);
    if articleId !in g.adjacency {
      return [], [];
    }
    var sub := Neighbourhood(g.adjacency, g.inLinks, articleId, Levels(depth));
    nodes := Filter(articles, x => x in sub);
    subEdges := Filter(edges, (e: EdgeRow) => Truthy(e.source) && Truthy(e.target) && e.source.value in sub && e.target.value in sub);
  }

  /** Every edge of a subgraph has both endpoints among its nodes, and the
      requested article is one of those nodes. */
  lemma SubgraphClosed(articles: seq<int>, edges: seq<EdgeRow>, articleId: int, k: nat)
    requires articleId in articles
    ensures var ball := Ball(OutMap(articles, edges), InMap(articles, edges), articleId, k);
      var ns := Filter(articles, x => x in ball);
      articleId in ns
      && forall e :: e in Filter(edges, (e: EdgeRow) => Truthy(e.source) && Truthy(e.target) && e.source.value in ball && e.target.value in ball)
           ==> e.source.value in ns && e.target.value in ns
  {
    var out, inl := OutMap(articles, edges), InMap(articles, edges);
    OutMapClosed(articles, edges);
    BallGrows(out, inl, articleId, 0, k);
    BallInArticles(out, inl, IdSet(articles), articleId, k);
  }
}
