/** The blog prototype's mind map: how strongly two articles are tied, the
    links each node gets, the path search between two nodes, which nodes are
    shown, and the view's click, zoom and drag handling. */
module MindMap {
  import opened Wrappers
  import opened Collections
  import opened Text
  import opened BlogHelpers

  /** An article with the fields the map shows besides those relatedness reads. */
  datatype MapArticle = MapArticle(info: BlogArticle, title: string, slug: string)

  /** `calculateConnectionStrength(article1, article2)`. */
  function Strength(a: BlogArticle, b: BlogArticle): (s: nat)
    ensures s <= 4 + 2 * |a.tags|
    ensures s == 0 <==> a.category != b.category && a.difficulty != b.difficulty && SharedTags(a.tags, b.tags) == 0
  {
    (if a.category == b.category then 3 else 0) + 2 * SharedTags(a.tags, b.tags) + (if a.difficulty == b.difficulty then 1 else 0)
  }

  predicate NoRepeats(s: seq<string>) {
    forall i, j :: 0 <= i < j < |s| ==> s[i] != s[j]
  }

  function ToSet(s: seq<string>): set<string> {
    set x | x in s
  }

  /** Without repeated tags, the shared-tag count is the size of the common tag set. */
  lemma {:induction false} SharedTagsAsSets(a: seq<string>, b: seq<string>)
    requires NoRepeats(a)
    ensures SharedTags(a, b) == |ToSet(a) * ToSet(b)|
  {
    if a != [] {
      var rest := a[1..];
      NoRepeatsTail(a);
      SharedTagsAsSets(rest, b);
      SharedTagsCons(a, b);
      ToSetCons(a);
      CardSplit(a[0], ToSet(rest), ToSet(b));
    }
  }

  lemma NoRepeatsTail(a: seq<string>)
    requires a != [] && NoRepeats(a)
    ensures NoRepeats(a[1..]) && a[0] !in a[1..]
  {
    var rest := a[1..];
    forall i, j | 0 <= i < j < |rest| ensures rest[i] != rest[j] {
      assert rest[i] == a[i + 1] && rest[j] == a[j + 1];
    }
    forall k | 0 <= k < |rest| ensures rest[k] != a[0] {
      assert rest[k] == a[k + 1];
    }
  }

  lemma ToSetCons(a: seq<string>)
    requires a != []
    ensures ToSet(a) == {a[0]} + ToSet(a[1..])
  {
    assert a == [a[0]] + a[1..];
  }

  lemma SharedTagsCons(a: seq<string>, b: seq<string>)
    requires a != []
    ensures SharedTags(a, b) == (if a[0] in b then 1 else 0) + SharedTags(a[1..], b)
  {
    var p := (t: string) => t in b;
    assert Filter(a, p) == (if p(a[0]) then [a[0]] else []) + Filter(a[1..], p);
  }

  lemma CardSplit(x: string, R: set<string>, B: set<string>)
    requires x !in R
    ensures |({x} + R) * B| == (if x in B then 1 else 0) + |R * B|
  {
    if x in B {
      assert ({x} + R) * B == {x} + R * B;
    } else {
      assert ({x} + R) * B == R * B;
    }
  }

  /** For articles that do not repeat a tag, the strength is the same both ways. */
  lemma StrengthSymmetric(a: BlogArticle, b: BlogArticle)
    requires NoRepeats(a.tags) && NoRepeats(b.tags)
    ensures Strength(a, b) == Strength(b, a)
  {
    SharedTagsAsSets(a.tags, b.tags);
    SharedTagsAsSets(b.tags, a.tags);
    assert ToSet(a.tags) * ToSet(b.tags) == ToSet(b.tags) * ToSet(a.tags);
  }

  /** `articles.find(a => a.id === id)`. */
  function FindArticle(all: seq<MapArticle>, id: string): (r: Option<MapArticle>)
    ensures r.Some? ==> r.value in all && r.value.info.id == id
    ensures r.None? ==> forall a :: a in all ==> a.info.id != id
  {
    if all == [] then None
    else if all[0].info.id == id then Some(all[0])
    else FindArticle(all[1..], id)
  }

  function Infos(all: seq<MapArticle>): (r: seq<BlogArticle>)
    ensures |r| == |all| && forall i :: 0 <= i < |all| ==> r[i] == all[i].info
  {
    if all == [] then [] else [all[0].info] + Infos(all[1..])
  }

  function Ids(s: seq<BlogArticle>): (r: seq<string>)
    ensures |r| == |s| && forall i :: 0 <= i < |s| ==> r[i] == s[i].id
  {
    if s == [] then [] else [s[0].id] + Ids(s[1..])
  }

  /** A node's links: the ids of the three articles most related to it. */
  function Connections(a: MapArticle, all: seq<MapArticle>): (r: seq<string>)
    ensures |r| <= 3
  {
    Ids(RelatedArticles(a.info, Infos(all), 3))
  }

  /** The strength recorded for each link whose article is found. */
  function StrengthMap(a: MapArticle, all: seq<MapArticle>, conns: seq<string>): (m: map<string, nat>)
    ensures forall c :: c in m <==> c in conns && FindArticle(all, c).Some?
    ensures forall c :: c in m ==> m[c] == Strength(a.info, FindArticle(all, c).value.info)
  {
    if conns == [] then map[]
    else
      var m := StrengthMap(a, all, conns[1..]);
      var found := FindArticle(all, conns[0]);
      if found.Some? then m[conns[0] := Strength(a.info, found.value.info)] else m
  }

  /** Every link of a node goes to another article of the map, and has its
      strength recorded. */
  lemma ConnectionsAreOtherArticles(a: MapArticle, all: seq<MapArticle>, c: string)
    requires c in Connections(a, all)
    ensures c != a.info.id
    ensures FindArticle(all, c).Some?
    ensures c in StrengthMap(a, all, Connections(a, all))
  {
    ConnectionFound(a, all, c);
  }

  lemma ConnectionFound(a: MapArticle, all: seq<MapArticle>, c: string)
    requires c in Connections(a, all)
    ensures c != a.info.id && FindArticle(all, c).Some?
  {
    var related := RelatedArticles(a.info, Infos(all), 3);
    var ids := Ids(related);
    var k :| 0 <= k < |ids| && ids[k] == c;
    InfoFound(all, related[k]);
  }

  /** An article listed among the infos is found by its id. */
  lemma InfoFound(all: seq<MapArticle>, b: BlogArticle)
    requires b in Infos(all)
    ensures FindArticle(all, b.id).Some?
  {
    var infos := Infos(all);
    var i :| 0 <= i < |infos| && infos[i] == b;
    assert all[i] in all && all[i].info.id == b.id;
  }

  /** A node of the map: its position and velocity in the layout, whether it
      is pinned, and its links. */
  datatype MindNode = MindNode(
    id: string, title: string, category: string, slug: string,
    x: real, y: real, vx: real, vy: real, fixed: bool,
    connections: seq<string>, strength: map<string, nat>)

  /** `nodes.find(n => n.id === id)`. */
  function FindNode(nodes: seq<MindNode>, id: string): (r: Option<MindNode>)
    ensures r.Some? ==> r.value in nodes && r.value.id == id
    ensures r.None? ==> forall n :: n in nodes ==> n.id != id
  {
    if nodes == [] then None
    else if nodes[0].id == id then Some(nodes[0])
    else FindNode(nodes[1..], id)
  }

  /** The links followed from `id`: those of the first node with that id, none when there is no such node. */
  function Conn(nodes: seq<MindNode>, id: string): seq<string> {
    var n := FindNode(nodes, id);
    if n.Some? then n.value.connections else []
  }

  ghost predicate IsPath(nodes: seq<MindNode>, p: seq<string>) {
    |p| >= 1 && forall i :: 0 <= i < |p| - 1 ==> p[i + 1] in Conn(nodes, p[i])
  }

  ghost predicate PathFromTo(nodes: seq<MindNode>, p: seq<string>, s: string, t: string) {
    IsPath(nodes, p) && p[0] == s && p[|p| - 1] == t
  }

  ghost predicate Reachable(nodes: seq<MindNode>, s: string, t: string) {
    exists p :: PathFromTo(nodes, p, s, t)
  }

  /** Every id the search can meet: the nodes' ids and their links. */
  function Universe(nodes: seq<MindNode>): set<string> {
    if nodes == [] then {} else {nodes[0].id} + ToSet(nodes[0].connections) + Universe(nodes[1..])
  }

  lemma {:induction false} ConnInUniverse(nodes: seq<MindNode>, id: string, c: string)
    requires c in Conn(nodes, id)
    ensures c in Universe(nodes)
  {
    if nodes != [] && nodes[0].id != id {
      ConnInUniverse(nodes[1..], id, c);
    }
  }

  /** A queue entry: a node and the path that reached it. */
  datatype Entry = Entry(id: string, path: seq<string>)

  function QueueIds(q: seq<Entry>): (r: seq<string>)
    ensures |r| == |q| && forall i :: 0 <= i < |q| ==> r[i] == q[i].id
  {
    if q == [] then [] else [q[0].id] + QueueIds(q[1..])
  }

  /** What holds throughout the search: every queued path leads from the start
      to its node; the queued nodes are visited and distinct; `log` lists every
      node ever enqueued, once each; the end, once seen, is still queued. */
  ghost predicate Bookkeeping(nodes: seq<MindNode>, s: string, t: string, U: set<string>,
                              queue: seq<Entry>, visited: set<string>, log: seq<string>) {
    s in visited && visited <= U
    && (forall i :: 0 <= i < |queue| ==> queue[i].id in visited && PathFromTo(nodes, queue[i].path, s, queue[i].id))
    && NoRepeats(QueueIds(queue))
    && NoRepeats(log) && (forall x :: x in visited <==> x in log)
    && (t in visited ==> t in QueueIds(queue))
  }

  /** Every visited node that is neither queued nor `current` has all its links visited. */
  ghost predicate Explored(nodes: seq<MindNode>, queue: seq<Entry>, visited: set<string>, current: Option<string>) {
    forall x :: x in visited && x !in QueueIds(queue) && Some(x) != current ==>
      forall v :: v in Conn(nodes, x) ==> v in visited
  }

  /** `findPath(startId, endId)`: the path of the first queue entry that
      reaches the end, or `[]` once the queue runs dry. */
  method FindPath(nodes: seq<MindNode>, s: string, t: string) returns (path: seq<string>, ghost log: seq<string>)
    ensures s == t ==> path == [s]
    ensures path != [] ==> PathFromTo(nodes, path, s, t)
    ensures path == [] <==> !Reachable(nodes, s, t)
    ensures |log| >= 1 && NoRepeats(log) && log[0] == s
  {
    ghost var U := Universe(nodes) + {s};
    var queue := [Entry(s, [s])];
    var visited := {s};
    log := [s];
    SearchStart(nodes, s, t, U);
    while queue != []
      invariant Bookkeeping(nodes, s, t, U, queue, visited, log) && Explored(nodes, queue, visited, None)
      invariant s == t ==> queue == [Entry(s, [s])]
      invariant |log| >= 1 && log[0] == s
      decreases |U - visited|, |queue|
    {
      var e := queue[0];
      var rest := queue[1..];
      if e.id == t {
        return e.path, log;
      }
      Dequeue(nodes, s, t, U, queue, visited, log);
      ghost var visited0 := visited;
      queue, visited, log := Expand(nodes, s, t, U, e, rest, visited, log);
      Shrinks(U, visited0, visited, |rest| + 1, |queue|);
    }
    Exhausted(nodes, s, t, U, visited, log);
    return [], log;
  }

  /** The search starts with the start node alone, queued with the one-node path. */
  lemma SearchStart(nodes: seq<MindNode>, s: string, t: string, U: set<string>)
    requires U == Universe(nodes) + {s}
    ensures Bookkeeping(nodes, s, t, U, [Entry(s, [s])], {s}, [s]) && Explored(nodes, [Entry(s, [s])], {s}, None)
  {
    assert QueueIds([Entry(s, [s])]) == [s];
  }

  /** With the queue empty and the end never seen, no path reaches it. */
  lemma Exhausted(nodes: seq<MindNode>, s: string, t: string, U: set<string>, visited: set<string>, log: seq<string>)
    requires Bookkeeping(nodes, s, t, U, [], visited, log) && Explored(nodes, [], visited, None)
    ensures !Reachable(nodes, s, t)
  {
    forall p | PathFromTo(nodes, p, s, t) ensures false {
      PathStaysIn(nodes, visited, p);
    }
  }

  /** The inner loop: every not yet visited link of the dequeued node is
      marked visited and enqueued with its path. */
  method Expand(nodes: seq<MindNode>, s: string, t: string, ghost U: set<string>, e: Entry,
                queue: seq<Entry>, visited: set<string>, ghost log: seq<string>)
    returns (queue': seq<Entry>, visited': set<string>, ghost log': seq<string>)
    requires U == Universe(nodes) + {s}
    requires e.id != t && e.id in visited && e.id !in QueueIds(queue) && PathFromTo(nodes, e.path, s, e.id)
    requires Bookkeeping(nodes, s, t, U, queue, visited, log) && Explored(nodes, queue, visited, Some(e.id))
    requires |log| >= 1 && log[0] == s
    ensures Bookkeeping(nodes, s, t, U, queue', visited', log') && Explored(nodes, queue', visited', None)
    ensures visited <= visited' && |queue'| - |queue| == |visited'| - |visited|
    ensures |log'| >= 1 && log'[0] == s
  {
    queue', visited', log' := queue, visited, log;
    var node := FindNode(nodes, e.id);
    var conns := if node.Some? then node.value.connections else [];
    assert conns == Conn(nodes, e.id);
    var j := 0;
    while j < |conns|
      invariant 0 <= j <= |conns|
      invariant Bookkeeping(nodes, s, t, U, queue', visited', log') && Explored(nodes, queue', visited', Some(e.id))
      invariant e.id !in QueueIds(queue')
      invariant forall v :: v in conns[..j] ==> v in visited'
      invariant visited <= visited' && |queue'| - |queue| == |visited'| - |visited|
      invariant |log'| >= 1 && log'[0] == s
    {
      queue', visited', log' := VisitLink(nodes, s, t, U, e, conns, j, queue', visited', log', queue, visited);
      j := j + 1;
    }
    FinishExpand(nodes, e.id, queue', visited');
  }

  /** One step of the inner loop: link `j` of the dequeued node is enqueued unless visited. */
  method VisitLink(nodes: seq<MindNode>, s: string, t: string, ghost U: set<string>, e: Entry, conns: seq<string>, j: nat,
                   queue: seq<Entry>, visited: set<string>, ghost log: seq<string>,
                   ghost queue0: seq<Entry>, ghost visited0: set<string>)
    returns (queue': seq<Entry>, visited': set<string>, ghost log': seq<string>)
    requires U == Universe(nodes) + {s}
    requires e.id in visited0 && PathFromTo(nodes, e.path, s, e.id)
    requires conns == Conn(nodes, e.id) && j < |conns|
    requires Bookkeeping(nodes, s, t, U, queue, visited, log) && Explored(nodes, queue, visited, Some(e.id))
    requires e.id !in QueueIds(queue)
    requires forall v :: v in conns[..j] ==> v in visited
    requires visited0 <= visited && |queue| - |queue0| == |visited| - |visited0|
    requires |log| >= 1 && log[0] == s
    ensures Bookkeeping(nodes, s, t, U, queue', visited', log') && Explored(nodes, queue', visited', Some(e.id))
    ensures e.id !in QueueIds(queue')
    ensures forall v :: v in conns[..j + 1] ==> v in visited'
    ensures visited0 <= visited' && |queue'| - |queue0| == |visited'| - |visited0|
    ensures |log'| >= 1 && log'[0] == s
  {
    queue', visited', log' := queue, visited, log;
    var c := conns[j];
    assert conns[..j + 1] == conns[..j] + [c];
    if c !in visited {
      Enqueue(nodes, s, t, U, e, queue, visited, log, c);
      visited' := visited + {c};
      queue' := queue + [Entry(c, e.path + [c])];
      log' := log + [c];
    }
  }

  /** Once all links of `current` are visited, it joins the explored nodes. */
  lemma FinishExpand(nodes: seq<MindNode>, current: string, queue: seq<Entry>, visited: set<string>)
    requires Explored(nodes, queue, visited, Some(current))
    requires forall v :: v in Conn(nodes, current) ==> v in visited
    ensures Explored(nodes, queue, visited, None)
  {
  }

  /** Taking the head off the queue starts the exploration of its links. */
  lemma Dequeue(nodes: seq<MindNode>, s: string, t: string, U: set<string>,
                queue: seq<Entry>, visited: set<string>, log: seq<string>)
    requires queue != [] && queue[0].id != t
    requires Bookkeeping(nodes, s, t, U, queue, visited, log) && Explored(nodes, queue, visited, None)
    ensures Bookkeeping(nodes, s, t, U, queue[1..], visited, log) && Explored(nodes, queue[1..], visited, Some(queue[0].id))
    ensures queue[0].id in visited && queue[0].id !in QueueIds(queue[1..]) && PathFromTo(nodes, queue[0].path, s, queue[0].id)
  {
    QueueTail(queue);
  }

  /** The ids behind the head are the other queued ids, without the head's. */
  lemma QueueTail(queue: seq<Entry>)
    requires queue != [] && NoRepeats(QueueIds(queue))
    ensures NoRepeats(QueueIds(queue[1..])) && queue[0].id !in QueueIds(queue[1..])
    ensures forall x :: x in QueueIds(queue) <==> x == queue[0].id || x in QueueIds(queue[1..])
  {
    var ids := QueueIds(queue);
    assert QueueIds(queue[1..]) == ids[1..];
    assert ids == [ids[0]] + ids[1..];
    NoRepeatsTail(ids);
  }

  /** Marking a first-seen link `c` of the dequeued node visited and
      enqueuing it with the extended path keeps the bookkeeping. */
  lemma Enqueue(nodes: seq<MindNode>, s: string, t: string, U: set<string>, e: Entry,
                queue: seq<Entry>, visited: set<string>, log: seq<string>, c: string)
    requires U == Universe(nodes) + {s}
    requires e.id in visited && PathFromTo(nodes, e.path, s, e.id) && c in Conn(nodes, e.id) && c !in visited
    requires Bookkeeping(nodes, s, t, U, queue, visited, log) && Explored(nodes, queue, visited, Some(e.id))
    requires e.id !in QueueIds(queue)
    ensures var q' := queue + [Entry(c, e.path + [c])];
            Bookkeeping(nodes, s, t, U, q', visited + {c}, log + [c])
            && Explored(nodes, q', visited + {c}, Some(e.id)) && e.id !in QueueIds(q')
  {
    ConnInUniverse(nodes, e.id, c);
    PathExtend(nodes, e.path, s, e.id, c);
    var q' := queue + [Entry(c, e.path + [c])];
    assert QueueIds(q') == QueueIds(queue) + [c];
    assert c !in log;
    assert forall i :: 0 <= i < |queue| ==> q'[i] == queue[i];
  }

  lemma PathExtend(nodes: seq<MindNode>, p: seq<string>, s: string, v: string, w: string)
    requires PathFromTo(nodes, p, s, v) && w in Conn(nodes, v)
    ensures PathFromTo(nodes, p + [w], s, w)
  {
  }

  /** A path from a node of a set closed under links stays in the set. */
  lemma {:induction false} PathStaysIn(nodes: seq<MindNode>, V: set<string>, p: seq<string>)
    requires IsPath(nodes, p) && p[0] in V
    requires forall x, v :: x in V && v in Conn(nodes, x) ==> v in V
    ensures p[|p| - 1] in V
  {
    if |p| > 1 {
      var q := p[..|p| - 1];
      assert IsPath(nodes, q);
      PathStaysIn(nodes, V, q);
      assert p[|p| - 1] in Conn(nodes, p[|p| - 2]);
    }
  }

  /** One round of the search either visits a new node or shortens the queue. */
  lemma Shrinks(U: set<string>, visited0: set<string>, visited: set<string>, q0: nat, q: nat)
    requires visited0 <= visited <= U && q0 >= 1 && q - (q0 - 1) == |visited| - |visited0|
    ensures |U - visited| < |U - visited0| || (|U - visited| == |U - visited0| && q < q0)
  {
    assert U == (U - visited0) + visited0 && (U - visited0) * visited0 == {};
    assert U == (U - visited) + visited && (U - visited) * visited == {};
    assert visited == (visited - visited0) + visited0 && (visited - visited0) * visited0 == {};
  }

  /** A node is shown when the search is empty or its title holds the query,
      ignoring case, and its category is not hidden. */
  predicate Visible(n: MindNode, query: string, hidden: set<string>) {
    (query == "" || Contains(Lower(n.title), Lower(query))) && n.category !in hidden
  }

  function VisibleNodes(nodes: seq<MindNode>, query: string, hidden: set<string>): (r: seq<MindNode>)
    ensures forall n :: n in r <==> n in nodes && (query == "" || Contains(Lower(n.title), Lower(query))) && n.category !in hidden
  {
    Filter(nodes, (n: MindNode) => Visible(n, query, hidden))
  }

  const MinZoom := 0.5
  const MaxZoom := 3.0

  /** The view's state; `nodes` holds the node objects the handlers mutate. */
  class MindMapView {
    const nodes: array<MindNode>
    var selected: Option<string>
    var second: Option<string>
    var zoom: real
    var offset: (real, real)
    var isDragging: bool
    var dragStart: (real, real)
    var dragged: Option<string>
    var hidden: set<string>

    /** The zoom stays in range, and a second selection is a different node from the first. */
    predicate Valid()
      reads this
    {
      MinZoom <= zoom <= MaxZoom && (second.Some? ==> selected.Some? && second != selected)
    }

    constructor(nodes: array<MindNode>)
      ensures Valid() && this.nodes == nodes
      ensures selected == None && second == None && zoom == 1.0 && offset == (0.0, 0.0)
      ensures !isDragging && dragged == None && hidden == {}
    {
      this.nodes := nodes;
      selected, second := None, None;
      zoom, offset := 1.0, (0.0, 0.0);
      isDragging, dragStart, dragged := false, (0.0, 0.0), None;
      hidden := {};
    }

    /** `handleCanvasClick` with `hit` the node under the mouse; the result
        is the page navigated to, if any. */
    method Click(hit: Option<nat>) returns (navigate: Option<string>)
      requires Valid() && (hit.Some? ==> hit.value < nodes.Length)
      modifies this
      ensures Valid()
      ensures old(dragged).Some? ==> navigate == None && selected == old(selected) && second == old(second)
      ensures old(dragged).None? && hit.None? ==> navigate == None && selected == None && second == None
      ensures old(dragged).None? && hit.Some? ==>
        var c := nodes[hit.value];
        if old(selected) == Some(c.id) then
          navigate == Some("/article/" + c.slug) && selected == old(selected) && second == old(second)
        else if old(selected).Some? && old(second).None? then
          navigate == None && selected == old(selected) && second == Some(c.id)
        else
          navigate == None && selected == Some(c.id) && second == None
      ensures zoom == old(zoom) && offset == old(offset) && dragged == old(dragged) && hidden == old(hidden)
    {
      navigate := None;
      if dragged.Some? {
        return;
      }
      if hit.None? {
        selected, second := None, None;
        return;
      }
      var c := nodes[hit.value];
      if selected == Some(c.id) {
        navigate := Some("/article/" + c.slug);
      } else if selected.Some? && second.None? {
        second := Some(c.id);
      } else {
        selected, second := Some(c.id), None;
      }
    }

    /** `handleWheel`: scrolling down zooms out by a tenth, up zooms in by a
        tenth, clamped to the range. */
    method Wheel(deltaY: real)
      requires Valid()
      modifies this
      ensures Valid()
      ensures zoom == RealMax(MinZoom, RealMin(MaxZoom, old(zoom) * (if deltaY > 0.0 then 0.9 else 1.1)))
      ensures selected == old(selected) && second == old(second) && offset == old(offset)
    {
      var delta := if deltaY > 0.0 then 0.9 else 1.1;
      zoom := RealMax(MinZoom, RealMin(MaxZoom, zoom * delta));
    }

    /** The zoom-in button: only the upper bound is applied, which is enough
        for a zoom in range. */
    method ZoomIn()
      requires Valid()
      modifies this
      ensures Valid()
      ensures zoom == RealMin(MaxZoom, old(zoom) * 1.2) && zoom >= old(zoom)
      ensures selected == old(selected) && second == old(second) && offset == old(offset)
    {
      zoom := RealMin(MaxZoom, zoom * 1.2);
    }

    /** The zoom-out button: only the lower bound is applied. */
    method ZoomOut()
      requires Valid()
      modifies this
      ensures Valid()
      ensures zoom == RealMax(MinZoom, old(zoom) * 0.8) && zoom <= old(zoom)
      ensures selected == old(selected) && second == old(second) && offset == old(offset)
    {
      zoom := RealMax(MinZoom, zoom * 0.8);
    }

    /** `handleDoubleClick`: a node under the mouse is centred at zoom 1.5. */
    method DoubleClick(hit: Option<nat>, width: real, height: real)
      requires Valid() && (hit.Some? ==> hit.value < nodes.Length)
      modifies this
      ensures Valid()
      ensures hit.Some? ==> zoom == 1.5 && offset == (width / 2.0 - nodes[hit.value].x, height / 2.0 - nodes[hit.value].y)
      ensures hit.None? ==> zoom == old(zoom) && offset == old(offset)
      ensures selected == old(selected) && second == old(second)
    {
      if hit.Some? {
        var n := nodes[hit.value];
        offset := (width / 2.0 - n.x, height / 2.0 - n.y);
        zoom := 1.5;
      }
    }

    /** `handleMouseDown`: a node under the mouse is dragged and pinned;
        elsewhere the canvas is panned from the mouse less the offset. */
    method MouseDown(hit: Option<nat>, clientX: real, clientY: real)
      requires Valid() && (hit.Some? ==> hit.value < nodes.Length)
      modifies this, nodes
      ensures Valid()
      ensures hit.Some? ==>
                dragged == Some(old(nodes[hit.value]).id) && nodes[hit.value] == old(nodes[hit.value]).(fixed := true)
                && isDragging == old(isDragging) && dragStart == old(dragStart)
      ensures hit.None? ==>
                isDragging && dragStart == (clientX - offset.0, clientY - offset.1)
                && dragged == old(dragged) && nodes[..] == old(nodes[..])
      ensures forall j :: 0 <= j < nodes.Length && Some(j) != hit ==> nodes[j] == old(nodes[j])
      ensures selected == old(selected) && second == old(second) && zoom == old(zoom) && offset == old(offset)
    {
      if hit.Some? {
        var n := nodes[hit.value];
        dragged := Some(n.id);
        nodes[hit.value] := n.(fixed := true);
      } else {
        isDragging := true;
        dragStart := (clientX - offset.0, clientY - offset.1);
      }
    }

    /** `handleMouseUp`: the dragged node, if found, stays pinned at rest;
        the drag and the pan end. */
    method MouseUp()
      requires Valid()
      modifies this, nodes
      ensures Valid()
      ensures dragged == None && !isDragging
      ensures old(dragged).Some? ==>
        var id := old(dragged).value;
        var k := FindIndex(old(nodes[..]), (n: MindNode) => n.id == id);
        (k >= 0 ==> nodes[k] == old(nodes[k]).(fixed := true, vx := 0.0, vy := 0.0))
        && forall j :: 0 <= j < nodes.Length && j != k ==> nodes[j] == old(nodes[j])
      ensures old(dragged).None? ==> nodes[..] == old(nodes[..])
      ensures selected == old(selected) && second == old(second) && zoom == old(zoom) && offset == old(offset)
    {
      if dragged.Some? {
        var id := dragged.value;
        var k := FindIndex(nodes[..], (n: MindNode) => n.id == id);
        if k >= 0 {
          nodes[k] := nodes[k].(fixed := true, vx := 0.0, vy := 0.0);
        }
        dragged := None;
      }
      isDragging := false;
    }

    /** `handleResetView`. */
    method ResetView()
      requires Valid()
      modifies this
      ensures Valid()
      ensures zoom == 1.0 && offset == (0.0, 0.0) && selected == None && second == None
      ensures hidden == old(hidden) && dragged == old(dragged)
    {
      zoom, offset := 1.0, (0.0, 0.0);
      selected, second := None, None;
    }

    /** `toggleCategory(category)` on the hidden set. */
    method ToggleCategory(category: string)
      requires Valid()
      modifies this
      ensures Valid()
      ensures category in hidden <==> category !in old(hidden)
      ensures forall c :: c != category ==> (c in hidden <==> c in old(hidden))
      ensures selected == old(selected) && second == old(second) && zoom == old(zoom)
    {
      if category in hidden {
        hidden := hidden - {category};
      } else {
        hidden := hidden + {category};
      }
    }
  }

  function RealMin(a: real, b: real): real {
    if a <= b then a else b
  }

  function RealMax(a: real, b: real): real {
    if a >= b then a else b
  }
}
