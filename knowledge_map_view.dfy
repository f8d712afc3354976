/** The interactive knowledge graph: the categories shown, the nodes and
    links of the shown categories, the highlight of a hovered node, pinning a
    dragged node, the saved layout, and the wrapping of a node's label. */
module KnowledgeMapView {
  import opened Wrappers
  import opened Collections
  import opened Ordering
  import opened Text

  /** A node with the positions the force layout gives it (`x`, `y`) and
      the pinned position it is held at (`fx`, `fy`). */
  datatype GraphNode = GraphNode(
    id: int, category: string, x: Option<real>, y: Option<real>, fx: Option<real>, fy: Option<real>)

  /** A link, its endpoints resolved to node ids. */
  datatype GraphLink = GraphLink(id: int, source: int, target: int)

  datatype Stats = Stats(totalNodes: int, totalLinks: int, communities: int)

  /** The categories that have a colour, all shown at first. */
  const AllCategories: set<string> :=
    {"Podstawy", "Wdrożenie", "Prawo", "Techniczne", "FAQ", "Aktualności", "Koszty", "Studia"}

  /** `nodes.find(n => n.id === id)`. */
  function FindNode(nodes: seq<GraphNode>, id: int): (r: Option<GraphNode>)
    ensures r.Some? ==> r.value in nodes && r.value.id == id
    ensures r.None? <==> forall n :: n in nodes ==> n.id != id
  {
    if nodes == [] then None
    else if nodes[0].id == id then Some(nodes[0])
    else FindNode(nodes[1..], id)
  }

  /** The node `id` exists and its category is shown. */
  predicate EndpointShown(nodes: seq<GraphNode>, id: int, enabled: set<string>) {
    FindNode(nodes, id).Some? && FindNode(nodes, id).value.category in enabled
  }

  predicate LinkShown(nodes: seq<GraphNode>, l: GraphLink, enabled: set<string>) {
    EndpointShown(nodes, l.source, enabled) && EndpointShown(nodes, l.target, enabled)
  }

  /** `filteredData.nodes`. */
  function ShownNodes(nodes: seq<GraphNode>, enabled: set<string>): (r: seq<GraphNode>)
    ensures forall n :: n in r <==> n in nodes && n.category in enabled
  {
    Filter(nodes, (n: GraphNode) => n.category in enabled)
  }

  /** `filteredData.links`. */
  function ShownLinks(nodes: seq<GraphNode>, links: seq<GraphLink>, enabled: set<string>): (r: seq<GraphLink>)
    ensures forall l :: l in r <==> l in links && LinkShown(nodes, l, enabled)
  {
    Filter(links, (l: GraphLink) => LinkShown(nodes, l, enabled))
  }

  /** `filteredData.stats`: the shown counts, the community count copied. */
  function ShownStats(nodes: seq<GraphNode>, links: seq<GraphLink>, stats: Stats, enabled: set<string>): (r: Stats)
    ensures r.totalNodes == |ShownNodes(nodes, enabled)| <= |nodes|
    ensures r.totalLinks == |ShownLinks(nodes, links, enabled)| <= |links|
    ensures r.communities == stats.communities
  {
    stats.(totalNodes := |ShownNodes(nodes, enabled)|, totalLinks := |ShownLinks(nodes, links, enabled)|)
  }

  /** A shown link has both ends among the shown nodes. */
  lemma ShownLinksJoinShownNodes(nodes: seq<GraphNode>, links: seq<GraphLink>, enabled: set<string>, l: GraphLink)
    requires l in ShownLinks(nodes, links, enabled)
    ensures exists n :: n in ShownNodes(nodes, enabled) && n.id == l.source
    ensures exists n :: n in ShownNodes(nodes, enabled) && n.id == l.target
  {
    var s := FindNode(nodes, l.source).value;
    var t := FindNode(nodes, l.target).value;
    assert s in ShownNodes(nodes, enabled);
    assert t in ShownNodes(nodes, enabled);
  }

  predicate Touches(l: GraphLink, id: int) {
    l.source == id || l.target == id
  }

  /** The ids of the links at node `id`. */
  function LinkIdsAt(links: seq<GraphLink>, id: int): (r: set<int>)
  {
    if links == [] then {}
    else
      var l := links[|links| - 1];
      LinkIdsAt(links[..|links| - 1], id) + (if Touches(l, id) then {l.id} else {})
  }

  /** The ends of the links at node `id`. */
  function EndsAt(links: seq<GraphLink>, id: int): (r: set<int>)
  {
    if links == [] then {}
    else
      var l := links[|links| - 1];
      EndsAt(links[..|links| - 1], id) + (if Touches(l, id) then {l.source, l.target} else {})
  }

  /** The highlighted links are exactly the links at the node. */
  lemma {:induction false} LinkIdsAtMembers(links: seq<GraphLink>, id: int, k: int)
    ensures k in LinkIdsAt(links, id) <==> exists l :: l in links && Touches(l, id) && l.id == k
  {
    if links != [] {
      var init := links[..|links| - 1];
      LinkIdsAtMembers(init, id, k);
      assert links == init + [links[|links| - 1]];
    }
  }

  /** A node is highlighted with the hovered one exactly when a link joins them. */
  lemma {:induction false} EndsAtMembers(links: seq<GraphLink>, id: int, k: int)
    ensures k in EndsAt(links, id) <==> exists l :: l in links && Touches(l, id) && (l.source == k || l.target == k)
  {
    if links != [] {
      var init := links[..|links| - 1];
      EndsAtMembers(init, id, k);
      assert links == init + [links[|links| - 1]];
    }
  }

  /** The highlight of hovering node `id`: the node and the ends of its links,
      and the ids of those links. */
  method HoverHighlight(shown: seq<GraphLink>, id: int) returns (hn: set<int>, hl: set<int>)
    ensures hn == {id} + EndsAt(shown, id)
    ensures hl == LinkIdsAt(shown, id)
  {
    hn, hl := {id}, {};
    var i := 0;
    while i < |shown|
      invariant 0 <= i <= |shown|
      invariant hl == LinkIdsAt(shown[..i], id)
      invariant hn == {id} + EndsAt(shown[..i], id)
    {
      var l := shown[i];
      assert shown[..i + 1][..i] == shown[..i];
      if l.source == id || l.target == id {
        hl := hl + {l.id};
        hn := hn + {l.source, l.target};
      }
      i := i + 1;
    }
    assert shown[..i] == shown;
  }

  /** The view's state; `nodes` holds the node objects the layout mutates. */
  class GraphView {
    const nodes: array<GraphNode>
    var links: seq<GraphLink>
    var enabled: set<string>
    var highlightNodes: set<int>
    var highlightLinks: set<int>
    var hoverNode: Option<GraphNode>
    const hasWindow: bool
    var savedLayout: Option<map<int, (real, real)>>
    var isLayoutSaved: bool

    constructor(nodes: array<GraphNode>, links: seq<GraphLink>, hasWindow: bool, savedLayout: Option<map<int, (real, real)>>)
      ensures this.nodes == nodes && this.links == links && this.hasWindow == hasWindow && this.savedLayout == savedLayout
      ensures enabled == AllCategories && highlightNodes == {} && highlightLinks == {} && hoverNode == None && !isLayoutSaved
    {
      this.nodes := nodes;
      this.links := links;
      this.hasWindow := hasWindow;
      this.savedLayout := savedLayout;
      enabled := AllCategories;
      highlightNodes, highlightLinks, hoverNode := {}, {}, None;
      isLayoutSaved := false;
    }

    /** `toggleCategory(category)`. */
    method ToggleCategory(category: string)
      modifies this
      ensures category in enabled <==> category !in old(enabled)
      ensures forall c :: c != category ==> (c in enabled <==> c in old(enabled))
      ensures links == old(links) && highlightNodes == old(highlightNodes) && savedLayout == old(savedLayout)
    {
      if category in enabled {
        enabled := enabled - {category};
      } else {
        enabled := enabled + {category};
      }
    }

    /** The toggle-all button: everything hidden when as many categories are
        shown as there are colours, otherwise everything shown. */
    method ToggleAll()
      modifies this
      ensures |old(enabled)| == |AllCategories| ==> enabled == {}
      ensures |old(enabled)| != |AllCategories| ==> enabled == AllCategories
      ensures links == old(links) && savedLayout == old(savedLayout)
    {
      if |enabled| == |AllCategories| {
        enabled := {};
      } else {
        enabled := AllCategories;
      }
    }

    /** `handleNodeHover(node)` over the shown links. */
    method HandleNodeHover(node: Option<GraphNode>)
      modifies this
      ensures hoverNode == node
      ensures node.None? ==> highlightNodes == {} && highlightLinks == {}
      ensures node.Some? ==>
        var shown := ShownLinks(nodes[..], links, enabled);
        highlightLinks == LinkIdsAt(shown, node.value.id) && highlightNodes == {node.value.id} + EndsAt(shown, node.value.id)
      ensures links == old(links) && enabled == old(enabled) && savedLayout == old(savedLayout)
    {
      var hn: set<int> := {};
      var hl: set<int> := {};
      if node.Some? {
        hn, hl := HoverHighlight(ShownLinks(nodes[..], links, enabled), node.value.id);
      }
      highlightNodes, highlightLinks, hoverNode := hn, hl, node;
    }

    /** `handleNodeDragEnd(node)`: the node is pinned where it was dropped. */
    method HandleNodeDragEnd(k: nat)
      requires k < nodes.Length
      modifies nodes
      ensures nodes[k] == old(nodes[k]).(fx := old(nodes[k]).x, fy := old(nodes[k]).y)
      ensures forall j :: 0 <= j < nodes.Length && j != k ==> nodes[j] == old(nodes[j])
    {
      nodes[k] := nodes[k].(fx := nodes[k].x, fy := nodes[k].y);
    }

    /** `resetLayout()`: the saved layout dropped and every node unpinned;
        without a window nothing happens. */
    method ResetLayout()
      modifies this, nodes
      ensures hasWindow ==> savedLayout == None && !isLayoutSaved
      ensures hasWindow ==> forall j :: 0 <= j < nodes.Length ==>
        nodes[j] == old(nodes[j]).(fx := None, fy := None)
      ensures !hasWindow ==>
                savedLayout == old(savedLayout) && isLayoutSaved == old(isLayoutSaved) && nodes[..] == old(nodes[..])
      ensures links == old(links) && enabled == old(enabled)
    {
      if !hasWindow {
        return;
      }
      var i := 0;
      while i < nodes.Length
        invariant 0 <= i <= nodes.Length
        invariant forall j :: 0 <= j < i ==> nodes[j] == old(nodes[j]).(fx := None, fy := None)
        invariant forall j :: i <= j < nodes.Length ==> nodes[j] == old(nodes[j])
        invariant links == old(links) && enabled == old(enabled)
      {
        nodes[i] := nodes[i].(fx := None, fy := None);
        i := i + 1;
      }
      savedLayout := None;
      isLayoutSaved := false;
    }

    /** `saveCurrentLayout()`: the position of every node that has one,
        under its id (a later node with the same id wins). */
    method SaveCurrentLayout()
      modifies this
      ensures hasWindow ==> savedLayout.Some? && isLayoutSaved && savedLayout.value == Positions(nodes[..])
      ensures !hasWindow ==> savedLayout == old(savedLayout) && isLayoutSaved == old(isLayoutSaved)
      ensures links == old(links) && enabled == old(enabled)
    {
      if !hasWindow {
        return;
      }
      var positions: map<int, (real, real)> := map[];
      var i := 0;
      while i < nodes.Length
        invariant 0 <= i <= nodes.Length
        invariant positions == Positions(nodes[..i])
      {
        var n := nodes[i];
        assert nodes[..i + 1] == nodes[..i] + [n];
        if n.x.Some? && n.y.Some? {
          positions := positions[n.id := (n.x.value, n.y.value)];
        }
        i := i + 1;
      }
      assert nodes[..i] == nodes[..];
      savedLayout := Some(positions);
      isLayoutSaved := true;
    }

    /** The effect on mount: a saved layout marks the layout as saved, and
        every node with a saved position is pinned there and moved there. */
    method ApplySavedPositions()
      modifies this, nodes
      ensures links == old(links) && savedLayout == old(savedLayout)
      ensures enabled == old(enabled) && highlightNodes == old(highlightNodes) && highlightLinks == old(highlightLinks)
      ensures hoverNode == old(hoverNode)
      ensures savedLayout.None? ==> nodes[..] == old(nodes[..]) && isLayoutSaved == old(isLayoutSaved)
      ensures savedLayout.Some? ==> isLayoutSaved && forall j :: 0 <= j < nodes.Length ==>
        nodes[j] == Restored(old(nodes[j]), savedLayout.value)
    {
      if savedLayout.None? {
        return;
      }
      isLayoutSaved := true;
      var saved := savedLayout.value;
      var i := 0;
      while i < nodes.Length
        modifies nodes
        invariant 0 <= i <= nodes.Length
        invariant forall j :: 0 <= j < i ==> nodes[j] == Restored(old(nodes[j]), saved)
        invariant forall j :: i <= j < nodes.Length ==> nodes[j] == old(nodes[j])
      {
        if nodes[i].id in saved {
          var (px, py) := saved[nodes[i].id];
          nodes[i] := nodes[i].(fx := Some(px), fy := Some(py), x := Some(px), y := Some(py));
        }
        i := i + 1;
      }
    }
  }

  /** The layout record of a node list: later nodes overwrite earlier ones with the same id. */
  function Positions(ns: seq<GraphNode>): (m: map<int, (real, real)>)
    ensures forall id :: id in m <==> exists n :: n in ns && n.id == id && n.x.Some? && n.y.Some?
  {
    if ns == [] then map[]
    else
      var init := ns[..|ns| - 1];
      var n := ns[|ns| - 1];
      assert ns == init + [n];
      var m := Positions(init);
      if n.x.Some? && n.y.Some? then m[n.id := (n.x.value, n.y.value)] else m
  }

  /** A node as the saved layout restores it. */
  function Restored(n: GraphNode, saved: map<int, (real, real)>): (r: GraphNode)
    ensures n.id !in saved ==> r == n
    ensures n.id in saved ==> r.fx == Some(saved[n.id].0) && r.fy == Some(saved[n.id].1) && r.x == r.fx && r.y == r.fy
    ensures r.id == n.id && r.category == n.category
  {
    if n.id in saved then
      var (px, py) := saved[n.id];
      n.(fx := Some(px), fy := Some(py), x := Some(px), y := Some(py))
    else n
  }

  /** Saving and restoring pins every placed node where it was, when ids
      are unique. */
  lemma SaveRestoreRoundTrip(ns: seq<GraphNode>, k: nat)
    requires k < |ns| && ns[k].x.Some? && ns[k].y.Some?
    requires forall i, j :: 0 <= i < j < |ns| ==> ns[i].id != ns[j].id
    ensures Restored(ns[k], Positions(ns)).fx == ns[k].x && Restored(ns[k], Positions(ns)).fy == ns[k].y
  {
    PositionOfUnique(ns, k);
  }

  lemma {:induction false} PositionOfUnique(ns: seq<GraphNode>, k: nat)
    requires k < |ns| && ns[k].x.Some? && ns[k].y.Some?
    requires forall i, j :: 0 <= i < j < |ns| ==> ns[i].id != ns[j].id
    ensures ns[k].id in Positions(ns) && Positions(ns)[ns[k].id] == (ns[k].x.value, ns[k].y.value)
  {
    var init := ns[..|ns| - 1];
    if k < |ns| - 1 {
      PositionOfUnique(init, k);
      assert ns[|ns| - 1].id != ns[k].id;
    }
  }

  /** `wrapText(text, maxWidth, ctx)` with `width` standing for
      `ctx.measureText(…).width`: words are added to the current line until it
      gets too wide, and the first three lines are kept. */
  method WrapText(text: string, maxWidth: real, width: string -> real) returns (lines: seq<string>)
    ensures |lines| <= 3
    ensures forall i :: 0 <= i < |lines| ==> lines[i] != []
    ensures (forall w :: w in Split(text, ' ') ==> w != []) ==> StartsWith(text, Join(lines, " "))
  {
    var words := Split(text, ' ');
    ghost var solid := forall w :: w in words ==> w != [];
    var all: seq<string> := [];
    var current := "";
    var i := 0;
    while i < |words|
      invariant 0 <= i <= |words|
      invariant forall k :: 0 <= k < |all| ==> all[k] != []
      invariant i == 0 ==> all == [] && current == []
      invariant solid ==> (i > 0 ==> current != []) && Join(all + [current], " ") == Join(words[..i], " ")
    {
      all, current := WrapWord(words, i, all, current, solid, maxWidth, width);
      i := i + 1;
    }
    assert words[..i] == words;
    if current != [] {
      all := all + [current];
    }
    lines := Take(all, 3);
    if solid {
      assert Join(all, " ") == text;
      JoinTakePrefix(all, 3, " ");
    }
  }

  /** One step of the loop: word `i` goes onto the current line, or starts a
      new one when the line would get too wide. */
  method WrapWord(words: seq<string>, i: nat, all: seq<string>, current: string, ghost solid: bool,
                  maxWidth: real, width: string -> real) returns (all': seq<string>, current': string)
    requires i < |words| && (solid ==> forall w :: w in words ==> w != [])
    requires forall k :: 0 <= k < |all| ==> all[k] != []
    requires i == 0 ==> all == [] && current == []
    requires solid ==> (i > 0 ==> current != []) && Join(all + [current], " ") == Join(words[..i], " ")
    ensures forall k :: 0 <= k < |all'| ==> all'[k] != []
    ensures solid ==> current' != [] && Join(all' + [current'], " ") == Join(words[..i + 1], " ")
  {
    var word := words[i];
    var testLine := if current != [] then current + " " + word else word;
    var pushed := width(testLine) > maxWidth && current != [];
    if pushed {
      all', current' := all + [current], word;
    } else {
      all', current' := all, testLine;
    }
    if solid {
      assert word in words;
      WrapJoin(words, i, all, current, pushed);
    }
  }

  /** The lines after word `i` join to the first `i + 1` words. */
  lemma WrapJoin(words: seq<string>, i: nat, all: seq<string>, current: string, pushed: bool)
    requires i < |words| && words[i] != []
    requires (i > 0 ==> current != []) && (i == 0 ==> all == [] && current == [])
    requires Join(all + [current], " ") == Join(words[..i], " ")
    requires !pushed || current != []
    ensures var all' := if pushed then all + [current] else all;
            var current' := if pushed then words[i] else if current != [] then current + " " + words[i] else words[i];
            current' != [] && Join(all' + [current'], " ") == Join(words[..i + 1], " ")
  {
    WrapStep(all, current, words[i], pushed);
    JoinSnoc(words[..i], words[i], " ");
    assert words[..i + 1] == words[..i] + [words[i]];
  }

  /** One word added to the wrapped lines extends their join by that word. */
  lemma WrapStep(all: seq<string>, current: string, word: string, pushed: bool)
    requires current != [] || (all == [] && !pushed)
    ensures var all' := if pushed then all + [current] else all;
            var current' := if pushed then word else if current != [] then current + " " + word else word;
            Join(all' + [current'], " ") == if current == [] then word else Join(all + [current], " ") + " " + word
  {
    JoinSnoc(all, current, " ");
    if pushed {
      JoinSnoc(all + [current], word, " ");
    } else if current != [] {
      JoinSnoc(all, current + " " + word, " ");
    }
  }

  lemma {:induction false} JoinSnoc(p: seq<string>, x: string, sep: string)
    ensures Join(p + [x], sep) == if p == [] then x else Join(p, sep) + sep + x
  {
    if |p| == 0 {
      assert p + [x] == [x];
    } else if |p| == 1 {
      assert (p + [x])[1..] == [x];
    } else {
      assert (p + [x])[1..] == p[1..] + [x];
      JoinSnoc(p[1..], x, sep);
    }
  }

  /** The first `k` parts, joined, begin the whole join. */
  lemma {:induction false} JoinTakePrefix(p: seq<string>, k: int, sep: string)
    ensures StartsWith(Join(p, sep), Join(Take(p, k), sep))
  {
    if k <= 0 || k >= |p| {
    } else if k == 1 {
      assert Take(p, k) == [p[0]];
    } else {
      JoinTakePrefix(p[1..], k - 1, sep);
      assert Take(p, k)[1..] == Take(p[1..], k - 1);
    }
  }
}
