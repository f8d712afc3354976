/** The discrete skeleton of `calculateCommunities` (a simplified Louvain
    method) of the article graph service: every node starts alone, a node
    moves only to a neighbouring community of strictly positive modularity
    gain, at most ten passes run, and the communities written back are
    renumbered 1..k.  The gain is computed in exact reals. */
module GraphCommunities {
  import opened Wrappers
  import opened Collections
  import opened GraphService

  /** `maxIterations`. */
  const MaxIterations: nat := 10

  /** A community assignment over `nodes`: every node is assigned, and every
      community is named after one of the nodes. */
  ghost predicate Assignment(nodes: seq<int>, comm: map<int, int>) {
    comm.Keys == IdSet(nodes) && forall x :: x in comm ==> comm[x] in comm
  }

  /** The degree `calculateCommunities` uses: the number of out-links. */
  method Degrees(nodes: seq<int>, adj: map<int, seq<int>>) returns (deg: map<int, nat>)
    ensures deg.Keys == IdSet(nodes)
    ensures forall x :: x in deg ==> deg[x] == |Get(adj, x)|
  {
    deg := map[];
    for i := 0 to |nodes|
      invariant deg.Keys == IdSet(nodes[..i])
      invariant forall x :: x in deg ==> deg[x] == |Get(adj, x)|
    {
      assert nodes[..i + 1] == nodes[..i] + [nodes[i]];
      deg := deg[nodes[i] := |Get(adj, nodes[i])|];
    }
    assert nodes[..|nodes|] == nodes;
  }

  /** `edgesToCommunity`: the nodes of community `to` among the neighbours. */
  function CommunityLinks(ns: seq<int>, comm: map<int, int>, nbrs: seq<int>, to: int): nat {
    Count(ns, x => x in comm && comm[x] == to && x in nbrs)
  }

  /** `sumDegreesInCommunity`: the degrees of the nodes of community `to` summed. */
  function CommunityDegree(ns: seq<int>, comm: map<int, int>, deg: map<int, nat>, to: int): nat {
    if ns == [] then 0
    else
      var x := ns[|ns| - 1];
      CommunityDegree(ns[..|ns| - 1], comm, deg, to) + (if x in comm && comm[x] == to && x in deg then deg[x] else 0)
  }

  /** The simplified gain `edgesToCommunity / 2m - (k_i * sumDegrees) / (2m)^2`. */
  function Gain(links: nat, nodeDeg: nat, sumDeg: nat, m: nat): (g: real)
    requires m > 0
    ensures g > 0.0 <==> 2 * m * links > nodeDeg * sumDeg
  {
    var m2 := (2 * m) as real;
    var g := links as real / m2 - (nodeDeg * sumDeg) as real / (m2 * m2);
    assert g * (m2 * m2) == (2 * m * links) as real - (nodeDeg * sumDeg) as real;
    g
  }

  /** The value of `calculateModularityGain`: 0 within the same community. */
  function GainFor(nodes: seq<int>, adj: map<int, seq<int>>, deg: map<int, nat>, m: nat,
                   comm: map<int, int>, u: int, from: int, to: int): real
    requires m > 0
  {
    if from == to then 0.0
    else Gain(CommunityLinks(nodes, comm, Get(adj, u), to), if u in deg then deg[u] else 0,
              CommunityDegree(nodes, comm, deg, to), m)
  }

  /** A community none of whose members is a neighbour never has a positive gain. */
  lemma GainWithoutLinks(links: nat, nodeDeg: nat, sumDeg: nat, m: nat)
    requires m > 0 && links == 0
    ensures Gain(links, nodeDeg, sumDeg, m) <= 0.0
  {
    var m2 := (2 * m) as real;
    assert m2 * m2 > 0.0;
    assert (nodeDeg * sumDeg) as real / (m2 * m2) >= 0.0;
  }

  /** The gain is at most the share of all links that go to the community. */
  lemma GainBelowLinkShare(links: nat, nodeDeg: nat, sumDeg: nat, m: nat)
    requires m > 0
    ensures Gain(links, nodeDeg, sumDeg, m) <= links as real / (2 * m) as real
  {
    var m2 := (2 * m) as real;
    assert m2 * m2 > 0.0;
    assert (nodeDeg * sumDeg) as real / (m2 * m2) >= 0.0;
  }

  /** `calculateModularityGain(nodeId, fromCommunity, toCommunity, ...)`: 0 when
      the two communities are the same; otherwise one pass over the
      assignment counting the neighbours in `to` and summing the degrees of
      its members. */
  method ModularityGain(nodes: seq<int>, adj: map<int, seq<int>>, deg: map<int, nat>, m: nat,
                        comm: map<int, int>, u: int, from: int, to: int) returns (gain: real)
    requires m > 0
    ensures gain == GainFor(nodes, adj, deg, m, comm, u, from, to)
    ensures from == to ==> gain == 0.0
  {
    if from == to {
      return 0.0;
    }
    var nbrs := Get(adj, u);
    var nodeDeg := if u in deg then deg[u] else 0;
    var links, sumDeg := 0, 0;
    for i := 0 to |nodes|
      invariant links == CommunityLinks(nodes[..i], comm, nbrs, to)
      invariant sumDeg == CommunityDegree(nodes[..i], comm, deg, to)
    {
      var x := nodes[i];
      assert nodes[..i + 1][..i] == nodes[..i];
      if x in comm && comm[x] == to {
        sumDeg := sumDeg + (if x in deg then deg[x] else 0);
        if x in nbrs {
          links := links + 1;
        }
      }
    }
    assert nodes[..|nodes|] == nodes;
    gain := Gain(links, nodeDeg, sumDeg, m);
  }

  /** The communities of the neighbours, each once, in order of first appearance. */
  function NeighbourCommunities(comm: map<int, int>, nbrs: seq<int>): (r: seq<int>)
    ensures forall c :: c in r <==> exists x :: x in nbrs && x in comm && comm[x] == c
  {
    FirstOccurrences(CommsOf(comm, nbrs))
  }

  function CommsOf(comm: map<int, int>, nbrs: seq<int>): (r: seq<int>)
    ensures forall c :: c in r <==> exists x :: x in nbrs && x in comm && comm[x] == c
  {
    if nbrs == [] then []
    else
      var x := nbrs[|nbrs| - 1];
      var r := CommsOf(comm, nbrs[..|nbrs| - 1]) + (if x in comm then [comm[x]] else []);
      assert forall y :: y in nbrs <==> y in nbrs[..|nbrs| - 1] || y == x by {
        assert nbrs == nbrs[..|nbrs| - 1] + [x];
      }
      r
  }

  /** The choice made for one node: the first neighbouring community of
      strictly greatest gain if that gain is positive, otherwise the node's
      own community with gain 0. */
  method ChooseCommunity(nodes: seq<int>, adj: map<int, seq<int>>, deg: map<int, nat>, m: nat,
                         comm: map<int, int>, u: int, current: int) returns (best: int, bestGain: real)
    requires m > 0
    ensures bestGain >= 0.0
    ensures best == current ==> bestGain == 0.0
    ensures best != current ==> bestGain > 0.0 && best in NeighbourCommunities(comm, Get(adj, u))
                                && bestGain == GainFor(nodes, adj, deg, m, comm, u, current, best)
    ensures forall c :: c in NeighbourCommunities(comm, Get(adj, u)) ==> GainFor(nodes, adj, deg, m, comm, u, current, c) <= bestGain
  {
    var cs, gains := CommunityGains(nodes, adj, deg, m, comm, u, current);
    best, bestGain := current, 0.0;
    for i := 0 to |cs|
      invariant bestGain >= 0.0
      invariant best == current ==> bestGain == 0.0
      invariant best != current ==> bestGain > 0.0 && best in cs && bestGain == GainFor(nodes, adj, deg, m, comm, u, current, best)
      invariant forall j :: 0 <= j < i ==> gains[j] <= bestGain
    {
      if gains[i] > bestGain {
        best, bestGain := cs[i], gains[i];
      }
    }
  }

  /** The `communityGains` map: each neighbouring community once, in order of
      first appearance, with its gain. */
  method CommunityGains(nodes: seq<int>, adj: map<int, seq<int>>, deg: map<int, nat>, m: nat,
                        comm: map<int, int>, u: int, current: int) returns (cs: seq<int>, gains: seq<real>)
    requires m > 0
    ensures cs == NeighbourCommunities(comm, Get(adj, u)) && |gains| == |cs|
    ensures forall i :: 0 <= i < |cs| ==> gains[i] == GainFor(nodes, adj, deg, m, comm, u, current, cs[i])
  {
    var nbrs := Get(adj, u);
    cs, gains := [], [];
    for j := 0 to |nbrs|
      invariant cs == FirstOccurrences(CommsOf(comm, nbrs[..j])) && |gains| == |cs|
      invariant forall i :: 0 <= i < |cs| ==> gains[i] == GainFor(nodes, adj, deg, m, comm, u, current, cs[i])
    {
      cs, gains := GainOfNeighbour(nodes, adj, deg, m, comm, u, current, nbrs, j, cs, gains);
    }
    assert nbrs[..|nbrs|] == nbrs;
  }

  /** One neighbour of `CommunityGains`: its community is added with its gain
      the first time it is seen. */
  method GainOfNeighbour(nodes: seq<int>, adj: map<int, seq<int>>, deg: map<int, nat>, m: nat,
                         comm: map<int, int>, u: int, current: int, nbrs: seq<int>, j: nat,
                         cs: seq<int>, gains: seq<real>) returns (cs': seq<int>, gains': seq<real>)
    requires m > 0 && j < |nbrs|
    requires cs == FirstOccurrences(CommsOf(comm, nbrs[..j])) && |gains| == |cs|
    requires forall i :: 0 <= i < |cs| ==> gains[i] == GainFor(nodes, adj, deg, m, comm, u, current, cs[i])
    ensures cs' == FirstOccurrences(CommsOf(comm, nbrs[..j + 1])) && |gains'| == |cs'|
    ensures forall i :: 0 <= i < |cs'| ==> gains'[i] == GainFor(nodes, adj, deg, m, comm, u, current, cs'[i])
  {
    var x := nbrs[j];
    CommsOfSnoc(comm, nbrs, j);
    ghost var before := CommsOf(comm, nbrs[..j]);
    cs', gains' := cs, gains;
    if x !in comm {
      assert before + [] == before;
      return;
    }
    var c := comm[x];
    FirstOccurrencesSnoc(before, c);
    assert c in cs <==> c in before;
    if c !in cs {
      var gain := ModularityGain(nodes, adj, deg, m, comm, u, current, c);
      cs', gains' := cs + [c], gains + [gain];
      GainsSnoc(nodes, adj, deg, m, comm, u, current, cs, gains, c, gain);
    }
  }

  /** Appending a community with its gain keeps every gain the gain of its community. */
  lemma GainsSnoc(nodes: seq<int>, adj: map<int, seq<int>>, deg: map<int, nat>, m: nat,
                  comm: map<int, int>, u: int, current: int, cs: seq<int>, gains: seq<real>, c: int, gain: real)
    requires m > 0 && |gains| == |cs|
    requires forall i :: 0 <= i < |cs| ==> gains[i] == GainFor(nodes, adj, deg, m, comm, u, current, cs[i])
    requires gain == GainFor(nodes, adj, deg, m, comm, u, current, c)
    ensures forall i :: 0 <= i < |cs| + 1 ==> (gains + [gain])[i] == GainFor(nodes, adj, deg, m, comm, u, current, (cs + [c])[i])
  {
  }

  /** The communities of one more neighbour. */
  lemma CommsOfSnoc(comm: map<int, int>, nbrs: seq<int>, j: nat)
    requires j < |nbrs|
    ensures CommsOf(comm, nbrs[..j + 1]) == CommsOf(comm, nbrs[..j]) + (if nbrs[j] in comm then [comm[nbrs[j]]] else [])
  {
    assert nbrs[..j + 1][..j] == nbrs[..j];
  }

  /** The rule for one node `u`: the assignment is left alone when no
      neighbouring community has a positive gain, and otherwise `u` alone moves
      to a neighbouring community other than its own whose gain is strictly
      positive and at least that of every neighbouring community. */
  ghost predicate Moved(nodes: seq<int>, adj: map<int, seq<int>>, deg: map<int, nat>, m: nat,
                        before: map<int, int>, u: int, after: map<int, int>)
  {
    m > 0 && u in before &&
    var cur, cands := before[u], NeighbourCommunities(before, Get(adj, u));
    if after == before then
      forall c :: c in cands ==> GainFor(nodes, adj, deg, m, before, u, cur, c) <= 0.0
    else
      u in after && after == before[u := after[u]] && after[u] != cur && after[u] in cands
      && GainFor(nodes, adj, deg, m, before, u, cur, after[u]) > 0.0
      && forall c :: c in cands ==> GainFor(nodes, adj, deg, m, before, u, cur, c) <= GainFor(nodes, adj, deg, m, before, u, cur, after[u])
  }

  /** A trace of a pass so far: entry `k + 1` is entry `k` after node `k` has
      followed the rule of `Moved`. */
  ghost predicate Traced(nodes: seq<int>, adj: map<int, seq<int>>, deg: map<int, nat>, m: nat, trace: seq<map<int, int>>)
    decreases |trace|
  {
    |trace| <= |nodes| + 1 &&
    (|trace| <= 1
     || (Traced(nodes, adj, deg, m, trace[..|trace| - 1])
         && Moved(nodes, adj, deg, m, trace[|trace| - 2], nodes[|trace| - 2], trace[|trace| - 1])))
  }

  /** Every step of a trace follows the rule of `Moved`. */
  lemma {:induction false} TracedStep(nodes: seq<int>, adj: map<int, seq<int>>, deg: map<int, nat>, m: nat,
                                      trace: seq<map<int, int>>, k: nat)
    requires Traced(nodes, adj, deg, m, trace) && k + 1 < |trace|
    ensures Moved(nodes, adj, deg, m, trace[k], nodes[k], trace[k + 1])
    decreases |trace|
  {
    if k + 2 < |trace| {
      var t := trace[..|trace| - 1];
      TracedStep(nodes, adj, deg, m, t, k);
      assert t[k] == trace[k] && t[k + 1] == trace[k + 1];
    }
  }

  /** The body of the pass for one node: its best community is chosen, and the
      node moves there when that is another community with a positive gain. */
  method MoveNode(nodes: seq<int>, adj: map<int, seq<int>>, deg: map<int, nat>, m: nat, comm: map<int, int>, u: int)
    returns (comm': map<int, int>, moved: bool)
    requires m > 0 && Closed(adj, IdSet(nodes)) && Assignment(nodes, comm) && u in comm
    ensures Assignment(nodes, comm')
    ensures Moved(nodes, adj, deg, m, comm, u, comm')
    ensures moved <==> comm' != comm
  {
    var current := comm[u];
    var best, bestGain := ChooseCommunity(nodes, adj, deg, m, comm, u, current);
    comm', moved := comm, false;
    if best != current && bestGain > 0.0 {
      assert exists x :: x in Get(adj, u) && x in comm && comm[x] == best;
      comm' := comm[u := best];
      assert comm'[u] != comm[u];
      moved := true;
    }
  }

  /** One pass over the nodes in order: each node in turn follows the rule of
      `Moved` against the assignment left by the nodes before it; the pass
      reports an improvement exactly when some node moved, and a pass that
      moves nobody leaves the assignment as it was. */
  method Pass(nodes: seq<int>, adj: map<int, seq<int>>, deg: map<int, nat>, m: nat, comm: map<int, int>)
    returns (comm': map<int, int>, improved: bool, ghost trace: seq<map<int, int>>)
    requires m > 0 && Closed(adj, IdSet(nodes)) && Assignment(nodes, comm)
    ensures Assignment(nodes, comm')
    ensures |trace| == |nodes| + 1 && trace[0] == comm && trace[|nodes|] == comm'
    ensures Traced(nodes, adj, deg, m, trace)
    ensures improved <==> exists k :: 0 <= k < |nodes| && trace[k + 1] != trace[k]
    ensures !improved ==> comm' == comm
  {
    comm', improved, trace := comm, false, [comm];
    for i := 0 to |nodes|
      invariant Assignment(nodes, comm')
      invariant |trace| == i + 1 && trace[0] == comm && trace[i] == comm'
      invariant Traced(nodes, adj, deg, m, trace)
      invariant improved <==> exists k :: 0 <= k < i && trace[k + 1] != trace[k]
      invariant !improved ==> comm' == comm
    {
      comm', improved, trace := PassStep(nodes, adj, deg, m, comm, i, comm', improved, trace);
    }
  }

  /** One turn of `Pass`: node `i` follows the rule of `Moved`, and the trace
      and the improvement flag record it. */
  method PassStep(nodes: seq<int>, adj: map<int, seq<int>>, deg: map<int, nat>, m: nat, ghost comm: map<int, int>,
                  i: nat, cur: map<int, int>, improved: bool, ghost trace: seq<map<int, int>>)
    returns (cur': map<int, int>, improved': bool, ghost trace': seq<map<int, int>>)
    requires m > 0 && Closed(adj, IdSet(nodes)) && i < |nodes|
    requires Assignment(nodes, cur)
    requires |trace| == i + 1 && trace[0] == comm && trace[i] == cur
    requires Traced(nodes, adj, deg, m, trace)
    requires improved <==> exists k :: 0 <= k < i && trace[k + 1] != trace[k]
    requires !improved ==> cur == comm
    ensures Assignment(nodes, cur')
    ensures |trace'| == i + 2 && trace'[0] == comm && trace'[i + 1] == cur'
    ensures Traced(nodes, adj, deg, m, trace')
    ensures improved' <==> exists k :: 0 <= k < i + 1 && trace'[k + 1] != trace'[k]
    ensures !improved' ==> cur' == comm
  {
    assert nodes[i] in cur;
    var moved;
    cur', moved := MoveNode(nodes, adj, deg, m, cur, nodes[i]);
    trace' := trace + [cur'];
    improved' := improved || moved;
    TracedSnoc(nodes, adj, deg, m, trace, cur');
    ChangedSnoc(trace, cur');
  }

  lemma TracedSnoc(nodes: seq<int>, adj: map<int, seq<int>>, deg: map<int, nat>, m: nat,
                   trace: seq<map<int, int>>, next: map<int, int>)
    requires Traced(nodes, adj, deg, m, trace) && 1 <= |trace| <= |nodes|
    requires Moved(nodes, adj, deg, m, trace[|trace| - 1], nodes[|trace| - 1], next)
    ensures Traced(nodes, adj, deg, m, trace + [next])
  {
    var t := trace + [next];
    assert t[..|t| - 1] == trace;
    assert t[|t| - 2] == trace[|trace| - 1] && t[|t| - 1] == next;
  }

  /** The extended trace changes somewhere exactly when the old one did or its last step does. */
  lemma ChangedSnoc(trace: seq<map<int, int>>, next: map<int, int>)
    requires |trace| >= 1
    ensures (exists k :: 0 <= k < |trace| && (trace + [next])[k + 1] != (trace + [next])[k])
            <==> (exists k :: 0 <= k < |trace| - 1 && trace[k + 1] != trace[k]) || next != trace[|trace| - 1]
  {
    var t := trace + [next];
    if exists k :: 0 <= k < |trace| - 1 && trace[k + 1] != trace[k] {
      var k :| 0 <= k < |trace| - 1 && trace[k + 1] != trace[k];
      assert t[k + 1] != t[k];
    }
    if next != trace[|trace| - 1] {
      assert t[|trace|] != t[|trace| - 1];
    }
    if exists k :: 0 <= k < |trace| && t[k + 1] != t[k] {
      var k :| 0 <= k < |trace| && t[k + 1] != t[k];
      if k < |trace| - 1 {
        assert trace[k + 1] != trace[k];
      }
    }
  }

  /** The values of the assignment in node order: `communities.values()`. */
  function Values(nodes: seq<int>, comm: map<int, int>): (r: seq<int>)
    requires forall i :: 0 <= i < |nodes| ==> nodes[i] in comm
    ensures |r| == |nodes| && forall i :: 0 <= i < |nodes| ==> r[i] == comm[nodes[i]]
  {
    if nodes == [] then [] else [comm[nodes[0]]] + Values(nodes[1..], comm)
  }

  /** The 1-based position of `c` in `unique`. */
  function Rank(unique: seq<int>, c: int): (r: nat)
    requires c in unique
    ensures 1 <= r <= |unique| && unique[r - 1] == c
    ensures forall j :: 0 <= j < r - 1 ==> unique[j] != c
  {
    if unique[0] == c then 1 else 1 + Rank(unique[1..], c)
  }

  /** `communityMap`: the distinct communities numbered 1, 2, ... in order of
      first appearance. */
  method Renumbering(unique: seq<int>) returns (cmap: map<int, int>)
    requires forall i, j :: 0 <= i < j < |unique| ==> unique[i] != unique[j]
    ensures cmap.Keys == IdSet(unique)
    ensures forall c :: c in cmap ==> cmap[c] == Rank(unique, c) && cmap[c] >= 1
  {
    cmap := map[];
    var index := 1;
    for i := 0 to |unique|
      invariant index == i + 1
      invariant cmap.Keys == IdSet(unique[..i])
      invariant forall c :: c in cmap ==> cmap[c] == Rank(unique, c)
    {
      assert unique[..i + 1] == unique[..i] + [unique[i]];
      RankAt(unique, i);
      cmap := cmap[unique[i] := index];
      index := index + 1;
    }
    assert unique[..|unique|] == unique;
  }

  lemma RankAt(unique: seq<int>, i: nat)
    requires i < |unique| && forall a, b :: 0 <= a < b < |unique| ==> unique[a] != unique[b]
    ensures Rank(unique, unique[i]) == i + 1
  {
    var r := Rank(unique, unique[i]);
    assert unique[r - 1] == unique[i];
  }

  /** The writes `calculateCommunities` sends back, one per node in node order:
      the node id and its renumbered community. */
  ghost predicate Renumbered(nodes: seq<int>, comm: map<int, int>, writes: seq<(int, int)>)
    requires forall i :: 0 <= i < |nodes| ==> nodes[i] in comm
  {
    var unique := FirstOccurrences(Values(nodes, comm));
    |writes| == |nodes|
    && forall i :: 0 <= i < |nodes| ==> writes[i].0 == nodes[i] && writes[i].1 == Rank(unique, comm[nodes[i]])
  }

  /** Renumbering keeps communities apart and together exactly as before, and
      uses exactly the numbers 1..k, k the number of distinct communities. */
  lemma RenumberedIsBijective(nodes: seq<int>, comm: map<int, int>, writes: seq<(int, int)>)
    requires forall i :: 0 <= i < |nodes| ==> nodes[i] in comm
    requires Renumbered(nodes, comm, writes)
    ensures Numbers(writes) == Range(|FirstOccurrences(Values(nodes, comm))|)
    ensures forall i, j :: 0 <= i < |writes| && 0 <= j < |writes| ==> (writes[i].1 == writes[j].1 <==> comm[nodes[i]] == comm[nodes[j]])
  {
    var k := |FirstOccurrences(Values(nodes, comm))|;
    forall n | n in Range(k) ensures n in Numbers(writes) {
      NumberWritten(nodes, comm, writes, n);
    }
    forall n | n in Numbers(writes) ensures n in Range(k) {
      var i :| 0 <= i < |writes| && writes[i].1 == n;
      NumberInRange(nodes, comm, writes, i);
    }
    forall i, j | 0 <= i < |writes| && 0 <= j < |writes|
      ensures writes[i].1 == writes[j].1 <==> comm[nodes[i]] == comm[nodes[j]]
    {
      SameNumberSameCommunity(nodes, comm, writes, i, j);
    }
  }

  lemma NumberInRange(nodes: seq<int>, comm: map<int, int>, writes: seq<(int, int)>, i: int)
    requires forall i :: 0 <= i < |nodes| ==> nodes[i] in comm
    requires Renumbered(nodes, comm, writes)
    requires 0 <= i < |writes|
    ensures 1 <= writes[i].1 <= |FirstOccurrences(Values(nodes, comm))|
  {
    var vs := Values(nodes, comm);
    assert vs[i] in vs;
  }

  lemma SameNumberSameCommunity(nodes: seq<int>, comm: map<int, int>, writes: seq<(int, int)>, i: int, j: int)
    requires forall i :: 0 <= i < |nodes| ==> nodes[i] in comm
    requires Renumbered(nodes, comm, writes)
    requires 0 <= i < |writes| && 0 <= j < |writes|
    ensures writes[i].1 == writes[j].1 <==> comm[nodes[i]] == comm[nodes[j]]
  {
    var vs := Values(nodes, comm);
    assert vs[i] in vs && vs[j] in vs;
  }

  lemma NumberWritten(nodes: seq<int>, comm: map<int, int>, writes: seq<(int, int)>, n: int)
    requires forall i :: 0 <= i < |nodes| ==> nodes[i] in comm
    requires Renumbered(nodes, comm, writes)
    requires 1 <= n <= |FirstOccurrences(Values(nodes, comm))|
    ensures n in Numbers(writes)
  {
    var vs := Values(nodes, comm);
    var unique := FirstOccurrences(vs);
    var c := unique[n - 1];
    assert c in vs;
    var i :| 0 <= i < |vs| && vs[i] == c;
    RankAt(unique, n - 1);
    assert writes[i].1 == n;
  }

  /** The community numbers written. */
  function Numbers(writes: seq<(int, int)>): set<int> {
    set i | 0 <= i < |writes| :: writes[i].1
  }

  /** The numbers 1..k. */
  function Range(k: nat): (r: set<int>)
    ensures forall n :: n in r <==> 1 <= n <= k
  {
    if k == 0 then {} else Range(k - 1) + {k}
  }

  /** `calculateCommunities` once the graph is built: an empty result for no
      articles; every node in its own community and nothing written when there
      are no edges; otherwise at most `MaxIterations` passes and one write per
      node of its renumbered community. */
  method CalculateCommunities(articles: seq<int>, edges: seq<EdgeRow>)
    returns (comm: map<int, int>, passes: nat, writes: seq<(int, int)>, ghost deg: map<int, nat>, ghost last: seq<map<int, int>>)
    ensures articles == [] ==> comm == map[] && writes == []
    ensures articles != [] ==> Assignment(FirstOccurrences(articles), comm)
    ensures articles != [] && edges == [] ==> writes == [] && forall x :: x in comm ==> comm[x] == x
    ensures passes <= MaxIterations
    ensures passes > 0 ==> FinalPass(FirstOccurrences(articles), OutMap(articles, edges), |edges|, comm, passes, deg, last)
    ensures articles != [] && edges != [] ==> Renumbered(FirstOccurrences(articles), comm, writes)
  {
    var g := BuildGraphData(articles, edges);
    deg, last := map[], [];
    if |g.nodes| == 0 {
      return map[], 0, [], deg, last;
    }
    comm := Singletons(g.nodes);
    passes := 0;
    if |g.edges| == 0 {
      return comm, passes, [], deg, last;
    }
    OutMapClosed(articles, edges);
    comm, passes, writes, deg, last := Detect(g.nodes, g.adjacency, |g.edges|, comm);
  }

  /** Both phases on a graph with links: the passes, then the write-back of
      the renumbered communities. */
  method Detect(nodes: seq<int>, adj: map<int, seq<int>>, m: nat, comm0: map<int, int>)
    returns (comm: map<int, int>, passes: nat, writes: seq<(int, int)>, ghost deg: map<int, nat>, ghost last: seq<map<int, int>>)
    requires m > 0 && Closed(adj, IdSet(nodes)) && Assignment(nodes, comm0)
    ensures Assignment(nodes, comm) && 1 <= passes <= MaxIterations
    ensures FinalPass(nodes, adj, m, comm, passes, deg, last)
    ensures Renumbered(nodes, comm, writes)
  {
    comm, passes, deg, last := MoveNodes(nodes, adj, m, comm0);
    writes := WriteBack(nodes, comm);
  }

  /** What phase 1 leaves behind: the degrees are the out-list lengths;
      `last` is the final pass, each step a move as `Moved` states, ending in
      the returned assignment; when fewer than `MaxIterations` passes ran,
      that pass moved no node. */
  ghost predicate FinalPass(nodes: seq<int>, adj: map<int, seq<int>>, m: nat, comm: map<int, int>, passes: nat,
                            deg: map<int, nat>, last: seq<map<int, int>>)
  {
    && deg.Keys == IdSet(nodes) && (forall x :: x in deg ==> deg[x] == |Get(adj, x)|)
    && |last| == |nodes| + 1 && last[|nodes|] == comm && Traced(nodes, adj, deg, m, last)
    && (passes < MaxIterations ==> forall k :: 0 <= k < |nodes| ==> last[k + 1] == last[k])
  }

  /** Phase 1: the degrees, then the passes. */
  method MoveNodes(nodes: seq<int>, adj: map<int, seq<int>>, m: nat, comm: map<int, int>)
    returns (comm': map<int, int>, passes: nat, ghost deg: map<int, nat>, ghost last: seq<map<int, int>>)
    requires m > 0 && Closed(adj, IdSet(nodes)) && Assignment(nodes, comm)
    ensures Assignment(nodes, comm') && 1 <= passes <= MaxIterations
    ensures FinalPass(nodes, adj, m, comm', passes, deg, last)
  {
    var d := Degrees(nodes, adj);
    comm', passes, last := Passes(nodes, adj, d, m, comm);
    deg := d;
  }

  /** The outer loop: passes until one moves no node, at most `MaxIterations`.
      `last` is the trace of the final pass; when the loop stops before the
      cap, that pass offered every node its moves and moved none. */
  method Passes(nodes: seq<int>, adj: map<int, seq<int>>, deg: map<int, nat>, m: nat, comm: map<int, int>)
    returns (comm': map<int, int>, passes: nat, ghost last: seq<map<int, int>>)
    requires m > 0 && Closed(adj, IdSet(nodes)) && Assignment(nodes, comm)
    ensures Assignment(nodes, comm') && 1 <= passes <= MaxIterations
    ensures |last| == |nodes| + 1 && last[|nodes|] == comm' && Traced(nodes, adj, deg, m, last)
    ensures passes < MaxIterations ==> forall k :: 0 <= k < |nodes| ==> last[k + 1] == last[k]
  {
    comm' := comm;
    passes := 0;
    last := [];
    var improved := true;
    while improved && passes < MaxIterations
      invariant Assignment(nodes, comm') && passes <= MaxIterations
      invariant passes == 0 ==> improved
      invariant passes > 0 ==> |last| == |nodes| + 1 && last[|nodes|] == comm' && Traced(nodes, adj, deg, m, last)
      invariant passes > 0 && !improved ==> forall k :: 0 <= k < |nodes| ==> last[k + 1] == last[k]
    {
      improved := false;
      passes := passes + 1;
      comm', improved, last := Pass(nodes, adj, deg, m, comm');
    }
  }

  /** `communities.set(id, id)` for every node. */
  method Singletons(nodes: seq<int>) returns (comm: map<int, int>)
    ensures comm.Keys == IdSet(nodes) && forall x :: x in comm ==> comm[x] == x
  {
    comm := map[];
    for i := 0 to |nodes|
      invariant comm.Keys == IdSet(nodes[..i]) && forall x :: x in comm ==> comm[x] == x
    {
      assert nodes[..i + 1] == nodes[..i] + [nodes[i]];
      comm := comm[nodes[i] := nodes[i]];
    }
    assert nodes[..|nodes|] == nodes;
  }

  /** The renumbering and the update loop: `communityMap.get(communityId) || 0` for every node. */
  method WriteBack(nodes: seq<int>, comm: map<int, int>) returns (writes: seq<(int, int)>)
    requires forall i :: 0 <= i < |nodes| ==> nodes[i] in comm
    ensures Renumbered(nodes, comm, writes)
  {
    var unique := Distinct(nodes, comm);
    var cmap := Renumbering(unique);
    forall i | 0 <= i < |nodes| ensures comm[nodes[i]] in cmap {
      InValues(nodes, comm, i);
    }
    writes := Normalize(nodes, comm, cmap);
  }

  /** The update loop: each node gets `communityMap.get(communityId) || 0`. */
  method Normalize(nodes: seq<int>, comm: map<int, int>, cmap: map<int, int>) returns (writes: seq<(int, int)>)
    requires forall i :: 0 <= i < |nodes| ==> nodes[i] in comm && comm[nodes[i]] in cmap
    ensures |writes| == |nodes|
    ensures forall j :: 0 <= j < |nodes| ==> writes[j].0 == nodes[j] && writes[j].1 == cmap[comm[nodes[j]]]
  {
    writes := [];
    for i := 0 to |nodes|
      invariant |writes| == i
      invariant forall j :: 0 <= j < i ==> writes[j].0 == nodes[j] && writes[j].1 == cmap[comm[nodes[j]]]
    {
      var c := comm[nodes[i]];
      var normalized := if cmap[c] != 0 then cmap[c] else 0;
      writes := writes + [(nodes[i], normalized)];
    }
  }

  lemma InValues(nodes: seq<int>, comm: map<int, int>, i: nat)
    requires forall j :: 0 <= j < |nodes| ==> nodes[j] in comm
    requires i < |nodes|
    ensures comm[nodes[i]] in FirstOccurrences(Values(nodes, comm))
  {
    assert Values(nodes, comm)[i] == comm[nodes[i]];
  }

  /** `new Set(communities.values())`: the distinct communities in node order. */
  method Distinct(nodes: seq<int>, comm: map<int, int>) returns (unique: seq<int>)
    requires forall i :: 0 <= i < |nodes| ==> nodes[i] in comm
    ensures unique == FirstOccurrences(Values(nodes, comm))
  {
    unique := [];
    ghost var vs := Values(nodes, comm);
    for i := 0 to |nodes|
      invariant unique == FirstOccurrences(vs[..i])
    {
      assert vs[..i + 1] == vs[..i] + [vs[i]];
      FirstOccurrencesSnoc(vs[..i], vs[i]);
      if comm[nodes[i]] !in unique {
        unique := unique + [comm[nodes[i]]];
      }
    }
    assert vs[..|nodes|] == vs;
  }
}
