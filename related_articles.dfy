/** The "top 3 recommended articles" box under an article: recommendations
    de-duplicated by article id, the first three shown, each with the label
    of its relationship and its PageRank and strength badges. */
module RelatedArticlesBox {
  import opened Wrappers
  import opened Collections
  import opened Ordering

  datatype Recommendation = Recommendation(
    id: int, slug: string, title: string, relationshipType: Option<string>,
    pageRank: Option<real>, weight: Option<real>)

  function IdsOf(rs: seq<Recommendation>): (r: seq<int>)
    ensures |r| == |rs| && forall i :: 0 <= i < |rs| ==> r[i] == rs[i].id
  {
    if rs == [] then [] else IdsOf(rs[..|rs| - 1]) + [rs[|rs| - 1].id]
  }

  /** `acc.find(item => item.id === id)`. */
  function FindById(rs: seq<Recommendation>, id: int): (r: Option<Recommendation>)
    ensures r.Some? ==> r.value in rs && r.value.id == id
    ensures r.None? <==> id !in IdsOf(rs)
  {
    if rs == [] then None
    else if rs[0].id == id then Some(rs[0])
    else
      var r := FindById(rs[1..], id);
      assert IdsOf(rs) == [rs[0].id] + IdsOf(rs[1..]);
      r
  }

  /** Looking up an id in a longer list finds the same first match, or the new last item. */
  lemma {:induction false} FindByIdSnoc(rs: seq<Recommendation>, x: Recommendation, id: int)
    ensures FindById(rs + [x], id) == if FindById(rs, id).Some? then FindById(rs, id) else if x.id == id then Some(x) else None
  {
    if rs != [] {
      assert (rs + [x])[1..] == rs[1..] + [x];
      FindByIdSnoc(rs[1..], x, id);
    } else {
      assert (rs + [x])[1..] == [];
    }
  }

  /** The `reduce` that keeps an item only when no earlier one has its id. */
  function UniqueById(rs: seq<Recommendation>): (r: seq<Recommendation>)
    ensures IdsOf(r) == FirstOccurrences(IdsOf(rs))
  {
    if rs == [] then []
    else
      var init := rs[..|rs| - 1];
      var x := rs[|rs| - 1];
      assert rs == init + [x];
      assert IdsOf(rs) == IdsOf(init) + [x.id];
      var acc := UniqueById(init);
      FirstOccurrencesSnoc(IdsOf(init), x.id);
      assert forall id :: id in IdsOf(acc) <==> id in IdsOf(init);
      if FindById(acc, x.id).Some? then acc
      else
        assert IdsOf(acc + [x]) == IdsOf(acc) + [x.id];
        acc + [x]
  }

  /** Each kept item is the first item with its id. */
  lemma {:induction false} UniqueKeepsFirst(rs: seq<Recommendation>, y: Recommendation)
    requires y in UniqueById(rs)
    ensures FindById(rs, y.id) == Some(y)
  {
    var init := rs[..|rs| - 1];
    var x := rs[|rs| - 1];
    assert rs == init + [x];
    var acc := UniqueById(init);
    FindByIdSnoc(init, x, y.id);
    if y in acc {
      UniqueKeepsFirst(init, y);
    } else {
      assert y == x && FindById(acc, x.id).None?;
      assert IdsOf(acc) == FirstOccurrences(IdsOf(init));
      assert x.id !in IdsOf(init);
    }
  }

  /** The de-duplication loop, pushing onto the accumulator. */
  method Deduplicate(rs: seq<Recommendation>) returns (acc: seq<Recommendation>)
    ensures acc == UniqueById(rs)
  {
    acc := [];
    var i := 0;
    while i < |rs|
      invariant 0 <= i <= |rs|
      invariant acc == UniqueById(rs[..i])
    {
      var current := rs[i];
      assert rs[..i + 1][..i] == rs[..i];
      if FindById(acc, current.id).None? {
        acc := acc + [current];
      }
      i := i + 1;
    }
    assert rs[..i] == rs;
  }

  /** De-duplication keeps each id once, in the order of first appearance. */
  lemma DeduplicateKeepsFirsts(rs: seq<Recommendation>)
    ensures forall i, j :: 0 <= i < j < |UniqueById(rs)| ==> UniqueById(rs)[i].id != UniqueById(rs)[j].id
    ensures forall id :: id in IdsOf(UniqueById(rs)) <==> id in IdsOf(rs)
  {
    var u := UniqueById(rs);
    var ids := IdsOf(u);
    assert ids == FirstOccurrences(IdsOf(rs));
    forall i, j | 0 <= i < j < |u| ensures u[i].id != u[j].id {
      assert ids[i] == u[i].id && ids[j] == u[j].id;
      assert ids[i] != ids[j];
    }
  }

  const RelationshipLabels: map<string, string> := map[
    "RELATED_TO" := "Powiązany temat",
    "PREREQUISITE" := "Wymagana wiedza",
    "BUILDS_ON" := "Rozszerza",
    "SIMILAR_TO" := "Podobny artykuł",
    "CONTRASTS" := "Porównanie",
    "NEXT_IN_SEQUENCE" := "Następny krok",
    "PARENT_CHILD" := "Powiązany hierarchicznie",
    "EXEMPLIFIES" := "Przykład",
    "SUMMARIZES" := "Podsumowanie"]

  /** The label of a relationship type: its Polish name, or the type itself when unknown. */
  function RelationshipLabel(t: string): (l: string)
    ensures t in RelationshipLabels ==> l == RelationshipLabels[t]
    ensures t !in RelationshipLabels ==> l == t
  {
    if t in RelationshipLabels && RelationshipLabels[t] != "" then RelationshipLabels[t] else t
  }

  /** What a card shows besides the title: the relationship label (only for a
      non-empty type) and whether each badge appears. */
  datatype Card = Card(item: Recommendation, caption: Option<string>, rankBadge: bool, strengthBadge: bool)

  function CardOf(r: Recommendation): (c: Card)
    ensures c.item == r
    ensures c.caption.Some? <==> r.relationshipType.Some? && r.relationshipType.value != ""
    ensures c.rankBadge <==> r.pageRank.Some? && r.pageRank.value > 0.5
    ensures c.strengthBadge <==> r.weight.Some? && r.weight.value > 0.8
  {
    Card(r,
         if r.relationshipType.Some? && r.relationshipType.value != "" then Some(RelationshipLabel(r.relationshipType.value)) else None,
         r.pageRank.Some? && r.pageRank.value > 0.5,
         r.weight.Some? && r.weight.value > 0.8)
  }

  lemma UniqueNonEmpty(rs: seq<Recommendation>)
    requires rs != []
    ensures UniqueById(rs) != []
  {
    var u := UniqueById(rs);
    assert IdsOf(u) == FirstOccurrences(IdsOf(rs));
    assert |IdsOf(rs)| > 0;
  }

  /** The recommendations the box shows: none for a missing or empty list,
      otherwise the first three distinct ones, each drawn as `CardOf` it. */
  function Shown(recommendations: Option<seq<Recommendation>>): (r: Option<seq<Recommendation>>)
    ensures r.None? <==> recommendations.None? || recommendations.value == []
    ensures r.Some? ==> 1 <= |r.value| <= 3
    ensures r.Some? ==> |r.value| <= |UniqueById(recommendations.value)|
    ensures r.Some? ==> |r.value| == |UniqueById(recommendations.value)| || |r.value| == 3
    ensures r.Some? ==> forall i :: 0 <= i < |r.value| ==> r.value[i] == UniqueById(recommendations.value)[i]
  {
    if recommendations.None? || recommendations.value == [] then None
    else
      UniqueNonEmpty(recommendations.value);
      Some(Take(UniqueById(recommendations.value), 3))
  }

  /** A recommendation list with repeats still fills the box when it names at least three articles. */
  lemma ThreeDistinctFillTheBox(rs: seq<Recommendation>, a: int, b: int, c: int)
    requires a in IdsOf(rs) && b in IdsOf(rs) && c in IdsOf(rs) && a != b && b != c && a != c
    ensures Shown(Some(rs)).Some? && |Shown(Some(rs)).value| == 3
  {
    var X := {a, b, c};
    assert |X| == 3;
    UniqueCovers(rs, X);
  }

  /** The distinct items are at least as many as any set of ids the list names. */
  lemma UniqueCovers(rs: seq<Recommendation>, X: set<int>)
    requires forall x :: x in X ==> x in IdsOf(rs)
    ensures |X| <= |UniqueById(rs)|
  {
    var ids := IdsOf(UniqueById(rs));
    assert ids == FirstOccurrences(IdsOf(rs));
    DistinctCount(ids, X);
  }

  /** A list holding every element of a set has at least as many elements. */
  lemma {:induction false} DistinctCount(s: seq<int>, X: set<int>)
    requires forall x :: x in X ==> x in s
    ensures |X| <= |s|
  {
    if s != [] {
      var rest := s[1..];
      assert forall x :: x in X - {s[0]} ==> x in rest;
      DistinctCount(rest, X - {s[0]});
    } else {
      forall x | x in X ensures false {
      }
      assert X == {};
    }
  }

  /** The intro line credits the knowledge graph when the first card has a relationship type. */
  predicate FromGraph(cards: seq<Card>) {
    cards != [] && cards[0].item.relationshipType.Some? && cards[0].item.relationshipType.value != ""
  }
}
