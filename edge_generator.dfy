/** The knowledge-edge generator script: a fixed article catalogue, seven passes
    that append edges while consulting a set of already-used directed pairs, and
    the SQL script that inserts the result.  Random choices come from a `Rng`;
    weights are whole hundredths. */
module EdgeGenerator {
  import opened Wrappers
  import opened Text
  import opened PyRandom
  import opened Collections
  import opened Ordering

  /** A catalogue row: `(id, title, slug, category)`. */
  datatype Article = Article(id: int, title: string, slug: string, category: string)

  datatype EdgeType =
    | DuplicateOf | RelatedTo | Prerequisite | BuildsOn | NextStep
    | SimilarTo | Contrasts | Exemplifies

  function TypeName(t: EdgeType): string {
    match t
    case DuplicateOf => "DUPLICATE_OF"
    case RelatedTo => "RELATED_TO"
    case Prerequisite => "PREREQUISITE"
    case BuildsOn => "BUILDS_ON"
    case NextStep => "NEXT_STEP"
    case SimilarTo => "SIMILAR_TO"
    case Contrasts => "CONTRASTS"
    case Exemplifies => "EXEMPLIFIES"
  }

  /** A label template: plain text, or a prefix followed by `{topic}` or `{category}`. */
  datatype Template = Fixed(text: string) | TopicSlot(prefix: string) | CategorySlot(prefix: string)

  /** The `EDGE_TYPES` table. */
  function Templates(t: EdgeType): (ts: seq<Template>)
    ensures |ts| >= 2
  {
    match t
    case DuplicateOf => [Fixed("Ten sam artykuł"), Fixed("Duplikat")]
    case RelatedTo => [TopicSlot("Zobacz więcej o "), CategorySlot("Podobny temat: "), TopicSlot("Porównaj z ")]
    case Prerequisite => [Fixed("Poznaj podstawy najpierw"), TopicSlot("Zacznij od "), TopicSlot("Wymaga wiedzy z ")]
    case BuildsOn => [TopicSlot("Rozszerza "), TopicSlot("Pogłębia wiedzę o "), TopicSlot("Buduje na ")]
    case NextStep => [TopicSlot("Następny krok: "), TopicSlot("Dalej: "), TopicSlot("Kontynuuj z ")]
    case SimilarTo => [Fixed("Podobne zagadnienie"), Fixed("Zbliżony temat")]
    case Contrasts => [Fixed("Alternatywne podejście"), Fixed("Inne spojrzenie")]
    case Exemplifies => [Fixed("Praktyczny przykład"), Fixed("Konkretny przypadek"), Fixed("Zobacz w praktyce")]
  }

  /** An edge; `weight` is in hundredths (`0.85` is `85`). */
  datatype Edge = Edge(source: int, target: int, kind: EdgeType, weight: nat, anchor: string)

  function Pair(e: Edge): (int, int) {
    (e.source, e.target)
  }

  // ---------------------------------------------------------------- keywords

  /** The ten keyword tags, in the order `extract_keywords` tests them. */
  const Vocabulary: seq<string> :=
    ["koszty", "wdrożenie", "API", "integracja", "błędy", "mikrofirmy", "e-commerce", "prawo", "szkolenia", "ROI"]

  /** The substrings of the lower-cased title that trigger tag `i`. */
  function Probes(i: nat): seq<string>
    requires i < 10
  {
    [["koszt"], ["wdrożeni", "wdrażani"], ["api"], ["integracja", "integracj"], ["błąd", "błęd"],
     ["mikrofirm"], ["e-commerce", "sklep"], ["prawo", "kar"], ["szkoleni"], ["roi"]][i]
  }

  predicate Hit(low: string, i: nat)
    requires i < 10
  {
    exists p | p in Probes(i) :: Contains(low, p)
  }

  /** Indices of the tags, from `i` on, whose probes occur in `low`. */
  function TagIndices(low: string, i: nat): (r: seq<nat>)
    requires i <= 10
    ensures forall a :: 0 <= a < |r| ==> i <= r[a] < 10 && Hit(low, r[a])
    ensures forall a, b :: 0 <= a < b < |r| ==> r[a] < r[b]
    ensures forall j :: i <= j < 10 && Hit(low, j) ==> j in r
    decreases 10 - i
  {
    if i == 10 then []
    else if Hit(low, i) then [i] + TagIndices(low, i + 1)
    else TagIndices(low, i + 1)
  }

  /** `extract_keywords(title)`. */
  function Keywords(title: string): (r: seq<string>)
    ensures forall a :: 0 <= a < |r| ==> r[a] in Vocabulary
  {
    var idx := TagIndices(Lower(title), 0);
    seq(|idx|, a requires 0 <= a < |idx| => Vocabulary[idx[a]])
  }

  /** The tags are vocabulary entries, each at most once, in vocabulary order, and
      a tag is present exactly when one of its probes occurs in the lower-cased title. */
  lemma KeywordsSpec(title: string)
    ensures forall k :: k in Keywords(title) ==> k in Vocabulary
    ensures forall a, b :: 0 <= a < b < |Keywords(title)| ==>
      VocabIndex(Keywords(title)[a]) < VocabIndex(Keywords(title)[b])
    ensures forall i :: 0 <= i < 10 ==> (Vocabulary[i] in Keywords(title) <==> Hit(Lower(title), i))
  {
    var idx := TagIndices(Lower(title), 0);
    var ks := Keywords(title);
    forall a | 0 <= a < |ks| ensures VocabIndex(ks[a]) == idx[a] {
      VocabIndexOf(idx[a]);
    }
    forall i | 0 <= i < 10 ensures Vocabulary[i] in ks <==> Hit(Lower(title), i) {
      KeywordPresent(title, i);
    }
  }

  /** The `i`-th vocabulary entry is a tag exactly when one of its probes hits. */
  lemma KeywordPresent(title: string, i: nat)
    requires i < 10
    ensures Vocabulary[i] in Keywords(title) <==> Hit(Lower(title), i)
  {
    var idx := TagIndices(Lower(title), 0);
    var ks := Keywords(title);
    VocabIndexOf(i);
    if Hit(Lower(title), i) {
      var a :| 0 <= a < |idx| && idx[a] == i;
      assert ks[a] == Vocabulary[i];
    }
    if Vocabulary[i] in ks {
      var a :| 0 <= a < |ks| && ks[a] == Vocabulary[i];
      VocabIndexOf(idx[a]);
    }
  }

  /** Position of a tag in the vocabulary (10 when absent). */
  function VocabIndex(k: string): (i: nat)
    ensures i <= 10 && (i < 10 ==> Vocabulary[i] == k) && (k in Vocabulary ==> i < 10)
  {
    if k == "koszty" then 0 else if k == "wdrożenie" then 1 else if k == "API" then 2
    else if k == "integracja" then 3 else if k == "błędy" then 4 else if k == "mikrofirmy" then 5
    else if k == "e-commerce" then 6 else if k == "prawo" then 7 else if k == "szkolenia" then 8
    else if k == "ROI" then 9 else 10
  }

  lemma VocabIndexOf(i: nat)
    requires i < 10
    ensures VocabIndex(Vocabulary[i]) == i
  {
  }

  // ------------------------------------------------------------------ labels

  /** Characters allowed in the regular-expression group `[^-:]`. */
  predicate TopicChar(c: char) {
    c != '-' && c != ':'
  }

  /** `re.search(r'KSeF ([^-:]+)', title)` starting at `i`: the leftmost
      "KSeF " followed by a topic character, and its group 1. */
  function TopicFrom(t: string, i: nat): (g: Option<string>)
    requires i <= |t|
    ensures g.Some? ==> g.value != [] && forall k :: 0 <= k < |g.value| ==> TopicChar(g.value[k])
    ensures g.Some? ==> Contains(t, "KSeF " + g.value)
    ensures g.None? ==> forall k :: i <= k && k + 5 < |t| && OccursAt(t, "KSeF ", k) ==> !TopicChar(t[k + 5])
    decreases |t| - i
  {
    if i + 5 >= |t| then None
    else if t[i..i + 5] == "KSeF " && TopicChar(t[i + 5]) then
      var n := PrefixLength(t[i + 5..], TopicChar);
      TopicAt(t, i, t[i + 5..], n);
      Some(t[i + 5..i + 5 + n])
    else TopicFrom(t, i + 1)
  }

  /** The topic characters after a "KSeF " at `i` form a non-empty group
      that the title contains right after that prefix. */
  lemma TopicAt(t: string, i: nat, rest: string, n: nat)
    requires i + 5 < |t| && t[i..i + 5] == "KSeF " && TopicChar(t[i + 5]) && rest == t[i + 5..]
    requires n <= |rest| && (forall k :: 0 <= k < n ==> TopicChar(rest[k])) && (n < |rest| ==> !TopicChar(rest[n]))
    ensures var grp := t[i + 5..i + 5 + n];
      grp != [] && (forall k :: 0 <= k < |grp| ==> TopicChar(grp[k])) && Contains(t, "KSeF " + grp)
  {
    var grp := t[i + 5..i + 5 + n];
    assert forall k :: 0 <= k < |grp| ==> grp[k] == rest[k];
    assert t[i..i + 5 + n] == "KSeF " + grp;
    assert OccursAt(t, "KSeF " + grp, i);
  }

  /** The topic a label talks about: the stripped regex group, or the category.
      A topic other than the category comes from a title that mentions "KSeF "
      and holds no "-" or ":". */
  function Topic(target: Article): (r: string)
    ensures TopicFrom(target.title, 0).None? ==> r == target.category
    ensures r != target.category ==> Contains(target.title, "KSeF ") && forall k :: 0 <= k < |r| ==> TopicChar(r[k])
  {
    match TopicFrom(target.title, 0)
    case Some(g) =>
      ContainsHead(target.title, "KSeF ", g);
      var r := Trim(g);
      assert forall k :: 0 <= k < |r| ==> r[k] == g[|g| - |TrimStart(g)| + k];
      r
    case None => target.category
  }

  /** `template.format(...)`: a topic slot gets the topic, a category slot the category. */
  function Fill(tm: Template, topic: string, category: string): string {
    match tm
    case Fixed(text) => text
    case TopicSlot(prefix) => prefix + topic
    case CategorySlot(prefix) => prefix + category
  }

  /** `generate_label(edge_type, source, target)`: a random template of the
      edge type, filled from the target article. */
  function GenerateLabel(kind: EdgeType, target: Article, r: Rng): (res: (string, Rng))
    ensures exists i :: 0 <= i < |Templates(kind)| && res.0 == Fill(Templates(kind)[i], Topic(target), target.category)
    ensures res.1.pos == r.pos + 1 && res.1.draw == r.draw
  {
    var (i, r1) := Below(r, |Templates(kind)|);
    (Fill(Templates(kind)[i], Topic(target), target.category), r1)
  }

  /** A title with no "KSeF " followed by a topic character has no topic group. */
  lemma {:induction false} TopicFromNone(t: string, i: nat)
    requires i <= |t|
    requires forall k :: i <= k && k + 5 < |t| && OccursAt(t, "KSeF ", k) ==> !TopicChar(t[k + 5])
    ensures TopicFrom(t, i) == None
    decreases |t| - i
  {
    if i + 5 < |t| {
      if t[i..i + 5] == "KSeF " {
        assert OccursAt(t, "KSeF ", i);
      }
      TopicFromNone(t, i + 1);
    }
  }

  /** Such a title makes every topic template fall back to the category. */
  lemma TopicFallback(target: Article)
    requires forall k :: 0 <= k && k + 5 < |target.title| && OccursAt(target.title, "KSeF ", k) ==> !TopicChar(target.title[k + 5])
    ensures Topic(target) == target.category
  {
    TopicFromNone(target.title, 0);
  }

  // ------------------------------------------------------- catalogue and state

  /** `ARTICLES`. */
  const Catalogue: seq<Article> :=
    CatalogueRows0 + CatalogueRows1 + CatalogueRows2 + CatalogueRows3 + CatalogueRows4

  const CatalogueRows0: seq<Article> :=
    [
      Article(1, "KSeF 2026: Kompletny Przewodnik dla Firm", "ksef-2026-kompletny-przewodnik", "Podstawy"),
      Article(2, "KSeF 2026: Kompletny Przewodnik dla Firm", "ksef-2026-kompletny-przewodnik", "Podstawy"),
      Article(3, "Jak obliczyć koszt wdrożenia KSeF w 2026?", "jak-obliczyc-koszt-wdrozenia-ksef", "Koszty"),
      Article(4, "Jak obliczyć koszt wdrożenia KSeF w 2026?", "jak-obliczyc-koszt-wdrozenia-ksef", "Koszty"),
      Article(5, "10 najczęstszych błędów przy wdrożeniu KSeF", "10-najczestszych-bledow-wdrozenie-ksef", "Wdrożenie"),
      Article(7, "KSeF API: Kompletna dokumentacja integracji", "ksef-api-dokumentacja-integracja", "Techniczne"),
      Article(8, "KSeF API: Kompletna dokumentacja integracji", "ksef-api-dokumentacja-integracja", "Techniczne"),
      Article(9, "Kary za brak wdrożenia KSeF - ile zapłacisz?", "kary-za-brak-wdrozenia-ksef", "Prawo"),
      Article(10, "Kary za brak wdrożenia KSeF - ile zapłacisz?", "kary-za-brak-wdrozenia-ksef", "Prawo"),
      Article(11, "KSeF dla mikrofirm - uproszczony przewodnik", "ksef-dla-mikrofirm-przewodnik", "Podstawy")
    ]

  const CatalogueRows1: seq<Article> :=
    [
      Article(12, "KSeF dla mikrofirm - uproszczony przewodnik", "ksef-dla-mikrofirm-przewodnik", "Podstawy"),
      Article(13, "Porównanie dostawców oprogramowania KSeF 2026", "porownanie-dostawcow-oprogramowania-ksef", "Wdrożenie"),
      Article(14, "Porównanie dostawców oprogramowania KSeF 2026", "porownanie-dostawcow-oprogramowania-ksef", "Wdrożenie"),
      Article(15, "KSeF FAQ - 50 najczęściej zadawanych pytań", "ksef-faq-najczesciej-zadawane-pytania", "Podstawy"),
      Article(16, "KSeF FAQ - 50 najczęściej zadawanych pytań", "ksef-faq-najczesciej-zadawane-pytania", "Podstawy"),
      Article(17, "Studium przypadku: Wdrożenie KSeF w firmie 500+ pracowników", "studium-przypadku-wdrozenie-ksef-duza-firma", "Studia"),
      Article(18, "Studium przypadku: Wdrożenie KSeF w firmie 500+ pracowników", "studium-przypadku-wdrozenie-ksef-duza-firma", "Studia"),
      Article(19, "Bezpieczeństwo danych w KSeF - co musisz wiedzieć", "ksef-bezpieczenstwo-danych-ochrona", "Techniczne"),
      Article(20, "Bezpieczeństwo danych w KSeF - co musisz wiedzieć", "ksef-bezpieczenstwo-danych-ochrona", "Techniczne"),
      Article(21, "Harmonogram wdrożenia KSeF 2026 - krok po kroku", "ksef-harmonogram-wdrozenia-2026", "Wdrożenie")
    ]

  const CatalogueRows2: seq<Article> :=
    [
      Article(22, "Harmonogram wdrożenia KSeF 2026 - krok po kroku", "ksef-harmonogram-wdrozenia-2026", "Wdrożenie"),
      Article(23, "Integracja KSeF z systemami ERP - przewodnik", "ksef-integracja-z-systemami-erp", "Techniczne"),
      Article(24, "Integracja KSeF z systemami ERP - przewodnik", "ksef-integracja-z-systemami-erp", "Techniczne"),
      Article(25, "Zmiany w prawie podatkowym związane z KSeF", "ksef-zmiany-w-prawie-2026", "Prawo"),
      Article(26, "Zmiany w prawie podatkowym związane z KSeF", "ksef-zmiany-w-prawie-2026", "Prawo"),
      Article(27, "Jak przeszkolić pracowników do obsługi KSeF?", "ksef-szkolenia-dla-pracownikow", "Wdrożenie"),
      Article(28, "Jak przeszkolić pracowników do obsługi KSeF?", "ksef-szkolenia-dla-pracownikow", "Wdrożenie"),
      Article(29, "ROI wdrożenia KSeF - kiedy się zwróci?", "ksef-roi-zwrot-z-inwestycji", "Koszty"),
      Article(30, "ROI wdrożenia KSeF - kiedy się zwróci?", "ksef-roi-zwrot-z-inwestycji", "Koszty"),
      Article(31, "KSeF dla sklepów internetowych - specyfika branży", "ksef-dla-e-commerce", "Wdrożenie")
    ]

  const CatalogueRows3: seq<Article> :=
    [
      Article(32, "KSeF dla sklepów internetowych - specyfika branży", "ksef-dla-e-commerce", "Wdrożenie"),
      Article(33, "KSeF Aktualności - Październik 2025", "ksef-aktualnosci-pazdziernik-2025", "Aktualności"),
      Article(34, "KSeF Aktualności - Październik 2025", "ksef-aktualnosci-pazdziernik-2025", "Aktualności"),
      Article(35, "Infografika: Proces wdrożenia KSeF w 10 krokach", "ksef-infografika-proces-wdrozenia", "Wdrożenie"),
      Article(36, "Infografika: Proces wdrożenia KSeF w 10 krokach", "ksef-infografika-proces-wdrozenia", "Wdrożenie"),
      Article(37, "Video Tutorial: Podstawy KSeF w 15 minut", "ksef-video-tutorial-podstawy", "Podstawy"),
      Article(38, "Video Tutorial: Podstawy KSeF w 15 minut", "ksef-video-tutorial-podstawy", "Podstawy"),
      Article(39, "Checklist: Co sprawdzić przed wdrożeniem KSeF?", "ksef-checklist-przed-wdrozeniem", "Wdrożenie"),
      Article(41, "Checklist: Co sprawdzić przed wdrożeniem KSeF?", "ksef-checklist-przed-wdrozeniem", "Wdrożenie"),
      Article(47, "KSeF - Co to jest i jak działa?", "ksef-co-to-jest", "Podstawy")
    ]

  const CatalogueRows4: seq<Article> :=
    [
      Article(48, "KSeF - Co to jest i jak działa?", "ksef-co-to-jest", "Podstawy"),
      Article(49, "Koszty wdrożenia KSeF", "koszty-wdrozenia-ksef", "Koszty"),
      Article(50, "Koszty wdrożenia KSeF", "koszty-wdrozenia-ksef", "Koszty"),
      Article(51, "Obowiązkowe wdrożenie KSeF - terminy", "obowiazkowe-wdrozenie-ksef", "Prawo"),
      Article(52, "Obowiązkowe wdrożenie KSeF - terminy", "obowiazkowe-wdrozenie-ksef", "Prawo"),
      Article(53, "Integracja KSeF z systemami księgowymi", "integracja-ksef-systemy", "Techniczne"),
      Article(54, "Integracja KSeF z systemami księgowymi", "integracja-ksef-systemy", "Techniczne"),
      Article(55, "Top 5 błędów przy wdrażaniu KSeF", "bledy-wdrazanie-ksef", "Wdrożenie"),
      Article(56, "Top 5 błędów przy wdrażaniu KSeF", "bledy-wdrazanie-ksef", "Wdrożenie"),
      Article(57, "10 najczęstszych błędów przy wdrożeniu KSeF", "10-najczestszych-bledow-wdrozenie-ksef", "Wdrożenie")
    ]

  /** `EXISTING_EDGES` as seeded before the first pass. */
  const Seed: set<(int, int)> :=
    {(1, 3), (1, 5), (1, 57), (1, 7), (1, 9), (1, 11), (3, 7), (3, 5), (3, 57), (3, 9), (5, 1), (57, 1), (7, 5), (7, 57)}

  /** `hub_articles`. */
  const Hubs: seq<int> := [1, 5, 7, 11, 47]

  /** No two catalogue rows share an id. */
  predicate UniqueIds(arts: seq<Article>) {
    forall i, j :: 0 <= i < j < |arts| ==> arts[i].id != arts[j].id
  }

  /** With unique ids, an id determines the row. */
  lemma SameIdSameArticle(arts: seq<Article>, a: Article, b: Article)
    requires UniqueIds(arts) && a in arts && b in arts && a.id == b.id
    ensures a == b
  {
    var i :| 0 <= i < |arts| && arts[i] == a;
    var j :| 0 <= j < |arts| && arts[j] == b;
    assert !(i < j) && !(j < i);
  }

  lemma {:induction false} FilterKeepsUniqueIds(arts: seq<Article>, p: Article -> bool)
    requires UniqueIds(arts)
    ensures UniqueIds(Filter(arts, p))
  {
    if arts != [] {
      FilterKeepsUniqueIds(arts[1..], p);
      var rest := Filter(arts[1..], p);
      forall j | 0 <= j < |rest| ensures rest[j].id != arts[0].id {
        assert rest[j] in arts[1..];
        var k :| 0 <= k < |arts[1..]| && arts[1..][k] == rest[j];
        assert arts[k + 1] == rest[j];
      }
    }
  }

  /** The script's globals: the `edges` list and the `EXISTING_EDGES` set. */
  datatype GenState = GenState(edges: seq<Edge>, seen: set<(int, int)>)

  /** The directed invariant the passes keep: the seed pairs stay in `seen`,
      every emitted pair is in `seen` and is not a seed pair, no two emitted
      edges share a directed pair, and no edge is a self-loop. */
  ghost predicate Sound(st: GenState) {
    Seed <= st.seen
    && (forall e | e in st.edges :: Pair(e) in st.seen && Pair(e) !in Seed && e.source != e.target)
    && (forall i, j | 0 <= i < j < |st.edges| :: Pair(st.edges[i]) != Pair(st.edges[j]))
  }

  /** `edges.append(e)` followed by `EXISTING_EDGES.add((source, target))`. */
  function Emit(st: GenState, e: Edge): GenState {
    GenState(st.edges + [e], st.seen + {Pair(e)})
  }

  /** Emitting an unseen pair that is not a self-loop keeps the invariant. */
  lemma EmitSound(st: GenState, e: Edge)
    requires Sound(st) && Pair(e) !in st.seen && e.source != e.target
    ensures Sound(Emit(st, e))
  {
    var es := st.edges + [e];
    forall i, j | 0 <= i < j < |es| ensures Pair(es[i]) != Pair(es[j]) {
      if j == |es| - 1 {
        assert es[i] in st.edges;
      }
    }
  }

  /** The later state extends the earlier one. */
  ghost predicate Extends(st: GenState, st': GenState) {
    st.edges <= st'.edges && st.seen <= st'.seen
  }

  /** The edges a pass appended. */
  function Added(st: GenState, st': GenState): seq<Edge>
    requires |st.edges| <= |st'.edges|
  {
    st'.edges[|st.edges|..]
  }

  lemma AddedEmit(st: GenState, st': GenState, e: Edge)
    requires Extends(st, st')
    ensures Added(st, Emit(st', e)) == Added(st, st') + [e]
  {
  }

  /** Number of edges leaving `id`. */
  function OutCount(es: seq<Edge>, id: int): nat {
    Count(es, (e: Edge) => e.source == id)
  }

  lemma OutCountEmit(es: seq<Edge>, e: Edge, id: int)
    ensures OutCount(es + [e], id) == OutCount(es, id) + (if e.source == id then 1 else 0)
  {
    assert (es + [e])[..|es|] == es;
  }

  // ------------------------------------------------------ pass 1: duplicates

  predicate HasSlug(slug: string, a: Article) {
    a.slug == slug
  }

  /** Both ends are catalogue rows with the same slug. */
  ghost predicate SameSlug(arts: seq<Article>, e: Edge) {
    exists a, b :: a in arts && b in arts && a.id == e.source && b.id == e.target && a.slug == b.slug
  }

  /** One of the two directions between `a` and `b` has been used. */
  ghost predicate Linked(seen: set<(int, int)>, a: Article, b: Article) {
    (a.id, b.id) in seen || (b.id, a.id) in seen
  }

  function Slugs(arts: seq<Article>): seq<string> {
    seq(|arts|, i requires 0 <= i < |arts| => arts[i].slug)
  }

  /** Rule 1: articles sharing a slug are linked by DUPLICATE_OF edges, and
      both directions of each new pair are marked as used. */
  method DuplicatePass(arts: seq<Article>, st: GenState) returns (st': GenState)
    requires UniqueIds(arts) && Sound(st)
    ensures Sound(st') && Extends(st, st')
    ensures forall e | e in Added(st, st') ::
      e.kind == DuplicateOf && e.weight == 100 && e.anchor == "Ten sam artykuł"
      && SameSlug(arts, e) && (e.target, e.source) in st'.seen
    ensures forall a, b | a in arts && b in arts && a.slug == b.slug && a.id != b.id :: Linked(st'.seen, a, b)
  {
    var slugs := FirstOccurrences(Slugs(arts));
    st' := st;
    var g := 0;
    while g < |slugs|
      invariant 0 <= g <= |slugs|
      invariant Sound(st') && DupsAdded(arts, st, st')
      invariant forall a, b | a in arts && b in arts && a.slug == b.slug && a.slug in slugs[..g] && a.id != b.id ::
        Linked(st'.seen, a, b)
    {
      st' := LinkSlug(arts, slugs, g, st, st');
      g := g + 1;
    }
    forall a, b | a in arts && b in arts && a.slug == b.slug && a.id != b.id ensures Linked(st'.seen, a, b) {
      var k :| 0 <= k < |arts| && arts[k] == a;
      assert Slugs(arts)[k] == a.slug;
      assert slugs[..|slugs|] == slugs;
    }
  }

  /** One round of the duplicate pass: links the articles of the `g`-th slug. */
  method LinkSlug(arts: seq<Article>, slugs: seq<string>, g: nat, st0: GenState, st: GenState) returns (st': GenState)
    requires UniqueIds(arts) && g < |slugs|
    requires Sound(st) && DupsAdded(arts, st0, st)
    requires forall a, b | a in arts && b in arts && a.slug == b.slug && a.slug in slugs[..g] && a.id != b.id ::
      Linked(st.seen, a, b)
    ensures Sound(st') && DupsAdded(arts, st0, st')
    ensures forall a, b | a in arts && b in arts && a.slug == b.slug && a.slug in slugs[..g + 1] && a.id != b.id ::
      Linked(st'.seen, a, b)
  {
    var group := Filter(arts, (a: Article) => HasSlug(slugs[g], a));
    FilterKeepsUniqueIds(arts, (a: Article) => HasSlug(slugs[g], a));
    st' := st;
    if |group| > 1 {
      st' := LinkGroup(arts, group, st0, st);
    }
    forall a, b | a in arts && b in arts && a.slug == b.slug && a.slug in slugs[..g + 1] && a.id != b.id
      ensures Linked(st'.seen, a, b)
    {
      if a.slug !in slugs[..g] {
        assert a.slug == slugs[g];
        assert a in group && b in group;
      }
    }
  }

  /** Every edge appended since `st0` is a slug duplicate whose reverse pair is used. */
  ghost predicate DupsAdded(arts: seq<Article>, st0: GenState, st: GenState) {
    Extends(st0, st)
    && forall e | e in Added(st0, st) ::
      e.kind == DuplicateOf && e.weight == 100 && e.anchor == "Ten sam artykuł"
      && SameSlug(arts, e) && (e.target, e.source) in st.seen
  }

  /** Emits `e` and marks its reverse pair as used. */
  function EmitPair(st: GenState, e: Edge): GenState {
    var st1 := Emit(st, e);
    st1.(seen := st1.seen + {(e.target, e.source)})
  }

  /** Linking two articles of one slug keeps every invariant of the duplicate pass. */
  lemma EmitPairKeeps(arts: seq<Article>, st0: GenState, st: GenState, a: Article, b: Article)
    requires Sound(st) && DupsAdded(arts, st0, st)
    requires a in arts && b in arts && a.slug == b.slug && a.id != b.id
    requires (a.id, b.id) !in st.seen
    ensures var st' := EmitPair(st, Edge(a.id, b.id, DuplicateOf, 100, "Ten sam artykuł"));
      Sound(st') && Extends(st, st') && DupsAdded(arts, st0, st') && Linked(st'.seen, a, b)
  {
    var e := Edge(a.id, b.id, DuplicateOf, 100, "Ten sam artykuł");
    EmitSound(st, e);
    AddedEmit(st0, st, e);
    assert SameSlug(arts, e);
  }

  /** The nested `i < j` loops over one slug group. */
  method LinkGroup(arts: seq<Article>, group: seq<Article>, st0: GenState, st: GenState) returns (st': GenState)
    requires UniqueIds(group) && forall a | a in group :: a in arts
    requires forall a, b | a in group && b in group :: a.slug == b.slug
    requires Sound(st) && DupsAdded(arts, st0, st)
    ensures Sound(st') && Extends(st, st') && DupsAdded(arts, st0, st')
    ensures forall a, b | a in group && b in group && a.id != b.id :: Linked(st'.seen, a, b)
  {
    st' := st;
    var i := 0;
    while i < |group|
      invariant 0 <= i <= |group|
      invariant Sound(st') && Extends(st, st') && DupsAdded(arts, st0, st')
      invariant forall p, q | 0 <= p < i && p < q < |group| :: Linked(st'.seen, group[p], group[q])
    {
      ghost var before := st';
      st' := LinkFrom(arts, group, i, st0, st');
      assert forall p, q | 0 <= p < i && p < q < |group| :: Linked(before.seen, group[p], group[q]);
      i := i + 1;
    }
    forall a, b | a in group && b in group && a.id != b.id ensures Linked(st'.seen, a, b) {
      var p :| 0 <= p < |group| && group[p] == a;
      var q :| 0 <= q < |group| && group[q] == b;
      if p > q {
        assert Linked(st'.seen, group[q], group[p]);
      }
    }
  }

  /** The inner loop: links `group[i]` with every later article of the group. */
  method LinkFrom(arts: seq<Article>, group: seq<Article>, i: nat, st0: GenState, st: GenState) returns (st': GenState)
    requires i < |group| && UniqueIds(group) && forall a | a in group :: a in arts
    requires forall a, b | a in group && b in group :: a.slug == b.slug
    requires Sound(st) && DupsAdded(arts, st0, st)
    ensures Sound(st') && Extends(st, st') && DupsAdded(arts, st0, st')
    ensures forall q | i < q < |group| :: Linked(st'.seen, group[i], group[q])
  {
    st' := st;
    var j := i + 1;
    while j < |group|
      invariant i + 1 <= j <= |group|
      invariant Sound(st') && Extends(st, st') && DupsAdded(arts, st0, st')
      invariant forall q | i < q < j :: Linked(st'.seen, group[i], group[q])
    {
      var s, t := group[i].id, group[j].id;
      if (s, t) !in st'.seen && (t, s) !in st'.seen {
        EmitPairKeeps(arts, st0, st', group[i], group[j]);
        st' := EmitPair(st', Edge(s, t, DuplicateOf, 100, "Ten sam artykuł"));
      }
      j := j + 1;
    }
  }

  // --------------------------------------------- linking one source to targets

  /** How a pass picks an edge's weight: a literal, or `round(uniform(lo, hi), 2)`. */
  datatype WeightRule = Exactly(w: nat) | Between(lo: nat, hi: nat)

  /** How a pass picks an edge's label: a literal, or `generate_label`. */
  datatype LabelRule = Literal(text: string) | FromTemplates

  predicate WeightFits(w: nat, wr: WeightRule) {
    match wr
    case Exactly(x) => w == x
    case Between(lo, hi) => lo <= w <= hi
  }

  ghost predicate LabelFits(anchor: string, lr: LabelRule, kind: EdgeType, target: Article) {
    match lr
    case Literal(text) => anchor == text
    case FromTemplates =>
      exists i :: 0 <= i < |Templates(kind)| && anchor == Fill(Templates(kind)[i], Topic(target), target.category)
  }

  /** The edge goes from `src` to one of `targets` with the given kind, weight and label rules. */
  ghost predicate EdgeFrom(e: Edge, src: Article, targets: seq<Article>, kind: EdgeType, wr: WeightRule, lr: LabelRule) {
    e.source == src.id && e.kind == kind && WeightFits(e.weight, wr)
    && exists t :: t in targets && t.id == e.target && LabelFits(e.anchor, lr, kind, t)
  }

  /** Draws a weight; a literal weight draws nothing. */
  function DrawWeight(wr: WeightRule, r: Rng): (res: (nat, Rng))
    requires wr.Between? ==> wr.lo <= wr.hi
    ensures WeightFits(res.0, wr)
  {
    match wr
    case Exactly(x) => (x, r)
    case Between(lo, hi) => Uniform(r, lo, hi)
  }

  /** Draws a label for an edge to `target`; a literal label draws nothing. */
  function DrawLabel(lr: LabelRule, kind: EdgeType, target: Article, r: Rng): (res: (string, Rng))
    ensures LabelFits(res.0, lr, kind, target)
  {
    match lr
    case Literal(text) => (text, r)
    case FromTemplates => GenerateLabel(kind, target, r)
  }

  /** The loop `for other in targets: if (src, other) not in EXISTING_EDGES: ...`
      shared by the category, prerequisite, hub and gap passes.  Every target
      ends up with its directed pair used, and at most one edge per target is
      appended, all leaving `src`. */
  method LinkAll(src: Article, targets: seq<Article>, kind: EdgeType, wr: WeightRule, lr: LabelRule,
                 st: GenState, r: Rng) returns (st': GenState, r': Rng)
    requires wr.Between? ==> wr.lo <= wr.hi
    requires Sound(st)
    requires forall t | t in targets :: t.id != src.id
    ensures Sound(st') && Extends(st, st')
    ensures forall e | e in Added(st, st') :: EdgeFrom(e, src, targets, kind, wr, lr)
    ensures forall t | t in targets :: (src.id, t.id) in st'.seen
    ensures OutCount(Added(st, st'), src.id) <= |targets|
    ensures forall x | x != src.id :: OutCount(Added(st, st'), x) == 0
  {
    st', r' := st, r;
    var k := 0;
    while k < |targets|
      invariant 0 <= k <= |targets|
      invariant Sound(st') && Extends(st, st')
      invariant forall e | e in Added(st, st') :: EdgeFrom(e, src, targets, kind, wr, lr)
      invariant forall t | t in targets[..k] :: (src.id, t.id) in st'.seen
      invariant |Added(st, st')| <= k
    {
      st', r' := LinkTarget(src, targets, k, kind, wr, lr, st, st', r');
      k := k + 1;
    }
    assert targets[..k] == targets;
    OutCountSingleSource(Added(st, st'), src.id);
  }

  /** One step of `LinkAll`: the edge to `targets[k]` unless its pair is used. */
  method LinkTarget(src: Article, targets: seq<Article>, k: nat, kind: EdgeType, wr: WeightRule, lr: LabelRule,
                    ghost st0: GenState, st: GenState, r: Rng) returns (st': GenState, r': Rng)
    requires wr.Between? ==> wr.lo <= wr.hi
    requires k < |targets| && targets[k].id != src.id
    requires Sound(st) && Extends(st0, st)
    requires forall e | e in Added(st0, st) :: EdgeFrom(e, src, targets, kind, wr, lr)
    requires forall t | t in targets[..k] :: (src.id, t.id) in st.seen
    requires |Added(st0, st)| <= k
    ensures Sound(st') && Extends(st0, st')
    ensures forall e | e in Added(st0, st') :: EdgeFrom(e, src, targets, kind, wr, lr)
    ensures forall t | t in targets[..k + 1] :: (src.id, t.id) in st'.seen
    ensures |Added(st0, st')| <= k + 1
  {
    st', r' := st, r;
    var t := targets[k];
    if (src.id, t.id) !in st.seen {
      st', r' := LinkNew(src, targets, k, kind, wr, lr, st0, st, r);
    }
    assert targets[..k + 1] == targets[..k] + [t];
  }

  /** The edge `LinkTarget` adds for an unused pair: weight and label drawn, then emitted. */
  method LinkNew(src: Article, targets: seq<Article>, k: nat, kind: EdgeType, wr: WeightRule, lr: LabelRule,
                 ghost st0: GenState, st: GenState, r: Rng) returns (st': GenState, r': Rng)
    requires wr.Between? ==> wr.lo <= wr.hi
    requires k < |targets| && targets[k].id != src.id && (src.id, targets[k].id) !in st.seen
    requires Sound(st) && Extends(st0, st)
    requires forall e | e in Added(st0, st) :: EdgeFrom(e, src, targets, kind, wr, lr)
    ensures Sound(st') && Extends(st0, st') && (src.id, targets[k].id) in st'.seen && st.seen <= st'.seen
    ensures forall e | e in Added(st0, st') :: EdgeFrom(e, src, targets, kind, wr, lr)
    ensures |Added(st0, st')| == |Added(st0, st)| + 1
  {
    var t := targets[k];
    var (w, r1) := DrawWeight(wr, r);
    var (lab, r2) := DrawLabel(lr, kind, t, r1);
    var e := Edge(src.id, t.id, kind, w, lab);
    assert EdgeFrom(e, src, targets, kind, wr, lr);
    EmitFrom(st0, st, e, src, targets, kind, wr, lr);
    st', r' := Emit(st, e), r2;
  }

  /** Appending one more edge from `src` keeps the invariants of `LinkAll`. */
  lemma EmitFrom(st0: GenState, st: GenState, e: Edge, src: Article, targets: seq<Article>, kind: EdgeType,
                 wr: WeightRule, lr: LabelRule)
    requires Sound(st) && Extends(st0, st) && Pair(e) !in st.seen && e.source != e.target
    requires forall x | x in Added(st0, st) :: EdgeFrom(x, src, targets, kind, wr, lr)
    requires EdgeFrom(e, src, targets, kind, wr, lr)
    ensures Sound(Emit(st, e)) && Extends(st0, Emit(st, e)) && Pair(e) in Emit(st, e).seen
    ensures forall x | x in Added(st0, Emit(st, e)) :: EdgeFrom(x, src, targets, kind, wr, lr)
    ensures |Added(st0, Emit(st, e))| == |Added(st0, st)| + 1
  {
    EmitSound(st, e);
    AddedEmit(st0, st, e);
  }

  /** When every edge leaves `id`, all of them count for `id` and none for any other source. */
  lemma {:induction false} OutCountSingleSource(es: seq<Edge>, id: int)
    requires forall e | e in es :: e.source == id
    ensures OutCount(es, id) == |es|
    ensures forall x | x != id :: OutCount(es, x) == 0
  {
    if es != [] {
      var init := es[..|es| - 1];
      assert es == init + [es[|es| - 1]];
      OutCountSingleSource(init, id);
      forall x ensures OutCount(es, x) == OutCount(init, x) + (if es[|es| - 1].source == x then 1 else 0) {
        OutCountEmit(init, es[|es| - 1], x);
      }
    }
  }

  // ------------------------------------------------------- pass 2: categories

  /** The articles of one category, in catalogue order. */
  function Group(arts: seq<Article>, c: string): (g: seq<Article>)
    ensures forall a :: a in g <==> a in arts && a.category == c
  {
    Filter(arts, (a: Article) => a.category == c)
  }

  lemma GroupUniqueIds(arts: seq<Article>, c: string)
    requires UniqueIds(arts)
    ensures UniqueIds(Group(arts, c))
  {
    FilterKeepsUniqueIds(arts, (a: Article) => a.category == c);
  }

  /** `[a for a in group if a[0] != id]`. */
  function Others(group: seq<Article>, id: int): (o: seq<Article>)
    ensures |o| <= |group|
    ensures forall a :: a in o <==> a in group && a.id != id
  {
    Filter(group, (a: Article) => a.id != id)
  }

  function Categories(arts: seq<Article>): seq<string> {
    seq(|arts|, i requires 0 <= i < |arts| => arts[i].category)
  }

  /** The most outgoing edges the category pass may give an article of category `c`. */
  function ClusterBound(arts: seq<Article>, c: string): int {
    Min(5, |Group(arts, c)| - 1)
  }

  /** A category edge: RELATED_TO between two distinct articles of one category,
      labelled with that category. */
  ghost predicate CategoryEdge(arts: seq<Article>, e: Edge) {
    e.kind == RelatedTo && 70 <= e.weight <= 85
    && exists a, b :: a in arts && b in arts && a.id == e.source && b.id == e.target
         && a.id != b.id && a.category == b.category && e.anchor == "Podobny temat: " + a.category
  }

  /** Rule 2: each article is linked to at most `min(randint(3, 5), |group| - 1)`
      shuffled others of its own category. */
  method CategoryPass(arts: seq<Article>, st: GenState, r: Rng) returns (st': GenState, r': Rng)
    requires UniqueIds(arts) && Sound(st)
    ensures Sound(st') && Extends(st, st')
    ensures forall e | e in Added(st, st') :: CategoryEdge(arts, e)
    ensures forall a | a in arts :: OutCount(Added(st, st'), a.id) <= ClusterBound(arts, a.category)
  {
    var cats := FirstOccurrences(Categories(arts));
    st', r' := st, r;
    var g := 0;
    while g < |cats|
      invariant 0 <= g <= |cats|
      invariant Sound(st') && Extends(st, st')
      invariant forall e | e in Added(st, st') :: CategoryEdge(arts, e)
      invariant forall a | a in arts ::
        OutCount(Added(st, st'), a.id) <= (if a.category in cats[..g] then ClusterBound(arts, a.category) else 0)
    {
      st', r' := ClusterGroup(arts, cats[g], cats[..g], st, st', r');
      assert cats[..g + 1] == cats[..g] + [cats[g]];
      g := g + 1;
    }
    forall a | a in arts ensures a.category in cats {
      var k :| 0 <= k < |arts| && arts[k] == a;
      assert Categories(arts)[k] == a.category;
    }
    assert cats[..g] == cats;
  }

  /** The inner loop over one category's articles. */
  method ClusterGroup(arts: seq<Article>, c: string, done: seq<string>, st0: GenState, st: GenState, r: Rng)
    returns (st': GenState, r': Rng)
    requires UniqueIds(arts) && Sound(st) && Extends(st0, st) && c !in done
    requires forall e | e in Added(st0, st) :: CategoryEdge(arts, e)
    requires forall a | a in arts ::
      OutCount(Added(st0, st), a.id) <= (if a.category in done then ClusterBound(arts, a.category) else 0)
    ensures Sound(st') && Extends(st0, st')
    ensures forall e | e in Added(st0, st') :: CategoryEdge(arts, e)
    ensures forall a | a in arts ::
      OutCount(Added(st0, st'), a.id) <= (if a.category in done + [c] then ClusterBound(arts, a.category) else 0)
  {
    var group := Group(arts, c);
    GroupUniqueIds(arts, c);
    st', r' := st, r;
    var k := 0;
    while k < |group|
      invariant 0 <= k <= |group|
      invariant Sound(st') && Extends(st0, st')
      invariant forall e | e in Added(st0, st') :: CategoryEdge(arts, e)
      invariant forall a | a in arts ::
        OutCount(Added(st0, st'), a.id)
          <= (if a.category in done || a in group[..k] then ClusterBound(arts, a.category) else 0)
    {
      st', r' := ClusterOne(arts, c, done, group, k, st0, st', r');
      k := k + 1;
    }
    assert group[..k] == group;
    GroupDone(arts, c, done, Added(st0, st'));
  }

  /** Once every article of category `c` is bounded, `c` counts as done. */
  lemma GroupDone(arts: seq<Article>, c: string, done: seq<string>, added: seq<Edge>)
    requires forall a | a in arts ::
      OutCount(added, a.id) <= (if a.category in done || a in Group(arts, c) then ClusterBound(arts, a.category) else 0)
    ensures forall a | a in arts ::
      OutCount(added, a.id) <= (if a.category in done + [c] then ClusterBound(arts, a.category) else 0)
  {
    forall a | a in arts
      ensures OutCount(added, a.id) <= (if a.category in done + [c] then ClusterBound(arts, a.category) else 0)
    {
      assert a.category in done + [c] <==> a.category in done || a.category == c;
    }
  }

  /** One iteration of the inner loop: links `group[k]` to its shuffled peers. */
  method ClusterOne(arts: seq<Article>, c: string, done: seq<string>, group: seq<Article>, k: nat,
                    st0: GenState, st: GenState, r: Rng) returns (st': GenState, r': Rng)
    requires UniqueIds(arts) && UniqueIds(group) && group == Group(arts, c) && c !in done && k < |group|
    requires Sound(st) && Extends(st0, st)
    requires forall e | e in Added(st0, st) :: CategoryEdge(arts, e)
    requires forall a | a in arts ::
      OutCount(Added(st0, st), a.id) <= (if a.category in done || a in group[..k] then ClusterBound(arts, a.category) else 0)
    ensures Sound(st') && Extends(st0, st')
    ensures forall e | e in Added(st0, st') :: CategoryEdge(arts, e)
    ensures forall a | a in arts ::
      OutCount(Added(st0, st'), a.id) <= (if a.category in done || a in group[..k + 1] then ClusterBound(arts, a.category) else 0)
  {
    var art := group[k];
    var (n, r1) := RandInt(r, 3, 5);
    var num := Min(n, |group| - 1);
    var (shuffled, r2) := Shuffle(Others(group, art.id), r1);
    var targets := Take(shuffled, num);
    ClusterTargets(group, art, shuffled, num, r1);
    st', r' := LinkAll(art, targets, RelatedTo, Between(70, 85), Literal("Podobny temat: " + c), st, r2);
    ClusterEdgesStep(arts, c, group, k, targets, st0, st, st');
    ClusterBoundStep(arts, c, done, group, k, targets, st0, st, st');
  }

  lemma ClusterTargets(group: seq<Article>, art: Article, shuffled: seq<Article>, num: int, r: Rng)
    requires shuffled == Shuffle(Others(group, art.id), r).0
    ensures forall t | t in Take(shuffled, num) :: t in group && t.id != art.id
    ensures |Take(shuffled, num)| <= num || num < 0
  {
    forall t | t in Take(shuffled, num) ensures t in group && t.id != art.id {
      assert t in multiset(shuffled);
    }
  }

  /** The edges of one article of a category group join the category edges. */
  lemma ClusterEdgesStep(arts: seq<Article>, c: string, group: seq<Article>, k: nat,
                         targets: seq<Article>, st0: GenState, mid: GenState, st: GenState)
    requires group == Group(arts, c) && k < |group|
    requires forall t | t in targets :: t in group && t.id != group[k].id
    requires Extends(st0, mid) && Extends(mid, st)
    requires forall e | e in Added(st0, mid) :: CategoryEdge(arts, e)
    requires forall e | e in Added(mid, st) ::
      EdgeFrom(e, group[k], targets, RelatedTo, Between(70, 85), Literal("Podobny temat: " + c))
    ensures forall e | e in Added(st0, st) :: CategoryEdge(arts, e)
  {
    AddedCompose(st0, mid, st);
    forall e | e in Added(st0, st) ensures CategoryEdge(arts, e) {
      if e !in Added(st0, mid) {
        PeerEdge(arts, c, group, k, targets, e);
      }
    }
  }

  /** An edge from a group member to one of its peers is a category edge. */
  lemma PeerEdge(arts: seq<Article>, c: string, group: seq<Article>, k: nat, targets: seq<Article>, e: Edge)
    requires group == Group(arts, c) && k < |group|
    requires forall t | t in targets :: t in group && t.id != group[k].id
    requires EdgeFrom(e, group[k], targets, RelatedTo, Between(70, 85), Literal("Podobny temat: " + c))
    ensures CategoryEdge(arts, e)
  {
    var art := group[k];
    var t :| t in targets && t.id == e.target && e.anchor == "Podobny temat: " + c;
    assert art in group;
    assert t in arts && art in arts && art.category == c && t.category == c;
  }

  /** The edges of one article of a category group keep the per-source bound. */
  lemma ClusterBoundStep(arts: seq<Article>, c: string, done: seq<string>, group: seq<Article>, k: nat,
                         targets: seq<Article>, st0: GenState, mid: GenState, st: GenState)
    requires UniqueIds(arts) && UniqueIds(group) && group == Group(arts, c) && c !in done && k < |group|
    requires |targets| <= ClusterBound(arts, c)
    requires Extends(st0, mid) && Extends(mid, st)
    requires forall a | a in arts ::
      OutCount(Added(st0, mid), a.id) <= (if a.category in done || a in group[..k] then ClusterBound(arts, a.category) else 0)
    requires OutCount(Added(mid, st), group[k].id) <= |targets|
    requires forall x | x != group[k].id :: OutCount(Added(mid, st), x) == 0
    ensures forall a | a in arts ::
      OutCount(Added(st0, st), a.id) <= (if a.category in done || a in group[..k + 1] then ClusterBound(arts, a.category) else 0)
  {
    forall a | a in arts
      ensures OutCount(Added(st0, st), a.id)
        <= (if a.category in done || a in group[..k + 1] then ClusterBound(arts, a.category) else 0)
    {
      ClusterBoundAt(arts, c, done, group, k, targets, st0, mid, st, a);
    }
  }

  lemma ClusterBoundAt(arts: seq<Article>, c: string, done: seq<string>, group: seq<Article>, k: nat,
                       targets: seq<Article>, st0: GenState, mid: GenState, st: GenState, a: Article)
    requires UniqueIds(arts) && UniqueIds(group) && group == Group(arts, c) && c !in done && k < |group|
    requires |targets| <= ClusterBound(arts, c)
    requires Extends(st0, mid) && Extends(mid, st)
    requires a in arts
    requires OutCount(Added(st0, mid), a.id) <= (if a.category in done || a in group[..k] then ClusterBound(arts, a.category) else 0)
    requires OutCount(Added(mid, st), group[k].id) <= |targets|
    requires a.id != group[k].id ==> OutCount(Added(mid, st), a.id) == 0
    ensures OutCount(Added(st0, st), a.id)
      <= (if a.category in done || a in group[..k + 1] then ClusterBound(arts, a.category) else 0)
  {
    var art := group[k];
    CountSplit(st0, mid, st, a.id);
    assert group[..k + 1] == group[..k] + [art];
    if a.id == art.id {
      assert art in group;
      SameIdSameArticle(arts, a, art);
    }
  }

  /** The count of edges added in two steps is the sum of the two counts. */
  lemma CountSplit(st0: GenState, mid: GenState, st: GenState, x: int)
    requires Extends(st0, mid) && Extends(mid, st)
    ensures OutCount(Added(st0, st), x) == OutCount(Added(st0, mid), x) + OutCount(Added(mid, st), x)
  {
    AddedCompose(st0, mid, st);
    CountAppend(Added(st0, mid), Added(mid, st), (e: Edge) => e.source == x);
  }

  /** Edges added in two steps are the first step's followed by the second's. */
  lemma CountsCompose(a: seq<Edge>, b: seq<Edge>, st0: GenState, mid: GenState, st: GenState)
    requires Extends(st0, mid) && Extends(mid, st)
    requires a == Added(st0, mid) && b == Added(mid, st)
    ensures Added(st0, st) == a + b
    ensures forall x :: OutCount(Added(st0, st), x) == OutCount(a, x) + OutCount(b, x)
  {
    assert Added(st0, st) == a + b;
    forall x ensures OutCount(a + b, x) == OutCount(a, x) + OutCount(b, x) {
      CountAppend(a, b, (e: Edge) => e.source == x);
    }
  }

  /** Edges added in two steps are the first step's followed by the second's. */
  lemma AddedCompose(st0: GenState, mid: GenState, st: GenState)
    requires Extends(st0, mid) && Extends(mid, st)
    ensures Extends(st0, st)
    ensures Added(st0, st) == Added(st0, mid) + Added(mid, st)
  {
  }

  // --------------------------------------------------- pass 3: prerequisites

  /** Two rows of a catalogue with unique ids and different categories have different ids. */
  lemma DistinctCategoriesDistinctIds(arts: seq<Article>, c: string, d: string)
    requires UniqueIds(arts) && c != d
    ensures forall a, b | a in Group(arts, c) && b in Group(arts, d) :: a.id != b.id
  {
    forall a, b | a in Group(arts, c) && b in Group(arts, d) ensures a.id != b.id {
      if a.id == b.id {
        SameIdSameArticle(arts, a, b);
      }
    }
  }

  /** An edge from one of `sources` to one of `pool`, with a fixed kind and
      weight and a `generate_label` label. */
  ghost predicate SampledEdge(e: Edge, sources: seq<Article>, pool: seq<Article>, kind: EdgeType, w: nat) {
    e.kind == kind && e.weight == w
    && (exists a :: a in sources && a.id == e.source)
    && exists b :: b in pool && b.id == e.target && LabelFits(e.anchor, FromTemplates, kind, b)
  }

  /** `for a in sources: for b in random.sample(pool, min(count, len(pool))): ...` */
  method LinkSamples(sources: seq<Article>, pool: seq<Article>, count: nat, kind: EdgeType, w: nat,
                     st: GenState, r: Rng) returns (st': GenState, r': Rng)
    requires Sound(st)
    requires forall a, b | a in sources && b in pool :: a.id != b.id
    ensures Sound(st') && Extends(st, st')
    ensures forall e | e in Added(st, st') :: SampledEdge(e, sources, pool, kind, w)
  {
    st', r' := st, r;
    var k := 0;
    while k < |sources|
      invariant 0 <= k <= |sources|
      invariant Sound(st') && Extends(st, st')
      invariant forall e | e in Added(st, st') :: SampledEdge(e, sources, pool, kind, w)
    {
      st', r' := LinkSampleOne(sources, pool, count, kind, w, k, st, st', r');
      k := k + 1;
    }
  }

  /** One source of `LinkSamples`. */
  method LinkSampleOne(sources: seq<Article>, pool: seq<Article>, count: nat, kind: EdgeType, w: nat, k: nat,
                       st0: GenState, st: GenState, r: Rng) returns (st': GenState, r': Rng)
    requires k < |sources| && Sound(st) && Extends(st0, st)
    requires forall a, b | a in sources && b in pool :: a.id != b.id
    requires forall e | e in Added(st0, st) :: SampledEdge(e, sources, pool, kind, w)
    ensures Sound(st') && Extends(st0, st')
    ensures forall e | e in Added(st0, st') :: SampledEdge(e, sources, pool, kind, w)
  {
    var (picked, r1) := Sample(pool, Min(count, |pool|), r);
    forall t | t in picked ensures t in pool {
      assert t in multiset(picked);
    }
    st', r' := LinkAll(sources[k], picked, kind, Exactly(w), FromTemplates, st, r1);
    AddedCompose(st0, st, st');
    forall e | e in Added(st0, st') ensures SampledEdge(e, sources, pool, kind, w) {
      if e !in Added(st0, st) {
        assert e in Added(st, st');
      }
    }
  }

  /** A prerequisite-pass edge: PREREQUISITE from "Podstawy" to "Wdrożenie"
      (weight 0.9) or to "Techniczne" (weight 0.85), or BUILDS_ON from
      "Wdrożenie" back to "Podstawy" (weight 0.8). */
  ghost predicate PrereqEdge(arts: seq<Article>, e: Edge) {
    SampledEdge(e, Take(Group(arts, "Podstawy"), 5), Group(arts, "Wdrożenie"), Prerequisite, 90)
    || SampledEdge(e, Take(Group(arts, "Podstawy"), 5), Group(arts, "Techniczne"), Prerequisite, 85)
    || SampledEdge(e, Group(arts, "Wdrożenie"), Group(arts, "Podstawy"), BuildsOn, 80)
  }

  /** Rule 3: the first five "Podstawy" articles lead to three sampled
      "Wdrożenie" and two sampled "Techniczne" articles; every "Wdrożenie"
      article builds on two sampled "Podstawy" articles. */
  method PrereqPass(arts: seq<Article>, st: GenState, r: Rng) returns (st': GenState, r': Rng)
    requires UniqueIds(arts) && Sound(st)
    ensures Sound(st') && Extends(st, st')
    ensures forall e | e in Added(st, st') :: PrereqEdge(arts, e)
  {
    var podstawy := Group(arts, "Podstawy");
    var wdrozenie := Group(arts, "Wdrożenie");
    var techniczne := Group(arts, "Techniczne");
    var top := Take(podstawy, 5);
    DistinctCategoriesDistinctIds(arts, "Podstawy", "Wdrożenie");
    DistinctCategoriesDistinctIds(arts, "Podstawy", "Techniczne");
    DistinctCategoriesDistinctIds(arts, "Wdrożenie", "Podstawy");
    var st1, st2;
    st1, r' := LinkSamples(top, wdrozenie, 3, Prerequisite, 90, st, r);
    st2, r' := LinkSamples(top, techniczne, 2, Prerequisite, 85, st1, r');
    st', r' := LinkSamples(wdrozenie, podstawy, 2, BuildsOn, 80, st2, r');
    AddedCompose(st, st1, st2);
    AddedCompose(st, st2, st');
  }

  // -------------------------------------------------------- pass 4: keywords

  /** The first keyword of `k1` that also occurs in `k2`. */
  function FirstShared(k1: seq<string>, k2: seq<string>): (r: Option<string>)
    ensures r.Some? ==> r.value in k1 && r.value in k2
    ensures r.None? <==> forall k | k in k1 :: k !in k2
  {
    if k1 == [] then None
    else if k1[0] in k2 then Some(k1[0])
    else FirstShared(k1[1..], k2)
  }

  /** `articles_with_keywords`: the keyword list of every catalogue row. */
  function KeywordTable(arts: seq<Article>): (kws: seq<seq<string>>)
    ensures |kws| == |arts|
    ensures forall i | 0 <= i < |arts| :: kws[i] == Keywords(arts[i].title)
  {
    seq(|arts|, i requires 0 <= i < |arts| => Keywords(arts[i].title))
  }

  /** A keyword edge: RELATED_TO from an earlier to a later catalogue row whose
      titles share a keyword, labelled with that keyword. */
  ghost predicate KeywordEdge(arts: seq<Article>, kws: seq<seq<string>>, e: Edge) {
    e.kind == RelatedTo && 75 <= e.weight <= 90
    && exists i, j, k :: 0 <= i < j < |arts| && j < |kws| && arts[i].id == e.source && arts[j].id == e.target
         && k in kws[i] && k in kws[j] && e.anchor == "Zobacz więcej o " + k
  }

  /** Row `i` of the keyword pass is done: every later article sharing a
      keyword with `arts[i]` has its pair from `arts[i]` used. */
  predicate RowLinked(arts: seq<Article>, kws: seq<seq<string>>, i: nat, seen: set<(int, int)>)
    requires i < |arts| == |kws|
  {
    forall q | i < q < |arts| && FirstShared(kws[i], kws[q]).Some? ::
      (arts[i].id, arts[q].id) in seen
  }

  /** Rule 4: every later article sharing a title keyword is linked. */
  method KeywordPass(arts: seq<Article>, st: GenState, r: Rng) returns (st': GenState, r': Rng)
    requires UniqueIds(arts) && Sound(st)
    ensures Sound(st') && Extends(st, st')
    ensures forall e | e in Added(st, st') :: KeywordEdge(arts, KeywordTable(arts), e)
    ensures forall i | 0 <= i < |arts| :: RowLinked(arts, KeywordTable(arts), i, st'.seen)
  {
    st', r' := KeywordRows(arts, KeywordTable(arts), st, r);
  }

  /** The outer `i` loop of the keyword pass. */
  method KeywordRows(arts: seq<Article>, kws: seq<seq<string>>, st: GenState, r: Rng) returns (st': GenState, r': Rng)
    requires UniqueIds(arts) && |arts| == |kws| && Sound(st)
    ensures Sound(st') && Extends(st, st')
    ensures forall e | e in Added(st, st') :: KeywordEdge(arts, kws, e)
    ensures forall i | 0 <= i < |arts| :: RowLinked(arts, kws, i, st'.seen)
  {
    st', r' := st, r;
    var i := 0;
    while i < |arts|
      invariant 0 <= i <= |arts|
      invariant Sound(st') && Extends(st, st')
      invariant forall e | e in Added(st, st') :: KeywordEdge(arts, kws, e)
      invariant forall p | 0 <= p < i :: RowLinked(arts, kws, p, st'.seen)
    {
      ghost var before := st'.seen;
      st', r' := KeywordRow(arts, kws, i, st, st', r');
      forall p | 0 <= p < i ensures RowLinked(arts, kws, p, st'.seen) {
        assert RowLinked(arts, kws, p, before);
      }
      i := i + 1;
    }
  }

  /** The inner `j` loop of the keyword pass for row `i`. */
  method KeywordRow(arts: seq<Article>, kws: seq<seq<string>>, i: nat, st0: GenState, st: GenState, r: Rng)
    returns (st': GenState, r': Rng)
    requires UniqueIds(arts) && i < |arts| == |kws| && Sound(st) && Extends(st0, st)
    requires forall e | e in Added(st0, st) :: KeywordEdge(arts, kws, e)
    ensures Sound(st') && Extends(st0, st') && Extends(st, st')
    ensures forall e | e in Added(st0, st') :: KeywordEdge(arts, kws, e)
    ensures RowLinked(arts, kws, i, st'.seen)
  {
    st', r' := st, r;
    var j := i + 1;
    while j < |arts|
      invariant i + 1 <= j <= |arts|
      invariant Sound(st') && Extends(st0, st') && Extends(st, st')
      invariant forall e | e in Added(st0, st') :: KeywordEdge(arts, kws, e)
      invariant forall q | i < q < j && FirstShared(kws[i], kws[q]).Some? ::
        (arts[i].id, arts[q].id) in st'.seen
    {
      st', r' := KeywordOne(arts, kws, i, j, st0, st', r');
      j := j + 1;
    }
  }

  /** One `(i, j)` pair of the keyword pass. */
  method KeywordOne(arts: seq<Article>, kws: seq<seq<string>>, i: nat, j: nat, st0: GenState, st: GenState, r: Rng)
    returns (st': GenState, r': Rng)
    requires UniqueIds(arts) && i < j < |arts| == |kws| && Sound(st) && Extends(st0, st)
    requires forall e | e in Added(st0, st) :: KeywordEdge(arts, kws, e)
    ensures Sound(st') && Extends(st0, st') && Extends(st, st')
    ensures forall e | e in Added(st0, st') :: KeywordEdge(arts, kws, e)
    ensures FirstShared(kws[i], kws[j]).Some? ==> (arts[i].id, arts[j].id) in st'.seen
  {
    st', r' := st, r;
    var k1, k2 := kws[i], kws[j];
    if k1 != [] && k2 != [] {
      var shared := FirstShared(k1, k2);
      if shared.Some? && (arts[i].id, arts[j].id) !in st.seen {
        var (w, r1) := Uniform(r, 75, 90);
        var e := Edge(arts[i].id, arts[j].id, RelatedTo, w, "Zobacz więcej o " + shared.value);
        EmitSound(st, e);
        AddedEmit(st0, st, e);
        st', r' := Emit(st, e), r1;
      }
    }
  }

  // ------------------------------------------------------------ pass 5: hubs

  /** `next(a for a in ARTICLES if a[0] == id)`, or `None` where Python would
      raise `StopIteration`. */
  function FindById(arts: seq<Article>, id: int): (r: Option<Article>)
    ensures r.Some? ==> r.value in arts && r.value.id == id
    ensures r.None? ==> forall a | a in arts :: a.id != id
  {
    if arts == [] then None
    else if arts[0].id == id then Some(arts[0])
    else FindById(arts[1..], id)
  }

  /** The articles a hub may recommend: other articles of another category. */
  function HubCandidates(arts: seq<Article>, hub: Article): (o: seq<Article>)
    ensures forall a :: a in o <==> a in arts && a.id != hub.id && a.category != hub.category
  {
    Filter(arts, (a: Article) => a.id != hub.id && a.category != hub.category)
  }

  /** A hub edge: NEXT_STEP from a hub to an article of another category. */
  ghost predicate HubEdge(arts: seq<Article>, e: Edge) {
    e.kind == NextStep && 60 <= e.weight <= 75 && e.source in Hubs
    && exists h, b :: h in arts && b in arts && h.id == e.source && b.id == e.target
         && b.category != h.category && LabelFits(e.anchor, FromTemplates, NextStep, b)
  }

  lemma HubsDistinct()
    ensures forall i, j | 0 <= i < j < |Hubs| :: Hubs[i] != Hubs[j]
  {
  }

  /** Rule 5: each hub recommends up to ten shuffled articles of other categories.
      `ok` is false when a hub id is missing from the catalogue. */
  method HubPass(arts: seq<Article>, st: GenState, r: Rng) returns (ok: bool, st': GenState, r': Rng)
    requires Sound(st)
    ensures Sound(st') && Extends(st, st')
    ensures forall e | e in Added(st, st') :: HubEdge(arts, e)
    ensures forall x :: OutCount(Added(st, st'), x) <= (if x in Hubs then 10 else 0)
    ensures ok <==> forall h | h in Hubs :: FindById(arts, h).Some?
  {
    st', r' := st, r;
    HubsDistinct();
    var k := 0;
    while k < |Hubs|
      invariant 0 <= k <= |Hubs|
      invariant Sound(st') && Extends(st, st')
      invariant forall e | e in Added(st, st') :: HubEdge(arts, e)
      invariant forall x :: OutCount(Added(st, st'), x) <= (if x in Hubs[..k] then 10 else 0)
      invariant forall h | h in Hubs[..k] :: FindById(arts, h).Some?
    {
      var hub := FindById(arts, Hubs[k]);
      if hub.None? {
        return false, st', r';
      }
      st', r' := HubOne(arts, hub.value, k, st, st', r');
      k := k + 1;
    }
    ok := true;
    assert Hubs[..k] == Hubs;
  }

  /** The recommendations of hub `Hubs[k]`. */
  method HubOne(arts: seq<Article>, hub: Article, k: nat, st0: GenState, st: GenState, r: Rng)
    returns (st': GenState, r': Rng)
    requires k < |Hubs| && hub in arts && hub.id == Hubs[k]
    requires forall i, j | 0 <= i < j < |Hubs| :: Hubs[i] != Hubs[j]
    requires Sound(st) && Extends(st0, st)
    requires forall e | e in Added(st0, st) :: HubEdge(arts, e)
    requires forall x :: OutCount(Added(st0, st), x) <= (if x in Hubs[..k] then 10 else 0)
    ensures Sound(st') && Extends(st0, st')
    ensures forall e | e in Added(st0, st') :: HubEdge(arts, e)
    ensures forall x :: OutCount(Added(st0, st'), x) <= (if x in Hubs[..k + 1] then 10 else 0)
  {
    var (shuffled, r1) := Shuffle(HubCandidates(arts, hub), r);
    var targets := Take(shuffled, 10);
    TargetsFromShuffle(HubCandidates(arts, hub), r, 10);
    st', r' := LinkAll(hub, targets, NextStep, Between(60, 75), FromTemplates, st, r1);
    HubStep(arts, hub, k, targets, st0, st, st');
  }

  /** A prefix of a shuffled list holds only members of the list. */
  lemma TargetsFromShuffle(cands: seq<Article>, r: Rng, n: int)
    ensures forall t | t in Take(Shuffle(cands, r).0, n) :: t in cands
    ensures |Take(Shuffle(cands, r).0, n)| <= if n < 0 then 0 else n
  {
    var shuffled := Shuffle(cands, r).0;
    forall t | t in Take(shuffled, n) ensures t in cands {
      assert t in multiset(shuffled);
    }
  }

  /** Hub `Hubs[k]` has been linked: the hub-edge and per-hub bound invariants carry over. */
  lemma HubStep(arts: seq<Article>, hub: Article, k: nat, targets: seq<Article>, st0: GenState, mid: GenState, st: GenState)
    requires k < |Hubs| && hub in arts && hub.id == Hubs[k]
    requires forall i, j | 0 <= i < j < |Hubs| :: Hubs[i] != Hubs[j]
    requires forall t | t in targets :: t in arts && t.category != hub.category
    requires |targets| <= 10
    requires Extends(st0, mid) && Extends(mid, st)
    requires forall e | e in Added(st0, mid) :: HubEdge(arts, e)
    requires forall x :: OutCount(Added(st0, mid), x) <= (if x in Hubs[..k] then 10 else 0)
    requires forall e | e in Added(mid, st) :: EdgeFrom(e, hub, targets, NextStep, Between(60, 75), FromTemplates)
    requires OutCount(Added(mid, st), hub.id) <= |targets|
    requires forall x | x != hub.id :: OutCount(Added(mid, st), x) == 0
    ensures forall e | e in Added(st0, st) :: HubEdge(arts, e)
    ensures forall x :: OutCount(Added(st0, st), x) <= (if x in Hubs[..k + 1] then 10 else 0)
  {
    CountsCompose(Added(st0, mid), Added(mid, st), st0, mid, st);
    forall e | e in Added(st0, st) ensures HubEdge(arts, e) {
      if e !in Added(st0, mid) {
        assert e in Added(mid, st);
        assert e.source == Hubs[k];
      }
    }
    assert Hubs[..k + 1] == Hubs[..k] + [hub.id];
    assert hub.id !in Hubs[..k];
  }

  // ------------------------------------------------------------- pass 6: gaps

  /** Every id that is an end of some edge. */
  function Endpoints(es: seq<Edge>): (ids: set<int>)
    ensures forall e | e in es :: e.source in ids && e.target in ids
    ensures forall x | x in ids :: exists e :: e in es && (e.source == x || e.target == x)
  {
    (set e | e in es :: e.source) + (set e | e in es :: e.target)
  }

  /** Candidates for an isolated article: others of its category, and the hubs. */
  function GapCandidates(arts: seq<Article>, art: Article): (o: seq<Article>)
    ensures forall a :: a in o <==> a in arts && a.id != art.id && (a.category == art.category || a.id in Hubs)
  {
    Filter(arts, (a: Article) => a.id != art.id && (a.category == art.category || a.id in Hubs))
  }

  /** A gap edge: RELATED_TO from an article that no edge touched before the
      pass to another article of its category or to a hub. */
  ghost predicate GapEdge(arts: seq<Article>, before: seq<Edge>, e: Edge) {
    e.kind == RelatedTo && 50 <= e.weight <= 70 && e.source !in Endpoints(before)
    && exists a, b :: a in arts && b in arts && a.id == e.source && b.id == e.target && a.id != b.id
         && (b.category == a.category || b.id in Hubs) && LabelFits(e.anchor, FromTemplates, RelatedTo, b)
  }

  /** Rule 6: every article that no generated edge touches is linked to up to
      three shuffled candidates. */
  method GapPass(arts: seq<Article>, st: GenState, r: Rng) returns (st': GenState, r': Rng)
    requires Sound(st)
    ensures Sound(st') && Extends(st, st')
    ensures forall e | e in Added(st, st') :: GapEdge(arts, st.edges, e)
  {
    var connected := Endpoints(st.edges);
    st', r' := st, r;
    var k := 0;
    while k < |arts|
      invariant 0 <= k <= |arts|
      invariant Sound(st') && Extends(st, st')
      invariant Endpoints(st.edges) <= connected
      invariant forall e | e in Added(st, st') :: GapEdge(arts, st.edges, e)
    {
      st', r', connected := GapOne(arts, arts[k], st, st', r', connected);
      k := k + 1;
    }
  }

  /** One article of the gap pass; `connected` gains the article once it has an edge. */
  method GapOne(arts: seq<Article>, art: Article, st0: GenState, st: GenState, r: Rng, connected: set<int>)
    returns (st': GenState, r': Rng, connected': set<int>)
    requires art in arts && Sound(st) && Extends(st0, st) && Endpoints(st0.edges) <= connected
    requires forall e | e in Added(st0, st) :: GapEdge(arts, st0.edges, e)
    ensures Sound(st') && Extends(st0, st') && Endpoints(st0.edges) <= connected'
    ensures forall e | e in Added(st0, st') :: GapEdge(arts, st0.edges, e)
  {
    st', r', connected' := st, r, connected;
    if art.id !in connected {
      var (shuffled, r1) := Shuffle(GapCandidates(arts, art), r);
      var targets := Take(shuffled, 3);
      TargetsFromShuffle(GapCandidates(arts, art), r, 3);
      var count := |st.edges|;
      st', r' := LinkAll(art, targets, RelatedTo, Between(50, 70), FromTemplates, st, r1);
      GapStep(arts, art, targets, connected, st0, st, st');
      if |st'.edges| > count {
        connected' := connected + {art.id};
      }
    }
  }

  /** `art` has been linked to its gap candidates: the gap-edge invariant carries over. */
  lemma GapStep(arts: seq<Article>, art: Article, targets: seq<Article>, connected: set<int>,
                st0: GenState, mid: GenState, st: GenState)
    requires art in arts && art.id !in connected && Endpoints(st0.edges) <= connected
    requires forall t | t in targets :: t in GapCandidates(arts, art)
    requires Extends(st0, mid) && Extends(mid, st)
    requires forall e | e in Added(st0, mid) :: GapEdge(arts, st0.edges, e)
    requires forall e | e in Added(mid, st) :: EdgeFrom(e, art, targets, RelatedTo, Between(50, 70), FromTemplates)
    ensures forall e | e in Added(st0, st) :: GapEdge(arts, st0.edges, e)
  {
    AddedCompose(st0, mid, st);
    forall e | e in Added(st0, st) ensures GapEdge(arts, st0.edges, e) {
      if e !in Added(st0, mid) {
        assert e in Added(mid, st);
      }
    }
  }

  // ------------------------------------------------------------ pass 7: fill

  /** A fill edge: RELATED_TO between two distinct, randomly chosen articles. */
  ghost predicate FillEdge(arts: seq<Article>, e: Edge) {
    e.kind == RelatedTo && 40 <= e.weight <= 60
    && exists a, b :: a in arts && b in arts && a.id == e.source && b.id == e.target && a.id != b.id
         && LabelFits(e.anchor, FromTemplates, RelatedTo, b)
  }

  /** The edge count the final pass fills up to. */
  const Target: nat := 490

  /** The final `while len(edges) < 490` loop, cut off after `fuel` attempts.
      `reached` tells whether the target count was met; it then is met exactly
      when the pass started at or below it. */
  method FillPass(arts: seq<Article>, st: GenState, r: Rng, fuel: nat) returns (st': GenState, r': Rng, reached: bool)
    requires |arts| > 0 && Sound(st)
    ensures Sound(st') && Extends(st, st')
    ensures forall e | e in Added(st, st') :: FillEdge(arts, e)
    ensures reached <==> |st'.edges| >= Target
    ensures |st.edges| <= Target ==> |st'.edges| <= Target
    ensures |st.edges| >= Target ==> st' == st
  {
    st', r' := st, r;
    var attempts := 0;
    while |st'.edges| < Target && attempts < fuel
      invariant 0 <= attempts <= fuel
      invariant Sound(st') && Extends(st, st')
      invariant forall e | e in Added(st, st') :: FillEdge(arts, e)
      invariant |st.edges| <= Target ==> |st'.edges| <= Target
      invariant |st.edges| >= Target ==> st' == st
      decreases fuel - attempts
    {
      st', r' := FillOne(arts, st, st', r');
      attempts := attempts + 1;
    }
    reached := |st'.edges| >= Target;
  }

  /** One attempt of the fill loop: two random picks, linked when distinct and unused. */
  method FillOne(arts: seq<Article>, st0: GenState, st: GenState, r: Rng) returns (st': GenState, r': Rng)
    requires |arts| > 0 && Sound(st) && Extends(st0, st)
    requires forall e | e in Added(st0, st) :: FillEdge(arts, e)
    ensures Sound(st') && Extends(st0, st')
    ensures forall e | e in Added(st0, st') :: FillEdge(arts, e)
    ensures |st'.edges| <= |st.edges| + 1
    ensures |st'.edges| == |st.edges| ==> st' == st
  {
    var (src, r1) := Choice(r, arts);
    var (tgt, r2) := Choice(r1, arts);
    st', r' := st, r2;
    if src.id != tgt.id && (src.id, tgt.id) !in st.seen {
      var (w, r3) := Uniform(r2, 40, 60);
      var (lab, r4) := GenerateLabel(RelatedTo, tgt, r3);
      var e := Edge(src.id, tgt.id, RelatedTo, w, lab);
      FillEmitKeeps(arts, st0, st, src, tgt, e);
      st', r' := Emit(st, e), r4;
    }
  }

  /** Emitting a fill edge between two distinct articles keeps the fill pass's invariants. */
  lemma FillEmitKeeps(arts: seq<Article>, st0: GenState, st: GenState, src: Article, tgt: Article, e: Edge)
    requires Sound(st) && Extends(st0, st) && forall e' | e' in Added(st0, st) :: FillEdge(arts, e')
    requires src in arts && tgt in arts && src.id != tgt.id && (src.id, tgt.id) !in st.seen
    requires e.source == src.id && e.target == tgt.id && e.kind == RelatedTo && 40 <= e.weight <= 60
    requires LabelFits(e.anchor, FromTemplates, RelatedTo, tgt)
    ensures Sound(Emit(st, e)) && Extends(st0, Emit(st, e))
    ensures forall e' | e' in Added(st0, Emit(st, e)) :: FillEdge(arts, e')
  {
    EmitSound(st, e);
    AddedEmit(st0, st, e);
    assert FillEdge(arts, e);
  }

  // ------------------------------------------------------------ whole script

  /** A duplicate-pass edge. */
  ghost predicate DuplicateEdge(arts: seq<Article>, e: Edge) {
    e.kind == DuplicateOf && e.weight == 100 && e.anchor == "Ten sam artykuł" && SameSlug(arts, e)
  }

  /** The shape of a gap-pass edge, without the condition on the edges before the pass. */
  ghost predicate GapShape(arts: seq<Article>, e: Edge) {
    exists before :: GapEdge(arts, before, e)
  }

  /** The edge was produced by one of the seven rules. */
  ghost predicate RuleEdge(arts: seq<Article>, e: Edge) {
    DuplicateEdge(arts, e) || CategoryEdge(arts, e) || PrereqEdge(arts, e)
    || KeywordEdge(arts, KeywordTable(arts), e) || HubEdge(arts, e) || GapShape(arts, e) || FillEdge(arts, e)
  }

  /** The script from `EXISTING_EDGES` to the final edge list: the seven rules in
      order.  The result is `None` exactly when a hub id is missing, where the
      script stops with `StopIteration`. */
  method Generate(arts: seq<Article>, r: Rng, fuel: nat) returns (res: Option<GenState>, r': Rng)
    requires UniqueIds(arts) && |arts| > 0
    ensures res.Some? <==> forall h | h in Hubs :: FindById(arts, h).Some?
    ensures res.Some? ==> Sound(res.value) && Seed <= res.value.seen
    ensures res.Some? ==> forall e | e in res.value.edges :: RuleEdge(arts, e)
  {
    var st0 := GenState([], Seed);
    var st1 := DuplicatePass(arts, st0);
    var st2, st3, st4, st5, st6, st7, ok, reached;
    st2, r' := CategoryPass(arts, st1, r);
    st3, r' := PrereqPass(arts, st2, r');
    st4, r' := KeywordPass(arts, st3, r');
    ok, st5, r' := HubPass(arts, st4, r');
    if !ok {
      return None, r';
    }
    st6, r' := GapPass(arts, st5, r');
    st7, r', reached := FillPass(arts, st6, r', fuel);
    GenerateCompose(arts, st0, st1, st2, st3, st4, st5, st6, st7);
    res := Some(st7);
  }

  lemma GenerateCompose(arts: seq<Article>, st0: GenState, st1: GenState, st2: GenState, st3: GenState,
                        st4: GenState, st5: GenState, st6: GenState, st7: GenState)
    requires st0.edges == []
    requires Extends(st0, st1) && Extends(st1, st2) && Extends(st2, st3) && Extends(st3, st4)
    requires Extends(st4, st5) && Extends(st5, st6) && Extends(st6, st7)
    requires forall e | e in Added(st0, st1) :: DuplicateEdge(arts, e)
    requires forall e | e in Added(st1, st2) :: CategoryEdge(arts, e)
    requires forall e | e in Added(st2, st3) :: PrereqEdge(arts, e)
    requires forall e | e in Added(st3, st4) :: KeywordEdge(arts, KeywordTable(arts), e)
    requires forall e | e in Added(st4, st5) :: HubEdge(arts, e)
    requires forall e | e in Added(st5, st6) :: GapEdge(arts, st5.edges, e)
    requires forall e | e in Added(st6, st7) :: FillEdge(arts, e)
    ensures forall e | e in st7.edges :: RuleEdge(arts, e)
  {
    assert st7.edges == Added(st0, st1) + Added(st1, st2) + Added(st2, st3) + Added(st3, st4)
                        + Added(st4, st5) + Added(st5, st6) + Added(st6, st7);
    forall e | e in Added(st5, st6) ensures GapShape(arts, e) {
      assert GapEdge(arts, st5.edges, e);
    }
  }

  /** The catalogue's ids ascend strictly, so they are unique. */
  lemma CatalogueUniqueIds()
    ensures UniqueIds(Catalogue) && |Catalogue| == 50
  {
    Rows0Ascend();
    Rows1Ascend();
    Rows2Ascend();
    Rows3Ascend();
    Rows4Ascend();
    var r01 := CatalogueRows0 + CatalogueRows1;
    AscendingAppend(CatalogueRows0, CatalogueRows1);
    var r012 := r01 + CatalogueRows2;
    AscendingAppend(r01, CatalogueRows2);
    var r0123 := r012 + CatalogueRows3;
    AscendingAppend(r012, CatalogueRows3);
    AscendingAppend(r0123, CatalogueRows4);
    AscendingUnique(Catalogue);
  }

  /** Each id is below the next one. */
  predicate Ascending(arts: seq<Article>) {
    forall k | 0 <= k < |arts| - 1 :: arts[k].id < arts[k + 1].id
  }

  lemma AscendingAppend(a: seq<Article>, b: seq<Article>)
    requires Ascending(a) && Ascending(b) && a != [] && b != [] && a[|a| - 1].id < b[0].id
    ensures Ascending(a + b)
  {
    var c := a + b;
    forall k | 0 <= k < |c| - 1 ensures c[k].id < c[k + 1].id {
      if k < |a| - 1 {
        assert c[k] == a[k] && c[k + 1] == a[k + 1];
      } else if k == |a| - 1 {
        assert c[k] == a[k] && c[k + 1] == b[0];
      } else {
        assert c[k] == b[k - |a|] && c[k + 1] == b[k - |a| + 1];
      }
    }
  }

  lemma AscendingUnique(arts: seq<Article>)
    requires Ascending(arts)
    ensures UniqueIds(arts)
  {
    forall i, j | 0 <= i < j < |arts| ensures arts[i].id < arts[j].id {
      AscendingTransitive(arts, i, j);
    }
  }

  lemma Rows0Ascend()
    ensures |CatalogueRows0| == 10 && Ascending(CatalogueRows0)
  {
    assert CatalogueRows0[0].id < CatalogueRows0[1].id;
    assert CatalogueRows0[1].id < CatalogueRows0[2].id;
    assert CatalogueRows0[2].id < CatalogueRows0[3].id;
    assert CatalogueRows0[3].id < CatalogueRows0[4].id;
    assert CatalogueRows0[4].id < CatalogueRows0[5].id;
    assert CatalogueRows0[5].id < CatalogueRows0[6].id;
    assert CatalogueRows0[6].id < CatalogueRows0[7].id;
    assert CatalogueRows0[7].id < CatalogueRows0[8].id;
    assert CatalogueRows0[8].id < CatalogueRows0[9].id;
  }

  lemma Rows1Ascend()
    ensures |CatalogueRows1| == 10 && Ascending(CatalogueRows1)
  {
    assert CatalogueRows1[0].id < CatalogueRows1[1].id;
    assert CatalogueRows1[1].id < CatalogueRows1[2].id;
    assert CatalogueRows1[2].id < CatalogueRows1[3].id;
    assert CatalogueRows1[3].id < CatalogueRows1[4].id;
    assert CatalogueRows1[4].id < CatalogueRows1[5].id;
    assert CatalogueRows1[5].id < CatalogueRows1[6].id;
    assert CatalogueRows1[6].id < CatalogueRows1[7].id;
    assert CatalogueRows1[7].id < CatalogueRows1[8].id;
    assert CatalogueRows1[8].id < CatalogueRows1[9].id;
  }

  lemma Rows2Ascend()
    ensures |CatalogueRows2| == 10 && Ascending(CatalogueRows2)
  {
    assert CatalogueRows2[0].id < CatalogueRows2[1].id;
    assert CatalogueRows2[1].id < CatalogueRows2[2].id;
    assert CatalogueRows2[2].id < CatalogueRows2[3].id;
    assert CatalogueRows2[3].id < CatalogueRows2[4].id;
    assert CatalogueRows2[4].id < CatalogueRows2[5].id;
    assert CatalogueRows2[5].id < CatalogueRows2[6].id;
    assert CatalogueRows2[6].id < CatalogueRows2[7].id;
    assert CatalogueRows2[7].id < CatalogueRows2[8].id;
    assert CatalogueRows2[8].id < CatalogueRows2[9].id;
  }

  lemma Rows3Ascend()
    ensures |CatalogueRows3| == 10 && Ascending(CatalogueRows3)
  {
    assert CatalogueRows3[0].id < CatalogueRows3[1].id;
    assert CatalogueRows3[1].id < CatalogueRows3[2].id;
    assert CatalogueRows3[2].id < CatalogueRows3[3].id;
    assert CatalogueRows3[3].id < CatalogueRows3[4].id;
    assert CatalogueRows3[4].id < CatalogueRows3[5].id;
    assert CatalogueRows3[5].id < CatalogueRows3[6].id;
    assert CatalogueRows3[6].id < CatalogueRows3[7].id;
    assert CatalogueRows3[7].id < CatalogueRows3[8].id;
    assert CatalogueRows3[8].id < CatalogueRows3[9].id;
  }

  lemma Rows4Ascend()
    ensures |CatalogueRows4| == 10 && Ascending(CatalogueRows4)
  {
    assert CatalogueRows4[0].id < CatalogueRows4[1].id;
    assert CatalogueRows4[1].id < CatalogueRows4[2].id;
    assert CatalogueRows4[2].id < CatalogueRows4[3].id;
    assert CatalogueRows4[3].id < CatalogueRows4[4].id;
    assert CatalogueRows4[4].id < CatalogueRows4[5].id;
    assert CatalogueRows4[5].id < CatalogueRows4[6].id;
    assert CatalogueRows4[6].id < CatalogueRows4[7].id;
    assert CatalogueRows4[7].id < CatalogueRows4[8].id;
    assert CatalogueRows4[8].id < CatalogueRows4[9].id;
  }

  lemma {:induction false} AscendingTransitive(arts: seq<Article>, i: nat, j: nat)
    requires i < j < |arts|
    requires Ascending(arts)
    ensures arts[i].id < arts[j].id
    decreases j - i
  {
    if i + 1 < j {
      AscendingTransitive(arts, i + 1, j);
    }
  }

  /** Every hub id is a catalogue row, so the script never stops early. */
  lemma CatalogueHasHubs(h: int)
    requires h in Hubs
    ensures FindById(Catalogue, h).Some?
  {
    HubIds();
    var r0, r3 := CatalogueRows0, CatalogueRows3;
    if h == 47 {
      PartFound(r3, 9, 47);
    } else {
      var i := if h == 1 then 0 else if h == 5 then 4 else if h == 7 then 5 else 9;
      PartFound(r0, i, h);
    }
    FoundInParts(r0, CatalogueRows1, CatalogueRows2, r3, CatalogueRows4, h);
  }

  /** Where the hubs sit in the catalogue's parts. */
  lemma HubIds()
    ensures |CatalogueRows0| == 10 && |CatalogueRows3| == 10
    ensures CatalogueRows0[0].id == 1 && CatalogueRows0[4].id == 5 && CatalogueRows0[5].id == 7
    ensures CatalogueRows0[9].id == 11 && CatalogueRows3[9].id == 47
  {
  }

  lemma PartFound(part: seq<Article>, i: nat, h: int)
    requires i < |part| && part[i].id == h
    ensures FindById(part, h).Some?
  {
    assert part[i] in part;
  }

  /** An id found in the first or fourth part is found in the whole. */
  lemma FoundInParts(p0: seq<Article>, p1: seq<Article>, p2: seq<Article>, p3: seq<Article>, p4: seq<Article>, h: int)
    requires FindById(p0, h).Some? || FindById(p3, h).Some?
    ensures FindById(p0 + p1 + p2 + p3 + p4, h).Some?
  {
    var a := if FindById(p0, h).Some? then FindById(p0, h).value else FindById(p3, h).value;
    assert a in p0 + p1 + p2 + p3 + p4;
  }

  // --------------------------------------------------------------------- SQL

  /** Python's `repr` of a weight of `w` hundredths (`1.0`, `0.85`, `0.7`). */
  function WeightText(w: nat): string {
    var whole, frac := w / 100, w % 100;
    NatToString(whole) + "."
      + (if frac == 0 then "0"
         else [DigitChar(frac / 10)] + (if frac % 10 == 0 then "" else [DigitChar(frac % 10)]))
  }

  const InsertPrefix := "INSERT INTO "

  predicate IsInsert(line: string) {
    StartsWith(line, InsertPrefix)
  }

  /** A line whose first character is not `I` is no INSERT statement. */
  lemma NotInsert(line: string)
    requires line == [] || line[0] != 'I'
    ensures !IsInsert(line)
  {
  }

  lemma InsertLines()
    ensures IsInsert(EdgeInsertLine) && IsInsert(SourceInsertLine) && IsInsert(TargetInsertLine)
  {
    PrefixStartsWith(InsertPrefix, "knowledge_edges (");
    PrefixStartsWith(InsertPrefix, "knowledge_edges_source_article_lnk (knowledge_edge_id, article_id)");
    PrefixStartsWith(InsertPrefix, "knowledge_edges_target_article_lnk (knowledge_edge_id, article_id)");
  }

  lemma PrefixStartsWith(p: string, rest: string)
    ensures StartsWith(p + rest, p)
  {
    assert (p + rest)[..|p|] == p;
  }

  const EdgeInsertLine := InsertPrefix + "knowledge_edges ("
  const SourceInsertLine := InsertPrefix + "knowledge_edges_source_article_lnk (knowledge_edge_id, article_id)"
  const TargetInsertLine := InsertPrefix + "knowledge_edges_target_article_lnk (knowledge_edge_id, article_id)"
  const Indent := "    "
  const ColumnsLine1 := Indent + "document_id, relationship_type, weight, anchor_text,"
  const ColumnsLine2 := Indent + "is_active, is_visible, created_at, updated_at"
  const FlagsLine := Indent + "1, 1,"
  const StampsLine := Indent + "datetime('now'), datetime('now')"

  /** The comment line and the column list of the `knowledge_edges` INSERT. */
  function EdgeHead(n: nat, e: Edge): seq<string> {
    [ "-- Edge #" + (NatToString(n) + ": Article " + IntToString(e.source) + " → Article "
        + IntToString(e.target) + " (" + TypeName(e.kind) + ")"),
      EdgeInsertLine, ColumnsLine1, ColumnsLine2, ") VALUES (" ]
  }

  /** The values of the `knowledge_edges` row, the statement end and a blank line. */
  function EdgeValues(e: Edge, docId: string): seq<string> {
    [ "    '" + (docId + "',"), "    '" + (TypeName(e.kind) + "',"), "    " + (WeightText(e.weight) + ","),
      "    '" + (e.anchor + "',"), FlagsLine, StampsLine, ");", "" ]
  }

  /** A link-table INSERT for article `id`. */
  function LinkRows(insert: string, id: int): seq<string> {
    [ insert, "VALUES (last_insert_rowid(), " + (IntToString(id) + ");"), "" ]
  }

  /** The nineteen lines written for edge number `n`. */
  function EdgeBlock(n: nat, e: Edge, docId: string): seq<string> {
    EdgeHead(n, e) + EdgeValues(e, docId) + LinkRows(SourceInsertLine, e.source) + LinkRows(TargetInsertLine, e.target)
  }

  /** The blocks of `edges`, numbered from 11; `docId(n)` is the `uuid4` hex of edge `n`. */
  function Blocks(edges: seq<Edge>, docId: nat -> string): seq<string> {
    if edges == [] then []
    else
      var n := |edges| - 1;
      Blocks(edges[..n], docId) + EdgeBlock(11 + n, edges[n], docId(11 + n))
  }

  const BeginLine := "BEGIN TRANSACTION;"
  const CommitLine := "COMMIT;"

  function Header(count: nat): seq<string> {
    ["-- Generated Knowledge Edges for KSeF Graph", "-- Total: " + (NatToString(count) + " edges"), "", BeginLine, ""]
  }

  const Footer: seq<string> := [CommitLine, ""]

  /** `sql_output`, built line by line as the script appends it. */
  method SqlScript(edges: seq<Edge>, docId: nat -> string) returns (lines: seq<string>)
    ensures lines == Header(|edges|) + Blocks(edges, docId) + Footer
  {
    lines := Header(|edges|);
    var i := 0;
    while i < |edges|
      invariant 0 <= i <= |edges|
      invariant lines == Header(|edges|) + Blocks(edges[..i], docId)
    {
      BlocksSnoc(edges, i, docId);
      AppendAssoc(Header(|edges|), Blocks(edges[..i], docId), EdgeBlock(11 + i, edges[i], docId(11 + i)));
      lines := lines + EdgeBlock(11 + i, edges[i], docId(11 + i));
      i := i + 1;
    }
    assert edges[..i] == edges;
    lines := lines + Footer;
  }

  lemma BlocksSnoc(edges: seq<Edge>, i: nat, docId: nat -> string)
    requires i < |edges|
    ensures Blocks(edges[..i + 1], docId) == Blocks(edges[..i], docId) + EdgeBlock(11 + i, edges[i], docId(11 + i))
  {
    assert edges[..i + 1][..i] == edges[..i];
  }

  /** Each block holds exactly three INSERT statements: the edge row, its source
      link and its target link. */
  lemma CountBlock(n: nat, e: Edge, docId: string)
    ensures |EdgeBlock(n, e, docId)| == 19
    ensures Count(EdgeBlock(n, e, docId), IsInsert) == 3
  {
    var h, v := EdgeHead(n, e), EdgeValues(e, docId);
    var s, t := LinkRows(SourceInsertLine, e.source), LinkRows(TargetInsertLine, e.target);
    CountAppend(h + v + s, t, IsInsert);
    CountAppend(h + v, s, IsInsert);
    CountAppend(h, v, IsInsert);
    HeadCount(n, e);
    ValuesCount(e, docId);
    InsertLines();
    LinkRowsCount(SourceInsertLine, e.source);
    LinkRowsCount(TargetInsertLine, e.target);
  }

  /** The comment and column lines hold the one `knowledge_edges` INSERT. */
  lemma HeadCount(n: nat, e: Edge)
    ensures Count(EdgeHead(n, e), IsInsert) == 1
  {
    var h := EdgeHead(n, e);
    assert h[0] == "-- Edge #" + (NatToString(n) + ": Article " + IntToString(e.source) + " → Article "
      + IntToString(e.target) + " (" + TypeName(e.kind) + ")");
    assert h[0][0] == '-';
    NotInsert(h[0]);
    assert ColumnsLine1[0] == ' ' && ColumnsLine2[0] == ' ';
    NotInsert(ColumnsLine1);
    NotInsert(ColumnsLine2);
    NotInsert(h[4]);
    InsertLines();
    CountFive(h, IsInsert);
  }

  /** The value lines hold no INSERT. */
  lemma ValuesCount(e: Edge, docId: string)
    ensures Count(EdgeValues(e, docId), IsInsert) == 0
  {
    var v := EdgeValues(e, docId);
    NotInsert(v[0]);
    NotInsert(v[1]);
    NotInsert(v[2]);
    NotInsert(v[3]);
    assert FlagsLine[0] == ' ' && StampsLine[0] == ' ';
    NotInsert(FlagsLine);
    NotInsert(StampsLine);
    NotInsert(v[6]);
    NotInsert(v[7]);
    CountNone(v, IsInsert);
  }

  lemma LinkRowsCount(insert: string, id: int)
    requires IsInsert(insert)
    ensures Count(LinkRows(insert, id), IsInsert) == 1
  {
    var l := LinkRows(insert, id);
    NotInsert(l[1]);
    NotInsert(l[2]);
    CountPrefixStep(l, 0, IsInsert);
    CountPrefixStep(l, 1, IsInsert);
    CountPrefixStep(l, 2, IsInsert);
    assert l[..3] == l;
  }

  lemma CountFive(h: seq<string>, p: string -> bool)
    requires |h| == 5 && !p(h[0]) && p(h[1]) && !p(h[2]) && !p(h[3]) && !p(h[4])
    ensures Count(h, p) == 1
  {
    CountPrefixStep(h, 0, p);
    CountPrefixStep(h, 1, p);
    CountPrefixStep(h, 2, p);
    CountPrefixStep(h, 3, p);
    CountPrefixStep(h, 4, p);
    assert h[..5] == h;
  }

  /** Every edge contributes nineteen lines, three of them INSERT statements. */
  lemma {:induction false} BlocksShape(edges: seq<Edge>, docId: nat -> string)
    ensures |Blocks(edges, docId)| == 19 * |edges|
    ensures Count(Blocks(edges, docId), IsInsert) == 3 * |edges|
  {
    if edges != [] {
      var n := |edges| - 1;
      BlocksShape(edges[..n], docId);
      CountAppend(Blocks(edges[..n], docId), EdgeBlock(11 + n, edges[n], docId(11 + n)), IsInsert);
      CountBlock(11 + n, edges[n], docId(11 + n));
    }
  }

  lemma HeaderHasNoInsert(count: nat)
    ensures |Header(count)| == 5 && Header(count)[3] == BeginLine
    ensures Count(Header(count), IsInsert) == 0
  {
    var h := Header(count);
    NotInsert(h[0]);
    NotInsert(h[1]);
    NotInsert(h[2]);
    NotInsert(BeginLine);
    NotInsert(h[4]);
    CountNone(h, IsInsert);
  }

  lemma FooterHasNoInsert()
    ensures Count(Footer, IsInsert) == 0
  {
    NotInsert(CommitLine);
    NotInsert(Footer[1]);
    CountNone(Footer, IsInsert);
  }

  /** The script opens a transaction, holds three INSERTs per edge and commits last. */
  lemma ScriptShape(edges: seq<Edge>, docId: nat -> string)
    ensures var lines := Header(|edges|) + Blocks(edges, docId) + Footer;
      |lines| == 7 + 19 * |edges|
      && lines[3] == BeginLine && lines[|lines| - 2] == CommitLine
      && Count(lines, IsInsert) == 3 * |edges|
  {
    BlocksShape(edges, docId);
    HeaderHasNoInsert(|edges|);
    FooterHasNoInsert();
    ShapeOfParts(Header(|edges|), Blocks(edges, docId), |edges|);
  }

  lemma ShapeOfParts(h: seq<string>, b: seq<string>, n: nat)
    requires |h| == 5 && h[3] == BeginLine && Count(h, IsInsert) == 0
    requires |b| == 19 * n && Count(b, IsInsert) == 3 * n
    requires Count(Footer, IsInsert) == 0
    ensures var lines := h + b + Footer;
      |lines| == 7 + 19 * n && lines[3] == BeginLine && lines[|lines| - 2] == CommitLine
      && Count(lines, IsInsert) == 3 * n
  {
    CountAppend(h, b, IsInsert);
    CountAppend(h + b, Footer, IsInsert);
    var lines := h + b + Footer;
    assert lines[3] == h[3];
    assert lines[|lines| - 2] == Footer[0];
  }
}
