/** The filter sidebar: the four selection lists (categories, difficulty
    levels, content types, tags), the summary of active filters, the toggles
    and the removal of one active filter, and the facet counts the knowledge
    base sidebar computes from the loaded articles. */
module SidebarFilters {
  import opened Wrappers
  import opened Collections
  import opened Ordering

  datatype Facet = CategoryFacet | DifficultyFacet | TypeFacet | TagFacet

  datatype Selections = Selections(
    categories: seq<string>, difficulty: seq<string>, types: seq<string>, tags: seq<string>)

  function Get(s: Selections, f: Facet): seq<string> {
    match f
    case CategoryFacet => s.categories
    case DifficultyFacet => s.difficulty
    case TypeFacet => s.types
    case TagFacet => s.tags
  }

  /** The selections with facet `f`'s list replaced: the `on…Change(list)` callback. */
  function With(s: Selections, f: Facet, list: seq<string>): (r: Selections)
    ensures Get(r, f) == list
    ensures forall g :: g != f ==> Get(r, g) == Get(s, g)
  {
    match f
    case CategoryFacet => s.(categories := list)
    case DifficultyFacet => s.(difficulty := list)
    case TypeFacet => s.(types := list)
    case TagFacet => s.(tags := list)
  }

  /** `activeFilters`: the four lists one after another. */
  function ActiveFilters(s: Selections): (r: seq<string>)
    ensures |r| == |s.categories| + |s.difficulty| + |s.types| + |s.tags|
    ensures r[..|s.categories|] == s.categories
    ensures forall x :: x in r <==> exists f :: x in Get(s, f)
  {
    var r := s.categories + s.difficulty + s.types + s.tags;
    assert forall x :: x in r <==> x in Get(s, CategoryFacet) || x in Get(s, DifficultyFacet) || x in Get(s, TypeFacet) || x in Get(s, TagFacet);
    r
  }

  /** `toggleCategory`, `toggleDifficulty`, `toggleType` and `toggleTag`. */
  function ToggleFacet(s: Selections, f: Facet, item: string): (r: Selections)
    ensures Get(r, f) == Toggle(Get(s, f), item)
    ensures forall g :: g != f ==> Get(r, g) == Get(s, g)
  {
    With(s, f, Toggle(Get(s, f), item))
  }

  /** A toggle flips the item in its own list, keeps that list's other
      members, and toggling twice restores the item's membership. */
  lemma ToggleFacetFlips(s: Selections, f: Facet, item: string)
    ensures item in Get(ToggleFacet(s, f, item), f) <==> item !in Get(s, f)
    ensures forall y :: y != item ==> (y in Get(ToggleFacet(s, f, item), f) <==> y in Get(s, f))
    ensures item in Get(ToggleFacet(ToggleFacet(s, f, item), f, item), f) <==> item in Get(s, f)
  {
    ToggleFlips(Get(s, f), item);
  }

  /** The first list, in the order categories, difficulty, types, tags, that holds `x`. */
  function FirstHolder(s: Selections, x: string): (h: Option<Facet>)
    ensures h == None <==> x !in s.categories && x !in s.difficulty && x !in s.types && x !in s.tags
    ensures h == Some(CategoryFacet) <==> x in s.categories
    ensures h == Some(DifficultyFacet) <==> x !in s.categories && x in s.difficulty
    ensures h == Some(TypeFacet) <==> x !in s.categories && x !in s.difficulty && x in s.types
    ensures h == Some(TagFacet) <==> x !in s.categories && x !in s.difficulty && x !in s.types && x in s.tags
  {
    if x in s.categories then Some(CategoryFacet)
    else if x in s.difficulty then Some(DifficultyFacet)
    else if x in s.types then Some(TypeFacet)
    else if x in s.tags then Some(TagFacet)
    else None
  }

  /** `removeFilter(x)`: every occurrence of `x` leaves the first list that
      holds it; the other lists are untouched, even when they hold `x` too. */
  function RemoveFilter(s: Selections, x: string): (r: Selections)
    ensures FirstHolder(s, x).None? ==> r == s
    ensures FirstHolder(s, x).Some? ==>
      var f := FirstHolder(s, x).value;
      && x !in Get(r, f)
      && (forall y :: y != x ==> (y in Get(r, f) <==> y in Get(s, f)))
      && (forall g :: g != f ==> Get(r, g) == Get(s, g))
  {
    match FirstHolder(s, x)
    case None => s
    case Some(f) => With(s, f, Filter(Get(s, f), (y: string) => y != x))
  }

  /** Removing an active filter shortens the active list; removing anything
      else changes nothing. */
  lemma RemoveFilterShortens(s: Selections, x: string)
    ensures x in ActiveFilters(s) ==> |ActiveFilters(RemoveFilter(s, x))| < |ActiveFilters(s)|
    ensures x !in ActiveFilters(s) ==> RemoveFilter(s, x) == s
  {
    if x in ActiveFilters(s) {
      var f := FirstHolder(s, x).value;
      FilterDropsMember(Get(s, f), x);
      var r := RemoveFilter(s, x);
      assert |Get(r, f)| < |Get(s, f)|;
      assert |ActiveFilters(r)| == |Get(r, CategoryFacet)| + |Get(r, DifficultyFacet)| + |Get(r, TypeFacet)| + |Get(r, TagFacet)|;
    }
  }

  /** Filtering out a member makes the list shorter. */
  lemma {:induction false} FilterDropsMember(s: seq<string>, x: string)
    requires x in s
    ensures |Filter(s, (y: string) => y != x)| < |s|
  {
    if s[0] != x {
      FilterDropsMember(s[1..], x);
    }
  }

  /** The knowledge base sidebar's counting rule: `if (value)` skips empty
      values for categories, types and difficulty levels; tags are counted as
      they are. */
  predicate Counted(v: string, skipEmpty: bool) {
    !skipEmpty || v != []
  }

  /** The values that get counted, in order. */
  function Kept(values: seq<string>, skipEmpty: bool): (r: seq<string>)
    ensures |r| <= |values|
  {
    if values == [] then []
    else
      var last := values[|values| - 1];
      Kept(values[..|values| - 1], skipEmpty) + (if Counted(last, skipEmpty) then [last] else [])
  }

  lemma {:induction false} KeptMembers(values: seq<string>, skipEmpty: bool)
    ensures forall v :: v in Kept(values, skipEmpty) <==> v in values && Counted(v, skipEmpty)
  {
    if values != [] {
      var init := values[..|values| - 1];
      assert values == init + [values[|values| - 1]];
      KeptMembers(init, skipEmpty);
    }
  }

  /** Number of occurrences of `x`. */
  function Occurrences(s: seq<string>, x: string): (n: nat)
    ensures n <= |s|
    ensures n > 0 <==> x in s
  {
    if s == [] then 0
    else
      assert s == s[..|s| - 1] + [s[|s| - 1]];
      Occurrences(s[..|s| - 1], x) + (if s[|s| - 1] == x then 1 else 0)
  }

  lemma OccurrencesSnoc(s: seq<string>, v: string, x: string)
    ensures Occurrences(s + [v], x) == Occurrences(s, x) + (if v == x then 1 else 0)
  {
    assert (s + [v])[..|s|] == s;
  }

  /** One facet entry: a value and how many articles carry it. */
  datatype Entry = Entry(name: string, count: nat)

  /** The entries of the distinct keys `keys`, counted in `s`. */
  function EntriesFor(keys: seq<string>, s: seq<string>): (r: seq<Entry>)
    ensures |r| == |keys|
    ensures forall i :: 0 <= i < |r| ==> r[i] == Entry(keys[i], Occurrences(s, keys[i]))
  {
    if keys == [] then [] else [Entry(keys[0], Occurrences(s, keys[0]))] + EntriesFor(keys[1..], s)
  }

  /** The unsorted entries: one per distinct counted value, in order of first appearance. */
  function Tally(values: seq<string>, skipEmpty: bool): (r: seq<Entry>)
    ensures |r| <= |values|
  {
    var kept := Kept(values, skipEmpty);
    EntriesFor(FirstOccurrences(kept), kept)
  }

  function TotalCount(es: seq<Entry>): nat {
    if es == [] then 0 else es[0].count + TotalCount(es[1..])
  }

  /** Every counted value has exactly one entry, no entry is for a value that
      was not counted, and every count is the value's number of occurrences. */
  lemma TallyEntries(values: seq<string>, skipEmpty: bool)
    ensures forall i, j :: 0 <= i < j < |Tally(values, skipEmpty)| ==> Tally(values, skipEmpty)[i].name != Tally(values, skipEmpty)[j].name
    ensures forall v :: (exists e :: e in Tally(values, skipEmpty) && e.name == v) <==> v in values && Counted(v, skipEmpty)
    ensures forall e :: e in Tally(values, skipEmpty) ==> e.count == Occurrences(Kept(values, skipEmpty), e.name) && e.count > 0
  {
    var kept := Kept(values, skipEmpty);
    KeptMembers(values, skipEmpty);
    var keys := FirstOccurrences(kept);
    var t := Tally(values, skipEmpty);
    forall v | v in values && Counted(v, skipEmpty)
      ensures exists e :: e in t && e.name == v
    {
      var i :| 0 <= i < |keys| && keys[i] == v;
      assert t[i] in t;
    }
  }

  /** The counts add up to the number of counted values. */
  lemma TallyTotal(values: seq<string>, skipEmpty: bool)
    ensures TotalCount(Tally(values, skipEmpty)) == |Kept(values, skipEmpty)|
  {
    var kept := Kept(values, skipEmpty);
    SumOverDistinctKeys(FirstOccurrences(kept), kept);
  }

  /** Occurrences counted over distinct keys that cover `s` add up to `|s|`. */
  lemma {:induction false} SumOverDistinctKeys(keys: seq<string>, s: seq<string>)
    requires forall i, j :: 0 <= i < j < |keys| ==> keys[i] != keys[j]
    requires forall v :: v in s ==> v in keys
    ensures TotalCount(EntriesFor(keys, s)) == |s|
    decreases |s|
  {
    if s == [] {
      ZeroCounts(keys, s);
    } else {
      var init, v := s[..|s| - 1], s[|s| - 1];
      assert s == init + [v];
      SumOverDistinctKeys(keys, init);
      TotalSnoc(keys, init, v);
      KeyOnce(keys, v);
    }
  }

  lemma {:induction false} ZeroCounts(keys: seq<string>, s: seq<string>)
    requires s == []
    ensures TotalCount(EntriesFor(keys, s)) == 0
  {
    if keys != [] {
      ZeroCounts(keys[1..], s);
    }
  }

  /** The number of keys equal to `v`. */
  function Hits(keys: seq<string>, v: string): nat {
    if keys == [] then 0 else (if keys[0] == v then 1 else 0) + Hits(keys[1..], v)
  }

  lemma {:induction false} TotalSnoc(keys: seq<string>, s: seq<string>, v: string)
    ensures TotalCount(EntriesFor(keys, s + [v])) == TotalCount(EntriesFor(keys, s)) + Hits(keys, v)
  {
    if keys != [] {
      TotalSnoc(keys[1..], s, v);
      OccurrencesSnoc(s, v, keys[0]);
    }
  }

  lemma {:induction false} KeyOnce(keys: seq<string>, v: string)
    requires forall i, j :: 0 <= i < j < |keys| ==> keys[i] != keys[j]
    requires v in keys
    ensures Hits(keys, v) == 1
  {
    if keys[0] != v {
      KeyOnce(keys[1..], v);
    } else {
      KeyAbsent(keys[1..], v);
    }
  }

  lemma {:induction false} KeyAbsent(keys: seq<string>, v: string)
    requires v !in keys
    ensures Hits(keys, v) == 0
  {
    if keys != [] {
      KeyAbsent(keys[1..], v);
    }
  }

  lemma {:induction false} TotalAppend(a: seq<Entry>, b: seq<Entry>)
    ensures TotalCount(a + b) == TotalCount(a) + TotalCount(b)
  {
    if a != [] {
      assert (a + b)[1..] == a[1..] + b;
      TotalAppend(a[1..], b);
    } else {
      assert a + b == b;
    }
  }

  /** Reordering the entries keeps their total. */
  lemma {:induction false} TotalOfPermutation(a: seq<Entry>, b: seq<Entry>)
    requires multiset(a) == multiset(b)
    ensures TotalCount(a) == TotalCount(b)
    decreases |a|
  {
    if a == [] {
      assert |b| == |multiset(b)| == 0;
    } else {
      var i := IndexOfEntry(b, a[0]);
      var rest := b[..i] + b[i + 1..];
      RemoveMatching(a, b, i);
      TotalOfPermutation(a[1..], rest);
      TotalWithout(b, i);
    }
  }

  /** Taking the first entry of `a` out of `b` where it sits keeps the two alike. */
  lemma RemoveMatching(a: seq<Entry>, b: seq<Entry>, i: nat)
    requires multiset(a) == multiset(b) && a != []
    requires i < |b| && b[i] == a[0]
    ensures multiset(a[1..]) == multiset(b[..i] + b[i + 1..])
  {
    var pre, post := b[..i], b[i + 1..];
    assert b == pre + ([b[i]] + post);
    assert multiset(b) == multiset(pre) + multiset{b[i]} + multiset(post);
    assert multiset(pre + post) == multiset(pre) + multiset(post);
    assert a == [a[0]] + a[1..];
    assert multiset(a) == multiset{a[0]} + multiset(a[1..]);
    assert multiset(a[1..]) == multiset(a) - multiset{a[0]};
    assert multiset(pre + post) == multiset(b) - multiset{b[i]};
  }

  /** The total without the entry at `i` is the total less its count. */
  lemma TotalWithout(b: seq<Entry>, i: nat)
    requires i < |b|
    ensures TotalCount(b) == TotalCount(b[..i] + b[i + 1..]) + b[i].count
  {
    var pre, post := b[..i], b[i + 1..];
    var mid := [b[i]] + post;
    assert b == pre + mid;
    TotalAppend(pre, mid);
    assert mid[0] == b[i] && mid[1..] == post;
    assert TotalCount(mid) == b[i].count + TotalCount(post);
    TotalAppend(pre, post);
  }

  /** A position of `e` in `b`. */
  function IndexOfEntry(b: seq<Entry>, e: Entry): (i: nat)
    requires e in multiset(b)
    ensures i < |b| && b[i] == e
  {
    if b[0] == e then 0
    else
      assert b == [b[0]] + b[1..];
      1 + IndexOfEntry(b[1..], e)
  }

  /** `keys` and `counts` are the insertion-ordered keys and the counts of
      a `Map` that has counted `kept`. */
  ghost predicate Tallied(keys: seq<string>, counts: map<string, nat>, kept: seq<string>) {
    && keys == FirstOccurrences(kept)
    && (forall k :: k in counts <==> k in keys)
    && (forall k :: k in counts ==> counts[k] == Occurrences(kept, k))
  }

  /** `map.set(v, (map.get(v) || 0) + 1)` on a `Map` with insertion-ordered keys. */
  function CountOne(keys: seq<string>, counts: map<string, nat>, v: string): (seq<string>, map<string, nat>) {
    (if v in counts then keys else keys + [v], counts[v := GetOrZero(counts, v) + 1])
  }

  /** Counting one more `v` keeps the map in step with the counted values. */
  lemma TalliedStep(keys: seq<string>, counts: map<string, nat>, kept: seq<string>, v: string)
    requires Tallied(keys, counts, kept)
    ensures Tallied(CountOne(keys, counts, v).0, CountOne(keys, counts, v).1, kept + [v])
  {
    var keys', counts' := CountOne(keys, counts, v).0, CountOne(keys, counts, v).1;
    FirstOccurrencesSnoc(kept, v);
    assert v in counts <==> v in kept;
    assert keys' == FirstOccurrences(kept + [v]);
    assert forall k :: k in counts' <==> k in keys';
    forall k | k in counts' ensures counts'[k] == Occurrences(kept + [v], k) {
      OccurrencesSnoc(kept, v, k);
      if k == v {
        assert counts'[k] == GetOrZero(counts, v) + 1 == Occurrences(kept, v) + 1;
      } else {
        assert counts'[k] == counts[k];
      }
    }
  }

  lemma KeptSnoc(values: seq<string>, i: nat, skipEmpty: bool)
    requires i < |values|
    ensures Kept(values[..i + 1], skipEmpty) == Kept(values[..i], skipEmpty) + (if Counted(values[i], skipEmpty) then [values[i]] else [])
  {
    assert values[..i + 1][..i] == values[..i];
  }

  /** The Map-and-loop count of the source: keys in order of first
      insertion, and one more for the key of every counted value. */
  method CountValues(values: seq<string>, skipEmpty: bool) returns (keys: seq<string>, counts: map<string, nat>)
    ensures Tallied(keys, counts, Kept(values, skipEmpty))
  {
    keys, counts := [], map[];
    var i := 0;
    while i < |values|
      invariant 0 <= i <= |values|
      invariant Tallied(keys, counts, Kept(values[..i], skipEmpty))
    {
      var v := values[i];
      KeptSnoc(values, i, skipEmpty);
      if Counted(v, skipEmpty) {
        TalliedStep(keys, counts, Kept(values[..i], skipEmpty), v);
        keys, counts := CountOne(keys, counts, v).0, CountOne(keys, counts, v).1;
      } else {
        assert Kept(values[..i + 1], skipEmpty) == Kept(values[..i], skipEmpty);
      }
      i := i + 1;
    }
    assert values[..i] == values;
  }

  function CountKey(e: Entry): real { e.count as real }

  /** `Array.from(map.entries()).map(…).sort((a, b) => b.count - a.count)`:
      the tally sorted by non-increasing count. */
  method FacetEntries(values: seq<string>, skipEmpty: bool) returns (entries: seq<Entry>)
    ensures multiset(entries) == multiset(Tally(values, skipEmpty))
    ensures SortedBy(entries, ByKeyDesc(CountKey))
  {
    var keys, counts := CountValues(values, skipEmpty);
    var unsorted := EntriesOf(keys, counts, Kept(values, skipEmpty));
    KeyOrdersArePreorders(CountKey);
    entries := SortBy(unsorted, ByKeyDesc(CountKey));
  }

  /** `Array.from(map.entries())`: one entry per key in insertion order. */
  method EntriesOf(keys: seq<string>, counts: map<string, nat>, ghost kept: seq<string>) returns (unsorted: seq<Entry>)
    requires Tallied(keys, counts, kept)
    ensures unsorted == EntriesFor(keys, kept)
  {
    unsorted := [];
    for i := 0 to |keys|
      invariant unsorted == EntriesFor(keys[..i], kept)
    {
      assert keys[..i + 1] == keys[..i] + [keys[i]];
      EntriesForSnoc(keys[..i], keys[i], kept);
      unsorted := unsorted + [Entry(keys[i], counts[keys[i]])];
    }
    assert keys[..|keys|] == keys;
  }

  lemma {:induction false} EntriesForSnoc(keys: seq<string>, k: string, s: seq<string>)
    ensures EntriesFor(keys + [k], s) == EntriesFor(keys, s) + [Entry(k, Occurrences(s, k))]
  {
  }

  /** `categories`: one entry per distinct non-empty category, by count;
      the counts add up to the number of articles with a category. */
  method CategoryEntries(categories: seq<string>) returns (entries: seq<Entry>)
    ensures multiset(entries) == multiset(Tally(categories, true))
    ensures SortedBy(entries, ByKeyDesc(CountKey))
    ensures TotalCount(entries) == |Kept(categories, true)|
  {
    entries := FacetEntries(categories, true);
    TallyTotal(categories, true);
    TotalOfPermutation(entries, Tally(categories, true));
  }

  /** All tags of all articles, in order. */
  function Flatten(lists: seq<seq<string>>): (r: seq<string>)
    ensures forall t :: t in r <==> exists l :: l in lists && t in l
  {
    if lists == [] then [] else lists[0] + Flatten(lists[1..])
  }

  /** `.map(([tag]) => tag)`. */
  function Names(es: seq<Entry>): (r: seq<string>)
    ensures |r| == |es| && forall i :: 0 <= i < |es| ==> r[i] == es[i].name
  {
    if es == [] then [] else [es[0].name] + Names(es[1..])
  }

  /** `popularTags`: the eight most frequent tags, most frequent first: as
      many distinct tags as there are, up to eight, and none left out occurs
      more often than one shown. */
  method PopularTags(tagLists: seq<seq<string>>) returns (tags: seq<string>)
    ensures |tags| == Min(8, |set t | t in Flatten(tagLists)|)
    ensures forall i, j :: 0 <= i < j < |tags| ==> tags[i] != tags[j]
    ensures forall t :: t in tags ==> t in Flatten(tagLists)
    ensures forall i, j :: 0 <= i < j < |tags| ==> Occurrences(Flatten(tagLists), tags[i]) >= Occurrences(Flatten(tagLists), tags[j])
    ensures forall t, u :: t in Flatten(tagLists) && t !in tags && u in tags ==> Occurrences(Flatten(tagLists), t) <= Occurrences(Flatten(tagLists), u)
  {
    var flat := Flatten(tagLists);
    var entries := FacetEntries(flat, false);
    tags := Names(Take(entries, 8));
    MostFrequentFirst(flat, entries, tags);
    EntryTotal(flat, entries);
    EntryNamesDistinct(flat, entries);
    OmittedNotMoreFrequent(flat, entries, tags);
  }

  /** There is one entry per distinct tag. */
  lemma EntryTotal(flat: seq<string>, entries: seq<Entry>)
    requires multiset(entries) == multiset(Tally(flat, false))
    ensures |entries| == |set t | t in flat|
  {
    assert |entries| == |multiset(entries)| == |Tally(flat, false)|;
    KeptAll(flat);
    FirstOccurrencesSize(flat);
  }

  /** No two entries of a reordered tally name the same tag. */
  lemma EntryNamesDistinct(flat: seq<string>, entries: seq<Entry>)
    requires multiset(entries) == multiset(Tally(flat, false))
    ensures forall i, j :: 0 <= i < j < |entries| ==> entries[i].name != entries[j].name
  {
    var t := Tally(flat, false);
    TallyEntries(flat, false);
    DistinctPermutation(entries, t);
    forall i, j | 0 <= i < j < |entries| ensures entries[i].name != entries[j].name {
      EntryCounts(flat, entries, i);
      EntryCounts(flat, entries, j);
    }
  }

  /** A tag behind the first eight entries never occurs more often than one of them. */
  lemma OmittedNotMoreFrequent(flat: seq<string>, entries: seq<Entry>, tags: seq<string>)
    requires multiset(entries) == multiset(Tally(flat, false))
    requires SortedBy(entries, ByKeyDesc(CountKey))
    requires tags == Names(Take(entries, 8))
    ensures forall t, u :: t in flat && t !in tags && u in tags ==> Occurrences(flat, t) <= Occurrences(flat, u)
  {
    assert |tags| <= |entries| && forall i :: 0 <= i < |tags| ==> tags[i] == entries[i].name;
    forall t, u | t in flat && t !in tags && u in tags
      ensures Occurrences(flat, t) <= Occurrences(flat, u)
    {
      var q :| 0 <= q < |tags| && tags[q] == u;
      OmittedBehind(flat, entries, tags, t, q);
    }
  }

  lemma OmittedBehind(flat: seq<string>, entries: seq<Entry>, tags: seq<string>, t: string, q: nat)
    requires multiset(entries) == multiset(Tally(flat, false))
    requires SortedBy(entries, ByKeyDesc(CountKey))
    requires |tags| <= |entries| && forall i :: 0 <= i < |tags| ==> tags[i] == entries[i].name
    requires t in flat && t !in tags && q < |tags|
    ensures Occurrences(flat, t) <= Occurrences(flat, tags[q])
  {
    var p := EntryOfTag(flat, entries, t);
    SortedDescending(entries, CountKey, q, p);
    EntryCounts(flat, entries, p);
    EntryCounts(flat, entries, q);
  }

  /** The names of a prefix of the sorted tally are counted values, by
      non-increasing number of occurrences. */
  lemma MostFrequentFirst(flat: seq<string>, entries: seq<Entry>, tags: seq<string>)
    requires multiset(entries) == multiset(Tally(flat, false))
    requires SortedBy(entries, ByKeyDesc(CountKey))
    requires tags == Names(Take(entries, 8))
    ensures forall t :: t in tags ==> t in flat
    ensures forall i, j :: 0 <= i < j < |tags| ==> Occurrences(flat, tags[i]) >= Occurrences(flat, tags[j])
  {
    forall t | t in tags ensures t in flat {
      var k :| 0 <= k < |tags| && tags[k] == t;
      EntryCounts(flat, entries, k);
    }
    forall i, j | 0 <= i < j < |tags|
      ensures Occurrences(flat, tags[i]) >= Occurrences(flat, tags[j])
    {
      assert tags[i] == entries[i].name && tags[j] == entries[j].name;
      SortedDescending(entries, CountKey, i, j);
      EntryCounts(flat, entries, i);
      EntryCounts(flat, entries, j);
    }
  }

  /** Every tag has an entry in a reordered tally. */
  lemma EntryOfTag(flat: seq<string>, entries: seq<Entry>, t: string) returns (p: nat)
    requires multiset(entries) == multiset(Tally(flat, false))
    requires t in flat
    ensures p < |entries| && entries[p].name == t
  {
    TallyEntries(flat, false);
    var e :| e in Tally(flat, false) && e.name == t;
    assert e in multiset(entries);
    p := IndexOfEntry(entries, e);
  }

  /** An entry of a reordered tally names a tag and counts its occurrences. */
  lemma EntryCounts(flat: seq<string>, entries: seq<Entry>, k: int)
    requires multiset(entries) == multiset(Tally(flat, false))
    requires 0 <= k < |entries|
    ensures entries[k].name in flat && entries[k].count == Occurrences(flat, entries[k].name)
  {
    TallyEntries(flat, false);
    KeptAll(flat);
    assert entries[k] in multiset(entries);
    assert entries[k] in Tally(flat, false);
  }

  lemma {:induction false} KeptAll(values: seq<string>)
    ensures Kept(values, false) == values
  {
    if values != [] {
      KeptAll(values[..|values| - 1]);
    }
  }

  /** A difficulty badge. */
  datatype Level = Level(level: string, color: string, count: nat)

  /** The three levels in their fixed order, with `diffMap.get(level) || 0`. */
  function AllLevels(difficulties: seq<string>): seq<Level> {
    var kept := Kept(difficulties, true);
    [Level("Podstawowy", "bg-green-100 text-green-700", Occurrences(kept, "Podstawowy")),
     Level("Średni", "bg-yellow-100 text-yellow-700", Occurrences(kept, "Średni")),
     Level("Zaawansowany", "bg-red-100 text-red-700", Occurrences(kept, "Zaawansowany"))]
  }

  /** `difficultyLevels`: the levels some article has, in the fixed order. */
  method DifficultyLevels(difficulties: seq<string>) returns (levels: seq<Level>)
    ensures levels == Filter(AllLevels(difficulties), (l: Level) => l.count > 0)
    ensures forall l :: l in levels ==> l.count > 0 && l.count == Occurrences(difficulties, l.level)
  {
    var keys, counts := CountValues(difficulties, true);
    var all := [
      Level("Podstawowy", "bg-green-100 text-green-700", GetOrZero(counts, "Podstawowy")),
      Level("Średni", "bg-yellow-100 text-yellow-700", GetOrZero(counts, "Średni")),
      Level("Zaawansowany", "bg-red-100 text-red-700", GetOrZero(counts, "Zaawansowany"))];
    LevelCounts(keys, counts, difficulties);
    levels := Filter(all, (l: Level) => l.count > 0);
  }

  /** `map.get(k) || 0`. */
  function GetOrZero(counts: map<string, nat>, k: string): nat {
    if k in counts then counts[k] else 0
  }

  /** The counts the method reads are those of `AllLevels`. */
  lemma LevelCounts(keys: seq<string>, counts: map<string, nat>, difficulties: seq<string>)
    requires Tallied(keys, counts, Kept(difficulties, true))
    ensures forall l :: l in ["Podstawowy", "Średni", "Zaawansowany"] ==>
      GetOrZero(counts, l) == Occurrences(Kept(difficulties, true), l) == Occurrences(difficulties, l)
  {
    forall l | l in ["Podstawowy", "Średni", "Zaawansowany"]
      ensures GetOrZero(counts, l) == Occurrences(Kept(difficulties, true), l) == Occurrences(difficulties, l)
    {
      KeptNonEmpty(difficulties, l);
    }
  }

  /** Skipping empty values does not change the count of a non-empty one. */
  lemma {:induction false} KeptNonEmpty(values: seq<string>, x: string)
    requires x != []
    ensures Occurrences(Kept(values, true), x) == Occurrences(values, x)
  {
    if values != [] {
      var init, v := values[..|values| - 1], values[|values| - 1];
      KeptNonEmpty(init, x);
      assert Kept(values, true) == Kept(init, true) + (if v != [] then [v] else []);
      assert Occurrences(values, x) == Occurrences(init, x) + (if v == x then 1 else 0);
      if v != [] {
        OccurrencesSnoc(Kept(init, true), v, x);
      } else {
        assert Kept(values, true) == Kept(init, true);
      }
    }
  }

  /** The blog prototype's sidebar lists fixed categories, types and tags. */
  const PrototypeCategories: seq<Entry> := [
    Entry("Wszystkie", 234), Entry("Podstawy", 45), Entry("Koszty", 38), Entry("Wdrożenie", 52),
    Entry("Prawo", 41), Entry("Techniczne", 28), Entry("Studia", 18), Entry("Aktualności", 12)]

  const PrototypeTypes: seq<Entry> := [
    Entry("Artykuł", 180), Entry("Przewodnik", 42), Entry("Infografika", 15), Entry("Video", 8),
    Entry("Checklist", 12), Entry("FAQ", 25)]

  const PrototypeTags: seq<string> :=
    ["termin wdrożenia", "kary", "koszty", "integracja", "API", "faktury", "mikrofirma", "duża firma"]

  /** Eight categories, the first the catch-all "Wszystkie"; eight tags. */
  lemma PrototypeLists()
    ensures |PrototypeCategories| == 8 && PrototypeCategories[0].name == "Wszystkie"
    ensures |PrototypeTags| == 8
  {
  }
}
