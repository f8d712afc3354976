/** Sequence helpers shared by the modules: `Array.prototype.filter`, the
    insertion-ordered distinct keys of a JavaScript `Map` or Python `defaultdict`,
    and counting. */
module Collections {
  import opened Wrappers

  /** `s.filter(p)`: the elements satisfying `p`, in their original order. */
  function Filter<T(!new)>(s: seq<T>, p: T -> bool): (r: seq<T>)
    ensures |r| <= |s|
    ensures forall x :: x in r <==> x in s && p(x)
    ensures forall i :: 0 <= i < |r| ==> p(r[i])
  {
    if s == [] then [] else (if p(s[0]) then [s[0]] else []) + Filter(s[1..], p)
  }

  /** Filtering distributes over concatenation. */
  lemma {:induction false} FilterAppend<T(!new)>(a: seq<T>, b: seq<T>, p: T -> bool)
    ensures Filter(a + b, p) == Filter(a, p) + Filter(b, p)
  {
    if a != [] {
      assert (a + b)[1..] == a[1..] + b;
      FilterAppend(a[1..], b, p);
    } else {
      assert a + b == b;
    }
  }

  /** Filtering keeps a sub-multiset of the input. */
  lemma {:induction false} FilterSubMultiset<T(!new)>(s: seq<T>, p: T -> bool)
    ensures multiset(Filter(s, p)) <= multiset(s)
  {
    if s != [] {
      assert s == [s[0]] + s[1..];
      FilterSubMultiset(s[1..], p);
    }
  }

  /** Filtering keeps every copy of an accepted element and none of a rejected one. */
  lemma {:induction false} FilterMultiplicity<T(!new)>(s: seq<T>, p: T -> bool, x: T)
    ensures multiset(Filter(s, p))[x] == if p(x) then multiset(s)[x] else 0
  {
    if s != [] {
      assert s == [s[0]] + s[1..];
      FilterMultiplicity(s[1..], p, x);
    }
  }

  /** A filter whose predicate holds everywhere changes nothing. */
  lemma {:induction false} FilterAll<T(!new)>(s: seq<T>, p: T -> bool)
    requires forall i :: 0 <= i < |s| ==> p(s[i])
    ensures Filter(s, p) == s
  {
    if s != [] {
      FilterAll(s[1..], p);
    }
  }

  /** The toggle of a selection list: `s.includes(x) ? s.filter(y => y !== x) : [...s, x]`. */
  function Toggle<T(==,!new)>(s: seq<T>, x: T): (r: seq<T>)
    ensures x in s ==> r == Filter(s, (y: T) => y != x)
    ensures x !in s ==> r == s + [x]
  {
    if x in s then Filter(s, (y: T) => y != x) else s + [x]
  }

  /** A toggle flips the membership of its item and keeps every other one;
      toggling an absent item twice restores the list exactly. */
  lemma ToggleFlips<T(!new)>(s: seq<T>, x: T)
    ensures x in Toggle(s, x) <==> x !in s
    ensures forall y :: y != x ==> (y in Toggle(s, x) <==> y in s)
    ensures x in Toggle(Toggle(s, x), x) <==> x in s
    ensures x !in s ==> Toggle(Toggle(s, x), x) == s
  {
    if x !in s {
      FilterAppend(s, [x], (y: T) => y != x);
      FilterAll(s, (y: T) => y != x);
    }
  }

  /** The distinct values of `ks` in order of first occurrence. */
  function FirstOccurrences<K(==,!new)>(ks: seq<K>): (r: seq<K>)
    ensures forall k :: k in r <==> k in ks
    ensures forall i, j :: 0 <= i < j < |r| ==> r[i] != r[j]
    ensures |r| <= |ks| && (r == [] <==> ks == [])
  {
    if ks == [] then []
    else
      var rest := FirstOccurrences(ks[..|ks| - 1]);
      assert ks == ks[..|ks| - 1] + [ks[|ks| - 1]];
      if ks[|ks| - 1] in rest then rest else rest + [ks[|ks| - 1]]
  }

  /** A value at two positions occurs at least twice. */
  lemma TwiceInMultiset<T>(s: seq<T>, i: nat, j: nat)
    requires i < j < |s| && s[i] == s[j]
    ensures multiset(s)[s[i]] >= 2
  {
    var a, b := s[..j], s[j..];
    assert s == a + b;
    assert a[i] == s[i] && b[0] == s[j];
    assert multiset(s) == multiset(a) + multiset(b);
  }

  /** A list without repeats holds each value at most once. */
  lemma {:induction false} DistinctOnce<T>(s: seq<T>, x: T)
    requires forall i, j :: 0 <= i < j < |s| ==> s[i] != s[j]
    ensures multiset(s)[x] <= 1
  {
    if s != [] {
      var rest := s[1..];
      assert s == [s[0]] + rest;
      DistinctOnce(rest, x);
      if s[0] == x {
        assert x !in rest by {
          forall k | 0 <= k < |rest| ensures rest[k] != x {
            assert rest[k] == s[k + 1];
          }
        }
      }
    }
  }

  /** A reordering of a list without repeats has no repeats. */
  lemma DistinctPermutation<T>(a: seq<T>, b: seq<T>)
    requires multiset(a) == multiset(b)
    requires forall i, j :: 0 <= i < j < |b| ==> b[i] != b[j]
    ensures forall i, j :: 0 <= i < j < |a| ==> a[i] != a[j]
  {
    forall i, j | 0 <= i < j < |a| ensures a[i] != a[j] {
      if a[i] == a[j] {
        TwiceInMultiset(a, i, j);
        DistinctOnce(b, a[i]);
      }
    }
  }

  /** A list without repeats has as many elements as its set of values. */
  lemma {:induction false} DistinctSetSize<K>(r: seq<K>)
    requires forall i, j :: 0 <= i < j < |r| ==> r[i] != r[j]
    ensures |set x | x in r| == |r|
  {
    if r != [] {
      var t := r[..|r| - 1];
      DistinctSetSize(t);
      assert (set x | x in r) == (set x | x in t) + {r[|r| - 1]};
    }
  }

  /** `new Set(ks).size`: the first occurrences are as many as the distinct values. */
  lemma FirstOccurrencesSize<K(!new)>(ks: seq<K>)
    ensures |FirstOccurrences(ks)| == |set x | x in ks|
  {
    var r := FirstOccurrences(ks);
    DistinctSetSize(r);
    assert (set x | x in r) == (set x | x in ks);
  }

  /** Appending a value extends the first occurrences only when it is new. */
  lemma FirstOccurrencesSnoc<K(!new)>(ks: seq<K>, k: K)
    ensures FirstOccurrences(ks + [k]) == if k in ks then FirstOccurrences(ks) else FirstOccurrences(ks) + [k]
  {
    assert (ks + [k])[..|ks|] == ks;
  }

  /** Number of elements satisfying `p`. */
  function Count<T>(s: seq<T>, p: T -> bool): (n: nat)
    ensures n <= |s|
  {
    if s == [] then 0 else Count(s[..|s| - 1], p) + (if p(s[|s| - 1]) then 1 else 0)
  }

  lemma {:induction false} CountAppend<T>(a: seq<T>, b: seq<T>, p: T -> bool)
    ensures Count(a + b, p) == Count(a, p) + Count(b, p)
    decreases |b|
  {
    if b != [] {
      assert (a + b)[..|a + b| - 1] == a + b[..|b| - 1];
      CountAppend(a, b[..|b| - 1], p);
    } else {
      assert a + b == a;
    }
  }

  /** No element satisfies `p`: the count is zero. */
  lemma {:induction false} CountNone<T>(s: seq<T>, p: T -> bool)
    requires forall i | 0 <= i < |s| :: !p(s[i])
    ensures Count(s, p) == 0
  {
    if s != [] {
      CountNone(s[..|s| - 1], p);
    }
  }

  /** A prefix holds nothing the whole does not, counting repetitions. */
  lemma PrefixSubMultiset<T>(s: seq<T>, k: nat)
    requires k <= |s|
    ensures multiset(s[..k]) <= multiset(s)
    ensures forall x :: x in s[..k] ==> x in s
  {
    assert s == s[..k] + s[k..];
    assert multiset(s) == multiset(s[..k]) + multiset(s[k..]);
  }

  lemma AppendAssoc<T>(a: seq<T>, b: seq<T>, c: seq<T>)
    ensures a + b + c == a + (b + c)
  {
  }

  /** One more element extends the count by that element's verdict. */
  lemma CountPrefixStep<T>(s: seq<T>, k: nat, p: T -> bool)
    requires k < |s|
    ensures Count(s[..k + 1], p) == Count(s[..k], p) + (if p(s[k]) then 1 else 0)
  {
    assert s[..k + 1][..k] == s[..k];
  }

  /** The count is the length of the filter. */
  lemma {:induction false} CountIsFilterLength<T(!new)>(s: seq<T>, p: T -> bool)
    ensures Count(s, p) == |Filter(s, p)|
  {
    if s != [] {
      var init := s[..|s| - 1];
      assert s == init + [s[|s| - 1]];
      FilterAppend(init, [s[|s| - 1]], p);
      CountIsFilterLength(init, p);
    }
  }

  /** Index of the first element satisfying `p`, if any: `s.findIndex(p)`. */
  function FindIndex<T>(s: seq<T>, p: T -> bool): (r: int)
    ensures -1 <= r < |s|
    ensures r >= 0 ==> p(s[r]) && forall i :: 0 <= i < r ==> !p(s[i])
    ensures r == -1 ==> forall i :: 0 <= i < |s| ==> !p(s[i])
  {
    if s == [] then -1
    else if p(s[0]) then 0
    else
      var k := FindIndex(s[1..], p);
      if k == -1 then -1 else k + 1
  }

  function Min(a: int, b: int): int {
    if a <= b then a else b
  }

  function Max(a: int, b: int): int {
    if a >= b then a else b
  }

  /** `s.slice(0, end)` for an end that went through `parseInt`: `NaN` (`None`)
      counts as 0, a negative end counts from the back. */
  function SliceTo<T>(s: seq<T>, end: Option<int>): (r: seq<T>)
    ensures |r| <= |s| && r == s[..|r|]
    ensures end.None? ==> r == []
    ensures end.Some? && end.value >= 0 ==> |r| == Min(end.value, |s|)
    ensures end.Some? && end.value < 0 ==> |r| == Max(|s| + end.value, 0)
  {
    if end.None? then []
    else if end.value >= 0 then s[..Min(end.value, |s|)]
    else s[..Max(|s| + end.value, 0)]
  }
}
