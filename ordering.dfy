/** The stable comparison sort that `Array.prototype.sort` performs, over any
    comparator that is a total preorder. */
module Ordering {

  /** `le` is total and transitive on `T`. */
  ghost predicate TotalPreorder<T(!new)>(le: (T, T) -> bool) {
    (forall a, b :: le(a, b) || le(b, a)) &&
    (forall a, b, c :: le(a, b) && le(b, c) ==> le(a, c))
  }

  /** Every earlier element is `le` every later one. */
  predicate SortedBy<T>(s: seq<T>, le: (T, T) -> bool) {
    forall i, j :: 0 <= i < j < |s| ==> le(s[i], s[j])
  }

  /** Places `x` before the first element it is `le`; equal elements stay behind it. */
  function Insert<T(!new)>(x: T, s: seq<T>, le: (T, T) -> bool): (r: seq<T>)
    requires TotalPreorder(le)
    ensures multiset(r) == multiset(s) + multiset{x}
    ensures SortedBy(s, le) ==> SortedBy(r, le)
  {
    if s == [] || le(x, s[0]) then
      [x] + s
    else
      var rest := Insert(x, s[1..], le);
      InsertBehind(x, s, rest, le);
      [s[0]] + rest
  }

  /** Putting the head of `s` in front of `x` inserted into the tail keeps the
      elements and the order. */
  lemma InsertBehind<T(!new)>(x: T, s: seq<T>, rest: seq<T>, le: (T, T) -> bool)
    requires TotalPreorder(le) && s != [] && !le(x, s[0])
    requires multiset(rest) == multiset(s[1..]) + multiset{x}
    requires SortedBy(s[1..], le) ==> SortedBy(rest, le)
    ensures multiset([s[0]] + rest) == multiset(s) + multiset{x}
    ensures SortedBy(s, le) ==> SortedBy([s[0]] + rest, le)
  {
    assert s == [s[0]] + s[1..];
    if SortedBy(s, le) {
      assert SortedBy(s[1..], le);
      forall j | 0 <= j < |rest| ensures le(s[0], rest[j]) {
        assert rest[j] in multiset(rest);
      }
    }
  }

  /** Stable sort of `s` by the comparator `le` (elements that compare equal keep their order). */
  function SortBy<T(!new)>(s: seq<T>, le: (T, T) -> bool): (r: seq<T>)
    requires TotalPreorder(le)
    ensures multiset(r) == multiset(s) && |r| == |s|
    ensures SortedBy(r, le)
  {
    if s == [] then []
    else
      assert s == [s[0]] + s[1..];
      Insert(s[0], SortBy(s[1..], le), le)
  }

  /** The members of a sorted result are exactly the members of the input. */
  lemma SortKeepsMembers<T(!new)>(s: seq<T>, le: (T, T) -> bool, x: T)
    requires TotalPreorder(le)
    ensures x in SortBy(s, le) <==> x in s
  {
    assert x in SortBy(s, le) <==> x in multiset(SortBy(s, le));
    assert x in s <==> x in multiset(s);
  }

  /** Every element of a list sorted descending by `key` has a key at least as large as any later one. */
  lemma SortedDescending<T>(s: seq<T>, key: T -> real, i: int, j: int)
    requires SortedBy(s, ByKeyDesc(key)) && 0 <= i < j < |s|
    ensures key(s[i]) >= key(s[j])
  {
    assert ByKeyDesc(key)(s[i], s[j]);
  }

  /** Descending order on a real-valued key: `(a, b) => key(b) - key(a)`. */
  function ByKeyDesc<T>(key: T -> real): (T, T) -> bool {
    (a: T, b: T) => key(a) >= key(b)
  }

  /** Ascending order on a real-valued key: `(a, b) => key(a) - key(b)`. */
  function ByKeyAsc<T>(key: T -> real): (T, T) -> bool {
    (a: T, b: T) => key(a) <= key(b)
  }

  lemma KeyOrdersArePreorders<T(!new)>(key: T -> real)
    ensures TotalPreorder(ByKeyDesc(key)) && TotalPreorder(ByKeyAsc(key))
  {
  }

  /** Code-unit lexicographic order on strings. */
  predicate LexLe(a: string, b: string) {
    a == [] || (b != [] && (a[0] < b[0] || (a[0] == b[0] && LexLe(a[1..], b[1..]))))
  }

  lemma {:induction false} LexLeTotal(a: string, b: string)
    ensures LexLe(a, b) || LexLe(b, a)
  {
    if a != [] && b != [] && a[0] == b[0] {
      LexLeTotal(a[1..], b[1..]);
    }
  }

  lemma {:induction false} LexLeTransitive(a: string, b: string, c: string)
    requires LexLe(a, b) && LexLe(b, c)
    ensures LexLe(a, c)
  {
    if a != [] && b != [] && c != [] && a[0] == b[0] && b[0] == c[0] {
      LexLeTransitive(a[1..], b[1..], c[1..]);
    }
  }

  /** Ascending order on a string key: `(a, b) => key(a).localeCompare(key(b))`. */
  function ByTextAsc<T>(key: T -> string): (T, T) -> bool {
    (a: T, b: T) => LexLe(key(a), key(b))
  }

  lemma TextOrderIsPreorder<T(!new)>(key: T -> string)
    ensures TotalPreorder(ByTextAsc(key))
  {
    forall a: T, b: T ensures LexLe(key(a), key(b)) || LexLe(key(b), key(a)) {
      LexLeTotal(key(a), key(b));
    }
    forall a: T, b: T, c: T | LexLe(key(a), key(b)) && LexLe(key(b), key(c))
      ensures LexLe(key(a), key(c))
    {
      LexLeTransitive(key(a), key(b), key(c));
    }
  }

  /** `s.slice(0, n)`. */
  function Take<T>(s: seq<T>, n: int): (r: seq<T>)
    ensures |r| == if n <= 0 then 0 else if n < |s| then n else |s|
    ensures r == s[..|r|]
  {
    if n <= 0 then [] else if n < |s| then s[..n] else s
  }
}
