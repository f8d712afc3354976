/** The parts of Python's `random` module the edge generator uses, driven by an
    injected source of raw draws instead of the Mersenne Twister.  `Below(n)`
    plays the role of `randbelow(n)`; the other operations are built from it the
    way the standard library builds them. */
module PyRandom {

  /** A stream of raw draws and the position of the next one. */
  datatype Rng = Rng(draw: nat -> nat, pos: nat)

  /** `randbelow(n)`: a value in `[0, n)`; consumes one draw. */
  function Below(r: Rng, n: nat): (res: (nat, Rng))
    requires n > 0
    ensures res.0 < n
    ensures res.1 == r.(pos := r.pos + 1)
  {
    (r.draw(r.pos) % n, r.(pos := r.pos + 1))
  }

  /** `randint(lo, hi)`, that is `lo + randbelow(hi - lo + 1)`. */
  function RandInt(r: Rng, lo: int, hi: int): (res: (int, Rng))
    requires lo <= hi
    ensures lo <= res.0 <= hi
  {
    var (k, r1) := Below(r, hi - lo + 1);
    (lo + k, r1)
  }

  /** `round(uniform(lo, hi), 2)` in hundredths: a value in `[lo, hi]`. */
  function Uniform(r: Rng, lo: nat, hi: nat): (res: (nat, Rng))
    requires lo <= hi
    ensures lo <= res.0 <= hi
  {
    var (k, r1) := Below(r, hi - lo + 1);
    (lo + k, r1)
  }

  /** `choice(s)`: an element of a non-empty sequence. */
  function Choice<T>(r: Rng, s: seq<T>): (res: (T, Rng))
    requires |s| > 0
    ensures res.0 in s
  {
    var (k, r1) := Below(r, |s|);
    (s[k], r1)
  }

  /** `shuffle(s)`: Fisher-Yates from the last position down to position 1. */
  function Shuffle<T>(s: seq<T>, r: Rng): (res: (seq<T>, Rng))
    ensures multiset(res.0) == multiset(s) && |res.0| == |s|
  {
    if |s| <= 1 then (s, r) else ShuffleDown(s, |s| - 1, r)
  }

  function ShuffleDown<T>(s: seq<T>, i: nat, r: Rng): (res: (seq<T>, Rng))
    requires i < |s|
    ensures multiset(res.0) == multiset(s) && |res.0| == |s|
    decreases i
  {
    if i == 0 then (s, r)
    else
      var (j, r1) := Below(r, i + 1);
      var t := s[i := s[j]][j := s[i]];
      SwapKeepsMultiset(s, i, j);
      ShuffleDown(t, i - 1, r1)
  }

  lemma SwapKeepsMultiset<T>(s: seq<T>, i: nat, j: nat)
    requires i < |s| && j < |s|
    ensures multiset(s[i := s[j]][j := s[i]]) == multiset(s)
  {
    if i != j {
      calc {
        multiset(s[i := s[j]][j := s[i]]);
        multiset(s[i := s[j]]) - multiset{s[i := s[j]][j]} + multiset{s[i]};
        multiset(s) - multiset{s[i]} + multiset{s[j]} - multiset{s[j]} + multiset{s[i]};
        multiset(s);
      }
    }
  }

  /** `sample(pop, k)` by the pool method Python uses for small populations:
      the `i`-th pick is `pool[j]` for `j = randbelow(n - i)`, after which
      `pool[j]` is overwritten by the last still-unpicked entry. */
  function Sample<T>(pop: seq<T>, k: nat, r: Rng): (res: (seq<T>, Rng))
    requires k <= |pop|
    ensures |res.0| == k && multiset(res.0) <= multiset(pop)
  {
    assert pop[..|pop|] == pop;
    SampleFrom(pop, |pop|, k, r)
  }

  function SampleFrom<T>(pool: seq<T>, n: nat, k: nat, r: Rng): (res: (seq<T>, Rng))
    requires k <= n <= |pool|
    ensures |res.0| == k && multiset(res.0) <= multiset(pool[..n])
    decreases k
  {
    if k == 0 then ([], r)
    else
      var (j, r1) := Below(r, n);
      var pool1 := pool[j := pool[n - 1]];
      PoolStep(pool, n, j);
      var (rest, r2) := SampleFrom(pool1, n - 1, k - 1, r1);
      ([pool[j]] + rest, r2)
  }

  /** Taking `pool[j]` and moving the last live entry into its slot loses nothing else. */
  lemma PoolStep<T>(pool: seq<T>, n: nat, j: nat)
    requires j < n <= |pool|
    ensures multiset(pool[j := pool[n - 1]][..n - 1]) + multiset{pool[j]} == multiset(pool[..n])
  {
    var p1 := pool[j := pool[n - 1]];
    assert pool[..n] == pool[..n - 1] + [pool[n - 1]];
    if j < n - 1 {
      assert p1[..n - 1] == pool[..n - 1][j := pool[n - 1]];
      calc {
        multiset(p1[..n - 1]);
        multiset(pool[..n - 1]) - multiset{pool[j]} + multiset{pool[n - 1]};
      }
    } else {
      assert p1[..n - 1] == pool[..n - 1];
    }
  }
}
