/** String helpers that mirror the JavaScript and Python string operations the
    system relies on: `trim`/`strip`, `toLowerCase`/`lower`, `includes`/`in`,
    `startsWith`, `split`, `join`, `parseInt`, `String(n)` and `padStart`. */
module Text {
  import opened Wrappers

  /** The white-space characters `trim()` removes that occur in this system's text. */
  predicate IsSpace(c: char) {
    c == ' ' || c == '\t' || c == '\n' || c == '\r' || c == '\U{000B}' || c == '\U{000C}' || c == '\U{00A0}'
  }

  /** Drops leading white space. */
  function TrimStart(s: string): (r: string)
    ensures |r| <= |s| && r == s[|s| - |r|..]
    ensures r == [] || !IsSpace(r[0])
    ensures forall i :: 0 <= i < |s| - |r| ==> IsSpace(s[i])
  {
    if s != [] && IsSpace(s[0]) then TrimStart(s[1..]) else s
  }

  /** Drops trailing white space. */
  function TrimEnd(s: string): (r: string)
    ensures |r| <= |s| && r == s[..|r|]
    ensures r == [] || !IsSpace(r[|r| - 1])
    ensures forall i :: |r| <= i < |s| ==> IsSpace(s[i])
  {
    if s != [] && IsSpace(s[|s| - 1]) then TrimEnd(s[..|s| - 1]) else s
  }

  /** `s.trim()`: the longest slice of `s` that neither starts nor ends with white space. */
  function Trim(s: string): (r: string)
    ensures |s| - |TrimStart(s)| + |r| <= |s|
    ensures r == s[|s| - |TrimStart(s)|..|s| - |TrimStart(s)| + |r|]
    ensures r == [] || (!IsSpace(r[0]) && !IsSpace(r[|r| - 1]))
  {
    var t := TrimStart(s);
    var r := TrimEnd(t);
    SliceOfSuffix(s, |s| - |t|, |r|);
    r
  }

  lemma SliceOfSuffix(s: string, a: nat, n: nat)
    requires a <= |s| && n <= |s| - a
    ensures s[a..][..n] == s[a..a + n]
  {
  }

  /** A string with no white space at either end is its own trim. */
  lemma {:induction false} TrimFixed(s: string)
    requires s == [] || (!IsSpace(s[0]) && !IsSpace(s[|s| - 1]))
    ensures Trim(s) == s
  {
  }

  /** Trimming twice is trimming once. */
  lemma TrimIdempotent(s: string)
    ensures Trim(Trim(s)) == Trim(s)
  {
    TrimFixed(Trim(s));
  }

  /** Trimming keeps a prefix that neither starts nor ends with white space. */
  lemma TrimKeepsPrefix(s: string, p: string)
    requires p != [] && !IsSpace(p[0]) && !IsSpace(p[|p| - 1]) && StartsWith(s, p)
    ensures StartsWith(Trim(s), p)
  {
    assert s[0] == p[0];
    assert TrimStart(s) == s;
    var r := TrimEnd(s);
    assert s[|p| - 1] == p[|p| - 1];
    assert |r| >= |p|;
    assert Trim(s) == r;
    assert r[..|p|] == s[..|p|];
  }

  /** A string is blank (`!s.trim()`) exactly when every character is white space. */
  lemma {:induction false} BlankIffAllSpace(s: string)
    ensures Trim(s) == [] <==> forall i :: 0 <= i < |s| ==> IsSpace(s[i])
  {
    if Trim(s) == [] {
      var t := TrimStart(s);
      assert TrimEnd(t) == [];
      assert t == [];
    } else {
      var r := Trim(s);
      var a := |s| - |TrimStart(s)|;
      assert s[a] == r[0];
    }
  }

  /** ASCII and Polish upper-case letters to lower case, as `toLowerCase()` does for them. */
  function LowerChar(c: char): char {
    if 'A' <= c <= 'Z' then (c as int + 32) as char
    else if c == '\U{00D3}' then '\U{00F3}'
    else if c == '\U{0104}' || c == '\U{0106}' || c == '\U{0118}' || c == '\U{015A}' then (c as int + 1) as char
    else if c == '\U{0141}' || c == '\U{0143}' || c == '\U{0179}' || c == '\U{017B}' then (c as int + 1) as char
    else c
  }

  /** `s.toLowerCase()`. */
  function Lower(s: string): (r: string)
    ensures |r| == |s| && forall i :: 0 <= i < |s| ==> r[i] == LowerChar(s[i])
  {
    if s == [] then [] else [LowerChar(s[0])] + Lower(s[1..])
  }

  lemma LowerIdempotent(s: string)
    ensures Lower(Lower(s)) == Lower(s)
  {
  }

  /** `sub` occurs in `s` at offset `i`. */
  predicate OccursAt(s: string, sub: string, i: int) {
    0 <= i && i + |sub| <= |s| && s[i..i + |sub|] == sub
  }

  /** `s.includes(sub)` / Python `sub in s`. */
  predicate Contains(s: string, sub: string) {
    exists i | 0 <= i <= |s| - |sub| :: OccursAt(s, sub, i)
  }

  /** Every string contains the empty string, and itself. */
  lemma ContainsTrivia(s: string)
    ensures Contains(s, "") && Contains(s, s)
  {
    assert OccursAt(s, "", 0);
    assert OccursAt(s, s, 0);
  }

  /** An occurrence inside a slice is an occurrence in the whole string. */
  lemma ContainsWithin(s: string, lo: int, hi: int, sub: string)
    requires 0 <= lo <= hi <= |s| && Contains(s[lo..hi], sub)
    ensures Contains(s, sub)
  {
    var i :| 0 <= i <= hi - lo - |sub| && OccursAt(s[lo..hi], sub, i);
    forall k | 0 <= k < |sub| ensures s[lo + i + k] == sub[k] {
      assert s[lo..hi][i..i + |sub|][k] == sub[k];
    }
    assert s[lo + i..lo + i + |sub|] == sub;
    assert OccursAt(s, sub, lo + i);
  }

  /** A string that contains `a + b` contains `a`. */
  lemma ContainsHead(s: string, a: string, b: string)
    requires Contains(s, a + b)
    ensures Contains(s, a)
  {
    var i :| 0 <= i <= |s| - |a + b| && OccursAt(s, a + b, i);
    assert s[i..i + |a|] == (a + b)[..|a|] == a;
    assert OccursAt(s, a, i);
  }

  /** A string contains each piece it is concatenated from. */
  lemma ContainsInfix(a: string, b: string, c: string)
    ensures Contains(a + b + c, b)
  {
    assert (a + b + c)[|a|..|a| + |b|] == b;
    assert OccursAt(a + b + c, b, |a|);
  }

  /** A template literal: its pieces one after another. */
  function Concat(parts: seq<string>): string {
    if parts == [] then "" else parts[0] + Concat(parts[1..])
  }

  /** Splitting the pieces of a template around one of them. */
  lemma {:induction false} ConcatAround(parts: seq<string>, k: nat)
    requires k < |parts|
    ensures Concat(parts) == Concat(parts[..k]) + parts[k] + Concat(parts[k + 1..])
  {
    if k > 0 {
      ConcatAround(parts[1..], k - 1);
      assert parts[1..][..k - 1] == parts[1..k];
      assert parts[1..][k..] == parts[k + 1..];
      assert parts[..k] == [parts[0]] + parts[1..k];
      assert Concat(parts[..k]) == parts[0] + Concat(parts[1..k]);
    }
  }

  /** A template contains each of its pieces and starts with the first. */
  lemma ConcatContains(parts: seq<string>, k: nat)
    requires k < |parts|
    ensures Contains(Concat(parts), parts[k])
    ensures StartsWith(Concat(parts), parts[0])
  {
    ConcatAround(parts, k);
    ContainsInfix(Concat(parts[..k]), parts[k], Concat(parts[k + 1..]));
    assert Concat(parts)[..|parts[0]|] == parts[0];
  }

  /** `s.startsWith(p)`. */
  predicate StartsWith(s: string, p: string) {
    |p| <= |s| && s[..|p|] == p
  }

  lemma StartsWithContains(s: string, p: string)
    requires StartsWith(s, p)
    ensures Contains(s, p)
  {
    assert OccursAt(s, p, 0);
  }

  /** `parts.join(sep)`. */
  function Join(parts: seq<string>, sep: string): string {
    if |parts| == 0 then ""
    else if |parts| == 1 then parts[0]
    else parts[0] + sep + Join(parts[1..], sep)
  }

  /** Index of the first `c` in `s`, or `|s|` when there is none. */
  function IndexOf(s: string, c: char): (k: nat)
    ensures k <= |s| && c !in s[..k]
    ensures k < |s| ==> s[k] == c
  {
    if s == [] then 0
    else if s[0] == c then 0
    else 1 + IndexOf(s[1..], c)
  }

  /** `s.split(sep)` for a one-character separator. */
  function Split(s: string, sep: char): (r: seq<string>)
    ensures |r| >= 1
    ensures forall i :: 0 <= i < |r| ==> sep !in r[i]
    ensures Join(r, [sep]) == s
    decreases |s|
  {
    var k := IndexOf(s, sep);
    if k == |s| then [s]
    else
      var rest := Split(s[k + 1..], sep);
      assert s == s[..k] + [sep] + s[k + 1..];
      [s[..k]] + rest
  }

  /** Splitting at a separator the pieces do not contain is undone by joining. */
  lemma {:induction false} SplitJoin(parts: seq<string>, sep: char)
    requires |parts| >= 1
    requires forall i :: 0 <= i < |parts| ==> sep !in parts[i]
    ensures Split(Join(parts, [sep]), sep) == parts
  {
    var s := Join(parts, [sep]);
    if |parts| == 1 {
      assert IndexOf(s, sep) == |s|;
    } else {
      var tail := Join(parts[1..], [sep]);
      assert s == parts[0] + [sep] + tail;
      IndexOfAfter(parts[0], sep, tail);
      assert s[|parts[0]| + 1..] == tail;
      assert s[..|parts[0]|] == parts[0];
      SplitJoin(parts[1..], sep);
    }
  }

  lemma {:induction false} IndexOfAfter(a: string, c: char, b: string)
    requires c !in a
    ensures IndexOf(a + [c] + b, c) == |a|
  {
    if a != [] {
      assert (a + [c] + b)[1..] == a[1..] + [c] + b;
      IndexOfAfter(a[1..], c, b);
    }
  }

  /** The maximal runs of non-white-space characters: `s.split(/\s+/).filter(w => w.length > 0)`. */
  function Words(s: string): (r: seq<string>)
    ensures forall i :: 0 <= i < |r| ==> r[i] != [] && NoSpace(r[i])
    decreases |s|
  {
    if s == [] then []
    else if IsSpace(s[0]) then Words(s[1..])
    else
      var w := WordPrefix(s);
      [w] + Words(s[|w|..])
  }

  predicate NoSpace(w: string) {
    forall j :: 0 <= j < |w| ==> !IsSpace(w[j])
  }

  /** The longest white-space-free prefix of `s`. */
  function WordPrefix(s: string): (w: string)
    ensures |w| <= |s| && w == s[..|w|]
    ensures NoSpace(w)
    ensures |w| == |s| || IsSpace(s[|w|])
    ensures s != [] && !IsSpace(s[0]) ==> w != []
  {
    if s == [] || IsSpace(s[0]) then [] else [s[0]] + WordPrefix(s[1..])
  }

  /** A word begins at position `i`: a non-white-space character at the start
      of the text or right after white space. */
  predicate WordStartAt(s: string, i: int)
    requires 0 <= i < |s|
  {
    !IsSpace(s[i]) && (i == 0 || IsSpace(s[i - 1]))
  }

  /** The number of positions from `i` on where a word begins. */
  function WordStartsFrom(s: string, i: nat): nat
    requires i <= |s|
    decreases |s| - i
  {
    if i == |s| then 0 else (if WordStartAt(s, i) then 1 else 0) + WordStartsFrom(s, i + 1)
  }

  lemma {:induction false} NoStartsSkipped(s: string, a: nat, b: nat)
    requires a <= b <= |s|
    requires forall j :: a <= j < b ==> !WordStartAt(s, j)
    ensures WordStartsFrom(s, a) == WordStartsFrom(s, b)
    decreases b - a
  {
    if a < b {
      NoStartsSkipped(s, a + 1, b);
    }
  }

  /** Counting from a word boundary, there is one word per position where a word begins. */
  lemma {:induction false} WordsCountStarts(s: string, i: nat)
    requires i <= |s| && (i == 0 || IsSpace(s[i - 1]))
    ensures |Words(s[i..])| == WordStartsFrom(s, i)
    decreases |s| - i
  {
    if i < |s| {
      var t := s[i..];
      if IsSpace(s[i]) {
        assert t[1..] == s[i + 1..];
        WordsCountStarts(s, i + 1);
      } else {
        var m := WordAt(s, i);
        if i + m < |s| {
          assert s[i + m..][1..] == s[i + m + 1..];
          WordsCountStarts(s, i + m + 1);
        }
      }
    }
  }

  /** A word of length `m` begins at `i`: it is the first of the words from
      `i` on, and no other word begins inside it or on the space after it. */
  lemma WordAt(s: string, i: nat) returns (m: nat)
    requires i < |s| && !IsSpace(s[i])
    ensures 0 < m && i + m <= |s| && (i + m == |s| || IsSpace(s[i + m]))
    ensures |Words(s[i..])| == 1 + |Words(s[i + m..])|
    ensures WordStartsFrom(s, i + 1) == if i + m == |s| then 0 else WordStartsFrom(s, i + m + 1)
  {
    var t := s[i..];
    m := |WordPrefix(t)|;
    assert Words(t) == [WordPrefix(t)] + Words(t[m..]);
    assert t[m..] == s[i + m..];
    forall j | i + 1 <= j < i + m
      ensures !WordStartAt(s, j)
    {
      assert s[j - 1] == t[j - 1 - i] == WordPrefix(t)[j - 1 - i];
    }
    if i + m == |s| {
      NoStartsSkipped(s, i + 1, i + m);
    } else {
      assert s[i + m] == t[m];
      NoStartsSkipped(s, i + 1, i + m + 1);
    }
  }

  /** The words are as many as the positions where a word begins. */
  lemma WordCountIsStarts(s: string)
    ensures |Words(s)| == WordStartsFrom(s, 0)
  {
    assert s[0..] == s;
    WordsCountStarts(s, 0);
  }

  /** The characters of `s` that are not white space, in order. */
  function NonSpace(s: string): (r: string)
    ensures NoSpace(r) && |r| <= |s|
  {
    if s == [] then "" else (if IsSpace(s[0]) then "" else [s[0]]) + NonSpace(s[1..])
  }

  lemma {:induction false} NonSpaceOfWord(w: string, rest: string)
    requires NoSpace(w)
    ensures NonSpace(w + rest) == w + NonSpace(rest)
  {
    if w != [] {
      assert (w + rest)[0] == w[0] && !IsSpace(w[0]);
      assert (w + rest)[1..] == w[1..] + rest;
      assert NoSpace(w[1..]) by {
        forall j | 0 <= j < |w[1..]| ensures !IsSpace(w[1..][j]) {
          assert w[1..][j] == w[j + 1];
        }
      }
      NonSpaceOfWord(w[1..], rest);
      assert NonSpace(w + rest) == [w[0]] + NonSpace(w[1..] + rest);
      assert w == [w[0]] + w[1..];
    } else {
      assert w + rest == rest;
    }
  }

  /** The words, one after another, are the text without its white space. */
  lemma {:induction false} WordsJoinToNonSpace(s: string)
    ensures Concat(Words(s)) == NonSpace(s)
    decreases |s|
  {
    if s != [] {
      if IsSpace(s[0]) {
        WordsJoinToNonSpace(s[1..]);
      } else {
        var w := WordPrefix(s);
        assert s == w + s[|w|..];
        assert ([w] + Words(s[|w|..]))[1..] == Words(s[|w|..]);
        WordsJoinToNonSpace(s[|w|..]);
        NonSpaceOfWord(w, s[|w|..]);
      }
    }
  }

  /** A text has no words exactly when it has nothing but white space. */
  lemma NoWordsIffBlank(s: string)
    ensures Words(s) == [] <==> NonSpace(s) == []
  {
    WordsJoinToNonSpace(s);
    var ws := Words(s);
    if ws != [] {
      assert Concat(ws) == ws[0] + Concat(ws[1..]);
    }
  }

  /** A string made only of white space has no words. */
  lemma {:induction false} BlankHasNoWords(s: string)
    requires forall i :: 0 <= i < |s| ==> IsSpace(s[i])
    ensures Words(s) == []
  {
    if s != [] {
      BlankHasNoWords(s[1..]);
    }
  }

  function DigitChar(d: int): char
    requires 0 <= d < 10
  {
    ('0' as int + d) as char
  }

  predicate IsDigit(c: char) {
    '0' <= c <= '9'
  }

  function DigitValue(c: char): (d: int)
    requires IsDigit(c)
    ensures 0 <= d < 10
  {
    c as int - '0' as int
  }

  /** Decimal digits of a natural number, most significant first, no leading zeros. */
  function NatToString(n: nat): (r: string)
    ensures r != [] && forall i :: 0 <= i < |r| ==> IsDigit(r[i])
    ensures |r| > 1 ==> r[0] != '0'
  {
    if n < 10 then [DigitChar(n)] else NatToString(n / 10) + [DigitChar(n % 10)]
  }

  /** `String(n)` for an integer. */
  function IntToString(n: int): (r: string)
    ensures r != [] && (r[0] == '-' <==> n < 0)
    ensures forall i :: (if n < 0 then 1 else 0) <= i < |r| ==> IsDigit(r[i])
  {
    if n < 0 then "-" + NatToString(-n) else NatToString(n)
  }

  /** Value of a string of decimal digits. */
  function DecimalValue(ds: string): nat
    requires forall i :: 0 <= i < |ds| ==> IsDigit(ds[i])
  {
    if ds == [] then 0 else 10 * DecimalValue(ds[..|ds| - 1]) + DigitValue(ds[|ds| - 1])
  }

  lemma {:induction false} DecimalOfNat(n: nat)
    ensures DecimalValue(NatToString(n)) == n
  {
    if n >= 10 {
      var r := NatToString(n);
      assert r[..|r| - 1] == NatToString(n / 10);
      DecimalOfNat(n / 10);
    }
  }

  /** A leading zero does not change the value of a digit string. */
  lemma {:induction false} LeadingZero(ds: string)
    requires forall i :: 0 <= i < |ds| ==> IsDigit(ds[i])
    ensures var z := ['0'] + ds; (forall i :: 0 <= i < |z| ==> IsDigit(z[i])) && DecimalValue(z) == DecimalValue(ds)
  {
    var z := ['0'] + ds;
    if ds != [] {
      assert z[..|z| - 1] == ['0'] + ds[..|ds| - 1];
      LeadingZero(ds[..|ds| - 1]);
    } else {
      assert z[..0] == [];
    }
  }

  predicate IsHexDigit(c: char) {
    IsDigit(c) || 'a' <= c <= 'f' || 'A' <= c <= 'F'
  }

  function HexValue(c: char): (d: int)
    requires IsHexDigit(c)
    ensures 0 <= d < 16
  {
    if IsDigit(c) then DigitValue(c)
    else if 'a' <= c <= 'f' then c as int - 'a' as int + 10
    else c as int - 'A' as int + 10
  }

  function HexadecimalValue(ds: string): nat
    requires forall i :: 0 <= i < |ds| ==> IsHexDigit(ds[i])
  {
    if ds == [] then 0 else 16 * HexadecimalValue(ds[..|ds| - 1]) + HexValue(ds[|ds| - 1])
  }

  /** Length of the longest prefix of `s` made of characters satisfying `p`. */
  function PrefixLength(s: string, p: char -> bool): (k: nat)
    ensures k <= |s| && forall i :: 0 <= i < k ==> p(s[i])
    ensures k < |s| ==> !p(s[k])
  {
    if s != [] && p(s[0]) then 1 + PrefixLength(s[1..], p) else 0
  }

  /** JavaScript `parseInt(s)` with no radix; `None` stands for `NaN`.
      Leading white space is skipped, one sign is accepted, a `0x`/`0X` prefix
      selects base 16, and the longest digit prefix is read. */
  function ParseInt(s: string): (r: Option<int>)
    ensures (forall i :: 0 <= i < |s| ==> !IsDigit(s[i])) ==> r == None
  {
    var t := TrimStart(s);
    if t != [] && (t[0] == '-' || t[0] == '+') then
      assert t[1..] == s[|s| - |t| + 1..];
      match ParseMagnitude(t[1..])
      case None => None
      case Some(m) => Some(if t[0] == '-' then -(m as int) else m as int)
    else
      match ParseMagnitude(t)
      case None => None
      case Some(m) => Some(m as int)
  }

  /** The unsigned part of `parseInt`: a `0x` prefix selects base 16; text
      that does not start with a digit is `NaN`. */
  function ParseMagnitude(u: string): (r: Option<nat>)
    ensures u == [] || !IsDigit(u[0]) ==> r == None
  {
    if |u| >= 2 && u[0] == '0' && (u[1] == 'x' || u[1] == 'X') then
      var k := PrefixLength(u[2..], IsHexDigit);
      if k == 0 then None else Some(HexadecimalValue(u[2..][..k]))
    else
      var k := PrefixLength(u, IsDigit);
      if k == 0 then None else Some(DecimalValue(u[..k]))
  }

  /** An unsigned digit string with no leading zero is read whole, in base 10. */
  lemma MagnitudeOfDigits(ds: string)
    requires ds != [] && forall i :: 0 <= i < |ds| ==> IsDigit(ds[i])
    requires |ds| >= 2 ==> ds[0] != '0'
    ensures ParseMagnitude(ds) == Some(DecimalValue(ds))
  {
    var k := PrefixLength(ds, IsDigit);
    assert k == |ds|;
    assert ds[..k] == ds;
  }

  lemma UnsignedDigits(ds: string, v: nat)
    requires ds != [] && IsDigit(ds[0]) && ParseMagnitude(ds) == Some(v)
    ensures ParseInt(ds) == Some(v as int)
  {
    TrimStartFixed(ds);
  }

  lemma MinusDigits(ds: string, v: nat)
    requires ParseMagnitude(ds) == Some(v)
    ensures ParseInt("-" + ds) == Some(-(v as int))
  {
    var neg := "-" + ds;
    TrimStartFixed(neg);
    assert neg[1..] == ds;
  }

  /** `parseInt` reads back what `String(n)` writes. */
  lemma ParseIntRoundTrip(n: int)
    ensures ParseInt(IntToString(n)) == Some(n)
  {
    var m: nat := if n < 0 then -n else n;
    var ds := NatToString(m);
    DecimalOfNat(m);
    MagnitudeOfDigits(ds);
    if n < 0 {
      MinusDigits(ds, m);
    } else {
      UnsignedDigits(ds, m);
    }
  }

  /** JavaScript `parseInt(s, 10)`: as `ParseInt`, but always base 10, so a
      `0x` prefix reads as the number 0. */
  function ParseInt10(s: string): Option<int> {
    var t := TrimStart(s);
    if t != [] && t[0] == '-' then
      match Digits10(t[1..])
      case None => None
      case Some(m) => Some(-(m as int))
    else if t != [] && t[0] == '+' then
      match Digits10(t[1..])
      case None => None
      case Some(m) => Some(m as int)
    else
      match Digits10(t)
      case None => None
      case Some(m) => Some(m as int)
  }

  /** The value of the longest decimal-digit prefix of `u`, if it is not empty. */
  function Digits10(u: string): Option<nat> {
    var k := PrefixLength(u, IsDigit);
    if k == 0 then None else Some(DecimalValue(u[..k]))
  }

  /** In base 10 `parseInt` reads back what `String(n)` writes, and text
      with no decimal digit is `NaN`. */
  lemma ParseInt10RoundTrip(n: int)
    ensures ParseInt10(IntToString(n)) == Some(n)
  {
    var m: nat := if n < 0 then -n else n;
    DecimalOfNat(m);
    var ds := NatToString(m);
    if n < 0 {
      Digits10All(ds);
      MinusDigits10(ds, m);
    } else {
      ParseInt10Digits(ds);
    }
  }

  lemma ParseInt10Digits(ds: string)
    requires ds != [] && forall i :: 0 <= i < |ds| ==> IsDigit(ds[i])
    ensures ParseInt10(ds) == Some(DecimalValue(ds) as int)
  {
    TrimStartFixed(ds);
    Digits10All(ds);
  }

  lemma Digits10All(ds: string)
    requires ds != [] && forall i :: 0 <= i < |ds| ==> IsDigit(ds[i])
    ensures Digits10(ds) == Some(DecimalValue(ds))
  {
    PrefixLengthAll(ds, IsDigit);
    assert ds[..|ds|] == ds;
  }

  lemma {:induction false} PrefixLengthAll(s: string, p: char -> bool)
    requires forall i :: 0 <= i < |s| ==> p(s[i])
    ensures PrefixLength(s, p) == |s|
  {
    if s != [] {
      PrefixLengthAll(s[1..], p);
    }
  }

  lemma MinusDigits10(ds: string, v: nat)
    requires Digits10(ds) == Some(v)
    ensures ParseInt10("-" + ds) == Some(-(v as int))
  {
    var neg := "-" + ds;
    TrimStartFixed(neg);
    assert neg[1..] == ds;
  }

  lemma TrimStartFixed(s: string)
    requires s != [] && !IsSpace(s[0])
    ensures TrimStart(s) == s
  {
  }

  lemma NoDigitsIsNaN10(s: string)
    requires forall i :: 0 <= i < |s| ==> !IsDigit(s[i])
    ensures ParseInt10(s) == None
  {
    var t := TrimStart(s);
    assert t == s[|s| - |t|..];
  }

  /** `s.padStart(2, "0")`. */
  function Pad2(s: string): (r: string)
    ensures |r| == if |s| >= 2 then |s| else 2
    ensures r[|r| - |s|..] == s
    ensures forall i :: 0 <= i < |r| - |s| ==> r[i] == '0'
  {
    if |s| >= 2 then s else seq(2 - |s|, _ => '0') + s
  }
}
