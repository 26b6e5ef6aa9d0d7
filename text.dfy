/**
 * Character classes and string helpers shared by the normaliser, the
 * segmenter, the JSON columns and the job routes.
 *
 * Python's `str` methods and `re` classes are Unicode-aware. This module
 * states them exactly where the set is small (whitespace) and restricts
 * them to the Latin ranges (U+0000..U+017F, which covers Polish) where the
 * full Unicode tables would be needed (word characters, case folding).
 */
module Text {

  /** `str.isspace()` and the `\s` class of `re` on `str` patterns. */
  predicate IsSpace(c: char) {
    var n := c as int;
    (9 <= n <= 13) || (0x1c <= n <= 0x20) || n == 0x85 || n == 0xa0 || n == 0x1680
    || (0x2000 <= n <= 0x200a) || n == 0x2028 || n == 0x2029 || n == 0x202f
    || n == 0x205f || n == 0x3000
  }

  /** The `\w` class of `re`: letters, digits and `_` (Latin ranges only). */
  predicate IsWordChar(c: char) {
    var n := c as int;
    ('a' <= c <= 'z') || ('A' <= c <= 'Z') || ('0' <= c <= '9') || c == '_'
    || n == 0xaa || n == 0xb2 || n == 0xb3 || n == 0xb5 || n == 0xb9 || n == 0xba
    || (0xbc <= n <= 0xbe) || (0xc0 <= n <= 0xd6) || (0xd8 <= n <= 0xf6)
    || (0xf8 <= n <= 0x17f)
  }

  /**
   * A representative of the class of characters `re.IGNORECASE` treats as
   * equal: the simple lower-case mapping, with dotted capital I and dotless
   * i joining `i` and long s joining `s`, as `re` pairs them.
   */
  function Fold(c: char): (r: char)
    ensures (c as int) < 0x80 ==> (r as int) < 0x80
    ensures 'A' <= c <= 'Z' ==> r as int == c as int + 32
    ensures 'a' <= c <= 'z' ==> r == c
  {
    var n := c as int;
    if 'A' <= c <= 'Z' then (n + 32) as char
    else if n == 0x130 || n == 0x131 then 'i'
    else if n == 0x17f then 's'
    else if 0xc0 <= n <= 0xde && n != 0xd7 then (n + 32) as char
    else if ((0x100 <= n <= 0x12f) || (0x132 <= n <= 0x137) || (0x14a <= n <= 0x177)) && n % 2 == 0 then (n + 1) as char
    else if ((0x139 <= n <= 0x148) || (0x179 <= n <= 0x17e)) && n % 2 == 1 then (n + 1) as char
    else if n == 0x178 then 0xff as char
    else c
  }

  /** Case-insensitive equality of two characters. */
  predicate SameLetter(a: char, b: char) {
    Fold(a) == Fold(b)
  }

  /** `s.lstrip()`: `s` without its leading whitespace. */
  function TrimStart(s: string): (r: string)
    ensures |r| <= |s|
    ensures r == [] || !IsSpace(r[0])
    ensures forall k :: 0 <= k < |s| - |r| ==> IsSpace(s[k])
  {
    if s == [] || !IsSpace(s[0]) then s else TrimStart(s[1..])
  }

  /** `s.rstrip()`: `s` without its trailing whitespace. */
  function TrimEnd(s: string): (r: string)
    ensures |r| <= |s|
    ensures r == [] || !IsSpace(r[|r| - 1])
    ensures forall k :: |r| <= k < |s| ==> IsSpace(s[k])
  {
    if s == [] || !IsSpace(s[|s| - 1]) then s else TrimEnd(s[..|s| - 1])
  }

  /** What `lstrip` leaves is a suffix of its input. */
  lemma {:induction false} TrimStartSuffix(s: string)
    ensures TrimStart(s) == s[|s| - |TrimStart(s)|..]
    decreases |s|
  {
    if s != [] && IsSpace(s[0]) {
      TrimStartSuffix(s[1..]);
      assert s[1..][|s| - 1 - |TrimStart(s)|..] == s[|s| - |TrimStart(s)|..];
    }
  }

  /** What `rstrip` leaves is a prefix of its input. */
  lemma {:induction false} TrimEndPrefix(s: string)
    ensures TrimEnd(s) == s[..|TrimEnd(s)|]
    decreases |s|
  {
    if s != [] && IsSpace(s[|s| - 1]) {
      TrimEndPrefix(s[..|s| - 1]);
      assert s[..|s| - 1][..|TrimEnd(s)|] == s[..|TrimEnd(s)|];
    }
  }

  /** `str.strip()` with no argument. */
  function Strip(s: string): (r: string)
    ensures |r| <= |s|
  {
    TrimEnd(TrimStart(s))
  }

  /** A stripped string neither starts nor ends with whitespace. */
  lemma StripEnds(s: string)
    ensures var r := Strip(s); r == [] || (!IsSpace(r[0]) && !IsSpace(r[|r| - 1]))
  {
    var t := TrimStart(s);
    var r := TrimEnd(t);
    assert Strip(s) == r;
    TrimEndPrefix(t);
    if r != [] {
      assert r == t[..|r|];
      assert t != [] && !IsSpace(t[0]);
      assert r[0] == t[0];
    }
  }

  /** Stripping twice is stripping once. */
  lemma StripIdempotent(s: string)
    ensures Strip(Strip(s)) == Strip(s)
  {
    var r := Strip(s);
    StripEnds(s);
    assert TrimStart(r) == r;
    assert TrimEnd(r) == r;
  }

  /** Strip of a string made only of whitespace is empty, and conversely. */
  lemma StripEmptyIffBlank(s: string)
    ensures Strip(s) == [] <==> forall k :: 0 <= k < |s| ==> IsSpace(s[k])
  {
    var t := TrimStart(s);
    TrimStartSuffix(s);
    TrimEndPrefix(t);
    if Strip(s) != [] {
      var r := Strip(s);
      assert r == t[..|r|];
      assert s[|s| - |t|] == t[0];
    }
  }

  /** Number of leading characters of `s` that are not whitespace. */
  function RunLength(s: string): (n: nat)
    ensures n <= |s|
    ensures forall k :: 0 <= k < n ==> !IsSpace(s[k])
    ensures n == |s| || IsSpace(s[n])
  {
    if s == [] || IsSpace(s[0]) then 0 else 1 + RunLength(s[1..])
  }

  /** `str.split()` with no argument: the maximal runs of non-whitespace characters. */
  function Split(s: string): seq<string>
    decreases |s|
  {
    var t := TrimStart(s);
    if t == [] then []
    else
      var n := RunLength(t);
      [t[..n]] + Split(t[n..])
  }

  /** Each token is a non-empty run without whitespace. */
  lemma {:induction false} SplitTokens(s: string)
    ensures forall i :: 0 <= i < |Split(s)| ==> Solid(Split(s)[i])
    decreases |s|
  {
    var t := TrimStart(s);
    if t != [] {
      var n := RunLength(t);
      var rest := Split(t[n..]);
      SplitTokens(t[n..]);
      SplitStep(s);
      RunSolid(t);
      forall i | 0 <= i < |Split(s)|
        ensures Solid(Split(s)[i])
      {
        if i > 0 {
          assert Split(s)[i] == rest[i - 1];
        }
      }
    }
  }

  /** A token: non-empty, and no whitespace in it. */
  predicate Solid(w: string) {
    w != [] && forall k :: 0 <= k < |w| ==> !IsSpace(w[k])
  }

  /** The leading run of a string that does not start with whitespace is a token. */
  lemma RunSolid(t: string)
    requires t != [] && !IsSpace(t[0])
    ensures Solid(t[..RunLength(t)])
  {
  }

  /** A text splits into no token exactly when it holds only whitespace. */
  lemma {:induction false} SplitEmptyIffBlank(s: string)
    ensures Split(s) == [] <==> forall k :: 0 <= k < |s| ==> IsSpace(s[k])
  {
    var t := TrimStart(s);
    TrimStartSuffix(s);
    if t != [] {
      assert s[|s| - |t|] == t[0];
    }
  }

  /** Every non-whitespace character of `s` lands in exactly the tokens: their total length counts them. */
  function TotalLength(ts: seq<string>): nat {
    if ts == [] then 0 else |ts[0]| + TotalLength(ts[1..])
  }

  function CountNonSpace(s: string): nat {
    if s == [] then 0 else (if IsSpace(s[0]) then 0 else 1) + CountNonSpace(s[1..])
  }

  lemma {:induction false} CountNonSpaceAppend(a: string, b: string)
    ensures CountNonSpace(a + b) == CountNonSpace(a) + CountNonSpace(b)
  {
    if a == [] {
      assert a + b == b;
    } else {
      assert (a + b)[1..] == a[1..] + b;
      CountNonSpaceAppend(a[1..], b);
    }
  }

  lemma {:induction false} CountNonSpaceSolid(s: string)
    requires forall k :: 0 <= k < |s| ==> !IsSpace(s[k])
    ensures CountNonSpace(s) == |s|
  {
    if s != [] {
      CountNonSpaceSolid(s[1..]);
    }
  }

  /** Splitting loses only whitespace: the tokens hold every other character. */
  lemma {:induction false} SplitKeepsNonSpace(s: string)
    ensures TotalLength(Split(s)) == CountNonSpace(s)
    decreases |s|
  {
    var t := TrimStart(s);
    CountAfterTrim(s);
    if t != [] {
      var n := RunLength(t);
      CountAfterRun(t);
      SplitStep(s);
      SplitKeepsNonSpace(t[n..]);
    }
  }

  /** Leading whitespace holds nothing to count. */
  lemma {:induction false} CountAfterTrim(s: string)
    ensures CountNonSpace(s) == CountNonSpace(TrimStart(s))
    decreases |s|
  {
    if s != [] && IsSpace(s[0]) {
      CountAfterTrim(s[1..]);
    }
  }

  /** A leading run counts in full. */
  lemma CountAfterRun(t: string)
    ensures CountNonSpace(t) == RunLength(t) + CountNonSpace(t[RunLength(t)..])
  {
    var n := RunLength(t);
    assert t == t[..n] + t[n..];
    CountNonSpaceAppend(t[..n], t[n..]);
    CountNonSpaceSolid(t[..n]);
  }

  /** One token of `Split`, and the total length it adds. */
  lemma SplitStep(s: string)
    requires TrimStart(s) != []
    ensures var t := TrimStart(s); var n := RunLength(t);
      Split(s) == [t[..n]] + Split(t[n..]) && TotalLength(Split(s)) == n + TotalLength(Split(t[n..]))
  {
    var t := TrimStart(s);
    var n := RunLength(t);
    var ts := [t[..n]] + Split(t[n..]);
    assert ts[1..] == Split(t[n..]);
  }

  /** `s.split("\n")[0]`: everything before the first line feed. */
  function FirstLine(s: string): (r: string)
    ensures |r| <= |s|
    ensures '\n' !in r
    ensures |r| < |s| ==> s[|r|] == '\n'
  {
    if s == [] || s[0] == '\n' then [] else [s[0]] + FirstLine(s[1..])
  }

  /** `s[:n]` for n >= 0. */
  function Take(s: string, n: nat): (r: string)
    ensures |r| == if |s| < n then |s| else n
    ensures r == s[..|r|]
  {
    if |s| <= n then s else s[..n]
  }

  /** Strict lexicographic order by code point: SQLite's BINARY collation on UTF-8 text. */
  predicate LexLess(a: string, b: string)
    decreases |a|
  {
    if a == [] then b != []
    else b != [] && (a[0] < b[0] || (a[0] == b[0] && LexLess(a[1..], b[1..])))
  }

  lemma {:induction false} LexLessIrreflexive(a: string)
    ensures !LexLess(a, a)
  {
    if a != [] {
      LexLessIrreflexive(a[1..]);
    }
  }

  lemma {:induction false} LexLessTransitive(a: string, b: string, c: string)
    requires LexLess(a, b) && LexLess(b, c)
    ensures LexLess(a, c)
    decreases |a|
  {
    if a != [] && a[0] == b[0] && b[0] == c[0] {
      LexLessTransitive(a[1..], b[1..], c[1..]);
    }
  }

  lemma {:induction false} LexLessTotal(a: string, b: string)
    ensures a == b || LexLess(a, b) || LexLess(b, a)
    decreases |a|
  {
    if a != [] && b != [] && a[0] == b[0] {
      LexLessTotal(a[1..], b[1..]);
      if a[1..] == b[1..] {
        assert a == [a[0]] + a[1..] && b == [b[0]] + b[1..];
      }
    }
  }

  lemma {:induction false} LexLessAsymmetric(a: string, b: string)
    requires LexLess(a, b)
    ensures !LexLess(b, a)
    decreases |a|
  {
    if a != [] && a[0] == b[0] {
      LexLessAsymmetric(a[1..], b[1..]);
    }
  }

  /**
   * The order in which the dictionary is applied: longer keys first, keys of
   * equal length by code point. It is the result of `ORDER BY word` followed
   * by Python's stable `sorted(..., key=len, reverse=True)`.
   */
  predicate Precedes(a: string, b: string) {
    |a| > |b| || (|a| == |b| && LexLess(a, b))
  }

  lemma PrecedesAsymmetric(a: string, b: string)
    requires Precedes(a, b)
    ensures !Precedes(b, a)
  {
    if |a| == |b| {
      LexLessAsymmetric(a, b);
    }
  }

  lemma PrecedesTransitive(a: string, b: string, c: string)
    requires Precedes(a, b) && Precedes(b, c)
    ensures Precedes(a, c)
  {
    if |a| == |b| == |c| {
      LexLessTransitive(a, b, c);
    }
  }

  lemma PrecedesTotal(a: string, b: string)
    ensures a == b || Precedes(a, b) || Precedes(b, a)
  {
    LexLessTotal(a, b);
  }

  /** `k` comes before every other member of `keys`. */
  predicate IsFirst(k: string, keys: set<string>) {
    k in keys && forall x :: x in keys && x != k ==> Precedes(k, x)
  }

  lemma FirstExists(keys: set<string>)
    requires keys != {}
    ensures exists k :: IsFirst(k, keys)
    decreases keys
  {
    var x :| x in keys;
    if keys - {x} == {} {
      assert keys == {x};
      assert IsFirst(x, keys);
    } else {
      FirstExists(keys - {x});
      var y :| IsFirst(y, keys - {x});
      PrecedesTotal(x, y);
      if Precedes(x, y) {
        forall z | z in keys && z != x ensures Precedes(x, z) {
          if z != y {
            PrecedesTransitive(x, y, z);
          }
        }
        assert IsFirst(x, keys);
      } else {
        assert IsFirst(y, keys);
      }
    }
  }

  lemma FirstUnique(keys: set<string>, k1: string, k2: string)
    requires IsFirst(k1, keys) && IsFirst(k2, keys)
    ensures k1 == k2
  {
    if k1 != k2 {
      PrecedesAsymmetric(k1, k2);
    }
  }

  /**
   * The keys of a table in `Precedes` order: repeatedly the first of those
   * left. `OrderedKeysSorted` states what it computes.
   */
  function OrderedKeys(keys: set<string>): seq<string>
    decreases keys
  {
    if keys == {} then []
    else
      FirstExists(keys);
      assert forall k1, k2 :: IsFirst(k1, keys) && IsFirst(k2, keys) ==> k1 == k2 by {
        forall k1, k2 | IsFirst(k1, keys) && IsFirst(k2, keys) ensures k1 == k2 {
          FirstUnique(keys, k1, k2);
        }
      }
      var k :| IsFirst(k, keys);
      [k] + OrderedKeys(keys - {k})
  }

  /**
   * `sorted(keys, key=len, reverse=True)` over keys read in ascending order:
   * every key exactly once, longer keys first, keys of equal length in
   * ascending code-point order (Python's sort is stable).
   */
  lemma {:induction false} OrderedKeysSorted(keys: set<string>)
    ensures |OrderedKeys(keys)| == |keys|
    ensures forall k :: k in OrderedKeys(keys) <==> k in keys
    ensures forall i, j :: 0 <= i < j < |OrderedKeys(keys)| ==> Precedes(OrderedKeys(keys)[i], OrderedKeys(keys)[j])
    decreases keys
  {
    if keys != {} {
      FirstExists(keys);
      var k :| IsFirst(k, keys);
      var first := OrderedKeys(keys)[0];
      assert IsFirst(first, keys);
      FirstUnique(keys, k, first);
      var rest := OrderedKeys(keys - {k});
      assert OrderedKeys(keys) == [k] + rest;
      OrderedKeysSorted(keys - {k});
      var r := OrderedKeys(keys);
      forall i, j | 0 <= i < j < |r| ensures Precedes(r[i], r[j]) {
        if i > 0 {
          assert r[i] == rest[i - 1] && r[j] == rest[j - 1];
        } else {
          assert r[j] == rest[j - 1] && r[j] in keys - {k};
        }
      }
    }
  }

  /** Decimal rendering of a natural number, as `str(n)` / an f-string does. */
  function NatToString(n: nat): (r: string)
    ensures r != []
    ensures forall k :: 0 <= k < |r| ==> '0' <= r[k] <= '9'
    decreases n
  {
    var d := ['0' + (n % 10) as char];
    if n < 10 then d else NatToString(n / 10) + d
  }
}
