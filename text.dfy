/**
 * Character classes and string helpers shared by the parsers: Python's
 * notion of whitespace (`str.strip()` and the regular-expression class `\s`),
 * ASCII digits (`\d` restricted to ASCII), `str.replace(c, '')`,
 * `str.startswith` and the `in` test on strings.
 */
module Text {

  /** The characters Python treats as whitespace in `str.strip()` and in `\s`. */
  predicate IsSpace(c: char) {
    var n := c as int;
    (9 <= n <= 13) || (28 <= n <= 32) || n == 0x85 || n == 0xA0 || n == 0x1680
    || (0x2000 <= n <= 0x200A) || n == 0x2028 || n == 0x2029 || n == 0x202F
    || n == 0x205F || n == 0x3000
  }

  predicate AllSpace(s: string) {
    forall i :: 0 <= i < |s| ==> IsSpace(s[i])
  }

  predicate IsDigit(c: char) {
    '0' <= c <= '9'
  }

  predicate AllDigits(s: string) {
    forall i :: 0 <= i < |s| ==> IsDigit(s[i])
  }

  /** A match of the regular expression `\d+`. */
  predicate IsDigits(s: string) {
    |s| > 0 && AllDigits(s)
  }

  /** The number of consecutive digits of `s` starting at position `i`. */
  function DigitRun(s: string, i: nat): (n: nat)
    requires i <= |s|
    ensures i + n <= |s|
    ensures AllDigits(s[i..i + n])
    ensures i + n == |s| || !IsDigit(s[i + n])
    decreases |s| - i
  {
    if i < |s| && IsDigit(s[i]) then
      var n := DigitRun(s, i + 1);
      assert s[i..i + 1 + n] == [s[i]] + s[i + 1..i + 1 + n];
      1 + n
    else 0
  }

  /** The number of consecutive whitespace characters of `s` starting at `i`. */
  function SpaceRun(s: string, i: nat): (n: nat)
    requires i <= |s|
    ensures i + n <= |s|
    ensures AllSpace(s[i..i + n])
    ensures i + n == |s| || !IsSpace(s[i + n])
    decreases |s| - i
  {
    if i < |s| && IsSpace(s[i]) then
      var n := SpaceRun(s, i + 1);
      assert s[i..i + 1 + n] == [s[i]] + s[i + 1..i + 1 + n];
      1 + n
    else 0
  }

  /** `s.replace(c, '')`: every occurrence of `c` removed, the rest kept in order. */
  function RemoveAll(s: string, c: char): (r: string)
    ensures c !in r
    ensures |r| <= |s|
  {
    if s == [] then []
    else (if s[0] == c then [] else [s[0]]) + RemoveAll(s[1..], c)
  }

  lemma {:induction false} RemoveAllConcat(a: string, b: string, c: char)
    ensures RemoveAll(a + b, c) == RemoveAll(a, c) + RemoveAll(b, c)
  {
    if a != [] {
      assert (a + b)[1..] == a[1..] + b;
      RemoveAllConcat(a[1..], b, c);
    } else {
      assert a + b == b;
    }
  }

  /** Removing a character that does not occur leaves the string as it is. */
  lemma {:induction false} RemoveAllAbsent(s: string, c: char)
    requires c !in s
    ensures RemoveAll(s, c) == s
  {
    if s != [] {
      assert s == [s[0]] + s[1..];
      RemoveAllAbsent(s[1..], c);
    }
  }

  lemma AllSpaceConcat(a: string, b: string)
    requires AllSpace(a) && AllSpace(b)
    ensures AllSpace(a + b)
  {
  }

  /** Leading whitespace removed (`str.lstrip()`). */
  function TrimStart(s: string): (r: string)
    ensures |r| <= |s| && r == s[|s| - |r|..]
    ensures AllSpace(s[..|s| - |r|])
    ensures r == [] || !IsSpace(r[0])
  {
    if s != [] && IsSpace(s[0]) then TrimStart(s[1..]) else s
  }

  /** Trailing whitespace removed (`str.rstrip()`). */
  function TrimEnd(s: string): (r: string)
    ensures |r| <= |s| && r == s[..|r|]
    ensures AllSpace(s[|r|..])
    ensures r == [] || !IsSpace(r[|r| - 1])
  {
    if s != [] && IsSpace(s[|s| - 1]) then TrimEnd(s[..|s| - 1]) else s
  }

  /** `str.strip()`: surrounding whitespace removed. */
  function Strip(s: string): (r: string)
  {
    TrimEnd(TrimStart(s))
  }

  /** Neither starts nor ends with whitespace. */
  predicate Unpadded(r: string) {
    r == [] || (!IsSpace(r[0]) && !IsSpace(r[|r| - 1]))
  }

  lemma {:induction false} TrimStartPadded(p: string, r: string)
    requires AllSpace(p)
    requires r == [] || !IsSpace(r[0])
    ensures TrimStart(p + r) == r
  {
    if p != [] {
      assert (p + r)[1..] == p[1..] + r;
      TrimStartPadded(p[1..], r);
    } else {
      assert p + r == r;
    }
  }

  lemma {:induction false} TrimEndPadded(r: string, q: string)
    requires AllSpace(q)
    requires r == [] || !IsSpace(r[|r| - 1])
    ensures TrimEnd(r + q) == r
  {
    if q != [] {
      assert (r + q)[..|r + q| - 1] == r + q[..|q| - 1];
      TrimEndPadded(r, q[..|q| - 1]);
    } else {
      assert r + q == r;
    }
  }

  /**
   * `Strip` is characterised by its result: whatever lies between a
   * whitespace prefix and a whitespace suffix, and neither starts nor ends
   * with whitespace, is what `Strip` returns.
   */
  lemma StripPadded(p: string, r: string, q: string)
    requires AllSpace(p) && AllSpace(q) && Unpadded(r)
    ensures Strip(p + r + q) == r
  {
    assert p + r + q == p + (r + q);
    if r == [] {
      AllSpaceConcat(p, q);
      assert p + r + q == (p + q) + [];
      TrimStartPadded(p + q, []);
    } else {
      TrimStartPadded(p, r + q);
      TrimEndPadded(r, q);
    }
  }

  lemma SplitAt(s: string, p: string, t: string, r: string, q: string)
    requires |t| <= |s| && |r| <= |t|
    requires p == s[..|s| - |t|] && t == s[|s| - |t|..]
    requires r == t[..|r|] && q == t[|r|..]
    ensures s == p + r + q
  {
    assert t == r + q;
    assert s == p + t;
  }

  /** `Strip(s)` is `s` with a whitespace prefix and suffix cut off. */
  lemma StripSplits(s: string) returns (p: string, q: string)
    ensures AllSpace(p) && AllSpace(q) && s == p + Strip(s) + q && Unpadded(Strip(s))
  {
    var t := TrimStart(s);
    var r := TrimEnd(t);
    p := s[..|s| - |t|];
    q := t[|r|..];
    assert AllSpace(p) && AllSpace(q);
    SplitAt(s, p, t, r, q);
    TrimEndUnpadded(t);
  }

  /** Trimming the end of a string that does not start with whitespace leaves it unpadded. */
  lemma TrimEndUnpadded(t: string)
    requires t == [] || !IsSpace(t[0])
    ensures Unpadded(TrimEnd(t))
  {
    var r := TrimEnd(t);
    if r != [] {
      assert r[0] == t[0];
    }
  }

  lemma Regroup(a: string, b: string, c: string, d: string, e: string)
    ensures a + (b + c + d) + e == (a + b) + c + (d + e)
  {
  }

  /** Surrounding whitespace does not change what `Strip` returns. */
  lemma StripIgnoresPadding(w1: string, s: string, w2: string)
    requires AllSpace(w1) && AllSpace(w2)
    ensures Strip(w1 + s + w2) == Strip(s)
  {
    var p, q := StripSplits(s);
    var r := Strip(s);
    Regroup(w1, p, r, q, w2);
    AllSpaceConcat(w1, p);
    AllSpaceConcat(q, w2);
    StripPadded(w1 + p, r, q + w2);
  }

  /** A string without surrounding whitespace is its own `Strip`. */
  lemma StripUnpadded(s: string)
    requires Unpadded(s)
    ensures Strip(s) == s
  {
    assert [] + s + [] == s;
    StripPadded([], s, []);
  }

  /** `s.startswith(p)`. */
  predicate StartsWith(s: string, p: string) {
    |p| <= |s| && s[..|p|] == p
  }

  /** `p in s` for strings: `p` occurs somewhere in `s`. */
  predicate Contains(s: string, p: string) {
    exists i :: 0 <= i <= |s| - |p| && StartsWith(s[i..], p)
  }
}
