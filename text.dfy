/**
 * The two string operations the normaliser applies: Python's `str.strip()`
 * with no argument (remove leading and trailing whitespace) and
 * `str.lower()`, on strings as sequences of characters.
 */
module Text {

  /** The characters `str.isspace` accepts, which `str.strip()` removes. */
  predicate IsWhitespace(c: char) {
    var n := c as int;
    || 0x09 <= n <= 0x0D || 0x1C <= n <= 0x20 || n == 0x85 || n == 0xA0
    || n == 0x1680 || 0x2000 <= n <= 0x200A || n == 0x2028 || n == 0x2029
    || n == 0x202F || n == 0x205F || n == 0x3000
  }

  predicate AllWhitespace(s: string) {
    forall i :: 0 <= i < |s| ==> IsWhitespace(s[i])
  }

  lemma AllWhitespaceAppend(s: string, t: string)
    requires AllWhitespace(s) && AllWhitespace(t)
    ensures AllWhitespace(s + t)
  {
    assert forall i :: 0 <= i < |s + t| ==> (s + t)[i] == if i < |s| then s[i] else t[i - |s|];
  }

  /** A string with no whitespace at either end. */
  predicate IsStripped(s: string) {
    s == [] || (!IsWhitespace(s[0]) && !IsWhitespace(s[|s| - 1]))
  }

  /** `s` is `r` with only whitespace added before and after it. */
  ghost predicate PaddedWith(s: string, r: string) {
    exists i :: 0 <= i <= |s| - |r| && s[i..i + |r|] == r
      && AllWhitespace(s[..i]) && AllWhitespace(s[i + |r|..])
  }

  /** The upper-case letters of ASCII and Latin-1 that `str.lower` changes. */
  predicate IsUpper(c: char) {
    ('A' <= c <= 'Z') || (0xC0 <= c as int <= 0xDE && c as int != 0xD7)
  }

  /** One character of `str.lower`: upper-case letters map to lower case. */
  function LowerChar(c: char): (r: char)
    ensures !IsUpper(r)
    ensures !IsUpper(c) ==> r == c
    ensures IsWhitespace(r) <==> IsWhitespace(c)
    ensures IsUpper(c) ==> r != c && r as int == c as int + 32
  {
    if IsUpper(c) then (c as int + 32) as char else c
  }

  /** `str.lower`: every character lower-cased, nothing added or removed. */
  function Lower(s: string): string {
    seq(|s|, i requires 0 <= i < |s| => LowerChar(s[i]))
  }

  /** `str.lstrip()`: drop the longest all-whitespace prefix. */
  function StripStart(s: string): (r: string)
    ensures |r| <= |s|
    ensures AllWhitespace(s[..|s| - |r|])
    ensures r == [] || !IsWhitespace(r[0])
  {
    if s != [] && IsWhitespace(s[0]) then
      var r := StripStart(s[1..]);
      assert s[..|s| - |r|] == [s[0]] + s[1..][..|s| - 1 - |r|];
      r
    else s
  }

  /** What `lstrip` leaves is a suffix of its input. */
  lemma {:induction false} StripStartSuffix(s: string)
    ensures StripStart(s) == s[|s| - |StripStart(s)|..]
  {
    if s != [] && IsWhitespace(s[0]) {
      StripStartSuffix(s[1..]);
    }
  }

  /** `str.rstrip()`: drop the longest all-whitespace suffix. */
  function StripEnd(s: string): (r: string)
    ensures |r| <= |s|
    ensures AllWhitespace(s[|r|..])
    ensures r == [] || !IsWhitespace(r[|r| - 1])
  {
    if s != [] && IsWhitespace(s[|s| - 1]) then
      var front := s[..|s| - 1];
      var r := StripEnd(front);
      assert s[|r|..] == front[|r|..] + [s[|s| - 1]];
      r
    else s
  }

  /** What `rstrip` leaves is a prefix of its input. */
  lemma {:induction false} StripEndPrefix(s: string)
    ensures StripEnd(s) == s[..|StripEnd(s)|]
  {
    if s != [] && IsWhitespace(s[|s| - 1]) {
      StripEndPrefix(s[..|s| - 1]);
    }
  }

  /**
   * `str.strip()`: drop the whitespace prefix, then the whitespace suffix of
   * what is left. The result has no whitespace at either end, and the input
   * is the result padded with whitespace.
   */
  function Strip(s: string): (r: string)
    ensures IsStripped(r)
    ensures PaddedWith(s, r)
  {
    var rest := StripStart(s);
    var r := StripEnd(rest);
    StripStartSuffix(s);
    StripEndPrefix(rest);
    var lo := |s| - |rest|;
    assert s[lo..lo + |r|] == r;
    assert s[lo + |r|..] == rest[|r|..];
    r
  }

  /**
   * The result of `strip` is determined by the padded form: whatever
   * whitespace surrounds a string with no whitespace at its ends is removed,
   * and nothing else is.
   */
  lemma StripOf(a: string, m: string, b: string)
    requires AllWhitespace(a) && AllWhitespace(b) && IsStripped(m)
    ensures Strip(a + m + b) == m
  {
    if m == [] {
      AllWhitespaceAppend(a, b);
      assert a + m + b == (a + b) + [];
      StripStartOf(a + b, []);
    } else {
      assert a + m + b == a + (m + b);
      StripStartOf(a, m + b);
      StripEndOf(m, b);
    }
  }

  /** `lstrip` removes a whitespace prefix up to the first non-whitespace character. */
  lemma {:induction false} StripStartOf(a: string, t: string)
    requires AllWhitespace(a) && (t == [] || !IsWhitespace(t[0]))
    ensures StripStart(a + t) == t
  {
    if a != [] {
      assert (a + t)[0] == a[0];
      assert (a + t)[1..] == a[1..] + t;
      StripStartOf(a[1..], t);
    } else {
      assert a + t == t;
    }
  }

  /** `rstrip` removes a whitespace suffix back to the last non-whitespace character. */
  lemma {:induction false} StripEndOf(t: string, b: string)
    requires AllWhitespace(b) && (t == [] || !IsWhitespace(t[|t| - 1]))
    ensures StripEnd(t + b) == t
  {
    if b != [] {
      var s := t + b;
      assert s[|s| - 1] == b[|b| - 1];
      assert s[..|s| - 1] == t + b[..|b| - 1];
      StripEndOf(t, b[..|b| - 1]);
    } else {
      assert t + b == t;
    }
  }

  /** Splits a padded string into its core and the whitespace around it. */
  lemma PaddingSplit(s: string, r: string) returns (a: string, b: string)
    requires PaddedWith(s, r)
    ensures s == a + r + b
    ensures AllWhitespace(a) && AllWhitespace(b)
  {
    var i :| 0 <= i <= |s| - |r| && s[i..i + |r|] == r
      && AllWhitespace(s[..i]) && AllWhitespace(s[i + |r|..]);
    a, b := s[..i], s[i + |r|..];
    SliceThree(s, i, i + |r|);
  }

  /** Slicing regrouped on its own, away from `Strip`, where the solver finds it cheaply. */
  lemma SliceThree(s: string, i: nat, j: nat)
    requires i <= j <= |s|
    ensures s == s[..i] + s[i..j] + s[j..]
  {
  }

  lemma StripSplit(s: string) returns (a: string, b: string)
    ensures s == a + Strip(s) + b
    ensures AllWhitespace(a) && AllWhitespace(b)
  {
    a, b := PaddingSplit(s, Strip(s));
  }

  /** Stripping twice is stripping once. */
  lemma StripIdempotent(s: string)
    ensures Strip(Strip(s)) == Strip(s)
  {
    var r := Strip(s);
    Regroup([], [], r, [], []);
    StripOf([], r, []);
  }

  /** Concatenation regrouped on its own, away from `Strip`, where the solver finds it cheaply. */
  lemma Regroup(w1: string, a: string, r: string, b: string, w2: string)
    ensures w1 + (a + r + b) + w2 == (w1 + a) + r + (b + w2)
  {
  }

  /** Extra whitespace around a string does not change what `strip` returns. */
  lemma StripIgnoresPadding(w1: string, s: string, w2: string)
    requires AllWhitespace(w1) && AllWhitespace(w2)
    ensures Strip(w1 + s + w2) == Strip(s)
  {
    var a, b := StripSplit(s);
    var r := Strip(s);
    AllWhitespaceAppend(w1, a);
    AllWhitespaceAppend(b, w2);
    Regroup(w1, a, r, b, w2);
    StripOf(w1 + a, r, b + w2);
  }

  /** Lower-casing is done character by character, so it distributes over `+`. */
  lemma LowerAppend(s: string, t: string)
    ensures Lower(s + t) == Lower(s) + Lower(t)
  {
    assert forall i :: 0 <= i < |s + t| ==> Lower(s + t)[i] == (Lower(s) + Lower(t))[i];
  }

  /** Lower-casing neither creates nor removes whitespace at the ends. */
  lemma LowerKeepsWhitespace(s: string)
    ensures AllWhitespace(Lower(s)) <==> AllWhitespace(s)
    ensures IsStripped(Lower(s)) <==> IsStripped(s)
  {
    if !AllWhitespace(s) {
      var i :| 0 <= i < |s| && !IsWhitespace(s[i]);
      assert !IsWhitespace(Lower(s)[i]);
    }
  }

  /** Stripping and lower-casing commute. */
  lemma {:induction false} StripLower(s: string)
    ensures Strip(Lower(s)) == Lower(Strip(s))
  {
    var a, b := StripSplit(s);
    var r := Strip(s);
    LowerAppend(a + r, b);
    LowerAppend(a, r);
    LowerKeepsWhitespace(a);
    LowerKeepsWhitespace(r);
    LowerKeepsWhitespace(b);
    StripOf(Lower(a), Lower(r), Lower(b));
  }

  /** Lower-casing twice is lower-casing once. */
  lemma LowerIdempotent(s: string)
    ensures Lower(Lower(s)) == Lower(s)
  {
    assert forall i :: 0 <= i < |s| ==> Lower(Lower(s))[i] == Lower(s)[i];
  }
}
