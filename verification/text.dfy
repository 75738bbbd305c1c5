/**
 * The string primitives the chat widget relies on, with JavaScript's meaning:
 * `String.prototype.trim`, `toLowerCase` (restricted to ASCII) and `includes`.
 */
module Text {

  /** The code points `trim` strips: ECMAScript WhiteSpace and LineTerminator
      (TAB, LF, VT, FF, CR, the space separators of category Zs, LS, PS and the BOM). */
  predicate IsWhitespace(c: char) {
    || c == '\U{0009}' || c == '\U{000A}' || c == '\U{000B}' || c == '\U{000C}' || c == '\U{000D}'
    || c == ' ' || c == '\U{00A0}' || c == '\U{1680}'
    || ('\U{2000}' <= c <= '\U{200A}')
    || c == '\U{2028}' || c == '\U{2029}' || c == '\U{202F}' || c == '\U{205F}'
    || c == '\U{3000}' || c == '\U{FEFF}'
  }

  predicate AllWhitespace(s: string) {
    forall i :: 0 <= i < |s| ==> IsWhitespace(s[i])
  }

  /** Neither end of `s` is whitespace (vacuously so for the empty string). */
  predicate Trimmed(s: string) {
    s == [] || (!IsWhitespace(s[0]) && !IsWhitespace(s[|s| - 1]))
  }

  /** `r` is what remains of `s` after removing the whitespace in front of position `i`
      and the whitespace after position `i + |r|`. */
  ghost predicate StripsAt(s: string, r: string, i: int) {
    && 0 <= i <= |s| - |r|
    && (forall k :: 0 <= k < |r| ==> s[i + k] == r[k])
    && (forall k :: 0 <= k < i ==> IsWhitespace(s[k]))
    && (forall k :: i + |r| <= k < |s| ==> IsWhitespace(s[k]))
  }

  /** The first position at or after `i` that does not hold whitespace, or `|s|`. */
  function SkipForward(s: string, i: nat): (j: nat)
    requires i <= |s|
    ensures i <= j <= |s|
    ensures forall k :: i <= k < j ==> IsWhitespace(s[k])
    ensures j < |s| ==> !IsWhitespace(s[j])
    decreases |s| - i
  {
    if i == |s| || !IsWhitespace(s[i]) then i else SkipForward(s, i + 1)
  }

  /** The end of `s[lo..j]` once trailing whitespace is dropped: the least `m` with
      only whitespace in `s[m..j]`, which does not go below `lo`. */
  function SkipBackward(s: string, lo: nat, j: nat): (m: nat)
    requires lo <= j <= |s|
    ensures lo <= m <= j
    ensures forall k :: m <= k < j ==> IsWhitespace(s[k])
    ensures m > lo ==> !IsWhitespace(s[m - 1])
    decreases j
  {
    if j == lo || !IsWhitespace(s[j - 1]) then j else SkipBackward(s, lo, j - 1)
  }

  /** The number of whitespace characters `trim` removes from the front of `s`. */
  function LeadingWhitespace(s: string): (n: nat)
    ensures n <= |s|
    ensures forall k :: 0 <= k < n ==> IsWhitespace(s[k])
    ensures n < |s| ==> !IsWhitespace(s[n])
  {
    SkipForward(s, 0)
  }

  /** JavaScript's `s.trim()`: whitespace removed from both ends, nothing else touched. */
  function Trim(s: string): (r: string)
    ensures Trimmed(r)
    ensures StripsAt(s, r, LeadingWhitespace(s))
  {
    var lo := LeadingWhitespace(s);
    s[lo..SkipBackward(s, lo, |s|)]
  }

  /** Trimming yields the empty string exactly when the input is all whitespace. */
  lemma TrimEmptyIff(s: string)
    ensures Trim(s) == [] <==> AllWhitespace(s)
  {
  }

  /** A string that is already trimmed is left unchanged, so trimming is idempotent. */
  lemma TrimOfTrimmed(s: string)
    requires Trimmed(s)
    ensures Trim(s) == s
  {
    if s != [] {
      assert LeadingWhitespace(s) == 0;
      assert s[0..|s|] == s;
    }
  }

  /** A non-empty trimmed strip of `s` at `i` starts at the first non-whitespace
      character of `s`. */
  lemma StripStart(s: string, r: string, i: int)
    requires StripsAt(s, r, i) && Trimmed(r) && r != []
    ensures i == LeadingWhitespace(s)
  {
    assert !IsWhitespace(s[i + 0]);
  }

  /** A non-empty trimmed strip of `s` at `i` ends at the last non-whitespace character of `s`. */
  lemma StripEnd(s: string, r: string, i: int, t: string)
    requires StripsAt(s, r, i) && Trimmed(r) && r != []
    requires StripsAt(s, t, i) && Trimmed(t) && t != []
    ensures |r| == |t|
  {
    assert !IsWhitespace(s[i + (|r| - 1)]);
    assert !IsWhitespace(s[i + (|t| - 1)]);
  }

  /** `Trim` is the only way to strip whitespace from both ends and end up trimmed:
      any trimmed `r` obtained from `s` by removing surrounding whitespace is `Trim(s)`. */
  lemma TrimUnique(s: string, r: string, i: int)
    requires StripsAt(s, r, i) && Trimmed(r)
    ensures r == Trim(s)
  {
    var t := Trim(s);
    if r == [] {
      assert AllWhitespace(s) by {
        forall k | 0 <= k < |s| ensures IsWhitespace(s[k]) {
          if k >= i {
            assert i + |r| <= k;
          }
        }
      }
      TrimEmptyIff(s);
    } else {
      StripStart(s, r, i);
      assert t != [] by {
        assert !IsWhitespace(s[i + 0]);
      }
      StripEnd(s, r, i, t);
      assert forall k :: 0 <= k < |r| ==> r[k] == t[k];
    }
  }

  /** ASCII lower-casing of one character. */
  function LowerChar(c: char): char {
    if 'A' <= c <= 'Z' then (c as int + 32) as char else c
  }

  /** `s.toLowerCase()` restricted to ASCII letters: same length, each character lowered in place. */
  function ToLower(s: string): (r: string)
    ensures |r| == |s|
    ensures forall i :: 0 <= i < |s| ==> r[i] == LowerChar(s[i])
  {
    seq(|s|, i requires 0 <= i < |s| => LowerChar(s[i]))
  }

  /** Lower-casing twice is lower-casing once. */
  lemma ToLowerIdempotent(s: string)
    ensures ToLower(ToLower(s)) == ToLower(s)
  {
  }

  /** `k` occurs in `s` starting at position `i`. */
  ghost predicate OccursAt(k: string, s: string, i: int) {
    0 <= i <= |s| - |k| && s[i..i + |k|] == k
  }

  ghost predicate Occurs(k: string, s: string) {
    exists i :: OccursAt(k, s, i)
  }

  /** Whether `k` occurs in `s` at some position `i` or later. */
  function IncludesFrom(s: string, k: string, i: nat): (b: bool)
    ensures b <==> exists j :: i <= j && OccursAt(k, s, j)
    decreases |s| - i
  {
    if i + |k| > |s| then false
    else if s[i..i + |k|] == k then assert OccursAt(k, s, i); true
    else IncludesFrom(s, k, i + 1)
  }

  /** JavaScript's `s.includes(k)`: `k` is a substring of `s` (the empty string is in every string). */
  function Includes(s: string, k: string): (b: bool)
    ensures b <==> Occurs(k, s)
  {
    IncludesFrom(s, k, 0)
  }

  predicate StartsWith(s: string, prefix: string) {
    |prefix| <= |s| && s[..|prefix|] == prefix
  }

  predicate EndsWith(s: string, suffix: string) {
    |suffix| <= |s| && s[|s| - |suffix|..] == suffix
  }
}
