/**
 * Character classes and small string searches on which the token matchers rest.
 * `\s` is taken as ASCII whitespace and `\w` as `[A-Za-z0-9_]`.
 */
module Text {
  import opened Outcomes

  /** `\s`: space, tab, line feed, vertical tab, form feed, carriage return. */
  predicate IsSpace(c: char) {
    c == ' ' || c == '\t' || c == '\n' || c == '\U{000B}' || c == '\U{000C}' || c == '\r'
  }

  predicate IsLetter(c: char) { ('a' <= c <= 'z') || ('A' <= c <= 'Z') }

  predicate IsDigit(c: char) { '0' <= c <= '9' }

  /** `\w` */
  predicate IsWord(c: char) { IsLetter(c) || IsDigit(c) || c == '_' }

  predicate AllSpace(s: string) { forall i :: 0 <= i < |s| ==> IsSpace(s[i]) }

  /** Length of the longest prefix of `s` that is whitespace: what a greedy `\s*` takes. */
  function SpaceLength(s: string): (n: nat)
    ensures n <= |s|
    ensures AllSpace(s[..n])
    ensures n < |s| ==> !IsSpace(s[n])
  {
    if s != [] && IsSpace(s[0]) then 1 + SpaceLength(s[1..]) else 0
  }

  /** Length of the longest prefix of `s` made of word characters: what a greedy `\w*` takes. */
  function WordLength(s: string): (n: nat)
    ensures n <= |s|
    ensures forall i :: 0 <= i < n ==> IsWord(s[i])
    ensures n < |s| ==> !IsWord(s[n])
  {
    if s != [] && IsWord(s[0]) then 1 + WordLength(s[1..]) else 0
  }

  /** Length of the longest prefix of `s` made of decimal digits. */
  function DigitLength(s: string): (n: nat)
    ensures n <= |s|
    ensures forall i :: 0 <= i < n ==> IsDigit(s[i])
    ensures n < |s| ==> !IsDigit(s[n])
  {
    if s != [] && IsDigit(s[0]) then 1 + DigitLength(s[1..]) else 0
  }

  /** `match[0]` with its leading whitespace replaced by nothing, as `next` returns it. */
  function StripSpace(s: string): (r: string)
    ensures |r| <= |s| && s == s[..|s| - |r|] + r
    ensures AllSpace(s[..|s| - |r|])
    ensures r != [] ==> !IsSpace(r[0])
  {
    s[SpaceLength(s)..]
  }

  /** `pat` occurs in `s` at position `k`. */
  predicate OccursAt(s: string, pat: string, k: nat) {
    k + |pat| <= |s| && s[k..k + |pat|] == pat
  }

  /** `s.indexOf(pat, from)` for a position `from` inside `s`: the first occurrence at or after `from`, or None for -1. */
  function IndexOf(s: string, pat: string, from: nat): (r: Option<nat>)
    requires from <= |s|
    requires pat != []
    decreases |s| - from
    ensures r.Some? ==> from <= r.value && r.value + |pat| <= |s|
  {
    if from + |pat| > |s| then None
    else if OccursAt(s, pat, from) then Some(from)
    else IndexOf(s, pat, from + 1)
  }

  /** `indexOf` finds the first occurrence at or after `from`, and -1 exactly when there is none. */
  lemma {:induction false} IndexOfFindsFirst(s: string, pat: string, from: nat)
    requires from <= |s| && pat != []
    decreases |s| - from
    ensures IndexOf(s, pat, from).Some? ==> OccursAt(s, pat, IndexOf(s, pat, from).value)
    ensures IndexOf(s, pat, from).Some? ==> forall k :: from <= k < IndexOf(s, pat, from).value ==> !OccursAt(s, pat, k)
    ensures IndexOf(s, pat, from).None? <==> forall k :: from <= k ==> !OccursAt(s, pat, k)
  {
    if from + |pat| <= |s| {
      if s[from..from + |pat|] == pat {
        assert OccursAt(s, pat, from);
      } else {
        IndexOfFindsFirst(s, pat, from + 1);
        assert !OccursAt(s, pat, from);
      }
    }
  }

  /** The value of a run of decimal digits, most significant first. */
  function DigitsValue(digits: string): (n: nat)
    requires forall i :: 0 <= i < |digits| ==> IsDigit(digits[i])
  {
    if digits == [] then 0
    else
      var last := digits[|digits| - 1];
      assert IsDigit(last);
      10 * DigitsValue(digits[..|digits| - 1]) + ((last as int) - ('0' as int))
  }

  /** Cutting the text after its first non-blank character does not change how much leading whitespace it has. */
  lemma {:induction false} SpaceLengthOfPrefix(s: string, n: nat)
    requires SpaceLength(s) < n <= |s|
    ensures SpaceLength(s[..n]) == SpaceLength(s)
  {
    if IsSpace(s[0]) {
      assert s[..n][1..] == s[1..][..n - 1];
      SpaceLengthOfPrefix(s[1..], n - 1);
    }
  }

  /** Stripping a prefix that reaches past the leading whitespace leaves the rest of that prefix. */
  lemma StripSpaceOfPrefix(s: string, n: nat)
    requires SpaceLength(s) < n <= |s|
    ensures StripSpace(s[0..n]) == s[SpaceLength(s)..n]
  {
    SpaceLengthOfPrefix(s, n);
    assert s[0..n] == s[..n];
    assert s[..n][SpaceLength(s)..] == s[SpaceLength(s)..n];
  }

  lemma SliceOfDrop(s: string, i: nat, j: nat)
    requires i <= j <= |s|
    ensures s[i..j] == s[i..][..j - i]
  {
  }

  /** Whitespace put in front of a text adds exactly its own length to the leading whitespace. */
  lemma {:induction false} SpaceLengthOfBlankPrefix(w: string, s: string)
    requires AllSpace(w)
    ensures SpaceLength(w + s) == |w| + SpaceLength(s)
  {
    if w != [] {
      assert (w + s)[1..] == w[1..] + s;
      SpaceLengthOfBlankPrefix(w[1..], s);
    } else {
      assert w + s == s;
    }
  }
}
