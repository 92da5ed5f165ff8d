/** `evalString`: the ten escape rewrites applied one after the other to the body of a string literal. */
module Escapes {
  import opened Text

  const Backslash: char := '\\'

  predicate NoBackslash(s: string) { forall i :: 0 <= i < |s| ==> s[i] != Backslash }

  /**
   * `str.replace(/\\c/g, y)`: every occurrence of a backslash followed by `c` becomes `y`,
   * the occurrences taken from left to right without overlapping.
   */
  function ReplaceEscape(s: string, c: char, y: char): (r: string)
    ensures |r| <= |s|
    ensures NoBackslash(s) ==> r == s
  {
    if |s| >= 2 && s[0] == Backslash && s[1] == c then [y] + ReplaceEscape(s[2..], c, y)
    else if s == [] then []
    else [s[0]] + ReplaceEscape(s[1..], c, y)
  }

  /** `evalString`, in the order `parseL20n` applies them: `\\`, `\n`, `\r`, `\t`, `\b`, `\f`, `\{`, `\}`, `\"`, `\'`. */
  function EvalString(s: string): (r: string)
    ensures |r| <= |s|
    ensures NoBackslash(s) ==> r == s
  {
    var s1 := ReplaceEscape(s, Backslash, Backslash);
    var s2 := ReplaceEscape(s1, 'n', '\n');
    var s3 := ReplaceEscape(s2, 'r', '\r');
    var s4 := ReplaceEscape(s3, 't', '\t');
    var s5 := ReplaceEscape(s4, 'b', 8 as char);
    var s6 := ReplaceEscape(s5, 'f', 12 as char);
    var s7 := ReplaceEscape(s6, '{', '{');
    var s8 := ReplaceEscape(s7, '}', '}');
    var s9 := ReplaceEscape(s8, '"', '"');
    ReplaceEscape(s9, '\'', '\'')
  }

  /** A rewrite changes the text exactly when the two-character pattern occurs in it, and then shortens it. */
  lemma {:induction false} ReplaceChangesIffOccurs(s: string, c: char, y: char)
    ensures ReplaceEscape(s, c, y) == s <==> forall k: nat :: !OccursAt(s, [Backslash, c], k)
    ensures ReplaceEscape(s, c, y) != s ==> |ReplaceEscape(s, c, y)| < |s|
  {
    var pat := [Backslash, c];
    if |s| >= 2 && s[0] == Backslash && s[1] == c {
      assert OccursAt(s, pat, 0);
      assert |ReplaceEscape(s, c, y)| < |s|;
    } else if s == [] {
    } else {
      ReplaceChangesIffOccurs(s[1..], c, y);
      assert !OccursAt(s, pat, 0);
      forall k: nat ensures OccursAt(s, pat, k + 1) <==> OccursAt(s[1..], pat, k) {
        OccursAfterFirst(s, pat, k);
      }
      if forall k: nat :: !OccursAt(s[1..], pat, k) {
        forall k: nat ensures !OccursAt(s, pat, k) {
          if k > 0 { assert !OccursAt(s[1..], pat, k - 1); }
        }
      } else {
        var k: nat :| OccursAt(s[1..], pat, k);
        assert OccursAt(s, pat, k + 1);
      }
    }
  }

  /** An occurrence at `k + 1` is an occurrence at `k` once the first character is dropped. */
  lemma OccursAfterFirst(s: string, pat: string, k: nat)
    requires s != []
    ensures OccursAt(s, pat, k + 1) <==> OccursAt(s[1..], pat, k)
  {
    if k + 1 + |pat| <= |s| {
      assert s[k + 1..k + 1 + |pat|] == s[1..][k..k + |pat|];
    }
  }

  /** The rewrites run one after the other, so an escaped backslash followed by `n` still turns into a line feed. */
  lemma EscapedBackslashThenN()
    ensures EvalString([Backslash, Backslash, 'n']) == "\n"
  {
    assert ReplaceEscape([Backslash, Backslash, 'n'], Backslash, Backslash) == [Backslash, 'n'] by {
      assert [Backslash, Backslash, 'n'][2..] == "n";
    }
    assert ReplaceEscape([Backslash, 'n'], 'n', '\n') == "\n" by {
      assert [Backslash, 'n'][2..] == [];
    }
  }

  /** `"a\nb"` in the resource text decodes to the three characters `a`, line feed, `b`. */
  lemma LineFeedEscape()
    ensures EvalString(['a', Backslash, 'n', 'b']) == "a\nb"
  {
    var s := ['a', Backslash, 'n', 'b'];
    assert ReplaceEscape(s, Backslash, Backslash) == s by {
      assert s[1..] == [Backslash, 'n', 'b'];
      assert s[1..][1..] == "nb";
      assert s[1..][1..][1..] == "b";
    }
    assert ReplaceEscape(s, 'n', '\n') == "a\nb" by {
      assert s[1..] == [Backslash, 'n', 'b'];
      assert s[1..][2..] == "b";
    }
  }
}
