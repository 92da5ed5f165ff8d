/**
 * What `getString` does with `{{…}}` placeholders: the scan jumps from a `{{` to the next `}}`
 * wherever that is, skipping whatever lies between, and restarts for ever when there is none.
 */
module PlaceholderLaws {
  import opened Outcomes
  import opened Text
  import opened Tokens
  import opened Escapes
  import opened Values
  import opened StringLaws

  /** The first position at or after `i` where a `{{` placeholder opener ends. */
  function FirstBrace(t: string, i: nat): (b: Option<nat>)
    requires i <= |t|
    decreases |t| - i
    ensures b.Some? ==> i <= b.value && DoubleBraceAt(t, b.value)
    ensures b.Some? ==> NoDoubleBrace(t, i, b.value)
    ensures b.None? ==> NoDoubleBrace(t, i, |t|)
  {
    if i == |t| then None
    else if DoubleBraceAt(t, i) then Some(i)
    else FirstBrace(t, i + 1)
  }

  /**
   * The scan from `i` arrives at the `{{` that ends at `q` before it finds a closer: no closer
   * comes before the next `{{`, and either that `{{` is the one at `q`, or a `}}` follows it
   * and the scan arrives at `q` from just after that `}}`.
   */
  predicate Reaches(t: string, delim: string, i: nat, q: nat)
    requires IsQuote(delim)
    decreases q - i
  {
    i <= q <= |t| &&
    match FirstBrace(t, i)
    case None => false
    case Some(b) =>
      (forall p :: i <= p < b ==> !Closer(t, delim, p)) &&
      (b == q ||
       match IndexOf(t, "}}", b)
       case None => false
       case Some(j) => j + 1 <= q && Reaches(t, delim, j + 1, q))
  }

  /** With no `{{` ending in `[i, q)`, a `{{` ending at `q` is the first one from `i`. */
  lemma {:induction false} FirstBraceAt(t: string, i: nat, q: nat)
    requires i <= q && DoubleBraceAt(t, q) && NoDoubleBrace(t, i, q)
    ensures FirstBrace(t, i) == Some(q)
    decreases q - i
  {
    if i < q {
      assert !DoubleBraceAt(t, i);
      assert NoDoubleBrace(t, i + 1, q);
      FirstBraceAt(t, i + 1, q);
    }
  }

  /** The first `{{` from `i`, with no closer before it, is reached. */
  lemma ReachesFirstBrace(t: string, delim: string, i: nat, q: nat)
    requires IsQuote(delim) && i <= q && DoubleBraceAt(t, q)
    requires forall p :: i <= p < q ==> !Closer(t, delim, p)
    requires NoDoubleBrace(t, i, q)
    ensures Reaches(t, delim, i, q)
  {
    FirstBraceAt(t, i, q);
  }

  /** Up to the next `{{`, passing no closer, the scan arrives there out of escape mode. */
  lemma {:induction false} ScanToBrace(t: string, delim: string, len: nat, i: nat, b: nat)
    requires IsQuote(delim) && i <= b && |t| <= len && DoubleBraceAt(t, b)
    requires forall p :: i <= p < b ==> !Closer(t, delim, p)
    requires NoDoubleBrace(t, i, b)
    ensures ScanLoop(t, delim, len, i, Escaped(t, i)) == ScanLoop(t, delim, len, b, false)
    decreases b - i
  {
    if i < b {
      assert NoDoubleBrace(t, i, i + 1);
      ScanStep(t, delim, len, i);
      assert NoDoubleBrace(t, i + 1, b);
      ScanToBrace(t, delim, len, i + 1, b);
    } else {
      assert !Escaped(t, b);
    }
  }

  /** At a `{{` ending at `b` the scan jumps to the `}}` at `j` and goes on just after it, out of escape mode. */
  lemma BraceJump(t: string, delim: string, len: nat, b: nat, j: nat)
    requires IsQuote(delim) && |t| <= len && DoubleBraceAt(t, b)
    requires IndexOf(t, "}}", b) == Some(j)
    ensures ScanLoop(t, delim, len, b, false) == ScanLoop(t, delim, len, j + 1, false)
    ensures !Escaped(t, j + 1)
  {
    IndexOfFindsFirst(t, "}}", b);
    assert t[j] == t[j..j + 2][0] == '}';
  }

  /** The `{{` the scan reaches is the first one from `i`: the scan arrives there. */
  lemma ReachFirst(t: string, delim: string, len: nat, i: nat, q: nat)
    requires IsQuote(delim) && |t| <= len && Reaches(t, delim, i, q) && FirstBrace(t, i) == Some(q)
    ensures DoubleBraceAt(t, q)
    ensures ScanLoop(t, delim, len, i, Escaped(t, i)) == ScanLoop(t, delim, len, q, false)
  {
    ScanToBrace(t, delim, len, i, q);
  }

  /** The scan passes the first `{{` from `i`, at `b`, on its way to `q`: it jumps to the `}}` at `j`. */
  lemma ReachJump(t: string, delim: string, len: nat, i: nat, q: nat, b: nat, j: nat)
    requires IsQuote(delim) && |t| <= len && Reaches(t, delim, i, q) && FirstBrace(t, i) == Some(b) && b != q
    requires IndexOf(t, "}}", b) == Some(j)
    ensures ScanLoop(t, delim, len, i, Escaped(t, i)) == ScanLoop(t, delim, len, j + 1, Escaped(t, j + 1))
  {
    ScanToBrace(t, delim, len, i, b);
    BraceJump(t, delim, len, b, j);
  }

  /** A scan that reaches the `{{` at `q` is, from then on, the scan from `q`. */
  lemma {:induction false} ScanFollowsReach(t: string, delim: string, len: nat, i: nat, q: nat)
    requires IsQuote(delim) && |t| <= len && Reaches(t, delim, i, q)
    ensures DoubleBraceAt(t, q)
    ensures ScanLoop(t, delim, len, i, Escaped(t, i)) == ScanLoop(t, delim, len, q, false)
    decreases q - i
  {
    var b := FirstBrace(t, i).value;
    if b == q {
      ReachFirst(t, delim, len, i, q);
    } else {
      var j := IndexOf(t, "}}", b).value;
      ReachJump(t, delim, len, i, q, b, j);
      ScanFollowsReach(t, delim, len, j + 1, q);
    }
  }

  /**
   * The scan reaches a `{{` ending at `q`, however many closed `{{…}}` it jumped over on the
   * way, and a `}}` begins at `j`: the scan goes on just after it, the text in between skipped
   * whatever it holds.
   */
  lemma ScanSkipsPlaceholder(t: string, delim: string, len: nat, i: nat, q: nat, j: nat)
    requires IsQuote(delim) && |t| <= len && Reaches(t, delim, i, q)
    requires IndexOf(t, "}}", q) == Some(j)
    ensures ScanLoop(t, delim, len, i, Escaped(t, i)) == ScanLoop(t, delim, len, j + 1, false)
    ensures !Escaped(t, j + 1)
  {
    ScanFollowsReach(t, delim, len, i, q);
    BraceJump(t, delim, len, q, j);
  }

  /**
   * The scan reaches a `{{` ending at `q`, however many closed `{{…}}` it jumped over on the
   * way, and no `}}` occurs from `q` on: `getString` restarts its scan for ever.
   */
  lemma ScanReachesPlaceholder(t: string, delim: string, len: nat, i: nat, q: nat)
    requires IsQuote(delim) && |t| <= len && Reaches(t, delim, i, q)
    requires forall k :: q <= k ==> !OccursAt(t, "}}", k)
    ensures ScanLoop(t, delim, len, i, Escaped(t, i)) == Loops
  {
    ScanFollowsReach(t, delim, len, i, q);
    IndexOfFindsFirst(t, "}}", q);
  }

  /**
   * `getString` reaches a `{{` ending at `q` of the text after the delimiter, however many
   * closed `{{…}}` it jumped over on the way, and no `}}` occurs from `q` on: `getString`
   * never terminates.
   */
  lemma UnclosedPlaceholder(s: string, d: string, t: string, q: nat)
    requires Next(StringDelim, s) == Some(Parsed(d, t))
    requires IsQuote(d) ==> Reaches(t, d, 0, q)
    requires forall k :: q <= k ==> !OccursAt(t, "}}", k)
    ensures GetString(s) == Err(NeverTerminates)
  {
    StringDelimToken(s);
    GetStringAfterDelim(s, d, t);
    var start: nat := 0;
    assert !Escaped(t, start);
    ScanReachesPlaceholder(t, d, |s|, start, q);
    var end := ScanLoop(t, d, |s|, start, false);
    assert StringBody(t, d, |s|) == ScanResult(t, d, end);
  }

  /**
   * `getString` reaches a `{{` ending at `q` of the text after the delimiter, jumps to the
   * `}}` at `j`, and no `{{` ends between there and the first closer after it: the decoded
   * text up to that closer, placeholders and any delimiter inside them included; `''` and the
   * cursor unmoved when nothing closes the string after the jump.
   */
  lemma GetStringJumpsPlaceholder(s: string, d: string, t: string, q: nat, j: nat)
    requires Next(StringDelim, s) == Some(Parsed(d, t))
    requires q < |t| && IndexOf(t, "}}", q) == Some(j)
    requires IsQuote(d) ==> Reaches(t, d, 0, q) && NoDoubleBrace(t, j + 1, ScanBound(t, d, j + 1))
    ensures IsQuote(d)
    ensures GetString(s) == ReadToCloser(t, d, j + 1)
  {
    StringDelimToken(s);
    GetStringAfterDelim(s, d, t);
    StringBodyJumpsPlaceholder(t, d, |s|, q, j);
  }

  /** The part after the delimiter, when the scan jumps to the `}}` at `j` and then meets no `{{` up to the first closer. */
  lemma {:induction false} StringBodyJumpsPlaceholder(t: string, d: string, len: nat, q: nat, j: nat)
    requires IsQuote(d) && |t| <= len && Reaches(t, d, 0, q) && IndexOf(t, "}}", q) == Some(j)
    requires NoDoubleBrace(t, j + 1, ScanBound(t, d, j + 1))
    ensures StringBody(t, d, len) == ReadToCloser(t, d, j + 1)
  {
    assert ScanLoop(t, d, len, 0, false) == ScanLoop(t, d, len, j + 1, false) && !Escaped(t, j + 1) by {
      var start: nat := 0;
      assert !Escaped(t, start);
      ScanSkipsPlaceholder(t, d, len, start, q, j);
    }
    ResumeAtFirstCloser(t, d, len, j + 1);
  }

  /** Text that may sit between `{{` and `}}` in the examples below: no `}` and no backslash. */
  predicate Hidden(b: string) {
    forall i :: 0 <= i < |b| ==> b[i] != '}' && b[i] != '\\'
  }

  /**
   * `t` is `a{{b}}c"rest`: the `{{` ends at `q`, the `}}` begins at `j` and the quote after
   * `c` is at `p`.
   */
  predicate Layout(a: string, b: string, c: string, rest: string, t: string, q: nat, j: nat, p: nat) {
    t == a + "{{" + b + "}}" + c + "\"" + rest && q == |a| + 1 && j == q + |b| + 1 && p == j + |c| + 2
  }

  /** `"a{{b}}c"…` with `a` plain opens with a single double quote. */
  lemma OpeningOfPlaceholder(a: string, b: string, c: string, rest: string, t: string, q: nat, j: nat, p: nat)
    requires PlainText(a) && Layout(a, b, c, rest, t, q, j, p)
    ensures Next(StringDelim, "\"" + t) == Some(Parsed("\"", t))
  {
    var s := "\"" + t;
    assert !("\"\"\"" <= s) by {
      if a != [] {
        assert s[1] == t[0] == a[0];
      } else {
        assert s[1] == t[0] == '{';
      }
    }
    QuoteLength(s);
    OpeningQuote(s);
    assert s[1..] == t;
  }

  /** In `a{{b}}c"…`, the scan from the start reaches the `{{` right after `a`. */
  lemma ReachesAfterPlain(a: string, b: string, c: string, rest: string, t: string, q: nat, j: nat, p: nat)
    requires PlainText(a) && Layout(a, b, c, rest, t, q, j, p)
    ensures q < |t| && Reaches(t, "\"", 0, q)
  {
    assert DoubleBraceAt(t, q);
    forall k | 0 <= k < q
      ensures !Closer(t, "\"", k)
    {
      if k < |a| {
        assert t[k] == a[k];
      }
    }
    forall k | 0 <= k < q
      ensures !DoubleBraceAt(t, k)
    {
      if 0 < k {
        assert t[k - 1] == a[k - 1];
      }
    }
    ReachesFirstBrace(t, "\"", 0, q);
  }

  /** `indexOf` finds `pat` at `j` when it occurs there and nowhere in `[from, j)`. */
  lemma IndexOfIs(s: string, pat: string, from: nat, j: nat)
    requires from <= j && pat != [] && OccursAt(s, pat, j)
    requires forall k :: from <= k < j ==> !OccursAt(s, pat, k)
    ensures IndexOf(s, pat, from) == Some(j)
  {
    IndexOfFindsFirst(s, pat, from);
  }

  /** In `a{{b}}c"…`, the `}}` after the `{{` is the one right after `b`. */
  lemma ClosingBraces(a: string, b: string, c: string, rest: string, t: string, q: nat, j: nat, p: nat)
    requires Hidden(b) && Layout(a, b, c, rest, t, q, j, p)
    ensures IndexOf(t, "}}", q) == Some(j)
  {
    assert OccursAt(t, "}}", j) by {
      assert t[j] == '}' && t[j + 1] == '}';
      assert t[j..j + 2] == [t[j], t[j + 1]];
    }
    forall k | q <= k < j
      ensures !OccursAt(t, "}}", k)
    {
      assert t[k] != '}' by {
        if k > q {
          assert t[k] == b[k - q - 1];
        }
      }
      assert t[k..k + 2][0] == t[k];
    }
    IndexOfIs(t, "}}", q, j);
  }

  /** In `a{{b}}c"…`, past the `}}` the first closer is the quote after `c`, with no `{{` up to it. */
  lemma QuoteAfterBraces(a: string, b: string, c: string, rest: string, t: string, q: nat, j: nat, p: nat)
    requires PlainText(c) && Layout(a, b, c, rest, t, q, j, p)
    ensures j + 1 <= |t| && FirstCloser(t, "\"", j + 1) == Some(p) && NoDoubleBrace(t, j + 1, p + 1)
  {
    var from := j + 1;
    assert t[p] == '"';
    assert !Escaped(t, p) by {
      if c == [] {
        assert t[p - 1] == '}';
      } else {
        assert t[p - 1] == c[|c| - 1];
      }
    }
    assert Closer(t, "\"", p);
    forall k | from <= k < p
      ensures !Closer(t, "\"", k) && !DoubleBraceAt(t, k)
    {
      if k > from {
        assert t[k] == c[k - from - 1];
      }
    }
    assert !DoubleBraceAt(t, p);
    var f := FirstCloser(t, "\"", from);
    assert f == Some(p);
  }

  /** A backslash-free text before the first closing quote from `from` reads back as itself. */
  lemma ReadUpToQuote(v: string, rest: string, from: nat)
    requires NoBackslash(v) && from <= |v| && FirstCloser(v + "\"" + rest, "\"", from) == Some(|v|)
    ensures ReadToCloser(v + "\"" + rest, "\"", from) == Ok(Parsed(v, rest))
  {
    var t := v + "\"" + rest;
    assert t[..|v|] == v && t[|v| + 1..] == rest;
  }

  /** `a{{b}}c` holds no backslash. */
  lemma PlaceholderNoBackslash(a: string, b: string, c: string)
    requires PlainText(a) && Hidden(b) && PlainText(c)
    ensures NoBackslash(a + "{{" + b + "}}" + c)
  {
    var v := a + "{{" + b + "}}" + c;
    forall i | 0 <= i < |v|
      ensures v[i] != Backslash
    {
      if i < |a| {
        assert v[i] == a[i];
      } else if |a| + 2 <= i < |a| + 2 + |b| {
        assert v[i] == b[i - |a| - 2];
      } else if |a| + |b| + 4 <= i {
        assert v[i] == c[i - |a| - |b| - 4];
      }
    }
  }

  /** In `a{{b}}c"rest`, what follows the jump past the `}}` reads as `a{{b}}c`, `rest` left. */
  lemma ReadPastBraces(a: string, b: string, c: string, rest: string, t: string, q: nat, j: nat, p: nat)
    requires PlainText(a) && Hidden(b) && PlainText(c) && Layout(a, b, c, rest, t, q, j, p)
    ensures j + 1 <= |t| && ReadToCloser(t, "\"", j + 1) == Ok(Parsed(a + "{{" + b + "}}" + c, rest))
  {
    var v := a + "{{" + b + "}}" + c;
    assert t == v + "\"" + rest;
    QuoteAfterBraces(a, b, c, rest, t, q, j, p);
    assert p == |v|;
    PlaceholderNoBackslash(a, b, c);
    ReadUpToQuote(v, rest, j + 1);
  }

  /**
   * `"a{{b}}c"` reads as `a{{b}}c`: the scan jumps from the `{{` to the `}}`, over anything but
   * a `}` (a quote included, so `"{{"}}"` reads as `{{"}}`), and stops at the next quote.
   */
  lemma GetStringOfPlaceholder(a: string, b: string, c: string, rest: string)
    requires PlainText(a) && Hidden(b) && PlainText(c)
    ensures GetString("\"" + (a + "{{" + b + "}}" + c + "\"" + rest)) == Ok(Parsed(a + "{{" + b + "}}" + c, rest))
  {
    var t := a + "{{" + b + "}}" + c + "\"" + rest;
    var q := |a| + 1;
    var j := q + |b| + 1;
    var p := j + |c| + 2;
    assert Layout(a, b, c, rest, t, q, j, p);
    OpeningOfPlaceholder(a, b, c, rest, t, q, j, p);
    ReachesAfterPlain(a, b, c, rest, t, q, j, p);
    ClosingBraces(a, b, c, rest, t, q, j, p);
    QuoteAfterBraces(a, b, c, rest, t, q, j, p);
    ReadPastBraces(a, b, c, rest, t, q, j, p);
    ReadOfJump("\"" + t, t, q, j, p, Ok(Parsed(a + "{{" + b + "}}" + c, rest)));
  }

  /** `getString` of a placeholder string put together from the scan's stages. */
  lemma ReadOfJump(s: string, t: string, q: nat, j: nat, p: nat, r: Result<Parsed<string>>)
    requires Next(StringDelim, s) == Some(Parsed("\"", t)) && q < |t| && IndexOf(t, "}}", q) == Some(j)
    requires Reaches(t, "\"", 0, q) && j + 1 <= |t| && FirstCloser(t, "\"", j + 1) == Some(p) && NoDoubleBrace(t, j + 1, p + 1)
    requires ReadToCloser(t, "\"", j + 1) == r
    ensures GetString(s) == r
  {
    assert ScanBound(t, "\"", j + 1) == p + 1;
    GetStringJumpsPlaceholder(s, "\"", t, q, j);
  }
}
