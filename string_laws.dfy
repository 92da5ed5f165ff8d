/**
 * What `getString` reads, stated against an independent description: the first
 * closing delimiter that is not escaped by a backslash.
 */
module StringLaws {
  import opened Outcomes
  import opened Text
  import opened Tokens
  import opened TokenFacts
  import opened Escapes
  import opened Values

  /** Position `i` of `t` follows a backslash that is not itself escaped. */
  predicate Escaped(t: string, i: nat)
    decreases i
  {
    0 < i <= |t| && t[i - 1] == '\\' && !Escaped(t, i - 1)
  }

  /** A closing delimiter ends at `i` and the character at `i` is not escaped. */
  predicate Closer(t: string, delim: string, i: nat)
    requires IsQuote(delim)
  {
    !Escaped(t, i) && CheckDelim(t, delim, i)
  }

  /** The first position at or after `i` where a closer ends. */
  function FirstCloser(t: string, delim: string, i: nat): (p: Option<nat>)
    requires IsQuote(delim) && i <= |t|
    decreases |t| - i
    ensures p.Some? ==> i <= p.value < |t| && Closer(t, delim, p.value)
    ensures p.Some? ==> forall q :: i <= q < p.value ==> !Closer(t, delim, q)
    ensures p.None? ==> forall q :: i <= q < |t| ==> !Closer(t, delim, q)
  {
    if i == |t| then None
    else if Closer(t, delim, i) then Some(i)
    else FirstCloser(t, delim, i + 1)
  }

  /** Where the scan from `i` stops when no `{{` intervenes: just past the first closer, or at the end of the text. */
  function ScanBound(t: string, delim: string, i: nat): (b: nat)
    requires IsQuote(delim) && i <= |t|
    ensures i <= b <= |t| && (i < |t| ==> i < b)
  {
    match FirstCloser(t, delim, i)
    case None => |t|
    case Some(p) => p + 1
  }

  /** A `{{` placeholder opener ends at `k`. */
  predicate DoubleBraceAt(t: string, k: nat) {
    0 < k < |t| && t[k - 1] == '{' && t[k] == '{'
  }

  /** No `{{` placeholder opener ends at a position in `[i, n)`. */
  predicate NoDoubleBrace(t: string, i: nat, n: nat) {
    forall k :: i <= k < n ==> !DoubleBraceAt(t, k)
  }

  /** The character right after an unescaped backslash never closes the string. */
  lemma EscapedNeverCloses(t: string, delim: string, i: nat)
    requires IsQuote(delim) && i < |t| && t[i] == '\\' && !Escaped(t, i)
    ensures !Closer(t, delim, i + 1)
  {
  }

  /** Past the end of the text the scan runs out without a closer. */
  lemma {:induction false} ScanPastEnd(t: string, delim: string, len: nat, i: nat, esc: bool)
    requires IsQuote(delim) && |t| <= i
    ensures ScanLoop(t, delim, len, i, esc) == Unclosed
    decreases len - i
  {
    if i < len {
      ScanPastEnd(t, delim, len, i + 1, false);
    }
  }

  /** One step of the scan where no `{{` ends at `i`: stop past a closer at `i`, or go on at `i + 1`. */
  lemma ScanStep(t: string, delim: string, len: nat, i: nat)
    requires IsQuote(delim) && i < |t| <= len && NoDoubleBrace(t, i, i + 1)
    ensures ScanLoop(t, delim, len, i, Escaped(t, i)) ==
      if Closer(t, delim, i) then Closed(i + 1) else ScanLoop(t, delim, len, i + 1, Escaped(t, i + 1))
  {
    if Escaped(t, i) {
      assert !Escaped(t, i + 1);
    } else {
      assert Escaped(t, i + 1) == (t[i] == '\\');
      assert !DoubleBraceAt(t, i);
    }
  }

  /**
   * When no `{{` ends before the scan from `i` stops, it stops just past the first closer,
   * or runs out when there is none. A `{{` later in the text does not matter.
   */
  lemma {:induction false} ScanFindsFirstCloser(t: string, delim: string, len: nat, i: nat)
    requires IsQuote(delim) && i <= |t| <= len && NoDoubleBrace(t, i, ScanBound(t, delim, i))
    ensures ScanLoop(t, delim, len, i, Escaped(t, i)) ==
      match FirstCloser(t, delim, i)
      case None => Unclosed
      case Some(p) => Closed(p + 1)
    decreases |t| - i
  {
    if i == |t| {
      ScanPastEnd(t, delim, len, i, Escaped(t, i));
    } else {
      var b := ScanBound(t, delim, i);
      assert NoDoubleBrace(t, i, i + 1);
      ScanStep(t, delim, len, i);
      if Closer(t, delim, i) {
        assert FirstCloser(t, delim, i) == Some(i);
      } else {
        var next := FirstCloser(t, delim, i + 1);
        assert FirstCloser(t, delim, i) == next;
        assert ScanBound(t, delim, i + 1) == b;
        assert NoDoubleBrace(t, i + 1, b);
        ScanFindsFirstCloser(t, delim, len, i + 1);
      }
    }
  }

  /** `getString` once the opening delimiter `d` has been read and `t` is left. */
  lemma GetStringAfterDelim(s: string, d: string, t: string)
    requires Next(StringDelim, s) == Some(Parsed(d, t)) && IsQuote(d)
    ensures GetString(s) == StringBody(t, d, |s|)
  {
  }

  /**
   * What `getString` returns when the scan, from `a` on, stops at the first closer after `a`:
   * the decoded text before that closer and the cursor just past it, or `''` and the cursor
   * unmoved when nothing closes the string.
   */
  function ReadToCloser(t: string, d: string, a: nat): (r: Result<Parsed<string>>)
    requires IsQuote(d) && a <= |t|
    ensures r.Ok? && |r.value.rest| <= |t|
  {
    match FirstCloser(t, d, a)
    case None => Ok(Parsed("", t))
    case Some(p) => Ok(Parsed(EvalString(t[..p + 1 - |d|]), t[p + 1..]))
  }

  /**
   * The scan from the start goes on as the scan from `a`, out of escape mode, and no `{{`
   * ends from `a` up to the first closer: the part after the delimiter ends at that closer.
   */
  lemma ResumeAtFirstCloser(t: string, d: string, len: nat, a: nat)
    requires IsQuote(d) && a <= |t| <= len && !Escaped(t, a) && NoDoubleBrace(t, a, ScanBound(t, d, a))
    requires ScanLoop(t, d, len, 0, false) == ScanLoop(t, d, len, a, false)
    ensures StringBody(t, d, len) == ReadToCloser(t, d, a)
  {
    ScanFindsFirstCloser(t, d, len, a);
    var end := ScanLoop(t, d, len, a, false);
    assert StringBody(t, d, len) == ScanResult(t, d, end);
    CloserResult(t, d, a, end);
  }

  /** A scan that ends as the first closer from `a` says gives the result ReadToCloser describes. */
  lemma CloserResult(t: string, d: string, a: nat, end: ScanEnd)
    requires IsQuote(d) && a <= |t|
    requires end == match FirstCloser(t, d, a) case None => Unclosed case Some(p) => Closed(p + 1)
    ensures end.Closed? ==> |d| <= end.end <= |t|
    ensures ScanResult(t, d, end) == ReadToCloser(t, d, a)
  {
  }

  /** Without `{{` up to the first closer, the part after the delimiter ends at that closer. */
  lemma StringBodyFirstCloser(t: string, d: string, len: nat)
    requires IsQuote(d) && |t| <= len && NoDoubleBrace(t, 0, ScanBound(t, d, 0))
    ensures StringBody(t, d, len) == ReadToCloser(t, d, 0)
  {
    var start: nat := 0;
    assert !Escaped(t, start);
    ResumeAtFirstCloser(t, d, len, start);
  }

  /**
   * When no `{{` comes before the first unescaped closer, `getString` returns the decoded
   * text up to that closer and leaves the cursor just past it; when nothing closes the
   * string it returns `''` and leaves the cursor just after the opening delimiter.
   */
  lemma GetStringReadsToFirstCloser(s: string, d: string, t: string)
    requires Next(StringDelim, s) == Some(Parsed(d, t))
    requires IsQuote(d) ==> NoDoubleBrace(t, 0, ScanBound(t, d, 0))
    ensures IsQuote(d)
    ensures GetString(s) == ReadToCloser(t, d, 0)
  {
    StringDelimToken(s);
    GetStringAfterDelim(s, d, t);
    StringBodyFirstCloser(t, d, |s|);
  }

  /** A double quote at the start that does not begin a triple one. */
  lemma OpeningQuote(s: string)
    requires s != [] && s[0] == '"' && TokenLength(StringDelim, s) == 1
    ensures Next(StringDelim, s) == Some(Parsed("\"", s[1..]))
  {
    NextAtStart(StringDelim, s, 1);
    assert s[..1] == "\"";
  }

  lemma QuoteLength(s: string)
    requires s != [] && s[0] == '"' && !("\"\"\"" <= s)
    ensures TokenLength(StringDelim, s) == 1
  {
    assert !("'''" <= s) by {
      if |s| >= 3 && "'''" == s[..3] {
        assert s[..3][0] == '\'';
      }
    }
  }

  /** `"{{` with no `}}` anywhere after it: `getString` never terminates. */
  lemma LeadingPlaceholderLoops(u: string)
    requires forall k :: !OccursAt("{{" + u, "}}", k)
    ensures GetString("\"{{" + u) == Err(NeverTerminates)
  {
    var s := "\"{{" + u;
    var t := "{{" + u;
    assert s[1] == '{';
    assert s[1..] == t;
    QuoteLength(s);
    OpeningQuote(s);
    GetStringAfterDelim(s, "\"", t);
    PlaceholderLoops(t, |s|);
  }

  lemma PlaceholderLoops(t: string, len: nat)
    requires |t| < len && |t| >= 2 && t[0] == '{' && t[1] == '{'
    requires forall k :: !OccursAt(t, "}}", k)
    ensures StringBody(t, "\"", len) == Err(NeverTerminates)
  {
    IndexOfFindsFirst(t, "}}", 1);
    assert IndexOf(t, "}}", 1).None?;
    assert ScanLoop(t, "\"", len, 1, false) == Loops;
  }

  /** A string body that is read back as it is: no closing quote, backslash or brace. */
  predicate PlainText(b: string) {
    forall i :: 0 <= i < |b| ==> b[i] != '"' && b[i] != '\\' && b[i] != '{'
  }

  /** The scan over a plain body followed by `"` stops just past that quote. */
  lemma {:induction false} ScanPlain(b: string, rest: string, len: nat, i: nat)
    requires PlainText(b) && i <= |b| && |b| + 1 + |rest| <= len
    ensures ScanLoop(b + "\"" + rest, "\"", len, i, false) == Closed(|b| + 1)
    decreases |b| - i
  {
    var t := b + "\"" + rest;
    if i < |b| {
      assert t[i] == b[i];
      ScanPlain(b, rest, len, i + 1);
    } else {
      assert t[i] == '"';
    }
  }

  /** After the opening quote, a plain body and its closing quote read as the body. */
  lemma PlainBody(b: string, rest: string, len: nat)
    requires PlainText(b) && |b| + 1 + |rest| <= len
    ensures StringBody(b + "\"" + rest, "\"", len) == Ok(Parsed(b, rest))
  {
    var t := b + "\"" + rest;
    ScanPlain(b, rest, len, 0);
    assert t[..|b|] == b && t[|b| + 1..] == rest;
    assert NoBackslash(b);
  }

  /** `"b"` with a plain body reads as `b`, the cursor just past the closing quote. */
  lemma GetStringOfPlain(b: string, rest: string)
    requires PlainText(b)
    requires b == [] ==> rest == [] || rest[0] != '"'
    ensures GetString("\"" + b + "\"" + rest) == Ok(Parsed(b, rest))
  {
    var s := "\"" + b + "\"" + rest;
    var t := b + "\"" + rest;
    assert s == "\"" + t;
    assert !("\"\"\"" <= s) by {
      if b != [] {
        assert s[1] == b[0];
      } else if |s| >= 3 {
        assert s[2] == rest[0];
      }
    }
    QuoteLength(s);
    OpeningQuote(s);
    assert s[1..] == t;
    GetStringAfterDelim(s, "\"", t);
    PlainBody(b, rest, |s|);
  }
}
